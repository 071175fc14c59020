/**
  Chain-to-view conversion (`getChainObject` in lib/main.js): a chain of
  (entity, relationship, entity) triples becomes the object the sidebar
  template renders: the names along the chain with arrow flags, the start and
  end names, and one labelled, linked relationship per triple.
*/
module Chains {
  import opened Wrappers

  /** An entity as it appears inside a chain triple. */
  datatype Node = Node(id: int, name: string)

  /**
    The relationship of a triple. `isCurrent` and `endDate` are `None` when the
    JSON key is missing or null; the source compares them with `===`/`!==`.
  */
  datatype Relationship = Relationship(
    entity1Id: int,
    categoryId: int,
    description1: string,
    description2: string,
    isCurrent: Option<string>,
    endDate: Option<string>,
    uri: string)

  /** `chain[i]`: positions 0, 1 and 2 of the JSON triple. */
  datatype Triple = Triple(head: Node, rel: Relationship, tail: Node)

  type Chain = seq<Triple>

  /** An entry of `names`: a name and whether an arrow follows it. */
  datatype NameEntry = NameEntry(n: string, arrow: bool)

  /** An entry of `relationships`; `text` is `None` when the category code has no mapping. */
  datatype RelationshipView = RelationshipView(ent1: string, ent2: string, text: Option<string>, link: string)

  datatype ChainView = ChainView(
    names: seq<NameEntry>,
    startName: string,
    endName: string,
    relationships: seq<RelationshipView>)

  /** The fixed table `categoryMapping`; codes outside 1..10 have no entry. */
  function CategoryName(code: int): (r: Option<string>)
    ensures r.Some? <==> 1 <= code <= 10
  {
    if code == 1 then Some("Position")
    else if code == 2 then Some("Education")
    else if code == 3 then Some("Membership")
    else if code == 4 then Some("Family")
    else if code == 5 then Some("Donation")
    else if code == 6 then Some("Transaction")
    else if code == 7 then Some("Lobbying")
    else if code == 8 then Some("Social")
    else if code == 9 then Some("Professional")
    else if code == 10 then Some("Ownership")
    else None
  }

  /** What the relationship says about time. */
  datatype Temporal = Current | Past | PastOrCurrent

  function TemporalOf(rel: Relationship): Temporal {
    if rel.isCurrent == Some("1") then Current
    else if rel.isCurrent == Some("0") || rel.endDate != Some("") then Past
    else PastOrCurrent
  }

  function TemporalSuffix(t: Temporal): string {
    match t
    case Current => " - current"
    case Past => " - past"
    case PastOrCurrent => " - past or current"
  }

  /** The description shown: `description1` unless it is empty. */
  function Description(rel: Relationship): string {
    if rel.description1 != "" then rel.description1 else rel.description2
  }

  /** The parenthesised description, or nothing when there is none. */
  function DescriptionPart(rel: Relationship): string {
    var d := Description(rel);
    if d == "" then "" else " (" + d + ")"
  }

  /** The relationship label: category, description and temporal suffix. */
  function Label(rel: Relationship): Option<string> {
    match CategoryName(rel.categoryId)
    case None => None
    case Some(category) => Some(category + DescriptionPart(rel) + TemporalSuffix(TemporalOf(rel)))
  }

  /** The view of one triple, its two names ordered by the relationship's `entity1_id`. */
  function ViewOf(t: Triple): RelationshipView {
    var (first, second) := if t.rel.entity1Id == t.head.id then (t.head, t.tail) else (t.tail, t.head);
    RelationshipView(first.name, second.name, Label(t.rel), t.rel.uri)
  }

  /** The names along the chain: every head with an arrow, then the last tail without one. */
  function Names(chain: Chain): seq<NameEntry>
    requires |chain| > 0
  {
    seq(|chain|, i requires 0 <= i < |chain| => NameEntry(chain[i].head.name, true))
      + [NameEntry(chain[|chain| - 1].tail.name, false)]
  }

  /** The specification of `getChainObject`. */
  function ChainObject(chain: Chain): ChainView
    requires |chain| > 0
  {
    ChainView(
      Names(chain),
      chain[0].head.name,
      chain[|chain| - 1].tail.name,
      seq(|chain|, i requires 0 <= i < |chain| => ViewOf(chain[i])))
  }

  // ---------------------------------------------------------------- lemmas

  /**
    `names` has one entry more than the chain; the start and end names are its
    first and its entry at index `chain.length`, which is the last one; and
    there is one relationship per triple, in chain order.
  */
  lemma ChainObjectShape(chain: Chain)
    requires |chain| > 0
    ensures var v := ChainObject(chain);
      && |v.names| == |chain| + 1
      && (forall i :: 0 <= i < |chain| ==> v.names[i] == NameEntry(chain[i].head.name, true))
      && v.names[|chain|] == NameEntry(chain[|chain| - 1].tail.name, false)
      && v.startName == v.names[0].n == chain[0].head.name
      && v.endName == v.names[|chain|].n == chain[|chain| - 1].tail.name
      && |v.relationships| == |chain|
      && (forall i :: 0 <= i < |chain| ==> v.relationships[i] == ViewOf(chain[i]))
  {
  }

  /** The relationship view names both ends of the triple, first the one whose id is `entity1_id`. */
  lemma ViewOrder(t: Triple)
    ensures ViewOf(t).link == t.rel.uri
    ensures t.rel.entity1Id == t.head.id ==> ViewOf(t).ent1 == t.head.name && ViewOf(t).ent2 == t.tail.name
    ensures t.rel.entity1Id != t.head.id ==> ViewOf(t).ent1 == t.tail.name && ViewOf(t).ent2 == t.head.name
  {
  }

  /** The three temporal cases, each with the exact condition that selects it. */
  lemma TemporalCases(rel: Relationship)
    ensures TemporalOf(rel) == Current <==> rel.isCurrent == Some("1")
    ensures TemporalOf(rel) == Past <==>
      rel.isCurrent != Some("1") && (rel.isCurrent == Some("0") || rel.endDate != Some(""))
    ensures TemporalOf(rel) == PastOrCurrent <==>
      rel.isCurrent != Some("1") && rel.isCurrent != Some("0") && rel.endDate == Some("")
  {
  }

  /**
    A label exists exactly for codes 1..10; it starts with the category name,
    continues with the chosen description in parentheses (nothing when both
    descriptions are empty) and ends with the temporal suffix.
  */
  lemma LabelSpec(rel: Relationship)
    ensures Label(rel).Some? <==> 1 <= rel.categoryId <= 10
    ensures Label(rel).Some? ==>
      Label(rel).value == CategoryName(rel.categoryId).value + DescriptionPart(rel) + TemporalSuffix(TemporalOf(rel))
    ensures rel.description1 != "" ==> DescriptionPart(rel) == " (" + rel.description1 + ")"
    ensures rel.description1 == "" && rel.description2 != "" ==> DescriptionPart(rel) == " (" + rel.description2 + ")"
    ensures rel.description1 == "" && rel.description2 == "" ==> DescriptionPart(rel) == ""
  {
  }

  /** Code 5 is a donation, and a current donation without descriptions reads "Donation - current". */
  lemma DonationLabel(rel: Relationship)
    requires rel.categoryId == 5 && rel.description1 == "" && rel.description2 == ""
    requires rel.isCurrent == Some("1")
    ensures Label(rel) == Some("Donation - current")
  {
    assert DescriptionPart(rel) == "" && TemporalOf(rel) == Current;
    assert "Donation" + "" + " - current" == "Donation - current";
  }

  /** A two-hop chain A -> B -> C reads A, B (both with arrows), then C. */
  lemma TwoHopNames(a: Node, b: Node, c: Node, r1: Relationship, r2: Relationship)
    ensures var v := ChainObject([Triple(a, r1, b), Triple(b, r2, c)]);
      v.names == [NameEntry(a.name, true), NameEntry(b.name, true), NameEntry(c.name, false)]
      && v.startName == a.name && v.endName == c.name
  {
  }

  // ----------------------------------------------------------- the method

  /** getChainObject; the source dereferences `chain[chain.length-1]`, so the chain must not be empty. */
  method GetChainObject(chain: Chain) returns (v: ChainView)
    requires |chain| > 0
    ensures v == ChainObject(chain)
  {
    var names: seq<NameEntry> := [];
    for i := 0 to |chain|
      invariant |names| == i
      invariant forall k :: 0 <= k < i ==> names[k] == NameEntry(chain[k].head.name, true)
    {
      names := names + [NameEntry(chain[i].head.name, true)];
    }
    names := names + [NameEntry(chain[|chain| - 1].tail.name, false)];

    var startName := names[0].n;
    var endName := names[|chain|].n;

    var relationships: seq<RelationshipView> := [];
    for i := 0 to |chain|
      invariant |relationships| == i
      invariant forall k :: 0 <= k < i ==> relationships[k] == ViewOf(chain[k])
    {
      var rel := chain[i].rel;
      var firstEnt, secondEnt;
      if rel.entity1Id == chain[i].head.id {
        firstEnt, secondEnt := chain[i].head, chain[i].tail;
      } else {
        firstEnt, secondEnt := chain[i].tail, chain[i].head;
      }

      var description := rel.description2;
      if rel.description1 != "" {
        description := rel.description1;
      }
      if description != "" {
        description := " (" + description + ")";
      }

      var temporalString;
      if rel.isCurrent == Some("1") {
        temporalString := " - current";
      } else if rel.isCurrent == Some("0") || rel.endDate != Some("") {
        temporalString := " - past";
      } else {
        temporalString := " - past or current";
      }

      var text := match CategoryName(rel.categoryId)
        case None => None
        case Some(category) => Some(category + description + temporalString);
      relationships := relationships + [RelationshipView(firstEnt.name, secondEnt.name, text, rel.uri)];
    }
    v := ChainView(names, startName, endName, relationships);
  }
}

/**
  View building (`buildTemplateView` in lib/main.js): entities are filtered,
  in input order, into politician records, and each record receives its own
  entity's condensed assets and chain views.
*/
module View {
  import opened Wrappers
  import opened Assets
  import opened Chains

  /** An entity of the webapp's JSON; `assets` and `chains` are `None` when the key is absent. */
  datatype Entity = Entity(name: string, crpId: string, assets: Option<seq<Asset>>, chains: Option<seq<Chain>>)

  /** A politician record of the view; each optional field is set only when its source list is non-empty. */
  datatype Politician = Politician(
    name: string,
    crpId: string,
    assets: Option<seq<Asset>>,
    chains: Option<seq<ChainView>>)

  predicate HasAssets(e: Entity) {
    e.assets.Some? && |e.assets.value| > 0
  }

  predicate HasChains(e: Entity) {
    e.chains.Some? && |e.chains.value| > 0
  }

  /** The filter of lib/main.js:257. */
  predicate IsPolitician(e: Entity) {
    HasAssets(e) || HasChains(e)
  }

  /** Every chain that `getChainObject` will be given is non-empty. */
  predicate ChainsConvertible(e: Entity) {
    HasChains(e) ==> forall k :: 0 <= k < |e.chains.value| ==> |e.chains.value[k]| > 0
  }

  predicate AllConvertible(es: seq<Entity>) {
    forall i :: 0 <= i < |es| ==> ChainsConvertible(es[i])
  }

  function ChainViews(chains: seq<Chain>): seq<ChainView>
    requires forall k :: 0 <= k < |chains| ==> |chains[k]| > 0
  {
    seq(|chains|, k requires 0 <= k < |chains| => ChainObject(chains[k]))
  }

  /** The record an entity that passes the filter turns into. */
  function PoliticianOf(e: Entity): Politician
    requires ChainsConvertible(e)
  {
    Politician(
      e.name,
      e.crpId,
      if HasAssets(e) then Some(Condensed(e.assets.value)) else None,
      if HasChains(e) then Some(ChainViews(e.chains.value)) else None)
  }

  /** The specification of `view.politicians`. */
  function Politicians(es: seq<Entity>): seq<Politician>
    requires AllConvertible(es)
    decreases |es|
  {
    if |es| == 0 then []
    else
      var earlier := Politicians(es[..|es| - 1]);
      var e := es[|es| - 1];
      if IsPolitician(e) then earlier + [PoliticianOf(e)] else earlier
  }

  // ---------------------------------------------------------------- lemmas

  /**
    Both attach conditions (lib/main.js:262 and 271) imply the filter, so the
    `pol` they write to is always the record created in the same iteration.
  */
  lemma AttachImpliesFilter(e: Entity)
    ensures HasAssets(e) ==> IsPolitician(e)
    ensures HasChains(e) ==> IsPolitician(e)
  {
  }

  /** The politicians of a prefix are a prefix of the politicians. */
  lemma {:induction false} PoliticiansPrefix(es: seq<Entity>, i: nat)
    requires AllConvertible(es) && i <= |es|
    ensures AllConvertible(es[..i])
    ensures |Politicians(es[..i])| <= |Politicians(es)|
    ensures Politicians(es[..i]) == Politicians(es)[..|Politicians(es[..i])|]
    decreases |es| - i
  {
    if i < |es| {
      var init := es[..|es| - 1];
      assert es[..i] == init[..i];
      PoliticiansPrefix(init, i);
    } else {
      assert es[..i] == es;
    }
  }

  /**
    Every entity that passes the filter has its own record, at the position
    given by the number of politicians before it, with its own name, crp_id,
    condensed assets and chain views.
  */
  lemma PoliticianAt(es: seq<Entity>, i: nat)
    requires AllConvertible(es) && i < |es| && IsPolitician(es[i])
    ensures AllConvertible(es[..i])
    ensures |Politicians(es[..i])| < |Politicians(es)|
    ensures Politicians(es)[|Politicians(es[..i])|] == PoliticianOf(es[i])
  {
    PoliticiansPrefix(es, i + 1);
    assert es[..i + 1][..i] == es[..i];
  }

  /** An entity that fails the filter adds no record. */
  lemma DroppedEntity(es: seq<Entity>, i: nat)
    requires AllConvertible(es) && i < |es| && !IsPolitician(es[i])
    ensures AllConvertible(es[..i]) && AllConvertible(es[..i + 1])
    ensures Politicians(es[..i + 1]) == Politicians(es[..i])
  {
    assert es[..i + 1][..i] == es[..i];
  }

  /**
    Every record comes from an entity that passes the filter, and the records
    keep the entities' order.
  */
  lemma {:induction false} PoliticianFrom(es: seq<Entity>, j: nat)
    requires AllConvertible(es) && j < |Politicians(es)|
    ensures exists i ::
              && 0 <= i < |es| && IsPolitician(es[i]) && AllConvertible(es[..i])
              && |Politicians(es[..i])| == j && Politicians(es)[j] == PoliticianOf(es[i])
    decreases |es|
  {
    var init := es[..|es| - 1];
    var last := |es| - 1;
    assert AllConvertible(init);
    if j < |Politicians(init)| {
      PoliticianFrom(init, j);
      var i :| 0 <= i < |init| && IsPolitician(init[i]) && AllConvertible(init[..i])
        && |Politicians(init[..i])| == j && Politicians(init)[j] == PoliticianOf(init[i]);
      assert init[..i] == es[..i];
      assert es[i] == init[i];
    } else {
      assert es[..last] == init;
    }
  }

  /** Records keep input order: an earlier selected entity has a smaller rank. */
  lemma RankMonotone(es: seq<Entity>, i: nat, i2: nat)
    requires AllConvertible(es) && i < i2 < |es| && IsPolitician(es[i])
    ensures AllConvertible(es[..i]) && AllConvertible(es[..i2])
    ensures |Politicians(es[..i])| < |Politicians(es[..i2])|
  {
    PoliticianAt(es[..i2], i);
    assert es[..i2][..i] == es[..i];
  }

  // ----------------------------------------------------------- the method

  /**
    buildTemplateView. `pol` is the JavaScript `var pol` of one `forEach`
    callback: unset until the record is created, then the position of that
    record in `politicians`, through which its fields are attached.
  */
  method BuildTemplateView(entities: seq<Entity>) returns (politicians: seq<Politician>)
    requires AllConvertible(entities)
    ensures politicians == Politicians(entities)
  {
    politicians := [];
    for i := 0 to |entities|
      invariant AllConvertible(entities[..i])
      invariant politicians == Politicians(entities[..i])
    {
      var entity := entities[i];
      assert entities[..i + 1][..i] == entities[..i];
      ghost var before := politicians;
      var pol: Option<nat> := None;
      if IsPolitician(entity) {
        politicians := politicians + [Politician(entity.name, entity.crpId, None, None)];
        pol := Some(|politicians| - 1);
      }
      if HasAssets(entity) {
        var condensedAssets := Condense(entity.assets.value);
        var list: seq<Asset> := [];
        for j := 0 to |condensedAssets|
          invariant list == condensedAssets[..j]
        {
          list := list + [condensedAssets[j]];
        }
        assert list == condensedAssets;
        politicians := politicians[pol.value := politicians[pol.value].(assets := Some(list))];
        assert politicians == before + [Politician(entity.name, entity.crpId, Some(Condensed(entity.assets.value)), None)];
      }
      if HasChains(entity) {
        var chains := entity.chains.value;
        var views: seq<ChainView> := [];
        for j := 0 to |chains|
          invariant |views| == j
          invariant forall k :: 0 <= k < j ==> views[k] == ChainObject(chains[k])
        {
          var v := GetChainObject(chains[j]);
          views := views + [v];
        }
        assert views == ChainViews(chains);
        politicians := politicians[pol.value := politicians[pol.value].(chains := Some(views))];
      }
      assert IsPolitician(entity) ==> politicians == before + [PoliticianOf(entity)];
    }
    assert entities[..|entities|] == entities;
  }
}

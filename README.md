# ConnectionSpotter pipeline core, modelled in Dafny

ConnectionSpotter is a Firefox extension. It sends the URL of the article in the active tab to the Poligraft entity-extraction service. It polls the service until the analysis is linked, then forwards the result to a web application that finds relationship chains. Finally it turns that application's JSON into a view for a Mustache template in a sidebar. This project models the decision and data-reshaping logic of `lib/main.js`, the only part with logic of its own:

- `assets.dfy`, module `Assets`: `condenseAssets`. Assets that share an `entity_compare_string` merge into one row, and their `minvalue` and `maxvalue` add up. The method fills a dictionary and then emits one row per key. It is proved equal to a specification (`Condensed`) built from per-key sums. Lemmas show the output keys are distinct and are exactly the input's keys, each row carries the sums for its key, and reordering the input leaves the set of rows unchanged.
- `chains.dfy`, module `Chains`: `getChainObject`. A chain of (entity, relationship, entity) triples becomes the names along the chain with arrow flags, a start and end name, and one relationship view per triple. The label of each view is built from the ten-entry category table, the preferred description and the temporal suffix. `names` has `chain.length + 1` entries, so `names[chain.length]`, the source's `endName`, is the last entry: the tail of the last triple.
- `view.dfy`, module `View`: `buildTemplateView`. Entities with non-empty `assets` or `chains` become politician records, in input order. Each record gets its own entity's condensed assets and chain views. `var pol` is local to each `forEach` callback, and both attach conditions imply the filter. So the record that gets the fields is always the one created in the same iteration. The method makes this a proof obligation: it writes through `pol`, an optional index that is set only when the record is created.
- `fetcher.dfy`, module `Fetcher`: the decisions of `getPoligraftAnalysis`. After the first response it picks one of three steps: retry after a 500 with the first `"%20"` removed, fail on a null body, or start polling. The source strips the active tab's URL (`NextStepAsWritten`). The model's `NextStep` is the corrected rule, which strips the URL the call was made with. The two agree on the top-level call, when the active tab's URL is still `page_url` (lib/main.js:117) when the first response arrives. They differ on retried calls, and on a top-level call whose tab changed meanwhile (see "## Findings"). While polling, each status response is classified as success, stop or retry, and a counter starts at ten and drops by one before each retry. The polling method runs over a given sequence of responses and is proved against a reference definition. Lemmas state exactly when the callback fires, when polling stops silently and when the error is shown.
- `wrappers.dfy`, module `Wrappers`: `Option`, used for JSON keys that may be missing.

## Model

| member | source | states |
|---|---|---|
| `Assets.Condense` | lib/main.js:228-246 | the rows returned are the specification `Condensed`: one row per distinct key, in first-occurrence order, with both sums |
| `Assets.KeysExact` | lib/main.js:229-244 | the dictionary's keys are pairwise distinct and are exactly the `entity_compare_string`s that occur in the input |
| `Assets.CondensedSpec` | lib/main.js:229-244 | the output rows have pairwise distinct keys, their key set equals the input's, and each row's `minvalue`/`maxvalue` is the sum over all input assets with that key |
| `Assets.CondensedMember` | lib/main.js:230-243 | a row is in the output iff its key occurs in the input and it carries exactly that key's two sums |
| `Assets.SumPermutation` | lib/main.js:230-236 | a key's sum of `minvalue` (or `maxvalue`) depends only on the multiset of assets, not their order |
| `Assets.CondensedOrderIndependent` | lib/main.js:228-246 | two inputs that are permutations of each other condense to the same set of rows |
| `Assets.DuplicatesMerge` | lib/main.js:231-236 | two assets with the same key and values 5/10 merge into the single row 10/20 |
| `Chains.CategoryName` | lib/main.js:286 | the category table has an entry exactly for the codes 1 to 10 |
| `Chains.GetChainObject` | lib/main.js:285-346 | the object built by the two loops is the specification `ChainObject` of the chain; the chain must be non-empty |
| `Chains.ChainObjectShape` | lib/main.js:289-303 | `names` has one entry per triple (its head, arrow true) plus the last triple's tail (arrow false); `startName` is `names[0]` and the first head, `endName` is `names[chain.length]` and the last tail; one relationship per triple, in order |
| `Chains.ViewOrder` | lib/main.js:310-316 | `ent1`/`ent2` are head/tail when the relationship's `entity1_id` equals the head's id, tail/head otherwise; `link` is the relationship's `uri` |
| `Chains.TemporalCases` | lib/main.js:327-334 | " - current" iff `is_current` is "1"; " - past" iff it is not "1" and it is "0" or `end_date` is not ""; " - past or current" otherwise |
| `Chains.LabelSpec` | lib/main.js:319-337 | a label exists iff the code is in 1..10; it is the category name, then `description1` in parentheses if non-empty, else `description2` in parentheses if non-empty, else nothing, then the temporal suffix |
| `Chains.DonationLabel` | lib/main.js:286 | code 5 with no descriptions and `is_current` "1" reads "Donation - current" |
| `Chains.TwoHopNames` | lib/main.js:289-303 | the chain A->B->C gives names A (arrow), B (arrow), C (no arrow), start A, end C |
| `View.BuildTemplateView` | lib/main.js:251-280 | the politicians built are the specification `Politicians` of the entities |
| `View.AttachImpliesFilter` | lib/main.js:257-271 | each of the two attach conditions implies the filter that creates the record |
| `View.PoliticianAt` | lib/main.js:256-277 | every entity with non-empty assets or chains has a record at the position given by the number of such entities before it, with its own name, crp_id, condensed assets (only if it has assets) and chain views (only if it has chains) |
| `View.PoliticianFrom` | lib/main.js:256-261 | every record is the record of some selected entity, at that entity's rank |
| `View.RankMonotone` | lib/main.js:256-260 | an earlier selected entity has a smaller rank than any later entity, so records keep input order |
| `View.DroppedEntity` | lib/main.js:257 | an entity with neither non-empty assets nor non-empty chains adds no record |
| `View.PoliticiansPrefix` | lib/main.js:256-260 | the records of a prefix of the entities are a prefix of the records |
| `Fetcher.IndexOf` | lib/main.js:137 | finds the first position where the pattern occurs, or reports that it occurs nowhere |
| `Fetcher.RemoveFirstSpec` | lib/main.js:137-138 | removing "%20" changes the URL iff the URL contains "%20", and then makes it three characters shorter |
| `Fetcher.RemoveFirstOnce` | lib/main.js:137 | `replace` with a string pattern removes only the first of two "%20"s |
| `Fetcher.AsWrittenRetriesForever` | lib/main.js:129-142 | as written, a 500 for a request that was itself a retry retries the same URL again |
| `Fetcher.AsWrittenCounterexample` | lib/main.js:137-140 | with the active URL "a%20b", the first 500 retries "ab" and so does every later one |
| `Fetcher.NextStepInitialCall` | lib/main.js:117-148 | on the top-level call, when the active tab's URL is still `page_url` when the first response arrives, the corrected rule `NextStep` makes the same decision as the source's rule |
| `Fetcher.TabChangeCounterexample` | lib/main.js:117-140 | for page "a" and an active tab that is "b%20c" when a 500 arrives, the source retries "bc", another page, while the corrected rule starts polling |
| `Fetcher.NextStepSpec` | lib/main.js:129-148 | for the corrected rule `NextStep` (the source's decision only on the top-level call, when the active tab's URL is still `page_url` when the first response arrives): retry iff the status is 500 and the URL contains "%20", with a URL three characters shorter; otherwise a null body is an error and any other body starts polling with its slug |
| `Fetcher.RetriesUnder500` | lib/main.js:136-141 | with the corrected rule and a service that always answers 500, the number of retries is at most a third of the URL's length |
| `Fetcher.Classify` | lib/main.js:156-166 | success iff status 200, or 202 with payload status "Entities Linked"; stop iff the status is neither 200 nor 202; retry iff 202 with any other payload status |
| `Fetcher.FirstNonRetry` | lib/main.js:151-166 | finds the first response that is not a retry; all responses before it are retries |
| `Fetcher.Poll` | lib/main.js:149-174 | the counter-bounded loop ends in the outcome `Expected` of the responses, after at most ten answered status requests |
| `Fetcher.DeliveredIff` | lib/main.js:152-157 | the callback receives response k iff k < 10, response k is a success and all earlier responses were retries |
| `Fetcher.HaltedIff` | lib/main.js:158-159 | polling stops silently at response k iff k < 10, its status is neither 200 nor 202 and all earlier responses were retries |
| `Fetcher.GaveUpIff` | lib/main.js:149-172 | the error is shown iff the first ten responses are all retries |
| `Fetcher.PollExamples` | lib/main.js:149-172 | ten "Entities Extracted" answers end in the error; "Entities Linked" on the third attempt reaches the callback |

## Left out

- Assets.Condense: rows come out in first-occurrence order of their keys. A JavaScript `for..in` lists integer-like keys first, in ascending numeric order, and this model does not reproduce that order. The `hasOwnProperty` guard (lib/main.js:240) never skips a key here, because a Dafny map has no inherited keys. In the source, the `in` test at lib/main.js:231 is also true for names inherited from `Object.prototype` ("constructor", "toString", "__proto__", ...). Such a key takes the else branch, so the source never gives it a row; the model gives it one like any other key.
- `minvalue` and `maxvalue` are unbounded integers. JavaScript's floating-point addition, and string concatenation if a value were a string, are not modelled.
- Chains.GetChainObject: a category code outside 1..10 gives no text (`None`). The source would build a text starting with "undefined".
- Chains.GetChainObject: ids are compared with typed equality. JavaScript's loose `==` between a number and a string is not modelled. Both descriptions are always strings, so the source's " (undefined)" text is not modelled.
- View.BuildTemplateView requires every chain of an entity with chains to be non-empty, because the source throws on `chain[chain.length-1]` of an empty chain. The source pushes the record first and then sets its fields through the alias `pol`. The model does this by updating the record at its index.
- Fetcher.Poll: the HTTP requests, the 5-second timer and the callbacks are left out. The service's answers arrive as a given sequence. `Unanswered` stands for a request that has no answer in that sequence. The callback's payload is not modelled.
- Fetcher.NextStepInitialCall: the source reads `tabs.activeTab.url` again when the first response arrives (lib/main.js:137). A tab change or navigation while the request is pending is not modelled. `TabChangeCounterexample` shows that the two rules then differ.
- The recursive call `getPoligraftAnalysis(callback, twenties_removed)` and its request are left out. Only the decision after one response is modelled, as written (`NextStepAsWritten`) and corrected (`NextStep`, equal to the source's only on the top-level call, when the active tab's URL is still `page_url` when the first response arrives), together with the number of corrected retries under repeated 500s.
- `getWebappAnalysis` (an HTTP POST whose only decision is status 200 or error) is left out as I/O.
- The sidebar and widget plumbing (`sidebarAttach`, `sidebarDetach`, `updateSidebar`, `showError`, `showProcessing`, `showUnsupported`, the widget's click handler and the global worker and message slots) is left out. It is UI lifecycle driven by browser events.
- `data/sidebar.js` (DOM updates, Mustache, a jQuery tooltip) and the top-level `main.js` (readability extraction and an AJAX POST) are left out as UI and I/O. JSON parsing is left out too: the model starts from typed datatypes.

## Findings

| source | as written | input that shows it | evidently intended | confidence | as-written member | corrected member |
|---|---|---|---|---|---|---|
| lib/main.js:137-140 | after a 500, the retry URL is `tabs.activeTab.url` with its first "%20" removed, and the change test also uses the active tab's URL, ignoring `page_url`; a retried request that gets a 500 again retries the same URL, without end | active tab URL "a%20b" and a service that answers 500 to every request: "a%20b", then "ab", "ab", ... | strip the URL this call was made with (`page_url`), so each retry removes one more "%20" and the retries stop when none is left | medium, not executed | `Fetcher.AsWrittenRetriesForever` | `Fetcher.RetriesUnder500` |

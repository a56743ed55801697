# Gene-annotation query engine, modelled in Dafny

This project models the query and validation engine of the v1 gene service
(`src/services/v1_service/service.ts`). The service holds two read-only
record lists: the annotations of the annotation file and the genes of the
gene-type file. It answers two requests:

- `GET /genes?filter=ASPECT,STATUS&...&strategy=union|intersection`. Each
  filter is validated, then the strategy. The filters are split into the
  UNANNOTATED ones and the others. The others select annotations by Aspect
  and status and the indexed genes those annotations name. The UNANNOTATED
  ones select annotations by Aspect only and return the genes of the gene
  list that none of them names as an alternative name.
- `GET /wgs_segments`. For each aspect P, F and C it keeps four counters:
  EXP, OTHER, UNKNOWN, and a last one for any other status. Each counter
  counts the annotations whose last alternative name is an index key, or
  that have no alternative name at all.

The two record lists and the gene index are explicit parameters here, not
module state. Thrown `BadRequestError`s become an `Err` of a `Result`, with
one error kind per message.

Modules, one per component of the service file:

- `Records`: the gene, annotation and filter records, the strategy, and the
  error kinds.
- `Seqs`: order-preserving filtering, `some`/`every`, and insertion-ordered
  deduplication.
- `Text`: splitting on a separator character.
- `GeneIndex`: the GeneID-to-gene index.
- `Validation`: the four validators.
- `Query`: the selector, both queries and the `/genes` endpoint.
- `QueryProperties`: lemmas that relate several queries or requests.
- `Wgs`: the gene-id helper and the counting report.

Behaviours of the code worth noting:

- A request with no filters and a valid strategy returns three empty lists.
- The gene-id helper overwrites its result on every alias, so only the last
  alias decides it. An earlier alias that is an index key is forgotten when
  a later one is not (`Wgs.ScanDecidedByLastAlias`,
  `Wgs.EarlierKeyIsOverwritten`).
- An annotation with no alias yields `undefined`, which is not `null`, so it
  is counted.
- The report counts annotations, not distinct genes, in four slots per
  aspect. It holds only the P, F and C counters.
- The unannotated query returns records of the gene list, not of the index.
  So pseudogenes, and a gene-list row with GeneID `name`, can be returned
  (`QueryProperties.UnannotatedReadsGeneList`).

## Model

| member | source | states |
|---|---|---|
| `GeneIndex.Accumulated` | src/services/v1_service/service.ts:6-9 | the reduce accumulator has a key for exactly the GeneIDs in the list, and each key holds the last gene with that GeneID |
| `GeneIndex.GeneMapOf` | src/services/v1_service/service.ts:6-10 | the index holds exactly the GeneIDs of the list other than `name`, each mapped to the last gene with that GeneID, and every entry is filed under its own GeneID |
| `GeneIndex.BuildGeneMap` | src/services/v1_service/service.ts:6-10 | the loop that overwrites one accumulator map and then deletes `name` builds exactly `GeneMapOf(genes)` |
| `Validation.ValidateAspect` | src/services/v1_service/service.ts:235-237 | a valid aspect is one character long and contains no comma |
| `Validation.ValidateAnnotationStatus` | src/services/v1_service/service.ts:245-250 | a valid status contains no comma |
| `Text.Split` | src/services/v1_service/service.ts:265 | splitting gives one more part than there are separators; no part holds the separator; joining the parts gives the input back |
| `Validation.ValidateFilter` | src/services/v1_service/service.ts:264-279 | the part-count error is returned exactly when the string does not hold exactly one comma; a success is a valid filter whose rendering `aspect,status` is the input |
| `Validation.ValidateFilterParts` | src/services/v1_service/service.ts:266-278 | for `a,b` without other commas: an invalid aspect gives the aspect error, otherwise an invalid status gives the status error, otherwise the filter is exactly (a, b) |
| `Validation.ValidateRenderRoundTrip` | src/services/v1_service/service.ts:255-257 | validating the rendering of a valid filter returns that filter |
| `Validation.ValidateFilters` | src/services/v1_service/service.ts:52 | success exactly when every filter string validates, with each result in its place; otherwise the error is that of the first invalid filter |
| `Validation.ValidateStrategy` | src/services/v1_service/service.ts:296-301 | accepts exactly `union` and `intersection` and returns the input unchanged; any other string gives the strategy error |
| `Seqs.SomeOf` | src/services/v1_service/service.ts:58-59 | the union selector holds exactly when some filter satisfies the predicate |
| `Seqs.EveryOf` | src/services/v1_service/service.ts:58-59 | the intersection selector holds exactly when every filter satisfies the predicate |
| `Query.Selector.Holds` | src/services/v1_service/service.ts:58-59 | under union the selector holds exactly when some filter satisfies the predicate; under intersection exactly when every filter does |
| `Seqs.Keep` | src/services/v1_service/service.ts:178-183 | the filtered list holds exactly the elements of the input that satisfy the predicate |
| `Seqs.KeepAppend` | src/services/v1_service/service.ts:178-183 | filtering distributes over concatenation, so it keeps the input order |
| `Seqs.Distinct` | src/services/v1_service/service.ts:185-192 | the set-deduplicated name list holds the same names and no name twice |
| `Query.GeneNames` | src/services/v1_service/service.ts:186-191 | the flattened list holds exactly the UniqueGeneName and alternative names of the annotations |
| `Query.AltNames` | src/services/v1_service/service.ts:212-217 | the flattened list holds exactly the alternative names of the annotations |
| `Query.Lookup` | src/services/v1_service/service.ts:194-196 | the result holds exactly the index entries of names that are keys; against an index filed by GeneID, distinct names give distinct GeneIDs |
| `Query.QueryAnnotated` | src/services/v1_service/service.ts:177-198 | the annotations returned are exactly those the selector picks by Aspect and status; the genes returned are exactly the index entries of names these annotations carry; against an index filed by GeneID no GeneID repeats |
| `Query.QueryUnannotated` | src/services/v1_service/service.ts:206-220 | a gene is returned exactly when it is in the gene list and its GeneID is no alternative name of an annotation the selector picks by Aspect |
| `Query.Genes` | src/services/v1_service/service.ts:49-74 | filter errors take precedence over the strategy error; success exactly when all inputs validate; a part without filters leaves its outputs empty (what each non-empty part returns is stated by the `QueryProperties.Response*`, `Union*` and `Intersection*` lemmas) |
| `QueryProperties.AbsentFiltersAreEmpty` | src/services/v1_service/service.ts:52 | a request without a `filter` parameter gets the same response as one with an empty filter list |
| `Query.StrategyString` | src/services/v1_service/service.ts:49 | an absent `strategy` parameter is `union`, which validates; a supplied one is used as given |
| `Query.AnnotatedPart` | src/services/v1_service/service.ts:61 | holds exactly the filters whose status is not UNANNOTATED |
| `Query.UnannotatedPart` | src/services/v1_service/service.ts:62 | holds exactly the filters whose status is UNANNOTATED |
| `Query.AnswerAnnotated` | src/services/v1_service/service.ts:64-67 | without annotated filters, two empty lists; otherwise exactly the annotations the annotated part selects, and exactly the index entries of the names they carry |
| `Query.AnswerUnannotated` | src/services/v1_service/service.ts:69-72 | without UNANNOTATED filters, an empty list; otherwise exactly the gene-list records whose GeneID is no alternative name of an annotation the UNANNOTATED part picks by Aspect |
| `QueryProperties.FilterPartition` | src/services/v1_service/service.ts:61-62 | every validated filter lands in exactly one of the two parts, copy for copy |
| `QueryProperties.NoFiltersGiveEmptyLists` | src/services/v1_service/service.ts:64-74 | a request with absent or empty filters returns three empty lists when its strategy is valid |
| `QueryProperties.AnnotatedPartNonEmpty` | src/services/v1_service/service.ts:61-65 | the annotated query runs exactly when some filter is not UNANNOTATED |
| `QueryProperties.UnionOfAnnotatedPart` | src/services/v1_service/service.ts:58-61 | under union, an annotation is selected exactly when some non-UNANNOTATED filter matches its Aspect and status |
| `QueryProperties.IntersectionOfAnnotatedPart` | src/services/v1_service/service.ts:58-61 | under intersection, an annotation is selected exactly when every non-UNANNOTATED filter matches its Aspect and status |
| `QueryProperties.UnionAnnotations` | src/services/v1_service/service.ts:49-66 | with the default or `union` strategy, the response's annotations are exactly those some non-UNANNOTATED filter matches |
| `QueryProperties.IntersectionAnnotations` | src/services/v1_service/service.ts:55-66 | with `intersection`, the response's annotations are exactly those every non-UNANNOTATED filter matches, and none when there is no such filter |
| `QueryProperties.UnionContainsIntersection` | src/services/v1_service/service.ts:58-59 | for non-empty filters, the intersection's annotations are the union's annotations filtered again (a sub-multiset of them), and its genes are among the union's genes |
| `QueryProperties.ResponseAnnotatedGenes` | src/services/v1_service/service.ts:64-66 | for any valid request, the response's annotated genes are exactly the index entries of the names its annotations carry |
| `QueryProperties.UnannotatedPartNonEmpty` | src/services/v1_service/service.ts:62-70 | the unannotated query runs exactly when some filter is UNANNOTATED |
| `QueryProperties.ResponseUnannotatedGenes` | src/services/v1_service/service.ts:62-71 | for any valid request, the unannotated genes are empty without an UNANNOTATED filter, and otherwise exactly the gene-list records whose GeneID is no alternative name of an annotation the UNANNOTATED filters pick by Aspect |
| `QueryProperties.UnionOfUnannotatedPart` | src/services/v1_service/service.ts:58-62 | under union, the UNANNOTATED filters pick an annotation exactly when one of them names its Aspect |
| `QueryProperties.UnionUnannotatedGenes` | src/services/v1_service/service.ts:49-71 | with the default or `union` strategy, the unannotated genes are exactly the gene-list records whose GeneID is no alternative name of an annotation whose Aspect some UNANNOTATED filter names |
| `QueryProperties.AnnotatedKeepsOrder` | src/services/v1_service/service.ts:178-183 | the annotated query keeps list order and returns each selected annotation as often as it occurs |
| `QueryProperties.UnannotatedKeepsOrder` | src/services/v1_service/service.ts:219 | the unannotated query keeps the order of the gene list and returns each passing gene-list row exactly as often as it occurs, so its result is a subsequence of the gene list |
| `QueryProperties.UnannotatedWithoutSelectedAnnotations` | src/services/v1_service/service.ts:206-219 | when no annotation is picked, the unannotated query returns the whole gene list |
| `QueryProperties.AnnotatedGenesDistinct` | src/services/v1_service/service.ts:185-196 | against the index built from the same gene list, no GeneID repeats among the annotated genes and none is `name` |
| `QueryProperties.UnannotatedReadsGeneList` | src/services/v1_service/service.ts:219 | `P,UNANNOTATED` over no annotations returns a `name` row and a pseudogene from the gene list, although the index has no `name` key |
| `QueryProperties.RejectedRequests` | src/services/v1_service/service.ts:271-272 | `Z,EXP` is refused for its aspect, even when the strategy `xor` is also invalid; `xor` alone is refused as a strategy |
| `Wgs.Scan` | src/services/v1_service/service.ts:312-319 | scanning no alias leaves the result unchanged; scanning any alias leaves a non-`undefined` result, and an id it yields is an index key taken from the aliases |
| `Wgs.ScanDecidedByLastAlias` | src/services/v1_service/service.ts:310-321 | the helper's overwriting loop gives `undefined` for no alias, and otherwise the last alias if it is an index key and `null` if not |
| `Wgs.EarlierKeyIsOverwritten` | src/services/v1_service/service.ts:312-318 | an alias that is a key, followed by one that is not, resolves to `null` |
| `Wgs.GetGeneId` | src/services/v1_service/service.ts:310-321 | the loop returns `undefined` for no alias, else the last alias when it is a key, else `null` |
| `Wgs.Counted` | src/services/v1_service/service.ts:143 | an annotation passes the `!== null` test exactly when it has no alias or its last alias is an index key |
| `Wgs.SlotOf` | src/services/v1_service/service.ts:146-162 | EXP, OTHER and UNKNOWN go to the slot bearing their name; every other status goes to slot 3 |
| `Wgs.TallySnoc` | src/services/v1_service/service.ts:141-163 | one more annotation raises only the counter of its aspect and slot, by one, and only if it passes the gene-id test |
| `Wgs.SlotsSumToAspectCount` | src/services/v1_service/service.ts:141-165 | an aspect's four counters sum to the number of its annotations that pass the gene-id test |
| `Wgs.TallyNeverDecreases` | src/services/v1_service/service.ts:87-165 | counters start at zero and never decrease as the annotations are scanned |
| `Wgs.DuplicatesCountTwice` | src/services/v1_service/service.ts:141-162 | counters count annotations, not distinct genes: a repeated annotation is counted twice |
| `Wgs.TallyRow` | src/services/v1_service/service.ts:141-165 | one pass sets its aspect's four counters to their tallies in place and leaves the other aspects' counters unchanged |
| `Wgs.GetWgs` | src/services/v1_service/service.ts:86-168 | the report holds, for P, F and C, the four named counters equal to their tallies over the annotations |

## Left out

- The HTTP layer: the typescript-rest decorators, the binding of `filter` and `strategy` query parameters, and the mapping of `BadRequestError` to a 400 response. The model takes the parameters as `Option` values, and an absent strategy defaults to `union`. Each error message becomes one `ValidationError` kind; the message text is not modelled.
- Loading the records with `read_annotations`/`read_genes` and the file paths from the environment. This is file I/O, and the record parser in `src/utils/ingest` is not part of this model. For the same reason, `src/utils/__tests__/test_ingest.ts`, which tests only that parser, is not modelled.
- The `/test` endpoint, which returns the raw index.
- `geneSet`, and the `expSet`/`unkSet`/`otherSet`/`unanSet` sets of the report. They are filled but never read or returned. The second gene-id lookup per annotation feeds only those sets, so the model looks up once.
- JavaScript object semantics of the index. It is a plain object, so `in` and indexing also see inherited keys such as `constructor` or `toString`, and a GeneID `__proto__` would not become an own key. The model treats the index as a map with exactly the stored keys.
- Query.QueryAnnotated: the order of the returned genes (first occurrence of each name) is computed but not stated in the contract; only their set and their distinct GeneIDs are.

# Freight orders, containers and goods: a Dafny model

This project models the core of a small freight-forwarding service. The
service keeps three keyed collections: orders (`zlecenie`, keyed by
`numer_zlecenia`), containers (`kontener`, keyed by `numer_kontenera`) and
goods (`towar`, keyed by `numer_towaru`). The same list, get, create,
update and delete engine is exposed three times:

- **GraphQL resolvers** (`src/graphql/resolvers.js`) over module-level
  arrays. Identifiers are checked with strict regular expressions.
- **gRPC handlers** (`src/zleceniaResolver.js`, `src/kontenerReslover.js`,
  `src/towarResolver.js`). Identifiers are checked with permissive
  "non-empty" validators, updates are shallow merges, and replies go
  through strict projections (`mapZlecenie`, `mapKontener`, `mapTowar`).
- **Express routes** (`src/routes/teams/zlecenia.js`, `src/routes/kontenery.js`,
  `src/routes/towary.js`), which load the whole JSON data file, change it
  and save it back.

Shared by the list queries: the clause filter `applyFilters` (two variants,
`src/helper.js` and `src/graphql/helpers.js`), the dotted-path resolver, the
query sort comparator and `slice` paging. `sortByField` and
`paginateResults` are modelled as well.

## Module layout

| file | module | what it holds |
|---|---|---|
| `json.dfy` | `Json` | JSON values; optional-chaining and strict member access; `split('.')`; `String(v)`; truthiness; `===`; object spread and merge |
| `text.dfy` | `Text` | `toLowerCase`, `includes`/`startsWith`/`endsWith`, and the character-by-character order of `<` on strings |
| `validators.dfy` | `Validators` | the permissive validators and the four strict regular expressions as character-class patterns |
| `ordering.dfy` | `Ordering` | JS `<`/`>` on values, the query comparator, a stable sort, `slice`, `sortByField`, `paginateResults` |
| `filters.dfy` | `Filters` | the clause evaluator of both variants and the `applyFilters` loop |
| `query.dfy` | `Query` | the list pipeline: filter, then sort, then page |
| `projection.dfy` | `Projection` | the reply projections of the gRPC handlers |
| `store.dfy` | `Store` | `findIndex`/`find`/`some`, `splice`, key uniqueness |
| `graphql.dfy` | `GraphQl` | class `GraphQlApi`: the resolvers over three `seq<Record>` fields |
| `grpc.dfy` | `Grpc` | classes `OrderService`, `ContainerService`, `GoodsService` |
| `routes.dfy` | `Routes` | classes `OrderRoutes`, `ContainerRoutes`, `GoodsRoutes` over the file's documents |

Modelling decisions:

- **Stored entries.** Every entry of the GraphQL and gRPC arrays is a
  wrapper object around one record (`{ zlecenie }` and so on). Every push
  stores such a wrapper. So the model keeps the inner records as a
  `seq<Record>`, and a strict `item.zlecenie.key` read of them cannot throw.
- **Route documents.** The route files keep whole documents (`seq<Value>`),
  because their callbacks read `doc.wrapper.key` strictly. A malformed
  document makes them throw, and the handler's `catch` answers 500.
- **Parsing and dates.** `parseFloat`, `Number(...)` on strings and
  `new Date(...)` are parameters of type `Runtime`. Their results are
  `Num = NaN | Finite(x)`. There is no infinity: a `Runtime` stands for
  `parseFloat("Infinity")` by a finite value beyond every stored number,
  which keeps `<` and `===` on that data. Two `Date` objects are never `===`.
- **Sorting.** `Array.prototype.sort` is modelled by a stable insertion
  sort. Its results are proved to be a permutation, and to be sorted
  whenever the comparator is a total preorder on the values being sorted.
- **File I/O.** The routes' load and save become reads and writes of the
  class field `file`.

## Model

| member | source | states |
|---|---|---|
| Json.Get | src/helper.js:2 | `current?.[key]` on undefined or null is undefined; on an object it is defined iff the object holds the key, and then reads that property |
| Json.GetPathOfUndefined | src/helper.js:1-3 | once an intermediate value is undefined, the rest of the path yields undefined |
| Json.GetPathAppend | src/helper.js:1-3 | resolving `a + b` is resolving `a`, then `b` from there (the reduce runs left to right) |
| Json.GetPathDefinedPrefix | src/helper.js:1-3 | when a path resolves, every proper prefix resolves to an object holding the next key |
| Json.Member | src/zleceniaResolver.js:10-16 | `v.k` throws exactly on undefined and null, and otherwise reads what `v?.k` reads |
| Json.StrictPathAgrees | src/zleceniaResolver.js:4-35 | where strict access does not throw, it reads what optional chaining reads |
| Json.StrictPathThrows | src/zleceniaResolver.js:4-35 | strict access throws iff some proper prefix of the path is undefined or null |
| Json.Split | src/helper.js:2 | `split('.')` always yields at least one piece |
| Json.SplitPiecesFree | src/helper.js:2 | no piece of `split(sep)` contains the separator |
| Json.JoinSplit | src/helper.js:2 | joining the pieces of `split(sep)` with `sep` gives back the field |
| Json.SplitJoin | src/helper.js:2 | splitting a join of separator-free pieces gives back the pieces |
| Json.Spread | src/zleceniaResolver.js:97 | `{ ...v }` copies an object's properties and gives `{}` for everything else |
| Json.Merge | src/zleceniaResolver.js:153 | `{ ...base, ...patch }` has both key sets; the patch wins where both have a key; other keys keep their old values |
| Json.MergeIdempotent | src/zleceniaResolver.js:153 | merging the same patch twice equals merging it once |
| Text.Lower | src/helper.js:43 | `toLowerCase` keeps the length and lowers each character (ASCII and Polish letters) |
| Text.LowerIdempotent | src/helper.js:43 | lower-casing twice equals lower-casing once |
| Text.EdgesAreIncluded | src/helper.js:62-69 | a prefix or a suffix of a string is included in it |
| Text.MissingCharExcludes | src/helper.js:42-45 | a pattern with a character the text lacks is not included |
| Text.StrLessIrreflexive | src/graphql/resolvers.js:27-28 | string `<` is irreflexive |
| Text.StrLessAsymmetric | src/graphql/resolvers.js:27-28 | string `<` is asymmetric |
| Text.StrLessTransitive | src/graphql/resolvers.js:27-28 | string `<` is transitive |
| Text.StrLessTotal | src/graphql/resolvers.js:27-28 | two different strings are ordered one way or the other |
| Validators.PermissiveOnStrings | src/helper.js:77-91 | the permissive validators accept a string iff it is non-empty |
| Validators.ValidOrderNumber | src/graphql/helpers.js:73-75 | accepts exactly 11 characters: six digits, '-', four digits |
| Validators.ValidContainerNumber | src/graphql/helpers.js:77-79 | accepts exactly four ASCII letters of either case followed by seven digits |
| Validators.ValidNip | src/graphql/helpers.js:81-83 | accepts exactly 13 characters: digit groups 3-3-2-2 joined by '-' |
| Validators.ValidUnlocode | src/graphql/helpers.js:85-87 | accepts exactly two upper-case letters, then three upper-case letters or digits |
| Validators.UnlocodeRejectsLowerCase | src/graphql/helpers.js:85-87 | any lower-case letter makes a location code invalid |
| Validators.StrictRejectsUndefined | src/graphql/helpers.js:73-87 | the string "undefined" passes none of the strict checks |
| Validators.StrictImpliesPermissive | src/helper.js:77-91 | whatever a strict check accepts, the permissive check accepts |
| Validators.PermissiveIsWeaker | src/helper.js:77-79 | "abc-123" passes the permissive order-number check but not the strict one |
| Ordering.CompareReals | src/helper.js:50-61 | on finite numbers exactly one of `<`, `===`, `>` holds |
| Ordering.CompareNums | src/helper.js:50-61 | a comparison with NaN is unordered; otherwise below, same or above exactly as the first number is less than, equal to or greater than the second |
| Ordering.ToPrimitive | src/graphql/resolvers.js:27-28 | an object compares as its string form; other values compare as themselves |
| Ordering.ToNumeric | src/graphql/resolvers.js:27-28 | undefined converts to NaN |
| Ordering.CompareStrings | src/graphql/resolvers.js:27-28 | two strings compare lexicographically by character, a proper prefix first, and the relation is never unordered |
| Ordering.CompareValues | src/graphql/resolvers.js:27-28 | undefined on either side is unordered; string/string compares as text; number/number compares numerically |
| Ordering.CompareValuesFlip | src/graphql/resolvers.js:27-28 | swapping the operands flips the relation |
| Ordering.QuerySign | src/graphql/resolvers.js:27-29 | 0 iff neither `<` nor `>` holds; otherwise the sign is ascending iff the order is exactly "ASC" |
| Ordering.Insert | src/graphql/resolvers.js:25 | inserting adds exactly that element |
| Ordering.SortWith | src/graphql/resolvers.js:25 | the sort returns a permutation of its input |
| Ordering.SortWithSorted | src/graphql/resolvers.js:25 | under a comparator that is a total preorder on the input, the result is sorted |
| Ordering.InsertSorted | src/graphql/resolvers.js:25 | inserting into a sorted sequence under a total preorder keeps it sorted |
| Ordering.Slice | src/graphql/resolvers.js:35 | `slice(start, end)` with negative positions counted from the end, and empty when start is not before end |
| Ordering.PageWindow | src/graphql/resolvers.js:33-36 | a non-negative page holds `min(limit, n - offset)` records starting at `offset` |
| Ordering.QueryComparatorOnStrings | src/graphql/resolvers.js:25-30 | on string keys the comparator says "not after" exactly per the character order of `<`, ascending iff "ASC" |
| Ordering.QueryComparatorPreorder | src/graphql/resolvers.js:25-30 | on string keys the comparator is a total preorder |
| Ordering.QuerySortOrdersStrings | src/graphql/resolvers.js:23-31 | sorting string keys gives a permutation, ascending for "ASC" and descending for any other order |
| Ordering.SortByField | src/helper.js:93-112 | `sortByField` returns a permutation of a copy of its input |
| Ordering.SortByFieldDefault | src/helper.js:93-112 | with the order argument left out (default "asc"), the result is a permutation and numeric keys come back ascending |
| Ordering.FieldComparatorOnNumbers | src/helper.js:98-104 | on two numbers the comparator is their difference, negated unless the lower-cased order is "asc" |
| Ordering.FieldComparatorPreorder | src/helper.js:98-104 | on number keys the comparator is a total preorder |
| Ordering.SortByFieldOrdersNumbers | src/helper.js:93-112 | with number keys the result is non-decreasing iff the order lower-cases to "asc", else non-increasing |
| Ordering.PageContents | src/helper.js:114-117 | page n of size s holds at most s elements, from `(n-1)*s` on, and none past the end |
| Ordering.PaginateResultsDefault | src/helper.js:114-117 | with both size and page left out (defaults 10 and 1), the result is the first ten elements, or all of them when there are fewer |
| Filters.NumericTriggers | src/helper.js:13-20 | six numeric trigger substrings per variant |
| Filters.DateTriggers | src/helper.js:25-30 | three date trigger substrings per variant |
| Filters.Coerce | src/helper.js:13-33 | date coercion wins over numeric coercion; numeric parses `String(item)` and the value; otherwise raw values |
| Filters.EvalClause | src/helper.js:7-72 | an undefined field fails; the clause throws iff the field resolves and the operation is not one of the ten |
| Filters.ApplyFilters | src/helper.js:5-75 | the clause loop with its per-clause locals returns the outcome `Evaluate` defines (the GraphQL copy in `src/graphql/helpers.js` is the same loop, selected by the `variant` parameter) |
| Filters.EvaluateConjunction | src/helper.js:5-75 | the item matches iff every clause passes; no clauses means a match |
| Filters.EvaluateStopsAtFirst | src/helper.js:5-75 | the outcome is that of the first clause that does not pass |
| Filters.EvaluateBlame | src/helper.js:5-75 | a non-match is explained by a first clause that did not pass |
| Filters.ThrowNeedsReachedOperation | src/helper.js:70-71 | an unsupported operation throws only if every earlier clause passed and its field resolves |
| Filters.NotContainsNegates | src/helper.js:42-49 | NOT_CONTAINS passes exactly when CONTAINS fails |
| Filters.StringOperationsIgnoreCase | src/graphql/helpers.js:38-65 | the four string operations give the same outcome for the value lower-cased |
| Filters.DatesNeverIdentical | src/helper.js:31-40 | on date fields EQUAL never matches and NOT_EQUAL always matches |
| Filters.UnparsableNumberPasses | src/helper.js:21-61 | on a numeric field whose value parses to NaN, all four comparisons and NOT_EQUAL pass and EQUAL fails |
| Filters.ComparisonsComplement | src/helper.js:50-61 | for ordered operands GREATER passes iff LESS_OR_EQUAL fails, and LESS iff GREATER_OR_EQUAL fails |
| Filters.StringFieldsCompareAsText | src/helper.js:50-57 | on a non-coerced field "9" is GREATER than "10" |
| Filters.QuantityCoercionDiffers | src/graphql/helpers.js:9-19 | "ilosc" is numeric for the gRPC variant but not for the GraphQL one |
| Filters.GraphQlTriggersOnAsciiFields | src/graphql/helpers.js:9-29 | on fields without "ś" and "ł" only the `waga.*`, `wymiary`, `data_utworzenia` and `terminy.przewidywane_dostarczenie` triggers can fire |
| Filters.GrpcTriggers | src/helper.js:13-33 | numeric iff one of the six substrings occurs; date iff `data_utworzenia` or one of the three `terminy.*` substrings |
| Filters.SelectThrows | src/zleceniaResolver.js:72-74 | the filter throws iff some stored record's evaluation throws |
| Filters.SelectKeepsMatches | src/zleceniaResolver.js:72-74 | when the filter does not throw, every kept record is a stored record that matches, and every stored record that matches is kept |
| Filters.SelectAppend | src/zleceniaResolver.js:72-74 | filtering `a + b` is filtering `a`, then `b`, and concatenating: kept records stay in stored order, each as often as stored, and a throw in either part throws |
| Filters.SelectSnoc | src/zleceniaResolver.js:72-74 | one more stored record is appended to the result exactly when it matches, and makes the filter throw when its evaluation throws |
| Filters.SelectNoClauses | src/graphql/resolvers.js:19-21 | an empty clause list keeps every record |
| Query.FilterStep | src/graphql/resolvers.js:19-21 | without a filter every record is kept; kept records are stored records that match |
| Query.SortStep | src/graphql/resolvers.js:23-31 | sorting is a permutation |
| Query.PageStep | src/graphql/resolvers.js:33-36 | the page is no longer than its input and holds only its elements |
| Query.Pipeline | src/graphql/resolvers.js:16-40 | a list returns only stored records that pass the filter, no more than are stored, and cannot throw without a filter |
| Query.RunList | src/graphql/resolvers.js:16-40 | the step-by-step reassignment of `result` computes `Pipeline` |
| Query.ListThrows | src/graphql/resolvers.js:16-40 | a list throws iff a filter is given and some stored record's evaluation throws |
| Query.ListBounded | src/graphql/resolvers.js:33-36 | a non-negative page returns at most `limit` records, and none past the end |
| Query.ListEverything | src/graphql/resolvers.js:16-40 | without filter, sort or page the stored records come back as they are |
| Query.ListUnsortedAppend | src/graphql/resolvers.js:16-21 | without sort or page a filtered list keeps stored order and multiplicity: one more stored record is appended to the listing exactly when it passes, and makes the list throw when its evaluation throws |
| Query.SliceKeepsOrder | src/graphql/resolvers.js:35 | a page is a contiguous window of the sorted records |
| Query.ListSortedByStrings | src/graphql/resolvers.js:23-37 | with string sort keys the page comes back ascending for "ASC" and descending otherwise |
| Projection.Project | src/zleceniaResolver.js:4-35 | a node of the literal builds an object |
| Projection.ProjectFields | src/zleceniaResolver.js:4-35 | the built object has only the literal's keys |
| Projection.ProjectThrows | src/zleceniaResolver.js:4-35 | a projection throws iff the record does not fit the literal's nesting |
| Projection.FieldsThrow | src/zleceniaResolver.js:4-35 | the same for a list of fields |
| Projection.ProjectCopiesListedFields | src/zleceniaResolver.js:4-35 | the reply has only the listed keys; a leaf that reads a defined value is copied and one reading undefined is left out; a nested literal holds the projection of the nested value on its own literal |
| Projection.ProjectIdempotent | src/zleceniaResolver.js:4-35 | projecting a projection again gives the same object |
| Projection.FieldsIdempotent | src/zleceniaResolver.js:4-35 | the same for a list of fields |
| Projection.MapZlecenie | src/zleceniaResolver.js:4-35 | `mapZlecenie` yields an object or throws |
| Projection.MapKontener | src/kontenerReslover.js:4-29 | `mapKontener` yields an object or throws |
| Projection.MapTowar | src/towarResolver.js:4-12 | `mapTowar` yields an object or throws |
| Projection.ShapesWellFormed | src/kontenerReslover.js:4-29 | every literal has distinct keys at each level |
| Projection.MapIdempotent | src/zleceniaResolver.js:4-35 | each of the three maps, applied twice, equals applying it once |
| Projection.MapTowarCopies | src/towarResolver.js:4-12 | `mapTowar` throws only on undefined/null and copies exactly the five listed properties the record has |
| Projection.MapZlecenieNeedsRoute | src/zleceniaResolver.js:19-33 | an order without `trasa` cannot be mapped |
| Store.KeyOf | src/graphql/resolvers.js:104 | a record's key is defined iff it has the property, and then it is that property's value |
| Store.FindIndex | src/graphql/resolvers.js:215 | `findIndex` gives the first position whose key is `===` the searched one, or -1 iff there is none |
| Store.Find | src/graphql/resolvers.js:104 | `find` returns a record iff one holds the key, and then the first stored record holding it |
| Store.RemoveAt | src/graphql/resolvers.js:249 | `splice(i, 1)` drops exactly the element at `i` and keeps the rest in order |
| Store.AppendUnique | src/graphql/resolvers.js:190-199 | appending under an absent key keeps keys unique |
| Store.AppendThenFind | src/graphql/resolvers.js:190-199 | a record appended under an absent non-object key is what a lookup then finds |
| Store.RemoveFound | src/graphql/resolvers.js:240-249 | with unique keys, after a delete a second delete of the key finds nothing |
| Store.ReplaceOnlyThere | src/graphql/resolvers.js:224 | index assignment changes that one position; the length and all other entries stay |
| GraphQl.Lookup | src/graphql/resolvers.js:102-116 | "404" iff no record holds the key; otherwise the first record holding it |
| GraphQl.CreateOrder | src/graphql/resolvers.js:166-204 | a created order passed all four checks in order and had a new number, and is appended once; on any other reply the array is unchanged |
| GraphQl.CreateOrderAsWrittenThrows | src/graphql/resolvers.js:181 | with a valid number and tax number, a route without "port_załadunku" makes the creation throw, and nothing is stored |
| GraphQl.CreateOrderAsIntendedAppends | src/graphql/resolvers.js:166-204 | reading "port_zaladunku", a valid order with a new number is appended once, keys stay unique and a lookup finds it |
| GraphQl.GraphQlApi.Zlecenia | src/graphql/resolvers.js:16-40 | the orders query is the list pipeline over the stored orders, which it leaves untouched |
| GraphQl.GraphQlApi.Kontenery | src/graphql/resolvers.js:42-66 | the containers query is the list pipeline over the stored containers |
| GraphQl.GraphQlApi.Towary | src/graphql/resolvers.js:68-92 | the goods query is the list pipeline over the stored goods |
| GraphQl.GraphQlApi.Zlecenie | src/graphql/resolvers.js:94-118 | "400" for a malformed number before any lookup; else "404" or the first match |
| GraphQl.GraphQlApi.Kontener | src/graphql/resolvers.js:120-144 | "400" for a malformed container number; else "404" or the first match |
| GraphQl.GraphQlApi.Towar | src/graphql/resolvers.js:146-162 | no format check: "404" or the first match |
| GraphQl.GraphQlApi.CreateZlecenie | src/graphql/resolvers.js:166-204 | reply and new orders array are `CreateOrder` with the key the code reads; the other arrays are unchanged |
| GraphQl.GraphQlApi.UpdateZlecenie | src/graphql/resolvers.js:206-229 | "400" or "404" with nothing changed; else the first match is replaced whole by the input |
| GraphQl.GraphQlApi.DeleteZlecenie | src/graphql/resolvers.js:231-255 | "400" or "404" with `success: false` and nothing changed; else the first match is spliced out and code "200" |
| GraphQl.GraphQlApi.CreateKontener | src/graphql/resolvers.js:257-280 | "400" for a malformed number, "409" for a duplicate, each with nothing changed; else the input is appended |
| GraphQl.GraphQlApi.UpdateKontener | src/graphql/resolvers.js:282-305 | "400"/"404" with nothing changed; else wholesale replacement of the first match |
| GraphQl.GraphQlApi.DeleteKontener | src/graphql/resolvers.js:307-331 | "400"/"404" with nothing changed; else the first match is spliced out |
| GraphQl.GraphQlApi.CreateTowar | src/graphql/resolvers.js:333-348 | only a duplicate number is refused ("409", nothing changed); anything else is appended |
| GraphQl.GraphQlApi.UpdateTowar | src/graphql/resolvers.js:350-365 | "404" with nothing changed; else wholesale replacement of the first match |
| GraphQl.GraphQlApi.DeleteTowar | src/graphql/resolvers.js:367-383 | "404" with nothing changed; else the first match is spliced out |
| Grpc.Answer | src/zleceniaResolver.js:62-65 | a mapped reply is the projected object, or a throw when the projection throws |
| Grpc.MapAll | src/zleceniaResolver.js:92 | `result.map(map)` projects every record in order, and throws iff some projection throws |
| Grpc.ListResponse | src/zleceniaResolver.js:68-94 | `total_count` equals the number of returned items; each item is the projection of a listed stored record; a throwing filter makes the call throw |
| Grpc.ListedItemsAreMapped | src/zleceniaResolver.js:92-93 | the returned items are already in reply form: mapping them again changes nothing |
| Grpc.MappedAgain | src/zleceniaResolver.js:92 | mapping records that project onto themselves returns them |
| Grpc.OrderService.GetZlecenie | src/zleceniaResolver.js:38-66 | "400" for an empty number, "404" when absent, else the mapped first match (which may throw) |
| Grpc.OrderService.ListZlecenia | src/zleceniaResolver.js:68-94 | the reply is `ListResponse` over the stored orders |
| Grpc.OrderService.CreateZlecenie | src/zleceniaResolver.js:96-126 | a shallow copy is checked ("400"), then unique ("409"), each with nothing changed; else it is appended and the reply is its mapping, which may throw after the push |
| Grpc.OrderService.UpdateZlecenie | src/zleceniaResolver.js:128-158 | "400"/"404" with nothing changed; else the first match becomes `{ ...old, ...update }` and is answered mapped |
| Grpc.OrderService.DeleteZlecenie | src/zleceniaResolver.js:160-191 | "400"/"404" with nothing changed; else the first match is spliced out, `success: true`, "200" |
| Grpc.ContainerService.GetKontener | src/kontenerReslover.js:32-60 | "400" for an empty number, "404" when absent, else the mapped first match |
| Grpc.ContainerService.ListKontenery | src/kontenerReslover.js:62-88 | the reply is `ListResponse` over the stored containers |
| Grpc.ContainerService.CreateKontener | src/kontenerReslover.js:90-120 | "400"/"409" with nothing changed; else exactly the copy is appended and answered mapped |
| Grpc.ContainerService.UpdateKontener | src/kontenerReslover.js:122-152 | "400"/"404" with nothing changed; else shallow merge into the first match |
| Grpc.ContainerService.DeleteKontener | src/kontenerReslover.js:154-185 | "400"/"404" with nothing changed; else the first match is spliced out |
| Grpc.GoodsService.GetTowar | src/towarResolver.js:15-34 | no key check: "404" when absent, else the mapped first match |
| Grpc.GoodsService.ListTowary | src/towarResolver.js:36-62 | the reply is `ListResponse` over the stored goods |
| Grpc.GoodsService.CreateTowar | src/towarResolver.js:64-85 | only a duplicate number is refused ("409"); any other copy, even with an empty number, is appended |
| Grpc.GoodsService.UpdateTowar | src/towarResolver.js:87-108 | "404" with nothing changed; else shallow merge into the first match |
| Grpc.GoodsService.DeleteTowar | src/towarResolver.js:110-132 | "404" with nothing changed; else the first match is spliced out, "200" |
| Routes.DocKey | src/routes/teams/zlecenia.js:69 | `doc.wrapper.key` throws iff the document is null or lacks a non-null wrapper |
| Routes.HitIsWrapped | src/routes/teams/zlecenia.js:106-116 | a document matched on a defined key has an object wrapper |
| Routes.ScanDocs | src/routes/teams/zlecenia.js:106 | `findIndex` stops at the first match; it throws at the first malformed document before any match; it finds nothing iff every document passes |
| Routes.AppendedIsFound | src/routes/teams/zlecenia.js:146-154 | after an add under a new key, a lookup of that key finds the appended document |
| Routes.RemovedIsGone | src/routes/teams/zlecenia.js:178-188 | after a delete of a key held once, the key is no longer found |
| Routes.Keep | src/routes/teams/zlecenia.js:34-36 | `filter` throws iff the callback throws on some document; otherwise a document is kept iff it is stored and accepted |
| Routes.KeepAppend | src/routes/teams/zlecenia.js:34-36 | filtering `a + b` is filtering `a`, then `b`, and concatenating: kept documents stay in file order, each as often as stored |
| Routes.KeepSnoc | src/routes/teams/zlecenia.js:34-36 | one more document is appended to the result exactly when the callback accepts it, and a throwing callback makes the filter throw |
| Routes.KeyTest | src/routes/towary.js:42-44 | the unit callback accepts exactly the documents whose `towar.jednostka === unit` |
| Routes.StatusTest | src/routes/teams/zlecenia.js:35 | the status callback throws unless the stored status is a string, and accepts iff its lower-cased form equals the parameter |
| Routes.StatusIgnoresCase | src/routes/teams/zlecenia.js:32-35 | an order whose status equals the parameter up to case is listed |
| Routes.HasRequired | src/routes/teams/zlecenia.js:139-141 | the required-field check passes iff every listed `body.wrapper?.key` is truthy |
| Routes.MergeWrapped | src/routes/teams/zlecenia.js:231-233 | the patched document has only the wrapper, whose properties are the patch's over the stored ones |
| Routes.MergeWithoutPatch | src/routes/teams/zlecenia.js:231-233 | a patch body without the wrapper object leaves a wrapper-only document unchanged |
| Routes.MergeWrappedIdempotent | src/routes/teams/zlecenia.js:231-233 | applying the same patch twice equals applying it once |
| Routes.ProductNeedsDiacriticQuantity | src/routes/towary.js:134-145 | a product body without the property "ilość" (with "ś") is refused, even when it has "ilosc" |
| Routes.OrderRoutes.ListOrders | src/routes/teams/zlecenia.js:29-62 | an empty or absent status lists every document; otherwise the case-insensitive matches, 404 when none, 500 when a status is not a string |
| Routes.OrderRoutes.GetOrder | src/routes/teams/zlecenia.js:64-94 | 200 with the first match, 404 when none, 500 when a document before it is malformed |
| Routes.OrderRoutes.PutOrderStatus | src/routes/teams/zlecenia.js:96-134 | a falsy status is 400 before loading; else 404/500 with the file unchanged, or only `zlecenie.status` of the first match changes |
| Routes.OrderRoutes.AddOrder | src/routes/teams/zlecenia.js:136-171 | a missing required field is 400; a duplicate number is 400 with no change; otherwise exactly the body is appended, 201 |
| Routes.OrderRoutes.DeleteOrder | src/routes/teams/zlecenia.js:173-205 | 404/500 with no change, else the first match is spliced out |
| Routes.OrderRoutes.PatchOrder | src/routes/teams/zlecenia.js:207-258 | an empty body is 400 before loading; else 404/500 with no change, or the first match is replaced by its wrapped merge |
| Routes.ContainerRoutes.ListContainers | src/routes/kontenery.js:28-47 | 200 with the first `min(20, n)` documents in stored order |
| Routes.ContainerRoutes.GetContainer | src/routes/kontenery.js:49-77 | the lookup uses `kontener.numer_zlecenia`: 200 with the first match, 404 or 500 |
| Routes.ContainerRoutes.AddContainer | src/routes/kontenery.js:79-115 | both numbers required (400); uniqueness on the order number (400, no change); else exactly the body is appended |
| Routes.ContainerRoutes.PatchContainer | src/routes/kontenery.js:117-151 | 404/500 with no change, or the first match by order number is replaced by its wrapped merge |
| Routes.ContainerRoutes.DeleteContainer | src/routes/kontenery.js:153-182 | 404/500 with no change, or the first match is removed and the length drops by one |
| Routes.GoodsRoutes.ListProducts | src/routes/towary.js:32-81 | with a non-empty unit, the documents whose unit is exactly that string, 404 when none, 500 when one is malformed; else every document |
| Routes.GoodsRoutes.GetProduct | src/routes/towary.js:83-125 | 200 with the first match, 404 or 500 |
| Routes.GoodsRoutes.AddProduct | src/routes/towary.js:127-178 | four required fields (400); a duplicate number is 400 with no change; else exactly the body is appended, 201 |
| Routes.GoodsRoutes.PutProduct | src/routes/towary.js:180-233 | the required fields are checked before the lookup; then 404/500 with no change, or the match is replaced whole, whatever number the body carries |
| Routes.GoodsRoutes.PatchProduct | src/routes/towary.js:235-277 | 404/500 with no change, or the first match is replaced by its wrapped merge |
| Routes.GoodsRoutes.DeleteProduct | src/routes/towary.js:279-330 | 404/500 with no change, or the first match is spliced out |

## Left out

- File I/O in the routes is not modelled. The data file is the class field `file`. A failed read, a failed write or unparsable JSON (each answered 500) are left out.
- A query parameter given twice (an array, whose `toLowerCase` throws) is left out. The route list handlers take the parameter as an optional string.
- `parseFloat`, `Number(...)` on strings and `new Date(...)` are parameters (`Runtime`), not implementations. The exact string-to-number and date-parsing algorithms are outside the model.
- `localeCompare` in `sortByField` is a parameter `collate`. The `Date` branch of `sortByField` is left out, because JSON data holds no `Date` objects.
- JSON numbers are modelled as integers. Fractional values and `-0` are left out.
- Arrays as JSON values are left out. Objects are maps from names to values, without a prototype, so `toString` and similar inherited properties are not modelled.
- Spreading a string (`{ ..."ab" }` gives indexed characters) is left out. `Json.Spread` gives `{}` for every non-object.
- Json.Get: a primitive's own properties, such as a string's `length` and its indices, read as undefined. A filter clause on `numer_zlecenia.length` therefore never matches in the model, while JavaScript reads the length.
- Text.StrLess (and through it Ordering.CompareStrings): strings are sequences of Unicode scalar values, not of UTF-16 code units. So `<` and `length` differ from JavaScript for characters outside the Basic Multilingual Plane (JavaScript orders "\u{10000}" before "\uFFFF"), and lone surrogates cannot occur.
- Validators.Permissive: on an object, JavaScript's `x.length > 0` also accepts a `length` that is a string or boolean converting to a positive number. The model accepts only a positive number. The gRPC handlers pass strings, so they never reach this case.
- Text.Lower: `toLowerCase` is modelled for ASCII and the Polish capital letters only; other characters are left as they are. Outside those letters JavaScript can also change the length ("\u0130", capital I with dot, lower-cases to two code units), so the row's "keeps the length" holds only for the modelled letters.
- Messages, `__typename`, headers and `_links` of the replies are left out. Only codes, records and the changed collections are kept.
- Concurrency is not modelled. Each handler runs atomically, so the lost update between overlapping load–modify–save cycles of the routes is not captured.
- Null entries in the GraphQL filter list and GraphQL's own input-type checking are left out. Inputs reach the resolvers as records.
- Network wiring, server start-up and signal handlers are outside the model, as are the schema and the custom `PositiveInt` scalar.
- Ordering.SortWith: stands for the engine's `Array.prototype.sort`. Its result is proved to be a permutation, and to be sorted under a total-preorder comparator. For comparators that are not preorders (undefined keys compare as 0 against everything), the engine's exact output order is not claimed.
- Ordering.QuerySortOrdersStrings: the order is proved only when every sort key is a string; keys of mixed types compare through JS `<` with the `toNumber` parameter.
- Ordering.SortByFieldOrdersNumbers: the order is proved for number keys only; string keys go through the `collate` parameter.

## Findings

| source | as written | input that shows it | evidently intended | confidence | as-written member | corrected member |
|---|---|---|---|---|---|---|
| src/graphql/resolvers.js:181 | `createZlecenie` reads the loading port from `trasa.port_załadunku` (with "ł"), but the input type `TrasaInput` declares `port_zaladunku` | an order with number "123456-7890", tax number "123-456-78-90" and a route `{ port_zaladunku: { kod_UNLOCODE: "PLGDN" }, port_docelowy: { kod_UNLOCODE: "DEHAM" } }`: reading `.kod_UNLOCODE` of undefined throws | read `trasa.port_zaladunku.kod_UNLOCODE`, so a valid new order is stored | not executed | GraphQl.CreateOrderAsWrittenThrows | GraphQl.CreateOrderAsIntendedAppends |

`GraphQl.CreateOrder` takes the loading-port key as a parameter. With the
key the code reads (`GraphQl.WrittenLoadingPort`), every route the input
type admits makes the mutation throw; `GraphQl.GraphQlApi.CreateZlecenie`
keeps that behaviour. With the declared key (`GraphQl.SchemaLoadingPort`),
a valid order with a new number is appended once, and a lookup then finds it.

# KaamKhoj marketplace core in Dafny

KaamKhoj is a freelance marketplace front end. Nearly all of it is presentation. The logic with
checkable behaviour sits in `App.tsx`, and this project models four pieces of it.

- **The catalogue query of `MarketplaceView`.** It keeps the gigs that pass three tests:
  - the lower-cased search term is a substring of the lower-cased title or description;
  - the category equals the selected one, or the selection is `"all"`;
  - the basic package's price is at most the budget slider.

  It then sorts the survivors with a comparator. `"price_low"` sorts by ascending basic price,
  `"price_high"` by descending price, and every other option compares equal.
- **The detail-page lookup.** It is `LIST.find(x => x.id === id) || LIST[0]`, used for gigs,
  courses and forum posts.
- **The toast provider's list.** `addToast` appends a toast. Its timer later filters out every
  toast with that toast's id.
- **The "Post a Job" wizard.** A step counter runs from 1 to 3 and is driven by the Next, Back
  and Confirm & Post buttons.

Modules, one per concern:

- `Arrays`: `Array.prototype.filter` and `find` as functions on sequences, with their algebra.
- `Text`: ASCII `toLowerCase` and `String.prototype.includes`. Each has a reference
  characterisation: an occurrence at some index, where each character equals the text's or is
  the same letter in the other case.
- `Types`: the gig, package and toast records, with only the fields the core reads.
- `Marketplace`: the query. The comparator is expressed through a sort key, and the sort is a
  stable insertion sort.
- `MarketplaceProperties`: soundness and completeness of the filter, the ordering guarantees,
  and stability. It also proves that a stable sort's result is unique, so the model's insertion
  sort gives exactly what any stable sort with this comparator gives.
- `Lookup`: find-first-or-fallback.
- `Toasts`: the `ToastProvider` class, whose `toasts` sequence is reassigned by its methods.
- `PostJob`: the button state machine, and the `PostJobView` class, whose `step` field its
  handlers update.
- `Fixtures`: the shipped `MOCK_GIGS` catalogue, with example queries over it.

Sorting note: the comparator is handed to `Array.prototype.sort`. ECMAScript 2019 and later
require that sort to be stable. The model therefore sorts with a stable insertion sort.
`StableSortIsUnique` shows the choice of algorithm does not matter: any sequence that is ordered
by the comparator and keeps the catalogue order among equal keys is equal to `StableSort`'s
result.

One consequence of the toast model is worth stating. Ids come from `Date.now()`, so two toasts
raised within the same millisecond share an id. `DismissedRemovesExactlyId` then says the first
timer removes both toasts.

## Model

| member | source | states |
|---|---|---|
| Arrays.Filter | App.tsx:702-706 | the kept elements are exactly those of the input that satisfy the predicate, and there are no more of them than input elements |
| Arrays.FilterMultiplicity | App.tsx:702-706 | each kept value occurs exactly as often as in the input; each dropped value does not occur |
| Arrays.FilterIsSubsequence | App.tsx:702-706 | the result of `filter` is a subsequence of its input (order kept) |
| Arrays.FilterAppend | App.tsx:34 | filtering a concatenation is concatenating the filtered parts |
| Arrays.FilterKeepsAll | App.tsx:702-706 | when every element passes, `filter` returns its input unchanged |
| Arrays.FilterIdempotent | App.tsx:34 | filtering twice by the same predicate is filtering once |
| Arrays.FilterExtensional | App.tsx:702-706 | predicates that agree on the input give the same result |
| Arrays.FindIndex | App.tsx:594 | returns the least index whose element satisfies the predicate, or None exactly when none does |
| Arrays.Find | App.tsx:594 | returns undefined (None) exactly when no element satisfies the predicate; otherwise it returns the first element that does |
| Text.LowerChar | App.tsx:703 | the folded character is never an ASCII capital, a capital becomes the small letter of the same name, and non-capitals are unchanged |
| Text.LowerCharAgreeIff | App.tsx:703 | two characters fold to the same character exactly when they are equal or one is the capital of the other |
| Text.Lower | App.tsx:703 | `toLowerCase` keeps the length and folds each character independently |
| Text.LowerIsLowerCase | App.tsx:703 | the result of `toLowerCase` has no capitals, and lowering is idempotent |
| Text.LowerOfLowerCase | App.tsx:703 | a string with no capitals is its own lower case |
| Text.IncludesIff | App.tsx:703 | `includes(t)` holds if and only if `t` occurs at some index |
| Text.IncludesEmpty | App.tsx:703 | every string includes the empty string |
| Text.ContainsIgnoringCaseIff | App.tsx:703 | the lowered-includes test holds if and only if, at some index, each needle character equals the text character or is the same letter in the other case |
| Text.ContainsIgnoresCase | App.tsx:703 | lowering the term or the text before the search does not change its outcome |
| Text.ContainsLowerCaseTerm | App.tsx:703 | a term without capitals is searched for as written in the lowered text |
| Text.ContainsEmpty | App.tsx:703 | the empty search term matches every text |
| Marketplace.Compare | App.tsx:707-711 | the comparator's if-chain equals the difference of the option's sort key (price, negated price, or 0) |
| Marketplace.InsertSorted | App.tsx:707-711 | inserting into a sorted list keeps it sorted and adds exactly the inserted gig |
| Marketplace.InsertTies | App.tsx:707-711 | the inserted gig lands ahead of the gigs that share its key, and every other key's gigs keep their order |
| Marketplace.StableSortSorted | App.tsx:707-711 | the sort orders by the comparator and is a permutation of its input |
| Marketplace.StableSortKeepsTies | App.tsx:707-711 | for every key, the gigs with that key appear in input order (stability) |
| MarketplaceProperties.SortedTiesDetermine | App.tsx:707-711 | two sequences ordered by the same key with the same per-key order are equal |
| MarketplaceProperties.StableSortIsUnique | App.tsx:707-711 | every ordered, stable arrangement of the filtered gigs is the one the model computes |
| MarketplaceProperties.FilteredGigsSound | App.tsx:702-706 | every listed gig passes the text test (title or description), the category test and the inclusive price test together |
| MarketplaceProperties.FilteredGigsExact | App.tsx:702-706 | the listing holds exactly the passing catalogue gigs, each as often as in the catalogue, and is no longer than the catalogue |
| MarketplaceProperties.NeutralQueryKeepsCatalogue | App.tsx:703-705 | an empty term, `"all"` and a ceiling no basic price exceeds keep every gig, in catalogue order before sorting |
| MarketplaceProperties.PriceLowAscending | App.tsx:708 | with `"price_low"`, adjacent results have non-decreasing basic price |
| MarketplaceProperties.PriceHighDescending | App.tsx:709 | with `"price_high"`, adjacent results have non-increasing basic price |
| MarketplaceProperties.PriceTiesKeepCatalogueOrder | App.tsx:707-709 | under either price sort, gigs of equal basic price appear in catalogue order |
| MarketplaceProperties.OtherSortKeepsCatalogueOrder | App.tsx:710 | for any other option (`"recommended"`, `"newest"`) the comparator is 0 and the result is the filtered catalogue in catalogue order |
| MarketplaceProperties.CheaperMatchComesFirst | App.tsx:702-708 | under `"price_low"`, of two matching catalogue gigs the cheaper is listed, and listed before the dearer |
| Lookup.FindByIdOrFirst | App.tsx:594 | the result is in the list; it is the first element with the id when one exists, else element 0 |
| Lookup.LookupOwnId | App.tsx:986 | with distinct ids, looking up an element's own id returns that element |
| Toasts.ToastProvider.constructor | App.tsx:29 | the provider starts with no toasts |
| Toasts.ToastProvider.AddToast | App.tsx:31-33 | exactly one toast with the given id, type and message is appended, and the earlier toasts are unchanged |
| Toasts.ToastProvider.Dismiss | App.tsx:34 | the list becomes the old list without the toasts carrying the id |
| Toasts.DismissedRemovesExactlyId | App.tsx:34 | dismissal removes every toast with the id, keeps each other toast with its multiplicity, and keeps order |
| Toasts.AddThenDismiss | App.tsx:33-34 | adding a toast with a fresh id and then dismissing that id restores the earlier list |
| Toasts.DismissAfterAdd | App.tsx:33-34 | a toast added later survives an earlier toast's dismissal unless it shares the id |
| Toasts.DismissIdempotent | App.tsx:34 | dismissing an id twice equals dismissing it once |
| PostJob.Run | App.tsx:852-853 | pressing only buttons the current step renders, starting inside 1..3, never leaves 1..3 |
| PostJob.RunAppend | App.tsx:852-853 | a run of two press sequences is the second run from the step where the first ended |
| PostJob.NextThenBack | App.tsx:852-853 | after Next (button at App.tsx:892) the Back button (App.tsx:920) is shown, and Next then Back returns to the starting step |
| PostJob.SubmitOnlyFromReview | App.tsx:941 | from step 1, Confirm & Post can be pressed only after reaching step 3 |
| PostJob.PostJobView.constructor | App.tsx:847 | the wizard starts on step 1 |
| PostJob.PostJobView.HandleNext | App.tsx:852 | Next, pressed where it is rendered (steps 1 and 2), advances one step and stays within 1..3 |
| PostJob.PostJobView.HandleBack | App.tsx:853 | Back, pressed where it is rendered (steps 2 and 3), goes back one step and stays within 1..3 |
| PostJob.PostJobView.HandleSubmit | App.tsx:854-857 | Confirm & Post appends one success toast "Job Posted Successfully!" and leaves the step unchanged |
| Fixtures.EmptySearchSortedByPrice | constants.tsx:122-218 | an empty term, `"all"`, 100000 and `"price_low"` list g4, g3, g1, g2, g5 |
| Fixtures.InitialViewShowsCatalogue | App.tsx:687-691 | the first-rendered query (empty term, `"all"`, 100000, `"recommended"`) lists the catalogue unchanged |
| Fixtures.DesignMatches | constants.tsx:122-218 | `"design"` occurs, ignoring case, in g1's description and g3's title |
| Fixtures.DesignAllCategoriesVerdicts | constants.tsx:122-218 | with `"all"`, g1 and g3 pass the `"design"` query |
| Fixtures.DesignCategoryVerdicts | constants.tsx:122-218 | with the `"design"` category, g1 and g3 pass the `"design"` query |
| Fixtures.DesignCategoryListing | constants.tsx:122-218 | `"design"` within the `"design"` category, 100000 and `"price_low"` list exactly g3 then g1 |
| Fixtures.OtherCategories | constants.tsx:122-218 | g2, g4 and g5 fail the `"design"` category test |
| Fixtures.FirstAndThirdOfFive | App.tsx:702-711 | in a five-gig catalogue where only the first and third pass and the third is cheaper, `"price_low"` lists the third and then the first |
| Fixtures.GigDetailLookup | App.tsx:594 | the detail page for `"g3"` shows g3; an unknown id falls back to g1 |

## Left out

- JSX rendering, routing, navigation and the scroll listener: presentation only.
- The generative-text service module: remote calls with canned fallbacks, no checkable logic.
- The analytics chart: floating-point SVG geometry.
- Timers: the three-second auto-dismiss is modelled as a separate `Dismiss` call. The 1.5 s login delay is not modelled.
- `Date.now()` ids: the clock is not modelled. `AddToast` takes the id as a parameter.
- `handleSubmit`'s `navigate('/dashboard')`: routing, not modelled.
- The wizard's form fields (`formData`): they are never read by any handler.
- The URL-parameter effect that pre-fills the search and category: routing input, not modelled.
- localStorage, `matchMedia`, `JSON.parse`, and number and URI formatting: I/O and library formatting.
- The delivery-time and job-type checkboxes: they are not wired to the query.
- Text.Lower: ASCII A–Z folding only. The full Unicode `toLowerCase` mapping is not modelled.
- Types.Gig: only id, title, description, category and the packages' id, name and price are kept. The other fields do not influence the core.
- Lookup.FindByIdOrFirst: requires a non-empty list. On an empty list the source produces `undefined`, and the detail pages would then fail when they read its fields; all three shipped lists are non-empty.
- Fixtures.DesignAllCategoriesVerdicts: this states that g1 and g3 pass the `"design"`/`"all"` query, and `CheaperMatchComesFirst` places g3 before g1. It does not state that the listing is exactly `[g3, g1]`. That would also need g2, g4 and g5 to fail the text test, i.e. an absence proof over their full literal texts, which the verifier cannot evaluate within its resource bound.
- PostJob.PostJobView.HandleNext and HandleBack: the handlers themselves do not check the step. The precondition records that each button is rendered only on the steps listed.

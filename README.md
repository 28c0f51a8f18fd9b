# Client-side listing search of the real-estate search bar

This project models the search logic of the `SearchBar` component in
`resources/js/components/Chercher.tsx`. The component is the search bar of a
real-estate classifieds site. It covers three pieces:

- the starting state the bar takes from the page's `initialFilters`: the free-text query, the
  property type (looked up in the fixed `propertyTypes` table) and the city slug;
- the `Filters` object that `handleSearch` builds from that state;
- `filterPostsClientSide`, which keeps the listings ("posts") that pass
  three guards on title text, property type and city slug.

All of it is pure, so the model is made of datatypes, functions and lemmas:

- `wrappers.dfy`: `Option` for the optional fields (`None` is `undefined`). It also holds
  `Truthiness`, the JavaScript truthiness of an optional string (`undefined` and `""` are falsy) and the
  `x || fallback` idiom.
- `text.dfy`: `toLowerCase` (ASCII letters) and `includes` (a contiguous piece), with the lemmas about them that the
  filter needs.
- `posts.dfy`: `Post`, `Filters`, the guard chain `Keep` and `FilterClientSide`, with
  soundness, completeness, order preservation, idempotence and the
  falsy-equals-absent laws.
- `categories.dfy`: the `propertyTypes` table, `find`, and the resolution of the initial
  category.
- `search_bar.dfy`: the component's selection state, its initial value and `handleSearch`'s
  filter construction. Its lemmas tie a submitted search back to the
  page's initial filters.
- `scenarios.dfy`: worked examples on two listings.

Three behaviours of the code:

- The query is never trimmed. A query made only of spaces is a live guard: it keeps the
  posts whose title contains that run of spaces (`Posts.SpacesQueryIsActive`,
  `Scenarios.SpaceQueryIsNotIgnored`). Only the empty string switches the
  text guard off.
- The category ids are the French ones of the table (`all`, `appartement`, `maison`,
  `terrain`, `bureau`, `hotel`).
- An unknown id is turned into "all" only when the initial category is resolved (lines 50-52). `filterPostsClientSide` itself compares
  whatever category it receives, but `handleSearch` only ever passes ids of the table
  (`SearchBar.BuiltCategoryIsKnown`).

## Model

| member | source | states |
|---|---|---|
| `Truthiness.Truthy` | resources/js/components/Chercher.tsx:117-127 | the three `if (filters.x)` tests treat exactly `undefined` and the empty string as falsy; every other string, spaces included, is truthy |
| `Truthiness.OrElse` | resources/js/components/Chercher.tsx:49-53 | the JavaScript fallback idiom on an optional string yields the value when it is a non-empty string and the fallback when it is undefined or empty; an empty result means both were falsy |
| `Text.LowerChar` | resources/js/components/Chercher.tsx:117 | a lower-cased character is never an upper-case letter; `A`..`Z` move to `a`..`z`, anything else is unchanged |
| `Text.Lower` | resources/js/components/Chercher.tsx:117 | `toLowerCase` keeps the length and maps each position through `LowerChar`, so no upper-case letter is left |
| `Text.Includes` | resources/js/components/Chercher.tsx:117 | `includes` holds exactly when the needle occurs at some position of the haystack as a contiguous slice |
| `Text.LowerIdempotent` | resources/js/components/Chercher.tsx:117 | lower-casing twice equals lower-casing once |
| `Text.IncludesSurvivesLowering` | resources/js/components/Chercher.tsx:117 | a title that contains the query verbatim still contains it once both are lower-cased by the model's per-character lower-casing |
| `Text.SpacesMatchVerbatim` | resources/js/components/Chercher.tsx:117 | for a query made of spaces, matching after lower-casing is the same as matching the raw title |
| `Posts.Keep` | resources/js/components/Chercher.tsx:115-132 | the early-return callback keeps a post iff the case-folded query is included in the title when the query is truthy, the type equals the category when it is truthy, and the city slug equals the city when it is truthy |
| `Posts.KeepMeansActiveGuards` | resources/js/components/Chercher.tsx:115-132 | the early-return predicate accepts a post iff every active guard holds: the query occurs (case-folded) in the title, the type equals the category, the city slug equals the city |
| `Posts.FilterClientSide` | resources/js/components/Chercher.tsx:114-133 | the result is no longer than the input; every kept post is in the input and passes the guard chain; every passing input post is kept |
| `Posts.FilterCounts` | resources/js/components/Chercher.tsx:114-133 | a passing post is kept exactly as many times as it occurs in the input, a failing one never |
| `Posts.FilterSoundAndComplete` | resources/js/components/Chercher.tsx:115-132 | a post is in the result iff it is in the input and satisfies all active guards |
| `Posts.FilterIsStable` | resources/js/components/Chercher.tsx:114-115 | the result is the input restricted to increasing positions, in the input's order, and those positions are exactly the positions of passing posts |
| `Posts.StableSelectionIsFilter` | resources/js/components/Chercher.tsx:114-133 | conversely, any subsequence taken in order at exactly the positions of the passing posts is the filter's result, so order and membership determine it |
| `Posts.FilterCons` | resources/js/components/Chercher.tsx:115-132 | each post is kept or dropped on its own, in front of the filtered rest |
| `Posts.FilterAppend` | resources/js/components/Chercher.tsx:114-115 | filtering a concatenation is concatenating the filtered parts |
| `Posts.FalsyFieldsAreAbsent` | resources/js/components/Chercher.tsx:117-127 | filters that agree on which fields are truthy, and on their truthy values, select the same posts: an empty field behaves as an undefined one |
| `Posts.NoActiveGuardIsIdentity` | resources/js/components/Chercher.tsx:117-131 | with no truthy query, category or city the input comes back unchanged |
| `Posts.FilterIdempotent` | resources/js/components/Chercher.tsx:114-133 | filtering the result again with the same filters returns it unchanged |
| `Posts.SpacesQueryIsActive` | resources/js/components/Chercher.tsx:117 | a non-empty query of spaces is not trimmed away: it keeps exactly the posts whose title contains that run of spaces |
| `Posts.VerbatimTitleMatchPasses` | resources/js/components/Chercher.tsx:117-131 | under the model's per-character lower-casing, a post whose title contains the query in the same case, and that passes the other active guards, is kept |
| `Categories.Find` | resources/js/components/Chercher.tsx:51 | `find` returns an entry of the table carrying the id when there is one, the first entry when it matches, and nothing exactly when no entry has the id; the entry returned is the first one with the id, every earlier entry having another id |
| `Categories.PropertyTypeIdsUnique` | resources/js/components/Chercher.tsx:18-25 | no two entries of the property-type table share an id |
| `Categories.FindReturnsTheEntry` | resources/js/components/Chercher.tsx:51 | in a table with distinct ids, looking up an entry's id returns that entry |
| `Categories.ResolveInitialCategory` | resources/js/components/Chercher.tsx:50-52 | the initial category is always a table entry: the one whose id is the requested category, or `all` when the field is missing or empty, and entry 0 (`all`) when no id matches |
| `SearchBar.InitialSelection` | resources/js/components/Chercher.tsx:49-53 | the initial query and city are the page's values when non-empty and empty otherwise; the initial category is the resolved table entry |
| `SearchBar.BuildFilters` | resources/js/components/Chercher.tsx:79-83 | the query passes through as typed; category `all` becomes absent and any other id passes verbatim; an empty city becomes absent and any other passes verbatim |
| `SearchBar.SubmittedSearchKeeps` | resources/js/components/Chercher.tsx:79-132 | a submitted search keeps a post iff (empty query or the case-folded query occurs in the title) and (category `all` or type equals the selected id) and (empty city or the slug equals it) |
| `SearchBar.BuiltCategoryIsKnown` | resources/js/components/Chercher.tsx:79-83 | an active category guard built from a table entry always tests a real, non-catch-all property type |
| `SearchBar.DefaultSearchKeepsAll` | resources/js/components/Chercher.tsx:49-83 | searching from the state built from empty initial filters returns every post, in order |
| `SearchBar.SubmitInitialMatchesInitialFilters` | resources/js/components/Chercher.tsx:49-83 | submitting the initial state unchanged filters exactly as the page's initial filters would if applied directly, when their category is missing, empty or a known non-`all` id |
| `SearchBar.UnknownInitialCategoryIsDropped` | resources/js/components/Chercher.tsx:50-83 | an initial category that is `all` or not in the table leads to a search with no category guard |
| `Scenarios.QueryVilla` | resources/js/components/Chercher.tsx:114-133 | the query "villa" keeps "Villa Moderne" and drops "Appartement Centre" |
| `Scenarios.CategoryAppartement` | resources/js/components/Chercher.tsx:114-133 | the category "appartement" keeps only the apartment listing |
| `Scenarios.CategoryAllKeepsBoth` | resources/js/components/Chercher.tsx:79-133 | choosing the catch-all category filters nothing |
| `Scenarios.SpaceQueryIsNotIgnored` | resources/js/components/Chercher.tsx:114-133 | the query " " keeps the two titles with a space and drops the one-word title |

## Left out

- Text.Lower: models `toLowerCase` on the ASCII letters only. Accented capitals such as `É`, and the rest of Unicode case mapping, are left unchanged by the model, whereas JavaScript lower-cases them. The model's lower-casing also works character by character and keeps the length, whereas JavaScript's may lengthen a string (`İ` becomes `i` followed by a combining dot) and depends on context (a final `Σ` becomes `ς`).
- Text.IncludesSurvivesLowering: holds of the model's per-character lower-casing only. With JavaScript's context-dependent rules (the final sigma), a verbatim occurrence in the title need not survive lower-casing.
- Posts.VerbatimTitleMatchPasses: rests on `Text.IncludesSurvivesLowering`, so it too holds of the model's lower-casing only.
- The server-side search (`router.get('/recherche', …)`, lines 92-95) is a network call to code that is not part of this model. No client/server equivalence is stated.
- What `handleSearch` does with the filtered posts is left out. It writes them to the console (line 89), which is I/O.
- React state and effects are left out: the `useState` setters, the dropdown open/close toggles, the outside-click listener (lines 63-75), the Enter-key handler (lines 136-140) and all markup. They hold no search logic; the model takes a `Selection` value in their place.
- The icons of the property-type table are left out; they are presentation only.
- The `cities` list from the page props (lines 60, 241-254) only feeds the city dropdown. The model takes any city slug.
- Post properties other than `title`, `type` and `city_slug` are left out, because the search never reads them. The field `type` is named `postType`, since `type` is a Dafny keyword.
- The `posts.links` pagination metadata is left out, because the client-side search does not use it.
- The database schema of posts and likes, and the header component, are not part of this model. The like counter's consistency with the likes table, and a last-request-wins policy for searches, are not implemented in the code this model covers.

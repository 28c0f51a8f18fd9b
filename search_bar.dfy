/** The search bar's own state and the `Filters` it submits: the three
    selections it starts from (`searchQuery`, `selectedCategory`,
    `selectedCity`) and the filter object `handleSearch` builds from them. */
module SearchBar {
  import opened Wrappers
  import opened Truthiness
  import opened Text
  import opened Posts
  import opened Categories

  /** What the user has chosen: free text, an entry of the category table
      and a city slug (empty for "all cities"). */
  datatype Selection = Selection(query: string, category: PropertyType, city: string)

  /** The state the component starts in, from the page's `initialFilters`:
      the query and the city default to the empty string, the category is
      resolved against the table. */
  function InitialSelection(initialFilters: Filters): (s: Selection)
    ensures s.category in PropertyTypes
    ensures s.query != "" <==> Truthy(initialFilters.query)
    ensures s.city != "" <==> Truthy(initialFilters.city)
    ensures Truthy(initialFilters.query) ==> s.query == initialFilters.query.value
    ensures Truthy(initialFilters.city) ==> s.city == initialFilters.city.value
    ensures s.category == ResolveInitialCategory(initialFilters.category)
  {
    Selection(
      OrElse(initialFilters.query, ""),
      ResolveInitialCategory(initialFilters.category),
      OrElse(initialFilters.city, ""))
  }

  /** The `Filters` built by `handleSearch`: the query goes through as typed
      (never trimmed), the catch-all category becomes "no category", the
      empty city becomes "no city", anything else goes through verbatim. */
  function BuildFilters(s: Selection): (f: Filters)
    ensures f.query == Some(s.query)
    ensures f.category.None? <==> s.category.id == "all"
    ensures f.category.Some? ==> f.category.value == s.category.id
    ensures f.city.None? <==> s.city == ""
    ensures f.city.Some? ==> f.city.value == s.city
  {
    Filters(
      Some(s.query),
      if s.category.id != "all" then Some(s.category.id) else None,
      if s.city != "" then Some(s.city) else None)
  }

  /** What a submitted search keeps, in terms of the selection: an empty
      query, the catch-all category and the empty city each let every post
      through; otherwise the lower-cased query must occur in the lower-cased
      title, the type must be the selected id (never the literal "all") and
      the city slug must be the selected one. The selected category is
      always an entry of the table, which is how the component sets it. */
  lemma SubmittedSearchKeeps(p: Post, s: Selection)
    requires s.category in PropertyTypes
    ensures Keep(p, BuildFilters(s)) <==>
      && (s.query == "" || exists i :: OccursAt(Lower(p.title), Lower(s.query), i))
      && (s.category.id == "all" || p.postType == s.category.id)
      && (s.city == "" || p.citySlug == s.city)
  {
    KeepMeansActiveGuards(p, BuildFilters(s));
  }

  /** A filter built from a selection whose category comes from the table
      never carries "all" nor an unknown category: the category guard, when
      active, tests a real property type. */
  lemma BuiltCategoryIsKnown(s: Selection)
    requires s.category in PropertyTypes
    ensures Truthy(BuildFilters(s).category) ==>
      IsCategoryId(BuildFilters(s).category.value) && BuildFilters(s).category.value != "all"
  {
  }

  /** Searching from the untouched default state (no query, "all
      categories", no city) returns every post, in order. */
  lemma {:induction false} DefaultSearchKeepsAll(posts: seq<Post>)
    ensures FilterClientSide(posts, BuildFilters(InitialSelection(Filters(None, None, None)))) == posts
  {
    NoActiveGuardIsIdentity(posts, BuildFilters(InitialSelection(Filters(None, None, None))));
  }

  /** Submitting the initial state unchanged filters exactly as the page's
      `initialFilters` would if applied directly, as long as its category is
      missing, empty, or a real (non catch-all) id of the table. */
  lemma {:induction false} SubmitInitialMatchesInitialFilters(posts: seq<Post>, initialFilters: Filters)
    requires Truthy(initialFilters.category) ==>
      IsCategoryId(initialFilters.category.value) && initialFilters.category.value != "all"
    ensures FilterClientSide(posts, BuildFilters(InitialSelection(initialFilters)))
         == FilterClientSide(posts, initialFilters)
  {
    var f := BuildFilters(InitialSelection(initialFilters));
    FalsyFieldsAreAbsent(posts, f, initialFilters);
  }

  /** An initial category that is "all" or not in the table is dropped: the
      submitted search has no category guard, whatever posts it runs on. */
  lemma {:induction false} UnknownInitialCategoryIsDropped(posts: seq<Post>, initialFilters: Filters)
    requires Truthy(initialFilters.category)
    requires initialFilters.category.value == "all" || !IsCategoryId(initialFilters.category.value)
    ensures BuildFilters(InitialSelection(initialFilters)).category == None
    ensures FilterClientSide(posts, BuildFilters(InitialSelection(initialFilters)))
         == FilterClientSide(posts, initialFilters.(category := None))
  {
    var f := BuildFilters(InitialSelection(initialFilters));
    FalsyFieldsAreAbsent(posts, f, initialFilters.(category := None));
  }
}

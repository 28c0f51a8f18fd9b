/** Worked examples of the client-side search on two listings. */
module Scenarios {
  import opened Wrappers
  import opened Text
  import opened Posts
  import opened Categories
  import opened SearchBar

  const Villa := Post("Villa Moderne", "maison", "casablanca")
  const Flat := Post("Appartement Centre", "appartement", "rabat")
  const Listings := [Villa, Flat]

  /** A needle whose first character never appears in `hay` is not a piece
      of `hay`. */
  lemma AbsentFirstCharNotIncluded(hay: string, needle: string)
    requires needle != [] && needle[0] !in hay
    ensures !Includes(hay, needle)
  {
  }

  const VillaQuery := Filters(Some("villa"), None, None)

  lemma VillaTitleMatches()
    ensures Keep(Villa, VillaQuery)
  {
    assert Lower("Villa Moderne") == "villa moderne";
    VillaQueryIsLowerCase();
    assert "villa" <= "villa moderne";
  }

  lemma FlatTitleHasNoV()
    ensures 'v' !in Flat.title && 'V' !in Flat.title
  {
  }

  lemma VillaQueryIsLowerCase()
    ensures Lower("villa") == "villa"
  {
  }

  lemma FlatTitleDoesNotMatch()
    ensures !Keep(Flat, VillaQuery)
  {
    VillaQueryIsLowerCase();
    FlatTitleHasNoV();
    LowerMissesLetter(Flat.title, 'v');
    AbsentFirstCharNotIncluded(Lower(Flat.title), "villa");
  }

  /** The text guard alone, "villa": only the villa, whose title holds it
      in another case. */
  lemma QueryVilla()
    ensures FilterClientSide(Listings, VillaQuery) == [Villa]
  {
    VillaTitleMatches();
    FlatTitleDoesNotMatch();
    FilterCons(Villa, [Flat], VillaQuery);
    FilterCons(Flat, [], VillaQuery);
  }

  /** The category guard alone, "appartement": only the flat. */
  lemma CategoryAppartement()
    ensures FilterClientSide(Listings, Filters(None, Some("appartement"), None)) == [Flat]
  {
    FilterCons(Villa, [Flat], Filters(None, Some("appartement"), None));
  }

  /** The catch-all category of the drop-down filters nothing. */
  lemma CategoryAllKeepsBoth()
    ensures FilterClientSide(Listings, BuildFilters(Selection("", AllTypes, ""))) == Listings
  {
    NoActiveGuardIsIdentity(Listings, BuildFilters(Selection("", AllTypes, "")));
  }

  const Studio := Post("Studio", "appartement", "rabat")
  const SpaceQuery := Filters(Some(" "), None, None)

  /** A title with a space at position `i` contains the one-space query. */
  lemma SpaceAt(t: string, i: nat)
    requires i < |t| && t[i] == ' '
    ensures Includes(t, " ")
  {
    assert OccursAt(t, " ", i);
  }

  lemma VillaTitleHasSpace()
    ensures Keep(Villa, SpaceQuery)
  {
    SpaceAt(Villa.title, 5);
    SpacesQueryIsActive(Villa, " ");
  }

  lemma FlatTitleHasSpace()
    ensures Keep(Flat, SpaceQuery)
  {
    SpaceAt(Flat.title, 11);
    SpacesQueryIsActive(Flat, " ");
  }

  lemma OneWordTitleDoesNotMatch()
    ensures !Keep(Studio, SpaceQuery)
  {
    SpacesQueryIsActive(Studio, " ");
    AbsentFirstCharNotIncluded(Studio.title, " ");
  }

  lemma ListingsKeptBySpace()
    ensures FilterClientSide(Listings, SpaceQuery) == Listings
  {
    VillaTitleHasSpace();
    FlatTitleHasSpace();
    FilterCons(Villa, [Flat], SpaceQuery);
    FilterCons(Flat, [], SpaceQuery);
  }

  /** A query of one space is a live guard: both titles contain a space and
      stay, a one-word title goes. */
  lemma SpaceQueryIsNotIgnored()
    ensures FilterClientSide(Listings + [Studio], SpaceQuery) == Listings
  {
    ListingsKeptBySpace();
    OneWordTitleDoesNotMatch();
    FilterCons(Studio, [], SpaceQuery);
    FilterAppend(Listings, [Studio], SpaceQuery);
    assert Listings + [] == Listings;
  }
}

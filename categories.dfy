/** The fixed table of property types offered by the category drop-down and
    the lookup that turns the page's initial `category` into the selected
    entry. Icons are presentation only and are left out of an entry. */
module Categories {
  import opened Wrappers
  import opened Truthiness

  datatype PropertyType = PropertyType(id: string, name: string)

  /** `propertyTypes`, in display order; entry 0 is the catch-all. */
  const PropertyTypes: seq<PropertyType> := [
    PropertyType("all", "Toutes les catégories"),
    PropertyType("appartement", "Appartements"),
    PropertyType("maison", "Maisons"),
    PropertyType("terrain", "Terrains"),
    PropertyType("bureau", "Bureaux"),
    PropertyType("hotel", "Hôtels")
  ]

  /** The catch-all entry, `propertyTypes[0]`. */
  const AllTypes: PropertyType := PropertyTypes[0]

  /** Some entry of the table has this id. */
  predicate IsCategoryId(id: string)
  {
    exists k :: 0 <= k < |PropertyTypes| && PropertyTypes[k].id == id
  }

  /** `table.find(type => type.id === id)`: the first entry with that id,
      or nothing when no entry has it. */
  function Find(table: seq<PropertyType>, id: string): (r: Option<PropertyType>)
    ensures r.Some? ==> r.value.id == id && r.value in table
    ensures r.None? <==> forall k :: 0 <= k < |table| ==> table[k].id != id
    ensures r.Some? && table != [] && table[0].id == id ==> r.value == table[0]
    ensures r.Some? ==> exists k :: 0 <= k < |table| && table[k] == r.value &&
                                    forall j :: 0 <= j < k ==> table[j].id != id
  {
    if table == [] then None
    else if table[0].id == id then Some(table[0])
    else
      var rest := Find(table[1..], id);
      assert forall k :: 1 <= k < |table| ==> table[k] == table[1..][k - 1];
      if rest.Some? then
        var k :| 0 <= k < |table[1..]| && table[1..][k] == rest.value &&
                 forall j :: 0 <= j < k ==> table[1..][j].id != id;
        assert table[k + 1] == rest.value;
        rest
      else
        rest
  }

  /** No two entries of the table share an id, so a lookup by id can only
      return one entry. */
  lemma PropertyTypeIdsUnique()
    ensures forall k, l :: 0 <= k < l < |PropertyTypes| ==> PropertyTypes[k].id != PropertyTypes[l].id
  {
  }

  /** With distinct ids, `Find` returns the one entry that carries the id. */
  lemma {:induction false} FindReturnsTheEntry(table: seq<PropertyType>, k: nat)
    requires k < |table|
    requires forall i, j :: 0 <= i < j < |table| ==> table[i].id != table[j].id
    ensures Find(table, table[k].id) == Some(table[k])
  {
    if k > 0 {
      assert table[k] == table[1..][k - 1];
      FindReturnsTheEntry(table[1..], k - 1);
    }
  }

  /** The initial `selectedCategory`: `propertyTypes.find(type => type.id ===
      (initialFilters.category || 'all')) || propertyTypes[0]`. The result
      is always an entry of the table: the entry with the requested id when
      there is one, and the catch-all otherwise; a missing or empty category
      asks for the catch-all. */
  function ResolveInitialCategory(initialCategory: Option<string>): (r: PropertyType)
    ensures r in PropertyTypes
    ensures IsCategoryId(OrElse(initialCategory, "all")) ==> r.id == OrElse(initialCategory, "all")
    ensures !IsCategoryId(OrElse(initialCategory, "all")) ==> r == AllTypes
    ensures !Truthy(initialCategory) ==> r == AllTypes
  {
    match Find(PropertyTypes, OrElse(initialCategory, "all"))
    case Some(t) => t
    case None => AllTypes
  }
}

/** The filter dialog's draft state of src/components/FilterButton.tsx: the cuisine
    chip toggle and the reset button. The shape is `Filters` of src/hooks/useFilters.ts. */
module FilterButton {
  import opened Seqs

  datatype Filters = Filters(rating: real, priceLevel: seq<int>, cuisineTypes: seq<string>)

  /** `handleReset`: rating 0, all four price levels, no cuisines. */
  function Reset(): (f: Filters)
    ensures f.rating == 0.0 && f.priceLevel == [1, 2, 3, 4] && f.cuisineTypes == []
  {
    Filters(0.0, [1, 2, 3, 4], [])
  }

  /** `handleCuisineTypeChange`: drop every occurrence of a selected cuisine, or
      append an unselected one at the end. */
  function Toggle(f: Filters, cuisine: string): (g: Filters)
    ensures g.rating == f.rating && g.priceLevel == f.priceLevel
    ensures cuisine in f.cuisineTypes ==> cuisine !in g.cuisineTypes
    ensures cuisine !in f.cuisineTypes ==> g.cuisineTypes == f.cuisineTypes + [cuisine]
  {
    if cuisine in f.cuisineTypes then f.(cuisineTypes := Without(f.cuisineTypes, cuisine))
    else f.(cuisineTypes := f.cuisineTypes + [cuisine])
  }

  /** A toggle changes how often only the toggled cuisine occurs, and keeps the
      others in their order. */
  lemma ToggleKeepsOthers(f: Filters, cuisine: string, other: string)
    requires other != cuisine
    ensures Count(Toggle(f, cuisine).cuisineTypes, other) == Count(f.cuisineTypes, other)
    ensures cuisine in f.cuisineTypes ==> IsSubseq(Toggle(f, cuisine).cuisineTypes, f.cuisineTypes)
    ensures cuisine in f.cuisineTypes ==>
              Toggle(f, cuisine).cuisineTypes == Without(f.cuisineTypes, cuisine)
  {
    if cuisine in f.cuisineTypes {
      WithoutCount(f.cuisineTypes, cuisine, other);
      WithoutIsSubseq(f.cuisineTypes, cuisine);
    } else {
      CountPush(f.cuisineTypes, cuisine, other);
    }
  }

  /** Toggling an unselected cuisine twice restores the draft. */
  lemma ToggleTwiceRestores(f: Filters, cuisine: string)
    requires cuisine !in f.cuisineTypes
    ensures Toggle(Toggle(f, cuisine), cuisine) == f
  {
    var xs := f.cuisineTypes;
    WithoutConcat(xs, [cuisine], cuisine);
    WithoutAbsent(xs, cuisine);
    assert Without([cuisine], cuisine) == [];
    assert xs + [] == xs;
  }

  /** Toggling a selected cuisine twice moves it to the end, once. */
  lemma ToggleTwiceMovesToEnd(f: Filters, cuisine: string)
    requires cuisine in f.cuisineTypes
    ensures Toggle(Toggle(f, cuisine), cuisine).cuisineTypes == Without(f.cuisineTypes, cuisine) + [cuisine]
    ensures Count(Toggle(Toggle(f, cuisine), cuisine).cuisineTypes, cuisine) == 1
  {
    var r := Without(f.cuisineTypes, cuisine);
    CountPush(r, cuisine, cuisine);
  }
}

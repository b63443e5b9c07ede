/** The customer menu page: which dishes are listed, in what order, and the
    search suggestions. */
module HomePage {
  import opened Common
  import opened TextUtil
  import opened Collections

  /** A dish as the menu list holds it. */
  datatype MenuEntry = MenuEntry(name: string, description: string, category: Value, price: int, isAvailable: bool)

  /** The price range; no upper bound stands for `Infinity`. */
  datatype PriceRange = PriceRange(min: int, max: Option<int>)

  /** Available, and in the selected category when one is selected. */
  predicate InCategory(category: Value, item: MenuEntry)
  {
    item.isAvailable && (Falsy(category) || item.category == category)
  }

  predicate MatchesTerm(term: string, item: MenuEntry)
  {
    Contains(Lower(item.name), Lower(term)) || Contains(Lower(item.description), Lower(term))
  }

  predicate InRange(range: PriceRange, item: MenuEntry)
  {
    item.price >= range.min && (range.max.None? || item.price <= range.max.value)
  }

  /** The comparator of the price sort: `'asc'` by rising price, any other
      non-empty order by falling price. */
  function PriceBefore(sortOrder: string): (MenuEntry, MenuEntry) -> bool
  {
    (a: MenuEntry, b: MenuEntry) => if sortOrder == "asc" then a.price < b.price else b.price < a.price
  }

  lemma PriceBeforeIsStrictOrder(sortOrder: string)
    ensures StrictOrder(PriceBefore(sortOrder))
  {
  }

  function CategoryTest(category: Value): MenuEntry -> bool { item => InCategory(category, item) }

  function TermTest(term: string): MenuEntry -> bool { item => MatchesTerm(term, item) }

  function RangeTest(range: PriceRange): MenuEntry -> bool { item => InRange(range, item) }

  /** The filter stages of filteredItems: category and availability, then
      the search term when there is one, then the price range. */
  function Filtered(menu: seq<MenuEntry>, category: Value, term: string, range: PriceRange): seq<MenuEntry>
  {
    var byCategory := Filter(menu, CategoryTest(category));
    var bySearch := if term != "" then Filter(byCategory, TermTest(term)) else byCategory;
    Filter(bySearch, RangeTest(range))
  }

  /** filteredItems: the filter stages, then the sort when one is chosen. */
  function FilteredItems(menu: seq<MenuEntry>, category: Value, term: string, range: PriceRange, sortOrder: string): (r: seq<MenuEntry>)
  {
    var byPrice := Filtered(menu, category, term, range);
    if sortOrder != "" then SortBy(byPrice, PriceBefore(sortOrder)) else byPrice
  }

  /** The dish passes every filter. */
  predicate Listed(category: Value, term: string, range: PriceRange, item: MenuEntry)
  {
    InCategory(category, item) && (term == "" || MatchesTerm(term, item)) && InRange(range, item)
  }

  function ListedTest(category: Value, term: string, range: PriceRange): MenuEntry -> bool
  {
    item => Listed(category, term, range, item)
  }

  /** Available, in the category, and matching the term. */
  function CategoryTermTest(category: Value, term: string): MenuEntry -> bool
  {
    item => InCategory(category, item) && MatchesTerm(term, item)
  }

  /** The stages together keep, in menu order, the dishes that pass every filter. */
  lemma FilteredIsOneFilter(menu: seq<MenuEntry>, category: Value, term: string, range: PriceRange)
    ensures Filtered(menu, category, term, range) == Filter(menu, ListedTest(category, term, range))
  {
    if term != "" {
      FilterFilter(menu, CategoryTest(category), TermTest(term), CategoryTermTest(category, term));
      FilterFilter(menu, CategoryTermTest(category, term), RangeTest(range), ListedTest(category, term, range));
    } else {
      FilterFilter(menu, CategoryTest(category), RangeTest(range), ListedTest(category, term, range));
    }
  }

  /** The list holds exactly the dishes that pass every filter, as often as
      in the menu; prices rise for `'asc'`, fall for `'desc'`, and without a
      sort order the menu's own order is kept. */
  lemma FilteredItemsSpec(menu: seq<MenuEntry>, category: Value, term: string, range: PriceRange, sortOrder: string)
    ensures var r := FilteredItems(menu, category, term, range, sortOrder);
      && multiset(r) == multiset(Filter(menu, ListedTest(category, term, range)))
      && (forall item :: item in r <==> item in menu && Listed(category, term, range, item))
      && (sortOrder == "asc" ==> forall i, j :: 0 <= i < j < |r| ==> r[i].price <= r[j].price)
      && (sortOrder != "" && sortOrder != "asc" ==> forall i, j :: 0 <= i < j < |r| ==> r[i].price >= r[j].price)
      && (sortOrder == "" ==> r == Filter(menu, ListedTest(category, term, range)))
  {
    var listed := Filter(menu, ListedTest(category, term, range));
    FilteredIsOneFilter(menu, category, term, range);
    var r := FilteredItems(menu, category, term, range, sortOrder);
    if sortOrder != "" {
      PriceBeforeIsStrictOrder(sortOrder);
      SortBySorted(listed, PriceBefore(sortOrder));
    }
    forall item
      ensures item in r <==> item in listed
    {
      assert item in r <==> item in multiset(r);
      assert item in listed <==> item in multiset(listed);
    }
  }

  /** searchSuggestions: nothing for an empty term; otherwise the available
      dishes of the category whose name holds the term (the description is
      not searched). */
  function Suggestions(menu: seq<MenuEntry>, category: Value, term: string): (r: seq<MenuEntry>)
    ensures term == "" ==> r == []
    ensures term != "" ==> forall item :: item in r <==>
              item in menu && InCategory(category, item) && Contains(Lower(item.name), Lower(term))
  {
    if term != "" then
      Filter(Filter(menu, item => InCategory(category, item)), (item: MenuEntry) => Contains(Lower(item.name), Lower(term)))
    else []
  }

  lemma LowerBeef()
    ensures Lower("beef") == "beef"
  {
    assert forall i :: 0 <= i < 4 ==> !('A' <= "beef"[i] <= 'Z');
  }

  lemma DescriptionHoldsBeef()
    ensures Contains(Lower("beef noodle soup"), "beef")
  {
    var tail := " noodle soup";
    assert "beef noodle soup" == "beef" + tail;
    LowerAppend("beef", tail);
    LowerBeef();
    StartsWithAppend("beef", Lower(tail));
  }

  lemma StartsWithAppend(t: string, rest: string)
    ensures StartsWith(t + rest, t)
  {
    assert (t + rest)[..|t|] == t;
  }

  lemma NameLacksBeef()
    ensures !Contains(Lower("Pho"), "beef")
  {
    assert |Lower("Pho")| == 3;
  }

  /** A dish found only through its description is listed but not suggested. */
  lemma DescriptionMatchIsNotSuggested()
    ensures var item := MenuEntry("Pho", "beef noodle soup", Int(1), 40000, true);
      && FilteredItems([item], Null, "beef", PriceRange(0, None), "") == [item]
      && Suggestions([item], Null, "beef") == []
  {
    var item := MenuEntry("Pho", "beef noodle soup", Int(1), 40000, true);
    LowerBeef();
    DescriptionHoldsBeef();
    NameLacksBeef();
    assert Listed(Null, "beef", PriceRange(0, None), item);
    FilteredIsOneFilter([item], Null, "beef", PriceRange(0, None));
    assert Filter([item], ListedTest(Null, "beef", PriceRange(0, None))) == [item];
  }

  class MenuPage {
    var searchTerm: string
    var showSuggestions: bool
    var range: PriceRange
    var sortOrder: string

    constructor ()
      ensures searchTerm == "" && !showSuggestions && range == PriceRange(0, None) && sortOrder == ""
    {
      searchTerm := "";
      showSuggestions := false;
      range := PriceRange(0, None);
      sortOrder := "";
    }

    /** handleSearch: suggestions are shown exactly when the term is not empty. */
    method HandleSearch(term: string)
      modifies this`searchTerm, this`showSuggestions
      ensures searchTerm == term && (showSuggestions <==> term != "")
    {
      searchTerm := term;
      showSuggestions := term != "";
    }

    method HandlePriceChange(min: int, max: int)
      modifies this`range
      ensures range == PriceRange(min, Some(max))
    {
      range := PriceRange(min, Some(max));
    }

    method HandleSortChange(order: string)
      modifies this`sortOrder
      ensures sortOrder == order
    {
      sortOrder := order;
    }
  }
}

// src/components/ProductGrid/FilterBar.tsx: the filter panel beside the
// product grid. The selected category and the list of selected filter
// values belong to the grid and are changed through the panel's callbacks;
// they are fields of the panel's state here. The panel itself keeps which
// of its four sections are expanded and whether the mobile drawer is open.

module FilterBar {
  import Seqs
  import ProductGrid

  const SizeOptions: seq<string> := ["XS", "S", "M", "L", "XL"]
  const ColorOptions: seq<string> := ["Black", "White", "Navy", "Brown", "Green", "Red"]
  const PriceOptions: seq<string> := ["under-50", "50-100", "100-200", "200-500", "over-500"]

  /** Every price checkbox sends a value the grid's price test knows. */
  lemma PriceOptionsAreBands()
    ensures forall v :: v in PriceOptions ==> v in ProductGrid.Bands
  {
  }

  datatype Section = Categories | Sizes | Colors | Price

  /** `expandedSections` */
  datatype Expansion = Expansion(categories: bool, sizes: bool, colors: bool, price: bool)
  {
    function Get(s: Section): bool
    {
      match s
      case Categories => categories
      case Sizes => sizes
      case Colors => colors
      case Price => price
    }

    /** `{ ...prev, [section]: !prev[section] }` */
    function Flip(s: Section): (r: Expansion)
      ensures r.Get(s) == !Get(s)
      ensures forall t :: t != s ==> r.Get(t) == Get(t)
    {
      match s
      case Categories => this.(categories := !categories)
      case Sizes => this.(sizes := !sizes)
      case Colors => this.(colors := !colors)
      case Price => this.(price := !price)
    }
  }

  /** The filter list a checkbox change sends: the value appended when
      checked, every occurrence of it removed when unchecked. */
  function Toggled(filters: seq<string>, value: string, checked: bool): (r: seq<string>)
    ensures checked ==> r == filters + [value]
    ensures !checked ==> value !in r && Seqs.IsSubsequence(r, filters)
  {
    if checked then filters + [value]
    else
      Seqs.FilterIsSubsequence(filters, (f: string) => f != value);
      Seqs.Filter(filters, (f: string) => f != value)
  }

  /** Unchecking keeps every other value; checking a value that was not
      selected and unchecking it again restores the list. */
  lemma ToggledKeepsOthers(filters: seq<string>, value: string)
    ensures forall f :: f in filters && f != value ==> f in Toggled(filters, value, false)
    ensures value !in filters ==> Toggled(Toggled(filters, value, true), value, false) == filters
  {
    var keep := (f: string) => f != value;
    forall f | f in filters && f != value ensures f in Toggled(filters, value, false) {
      Seqs.FilterComplete(filters, keep, f);
    }
    if value !in filters {
      Seqs.FilterAppend(filters, [value], keep);
      Seqs.FilterAll(filters, keep);
    }
  }

  class Panel {
    var selectedCategory: string
    var selectedFilters: seq<string>
    var isOpen: bool
    var expanded: Expansion

    /** Every section expanded, drawer closed; the grid starts at 'all' with no filters. */
    constructor ()
      ensures selectedCategory == "all" && selectedFilters == [] && !isOpen
      ensures expanded == Expansion(true, true, true, true)
    {
      selectedCategory, selectedFilters := "all", [];
      isOpen := false;
      expanded := Expansion(true, true, true, true);
    }

    /** "Clear all" is offered exactly when something is selected. */
    predicate ShowClearAll()
      reads this
    {
      selectedCategory != "all" || |selectedFilters| > 0
    }

    /** A checkbox shows as checked when its value is in the list. */
    predicate IsChecked(value: string)
      reads this
    {
      value in selectedFilters
    }

    /** `toggleSection(section)`: only that section flips. */
    method ToggleSection(s: Section)
      modifies this
      ensures expanded == old(expanded).Flip(s)
      ensures expanded.Get(s) == !old(expanded).Get(s)
      ensures forall t :: t != s ==> expanded.Get(t) == old(expanded).Get(t)
      ensures selectedCategory == old(selectedCategory) && selectedFilters == old(selectedFilters)
      ensures isOpen == old(isOpen)
    {
      expanded := expanded.Flip(s);
    }

    /** `clearFilters` */
    method ClearFilters()
      modifies this
      ensures selectedCategory == "all" && selectedFilters == [] && !isOpen
      ensures expanded == old(expanded)
      ensures !ShowClearAll()
    {
      selectedCategory := "all";
      selectedFilters := [];
      isOpen := false;
    }

    /** A category radio: a category's id, or 'all' when `all` (the "All
        Categories" radio) is chosen; choosing one closes the drawer. */
    method ChooseCategory(id: string, all: bool)
      modifies this
      ensures selectedCategory == (if all then "all" else id)
      ensures selectedFilters == old(selectedFilters) && expanded == old(expanded)
      ensures !isOpen
    {
      selectedCategory := if all then "all" else id;
      if isOpen {
        isOpen := false;
      }
    }

    /** A size, colour or price checkbox changing to `checked`. */
    method ChangeCheckbox(value: string, checked: bool)
      modifies this
      ensures selectedFilters == Toggled(old(selectedFilters), value, checked)
      ensures IsChecked(value) == checked
      ensures selectedCategory == old(selectedCategory) && expanded == old(expanded) && isOpen == old(isOpen)
    {
      if checked {
        selectedFilters := selectedFilters + [value];
      } else {
        selectedFilters := Toggled(selectedFilters, value, false);
      }
    }

    method OpenDrawer()
      modifies this
      ensures isOpen
      ensures selectedCategory == old(selectedCategory) && selectedFilters == old(selectedFilters)
      ensures expanded == old(expanded)
    {
      isOpen := true;
    }
  }
}

/**
 * The finance table's expand and collapse behaviour: a list of expanded
 * category ids, a click handler that toggles an id, and the rows the table
 * shows for it.
 */
module FinanceTableView {
  import opened Wrappers
  import opened RecordTypes

  /** A table row's data; the amount is kept exact, its currency formatting is not modelled. */
  datatype CategoryItem = CategoryItem(
    id: string,
    code: string,
    name: string,
    recordType: RecordType,
    value: real,
    subcategories: Option<seq<CategoryItem>>)

  /** `list.filter(x => x !== id)`. */
  function RemoveAll(list: seq<string>, id: string): (r: seq<string>)
    ensures id !in r
    ensures forall x :: x != id ==> (x in r <==> x in list)
  {
    if list == [] then []
    else
      assert forall x :: x in list <==> x == list[0] || x in list[1..] by {
        assert list == [list[0]] + list[1..];
      }
      (if list[0] != id then [list[0]] else []) + RemoveAll(list[1..], id)
  }

  /** The update `toggleCategory` applies to the list of expanded ids. */
  function Toggled(prev: seq<string>, categoryId: string): (next: seq<string>)
    ensures categoryId in next <==> categoryId !in prev
    ensures forall x :: x != categoryId ==> (x in next <==> x in prev)
  {
    if categoryId in prev then RemoveAll(prev, categoryId) else prev + [categoryId]
  }

  lemma {:induction false} RemoveAllAbsent(list: seq<string>, id: string)
    requires id !in list
    ensures RemoveAll(list, id) == list
  {
    if list != [] {
      assert id !in list[1..] by {
        assert list == [list[0]] + list[1..];
      }
      RemoveAllAbsent(list[1..], id);
    }
  }

  lemma {:induction false} RemoveAllAppend(a: seq<string>, b: seq<string>, id: string)
    ensures RemoveAll(a + b, id) == RemoveAll(a, id) + RemoveAll(b, id)
  {
    if a == [] {
      assert a + b == b;
    } else {
      var head := if a[0] != id then [a[0]] else [];
      calc {
        RemoveAll(a + b, id);
        { assert (a + b)[0] == a[0] && (a + b)[1..] == a[1..] + b; }
        head + RemoveAll(a[1..] + b, id);
        { RemoveAllAppend(a[1..], b, id); }
        head + (RemoveAll(a[1..], id) + RemoveAll(b, id));
        (head + RemoveAll(a[1..], id)) + RemoveAll(b, id);
        RemoveAll(a, id) + RemoveAll(b, id);
      }
    }
  }

  /** Expanding a collapsed category and collapsing it again restores the list exactly. */
  lemma ToggleTwice(prev: seq<string>, categoryId: string)
    requires categoryId !in prev
    ensures Toggled(Toggled(prev, categoryId), categoryId) == prev
  {
    RemoveAllAppend(prev, [categoryId], categoryId);
    RemoveAllAbsent(prev, categoryId);
  }

  /** Toggles of different ids commute as far as membership goes. */
  lemma TogglesCommute(prev: seq<string>, a: string, b: string, x: string)
    ensures x in Toggled(Toggled(prev, a), b) <==> x in Toggled(Toggled(prev, b), a)
  {
  }

  predicate HasSubcategories(category: CategoryItem) {
    category.subcategories.Some? && |category.subcategories.value| > 0
  }

  /** `getCategoryValueClass(type, value)`: the colour follows the type alone. */
  function ValueClass(recordType: RecordType, value: real): (cssClass: string)
    ensures cssClass == "text-income" <==> recordType == Income
    ensures cssClass == "text-expense" <==> recordType == Expense
  {
    match recordType
    case Income => "text-income"
    case Expense => "text-expense"
  }

  datatype TableRow =
    | CategoryRow(item: CategoryItem)
    | SubcategoryRow(item: CategoryItem, parentId: string)

  /** The rows of one category: itself, then its subcategories when it is expanded. */
  function RowsOf(category: CategoryItem, expanded: seq<string>): seq<TableRow> {
    [CategoryRow(category)]
    + if category.id in expanded && category.subcategories.Some? then
        var subs := category.subcategories.value;
        seq(|subs|, k requires 0 <= k < |subs| => SubcategoryRow(subs[k], category.id))
      else []
  }

  /** The table body for `data`. */
  function TableRows(data: seq<CategoryItem>, expanded: seq<string>): seq<TableRow> {
    if data == [] then [] else RowsOf(data[0], expanded) + TableRows(data[1..], expanded)
  }

  /** Subcategory rows appear only under expanded categories. */
  lemma {:induction false} SubcategoryRowsExpanded(data: seq<CategoryItem>, expanded: seq<string>)
    ensures forall r :: r in TableRows(data, expanded) && r.SubcategoryRow? ==> r.parentId in expanded
  {
    if data != [] {
      SubcategoryRowsExpanded(data[1..], expanded);
    }
  }

  /** With nothing expanded the table shows exactly the categories, in order. */
  lemma {:induction false} CollapsedTable(data: seq<CategoryItem>)
    ensures TableRows(data, []) == seq(|data|, i requires 0 <= i < |data| => CategoryRow(data[i]))
  {
    if data != [] {
      CollapsedTable(data[1..]);
    }
  }

  class FinanceTable {
    var expandedCategories: seq<string>

    constructor()
      ensures expandedCategories == []
    {
      expandedCategories := [];
    }

    /** `toggleCategory(categoryId)`. */
    method ToggleCategory(categoryId: string)
      modifies this
      ensures expandedCategories == Toggled(old(expandedCategories), categoryId)
      ensures IsCategoryExpanded(categoryId) <==> !old(IsCategoryExpanded(categoryId))
    {
      expandedCategories := Toggled(expandedCategories, categoryId);
    }

    /** `isCategoryExpanded(categoryId)`. */
    predicate IsCategoryExpanded(categoryId: string)
      reads this
    {
      categoryId in expandedCategories
    }

    /** The click handler of a category row: it toggles only a category with subcategories. */
    method OnCategoryRowClick(category: CategoryItem)
      modifies this
      ensures HasSubcategories(category) ==> expandedCategories == Toggled(old(expandedCategories), category.id)
      ensures !HasSubcategories(category) ==> expandedCategories == old(expandedCategories)
    {
      if HasSubcategories(category) {
        ToggleCategory(category.id);
      }
    }

    /** The rows the table shows in the current state. */
    function VisibleRows(data: seq<CategoryItem>): (rows: seq<TableRow>)
      reads this
      ensures forall r :: r in rows && r.SubcategoryRow? ==> IsCategoryExpanded(r.parentId)
    {
      SubcategoryRowsExpanded(data, expandedCategories);
      TableRows(data, expandedCategories)
    }
  }

  /** The rows depend only on which ids are expanded, not on their order or repeats. */
  lemma {:induction false} TableRowsByMembership(data: seq<CategoryItem>, e1: seq<string>, e2: seq<string>)
    requires forall x :: x in e1 <==> x in e2
    ensures TableRows(data, e1) == TableRows(data, e2)
  {
    if data != [] {
      TableRowsByMembership(data[1..], e1, e2);
    }
  }

  /** Toggling an id twice, from any expansion state, shows the same rows as before. */
  lemma TwoTogglesRows(data: seq<CategoryItem>, expanded: seq<string>, categoryId: string)
    ensures TableRows(data, Toggled(Toggled(expanded, categoryId), categoryId)) == TableRows(data, expanded)
  {
    TableRowsByMembership(data, Toggled(Toggled(expanded, categoryId), categoryId), expanded);
  }

  /**
   * Clicking a category row twice, in any state of the table, leaves the
   * same categories expanded and shows the same rows as before.
   */
  method ClickTwice(table: FinanceTable, data: seq<CategoryItem>, category: CategoryItem)
    modifies table
    ensures forall x :: table.IsCategoryExpanded(x) <==> old(table.IsCategoryExpanded(x))
    ensures table.VisibleRows(data) == old(table.VisibleRows(data))
  {
    table.OnCategoryRowClick(category);
    table.OnCategoryRowClick(category);
    if HasSubcategories(category) {
      TwoTogglesRows(data, old(table.expandedCategories), category.id);
    }
  }
}

/**
 * `organizeHierarchy`: each category, in order, with the subcategories
 * whose id starts with the category's id followed by `.`. A subcategory
 * without such a category is in no list.
 */
module Hierarchy {
  import opened Text
  import opened CsvRows

  datatype CategoryNode = CategoryNode(category: FinancialRecord, subcategories: seq<FinancialRecord>)

  /** `sub.id.startsWith(category.id + '.')`. */
  predicate IsChildOf(sub: FinancialRecord, category: FinancialRecord) {
    StartsWith(sub.id, category.id + ".")
  }

  /** `subcategories.filter(sub => sub.id.startsWith(category.id + '.'))`. */
  function ChildrenOf(category: FinancialRecord, subcategories: seq<FinancialRecord>): (children: seq<FinancialRecord>)
    ensures |children| <= |subcategories|
    ensures forall s :: s in children <==> s in subcategories && IsChildOf(s, category)
  {
    if subcategories == [] then []
    else
      var rest := subcategories[1..];
      assert forall s :: s in subcategories <==> s == subcategories[0] || s in rest by {
        assert subcategories == [subcategories[0]] + rest;
      }
      (if IsChildOf(subcategories[0], category) then [subcategories[0]] else []) + ChildrenOf(category, rest)
  }

  /** `organizeHierarchy(categories, subcategories)`. */
  function OrganizeHierarchy(categories: seq<FinancialRecord>, subcategories: seq<FinancialRecord>): (nodes: seq<CategoryNode>)
    ensures |nodes| == |categories|
    ensures forall i :: 0 <= i < |nodes| ==> nodes[i].category == categories[i]
    ensures forall i, s :: 0 <= i < |nodes| ==>
      (s in nodes[i].subcategories <==> s in subcategories && IsChildOf(s, categories[i]))
  {
    seq(|categories|, i requires 0 <= i < |categories| =>
      CategoryNode(categories[i], ChildrenOf(categories[i], subcategories)))
  }

  /** Filtering distributes over concatenation: the children keep the input order. */
  lemma {:induction false} ChildrenAppend(category: FinancialRecord, a: seq<FinancialRecord>, b: seq<FinancialRecord>)
    ensures ChildrenOf(category, a + b) == ChildrenOf(category, a) + ChildrenOf(category, b)
  {
    if a != [] {
      var head := if IsChildOf(a[0], category) then [a[0]] else [];
      calc {
        ChildrenOf(category, a + b);
        { assert (a + b)[0] == a[0] && (a + b)[1..] == a[1..] + b; }
        head + ChildrenOf(category, a[1..] + b);
        { ChildrenAppend(category, a[1..], b); }
        head + (ChildrenOf(category, a[1..]) + ChildrenOf(category, b));
        (head + ChildrenOf(category, a[1..])) + ChildrenOf(category, b);
        ChildrenOf(category, a) + ChildrenOf(category, b);
      }
    } else {
      assert a + b == b;
    }
  }

  /** The position of the first `.` in `s`, or `|s|`. */
  function FirstDot(s: string): (n: nat)
    ensures n <= |s|
    ensures forall k :: 0 <= k < n ==> s[k] != '.'
    ensures n < |s| ==> s[n] == '.'
  {
    if s == [] || s[0] == '.' then 0 else 1 + FirstDot(s[1..])
  }

  lemma {:induction false} FirstDotAfter(id: string, rest: string)
    requires '.' !in id
    ensures FirstDot(id + "." + rest) == |id|
  {
    if id != [] {
      assert (id + "." + rest)[1..] == id[1..] + "." + rest;
      FirstDotAfter(id[1..], rest);
    }
  }

  /**
   * Category ids from an import have no `.`, so a subcategory is the child of
   * at most one category id: the part of its id before the first `.`.
   */
  lemma UniqueParent(s: FinancialRecord, c1: FinancialRecord, c2: FinancialRecord)
    requires IsCategoryId(c1.id) && IsCategoryId(c2.id)
    requires IsChildOf(s, c1) && IsChildOf(s, c2)
    ensures c1.id == c2.id
  {
    var n1 := |c1.id|;
    var n2 := |c2.id|;
    assert s.id == (c1.id + ".") + s.id[n1 + 1..];
    assert s.id == (c2.id + ".") + s.id[n2 + 1..];
    FirstDotAfter(c1.id, s.id[n1 + 1..]);
    FirstDotAfter(c2.id, s.id[n2 + 1..]);
    assert c1.id + "." + s.id[n1 + 1..] == s.id;
    assert c2.id + "." + s.id[n2 + 1..] == s.id;
    assert n1 == n2;
    assert c1.id == s.id[..n1] == c2.id;
  }

  /**
   * With distinct category ids, a subcategory sits in at most one node; a
   * subcategory whose id has no known category prefix sits in none.
   */
  lemma AtMostOneParent(categories: seq<FinancialRecord>, subcategories: seq<FinancialRecord>, s: FinancialRecord, i: nat, j: nat)
    requires forall k :: 0 <= k < |categories| ==> IsCategoryId(categories[k].id)
    requires forall k, l :: 0 <= k < l < |categories| ==> categories[k].id != categories[l].id
    requires i < |categories| && j < |categories|
    requires s in OrganizeHierarchy(categories, subcategories)[i].subcategories
    requires s in OrganizeHierarchy(categories, subcategories)[j].subcategories
    ensures i == j
  {
    UniqueParent(s, categories[i], categories[j]);
  }

  /** A record with the given id, for the example below. */
  function Line(id: string): FinancialRecord {
    FinancialRecord(id, id, id, RecordTypes.Expense, [], false)
  }

  /** The subcategories of the example below. */
  function ExampleSubcategories(): seq<FinancialRecord> {
    [Line("001.01"), Line("016.01"), Line("099.01")]
  }

  lemma FirstCategoryChildren()
    ensures ChildrenOf(Line("001"), ExampleSubcategories()) == [Line("001.01")]
  {
    var subs := ExampleSubcategories();
    assert IsChildOf(subs[0], Line("001")) by { assert "001.01"[..4] == "001."; }
    assert !IsChildOf(subs[1], Line("001")) by { assert "016.01"[1] != "001."[1]; }
    assert !IsChildOf(subs[2], Line("001")) by { assert "099.01"[1] != "001."[1]; }
    assert subs[1..][1..] == [subs[2]];
  }

  lemma SecondCategoryChildren()
    ensures ChildrenOf(Line("016"), ExampleSubcategories()) == [Line("016.01")]
  {
    var subs := ExampleSubcategories();
    assert !IsChildOf(subs[0], Line("016")) by { assert "001.01"[1] != "016."[1]; }
    assert IsChildOf(subs[1], Line("016")) by { assert "016.01"[..4] == "016."; }
    assert !IsChildOf(subs[2], Line("016")) by { assert "099.01"[1] != "016."[1]; }
    assert subs[1..][1..] == [subs[2]];
  }

  /**
   * A subcategory `p.rest` whose category `p` was not imported sits in no
   * node: no other category id followed by `.` starts its id.
   */
  lemma OrphanInNoNode(categories: seq<FinancialRecord>, subcategories: seq<FinancialRecord>, s: FinancialRecord, parent: string, rest: string)
    requires forall k :: 0 <= k < |categories| ==> IsCategoryId(categories[k].id)
    requires IsCategoryId(parent) && s.id == parent + "." + rest
    requires forall k :: 0 <= k < |categories| ==> categories[k].id != parent
    ensures forall n :: n in OrganizeHierarchy(categories, subcategories) ==> s !in n.subcategories
  {
    var nodes := OrganizeHierarchy(categories, subcategories);
    var owner := s.(id := parent);
    assert IsChildOf(s, owner) by {
      assert s.id[..|parent + "."|] == parent + ".";
    }
    forall n | n in nodes
      ensures s !in n.subcategories
    {
      var i :| 0 <= i < |nodes| && nodes[i] == n;
      if s in n.subcategories {
        UniqueParent(s, categories[i], owner);
      }
    }
  }

  /**
   * Categories `001` and `016` with subcategories `001.01`, `016.01` and
   * `099.01`: the first two are placed under their categories, `099.01`
   * under neither.
   */
  lemma HierarchyExample()
    ensures var nodes := OrganizeHierarchy([Line("001"), Line("016")], ExampleSubcategories());
      && nodes[0].subcategories == [Line("001.01")]
      && nodes[1].subcategories == [Line("016.01")]
  {
    FirstCategoryChildren();
    SecondCategoryChildren();
  }
}

/**
 * The row loop of `processCSVImport`: every line after the header becomes
 * at most one record. A blank line, or one without an id or a
 * description, is skipped. An id without `.` makes a category, any other
 * a subcategory. Each month column of the header gets an amount, and the
 * duplicate check marks the record without dropping it.
 *
 * The duplicate check draws a random number in the program; here it is an
 * oracle `draw` that answers for the line with the given index.
 */
module CsvRows {
  import opened Wrappers
  import opened Text
  import opened JsNumbers
  import opened FinancialValues
  import opened RecordTypes

  /**
   * A `Record<string, number>` filled by assignment: the month keys in the
   * order they were first assigned, each with its latest amount.
   */
  type MonthlyValues = seq<(string, Number)>

  datatype FinancialRecord = FinancialRecord(
    id: string,
    code: string,
    name: string,
    recordType: RecordType,
    values: MonthlyValues,
    isDuplicate: bool)

  function Keys(mv: MonthlyValues): set<string> {
    set p | p in mv :: p.0
  }

  predicate DistinctKeys(mv: MonthlyValues) {
    forall i, j :: 0 <= i < j < |mv| ==> mv[i].0 != mv[j].0
  }

  /** `mv[key]`: the amount stored under `key`, if any. */
  function Lookup(mv: MonthlyValues, key: string): Option<Number> {
    if mv == [] then None
    else if mv[0].0 == key then Some(mv[0].1)
    else Lookup(mv[1..], key)
  }

  /** `mv[key] = amount`: the key now holds the amount and every other key keeps its own. */
  function Put(mv: MonthlyValues, key: string, amount: Number): (r: MonthlyValues)
    ensures Lookup(r, key) == Some(amount)
    ensures forall k :: k != key ==> Lookup(r, k) == Lookup(mv, k)
  {
    if mv == [] then [(key, amount)]
    else if mv[0].0 == key then [(key, amount)] + mv[1..]
    else [mv[0]] + Put(mv[1..], key, amount)
  }

  lemma KeysCons(p: (string, Number), rest: MonthlyValues)
    ensures Keys([p] + rest) == {p.0} + Keys(rest)
  {
    assert forall q :: q in [p] + rest <==> q == p || q in rest;
  }

  /** Putting a key adds exactly that key. */
  lemma {:induction false} PutKeys(mv: MonthlyValues, key: string, amount: Number)
    ensures Keys(Put(mv, key, amount)) == Keys(mv) + {key}
  {
    if mv != [] {
      assert mv == [mv[0]] + mv[1..];
      KeysCons(mv[0], mv[1..]);
      if mv[0].0 == key {
        KeysCons((key, amount), mv[1..]);
      } else {
        PutKeys(mv[1..], key, amount);
        KeysCons(mv[0], Put(mv[1..], key, amount));
      }
    }
  }

  /** A new key goes last. */
  lemma {:induction false} PutNewKey(mv: MonthlyValues, key: string, amount: Number)
    requires key !in Keys(mv)
    ensures Put(mv, key, amount) == mv + [(key, amount)]
  {
    if mv != [] {
      assert mv == [mv[0]] + mv[1..];
      KeysCons(mv[0], mv[1..]);
      PutNewKey(mv[1..], key, amount);
      assert [mv[0]] + (mv[1..] + [(key, amount)]) == mv + [(key, amount)];
    }
  }

  /** An existing key keeps its place, and so does every other key. */
  lemma {:induction false} PutOldKey(mv: MonthlyValues, key: string, amount: Number)
    requires key in Keys(mv)
    ensures |Put(mv, key, amount)| == |mv|
    ensures forall i :: 0 <= i < |mv| ==> Put(mv, key, amount)[i].0 == mv[i].0
  {
    assert mv == [mv[0]] + mv[1..];
    KeysCons(mv[0], mv[1..]);
    if mv[0].0 != key {
      PutOldKey(mv[1..], key, amount);
    }
  }

  lemma PutKeepsDistinct(mv: MonthlyValues, key: string, amount: Number)
    requires DistinctKeys(mv)
    ensures DistinctKeys(Put(mv, key, amount))
  {
    var r := Put(mv, key, amount);
    if key !in Keys(mv) {
      PutNewKey(mv, key, amount);
      forall i, j | 0 <= i < j < |r|
        ensures r[i].0 != r[j].0
      {
        if j == |mv| {
          assert mv[i] in mv;
        }
      }
    } else {
      PutOldKey(mv, key, amount);
    }
  }

  /** The amounts in key order: `Object.values(mv)`. */
  function Amounts(mv: MonthlyValues): (r: seq<Number>)
    ensures |r| == |mv|
  {
    seq(|mv|, i requires 0 <= i < |mv| => mv[i].1)
  }

  /** `values[k]?.trim()`. */
  function FieldAt(fields: seq<string>, k: nat): Option<string> {
    if k < |fields| then Some(Trim(fields[k])) else None
  }

  /** `!x` for a `string | undefined`: missing or empty. */
  predicate IsBlank(f: Option<string>) {
    f.None? || f.value == []
  }

  /** The amount of one cell: 0 when it is missing or blank, otherwise the converted text. */
  function CellAmount(cell: Option<string>): Number {
    if IsBlank(cell) then Finite(0.0) else ConvertFinancialValue(cell.value)
  }

  /** The fields that are not blank once trimmed, untrimmed and in order. */
  function NonBlank(fields: seq<string>): (r: seq<string>)
    ensures |r| <= |fields|
    ensures forall m :: m in r <==> m in fields && Trim(m) != []
  {
    if fields == [] then []
    else if Trim(fields[0]) != [] then [fields[0]] + NonBlank(fields[1..])
    else NonBlank(fields[1..])
  }

  /** The filter distributes over concatenation: the months keep the header's order and repeats. */
  lemma {:induction false} NonBlankAppend(a: seq<string>, b: seq<string>)
    ensures NonBlank(a + b) == NonBlank(a) + NonBlank(b)
  {
    if a == [] {
      assert a + b == b;
    } else {
      assert (a + b)[1..] == a[1..] + b;
      NonBlankAppend(a[1..], b);
    }
  }

  /** `header.slice(3).filter(m => m.trim() !== '')`. */
  function MonthColumns(header: seq<string>): seq<string> {
    NonBlank(if |header| <= 3 then [] else header[3..])
  }

  /**
   * The inner loop over the month columns, for any choice of amounts: the
   * j-th month (counting only non-blank header fields) is given `amount(j)`.
   */
  function StoreMonths(months: seq<string>, amount: nat -> Number): MonthlyValues
    decreases |months|
  {
    if months == [] then []
    else
      var j := |months| - 1;
      var mv := StoreMonths(months[..j], amount);
      var month := Trim(months[j]);
      if month == [] then mv else Put(mv, month, amount(j))
  }

  /** The amount the inner loop gives the j-th month: that of field `j + 3`. */
  function ColumnAmount(fields: seq<string>): nat -> Number {
    (j: nat) => CellAmount(FieldAt(fields, j + 3))
  }

  /** The monthly values of a row with the given fields. */
  function MonthlyValuesOf(fields: seq<string>, months: seq<string>): MonthlyValues {
    StoreMonths(months, ColumnAmount(fields))
  }

  /** The keys a row's amounts are stored under: the trimmed non-blank months. */
  function MonthKeys(months: seq<string>): set<string> {
    set m | m in months && Trim(m) != [] :: Trim(m)
  }

  lemma MonthKeysLast(months: seq<string>)
    requires months != []
    ensures var j := |months| - 1;
      MonthKeys(months) == MonthKeys(months[..j]) + if Trim(months[j]) == [] then {} else {Trim(months[j])}
  {
    var j := |months| - 1;
    assert forall m :: m in months <==> m in months[..j] || m == months[j] by {
      assert months == months[..j] + [months[j]];
    }
  }

  /** Every month gets exactly one entry, whatever the row holds. */
  lemma {:induction false} MonthlyValuesKeys(months: seq<string>, amount: nat -> Number)
    ensures Keys(StoreMonths(months, amount)) == MonthKeys(months)
    ensures DistinctKeys(StoreMonths(months, amount))
    decreases |months|
  {
    if months != [] {
      var j := |months| - 1;
      MonthlyValuesKeys(months[..j], amount);
      MonthKeysLast(months);
      var month := Trim(months[j]);
      if month != [] {
        PutKeepsDistinct(StoreMonths(months[..j], amount), month, amount(j));
        PutKeys(StoreMonths(months[..j], amount), month, amount(j));
      }
    }
  }

  /**
   * Month `j` of the list gets the amount of field `j + 3`, unless a later
   * month with the same trimmed name overwrites it.
   */
  lemma {:induction false} MonthReadsColumn(months: seq<string>, amount: nat -> Number, j: nat)
    requires j < |months| && Trim(months[j]) != []
    requires forall k :: j < k < |months| ==> Trim(months[k]) != Trim(months[j])
    ensures Lookup(StoreMonths(months, amount), Trim(months[j])) == Some(amount(j))
    decreases |months|
  {
    var n := |months| - 1;
    if j == n {
      StoredLast(months, amount);
    } else {
      var prefix := months[..n];
      assert prefix[j] == months[j];
      forall k | j < k < |prefix|
        ensures Trim(prefix[k]) != Trim(prefix[j])
      {
        assert prefix[k] == months[k];
      }
      MonthReadsColumn(prefix, amount, j);
      StoredBefore(months, amount, Trim(months[j]));
    }
  }

  lemma StoredLast(months: seq<string>, amount: nat -> Number)
    requires months != [] && Trim(months[|months| - 1]) != []
    ensures Lookup(StoreMonths(months, amount), Trim(months[|months| - 1])) == Some(amount(|months| - 1))
  {
    MonthlyValuesLast(months, amount);
  }

  lemma StoredBefore(months: seq<string>, amount: nat -> Number, key: string)
    requires months != [] && key != Trim(months[|months| - 1])
    ensures Lookup(StoreMonths(months, amount), key) == Lookup(StoreMonths(months[..|months| - 1], amount), key)
  {
    MonthlyValuesLast(months, amount);
  }

  /** The last month of the list is stored after all the others. */
  lemma MonthlyValuesLast(months: seq<string>, amount: nat -> Number)
    requires months != []
    ensures var n := |months| - 1;
      StoreMonths(months, amount)
        == if Trim(months[n]) == [] then StoreMonths(months[..n], amount)
           else Put(StoreMonths(months[..n], amount), Trim(months[n]), amount(n))
  {
  }

  lemma {:induction false} NonBlankAll(fields: seq<string>)
    requires forall k :: 0 <= k < |fields| ==> Trim(fields[k]) != []
    ensures NonBlank(fields) == fields
  {
    if fields != [] {
      NonBlankAll(fields[1..]);
    }
  }

  lemma MonthColumnsAll(header: seq<string>)
    requires |header| > 3 && forall k :: 3 <= k < |header| ==> Trim(header[k]) != []
    ensures MonthColumns(header) == header[3..]
  {
    var months := header[3..];
    forall k | 0 <= k < |months|
      ensures Trim(months[k]) != []
    {
      assert months[k] == header[k + 3];
    }
    NonBlankAll(months);
  }

  /** With no blank month column in the header, month `j` reads field `j + 3`. */
  lemma AlignedColumns(header: seq<string>, fields: seq<string>, j: nat)
    requires |header| > 3 && forall k :: 3 <= k < |header| ==> Trim(header[k]) != []
    requires j + 3 < |header|
    requires forall k :: j + 3 < k < |header| ==> Trim(header[k]) != Trim(header[j + 3])
    ensures Lookup(MonthlyValuesOf(fields, MonthColumns(header)), Trim(header[j + 3]))
         == Some(CellAmount(FieldAt(fields, j + 3)))
  {
    var months := header[3..];
    calc {
      Lookup(MonthlyValuesOf(fields, MonthColumns(header)), Trim(header[j + 3]));
      { MonthColumnsAll(header); assert months[j] == header[j + 3]; }
      Lookup(StoreMonths(months, ColumnAmount(fields)), Trim(months[j]));
      { ShiftedMonthRead(header, months, ColumnAmount(fields), j); }
      Some(ColumnAmount(fields)(j));
      { ColumnAmountAt(fields, j); }
      Some(CellAmount(FieldAt(fields, j + 3)));
    }
  }

  lemma ShiftedMonthRead(header: seq<string>, months: seq<string>, amount: nat -> Number, j: nat)
    requires |header| > 3 && months == header[3..] && j < |months|
    requires Trim(header[j + 3]) != []
    requires forall k :: j + 3 < k < |header| ==> Trim(header[k]) != Trim(header[j + 3])
    ensures Lookup(StoreMonths(months, amount), Trim(months[j])) == Some(amount(j))
  {
    assert months[j] == header[j + 3];
    forall k | j < k < |months|
      ensures Trim(months[k]) != Trim(months[j])
    {
      assert months[k] == header[k + 3];
    }
    MonthReadsColumn(months, amount, j);
  }

  lemma ColumnAmountAt(fields: seq<string>, j: nat)
    ensures ColumnAmount(fields)(j) == CellAmount(FieldAt(fields, j + 3))
  {
  }

  /**
   * The month in header field `k` reads field `3 + n`, where `n` counts the
   * non-blank header fields from 3 up to `k`: with `b` blank fields before
   * it, that is the field `b` places to its left.
   */
  lemma HeaderFieldReads(header: seq<string>, fields: seq<string>, k: nat)
    requires 3 <= k < |header| && Trim(header[k]) != []
    requires forall l :: k < l < |header| ==> Trim(header[l]) != Trim(header[k])
    ensures Lookup(MonthlyValuesOf(fields, MonthColumns(header)), Trim(header[k]))
         == Some(CellAmount(FieldAt(fields, 3 + |NonBlank(header[3..k])|)))
  {
    var months := MonthColumns(header);
    var j := |NonBlank(header[3..k])|;
    MonthAtField(header, k);
    calc {
      Lookup(MonthlyValuesOf(fields, months), Trim(header[k]));
      Lookup(StoreMonths(months, ColumnAmount(fields)), Trim(months[j]));
      { MonthReadsColumn(months, ColumnAmount(fields), j); }
      Some(ColumnAmount(fields)(j));
      { ColumnAmountAt(fields, j); }
      Some(CellAmount(FieldAt(fields, 3 + j)));
    }
  }

  /**
   * The non-blank header field `k` is month number `n` of the list, `n`
   * counting the non-blank fields before it, and no later month shares its
   * trimmed name when no later header field does.
   */
  lemma MonthAtField(header: seq<string>, k: nat)
    requires 3 <= k < |header| && Trim(header[k]) != []
    requires forall l :: k < l < |header| ==> Trim(header[l]) != Trim(header[k])
    ensures var j := |NonBlank(header[3..k])|;
      && j < |MonthColumns(header)| && MonthColumns(header)[j] == header[k]
      && forall l :: j < l < |MonthColumns(header)| ==> Trim(MonthColumns(header)[l]) != Trim(header[k])
  {
    MonthsAroundField(header, k);
    LaterFieldsDiffer(header, k);
    JoinedAt(NonBlank(header[3..k]), header[k], NonBlank(header[k + 1..]), Trim(header[k]));
  }

  /** In `before + [x] + after`, `x` sits at `|before|` and every later element comes from `after`. */
  lemma JoinedAt(before: seq<string>, x: string, after: seq<string>, key: string)
    requires forall m :: m in after ==> Trim(m) != key
    ensures var s := before + ([x] + after);
      && s[|before|] == x
      && forall l :: |before| < l < |s| ==> Trim(s[l]) != key
  {
    var s := before + ([x] + after);
    forall l | |before| < l < |s|
      ensures Trim(s[l]) != key
    {
      assert s[l] == after[l - |before| - 1];
    }
  }

  /** The month list splits at a non-blank header field `k`. */
  lemma MonthsAroundField(header: seq<string>, k: nat)
    requires 3 <= k < |header| && Trim(header[k]) != []
    ensures MonthColumns(header) == NonBlank(header[3..k]) + ([header[k]] + NonBlank(header[k + 1..]))
  {
    var tail := header[k + 1..];
    assert header[3..] == header[3..k] + ([header[k]] + tail);
    NonBlankAppend(header[3..k], [header[k]] + tail);
    assert ([header[k]] + tail)[1..] == tail;
  }

  /** The months taken from header fields after `k` differ from field `k` once trimmed. */
  lemma LaterFieldsDiffer(header: seq<string>, k: nat)
    requires k < |header|
    requires forall l :: k < l < |header| ==> Trim(header[l]) != Trim(header[k])
    ensures forall m :: m in NonBlank(header[k + 1..]) ==> Trim(m) != Trim(header[k])
  {
    var tail := header[k + 1..];
    forall m | m in NonBlank(tail)
      ensures Trim(m) != Trim(header[k])
    {
      var q :| 0 <= q < |tail| && tail[q] == m;
      assert header[k + 1 + q] == m;
    }
  }

  /**
   * A blank header field between two months shifts the later month onto the
   * blank column: its amount is read from field 4, under the blank header
   * field, not from field 5 under its own label. This is `HeaderFieldReads`
   * at field 5, with one non-blank field before it.
   */
  lemma BlankColumnShiftsValues(header: seq<string>, fields: seq<string>)
    requires |header| >= 6
    requires Trim(header[3]) != [] && Trim(header[4]) == [] && Trim(header[5]) != []
    requires forall k :: 5 < k < |header| ==> Trim(header[k]) != Trim(header[5])
    ensures MonthColumns(header)[..2] == [header[3], header[5]]
    ensures Lookup(MonthlyValuesOf(fields, MonthColumns(header)), Trim(header[5]))
         == Some(CellAmount(FieldAt(fields, 4)))
  {
    SkipBlankColumn(header);
    assert header[3..5] == [header[3], header[4]];
    assert NonBlank(header[3..5]) == [header[3]];
    HeaderFieldReads(header, fields, 5);
  }

  lemma SkipBlankColumn(header: seq<string>)
    requires |header| >= 6
    requires Trim(header[3]) != [] && Trim(header[4]) == [] && Trim(header[5]) != []
    ensures MonthColumns(header) == [header[3], header[5]] + NonBlank(header[6..])
  {
    var tail := header[3..];
    assert tail[1..] == header[4..];
    assert NonBlank(tail) == [header[3]] + NonBlank(header[4..]);
    assert header[4..][1..] == header[5..];
    assert NonBlank(header[4..]) == NonBlank(header[5..]);
    assert header[5..][1..] == header[6..];
    assert NonBlank(header[5..]) == [header[5]] + NonBlank(header[6..]);
  }

  /** One data line: None when it is skipped, otherwise its record. */
  function ParseRow(line: string, months: seq<string>, isDuplicate: bool): Option<FinancialRecord> {
    var trimmed := Trim(line);
    if trimmed == [] then None
    else
      var fields := Split(trimmed, ';');
      var id := FieldAt(fields, 1);
      var description := FieldAt(fields, 2);
      if IsBlank(id) || IsBlank(description) then None
      else
        Some(FinancialRecord(id.value, id.value, description.value,
          RecordTypeOf(id.value, description.value), MonthlyValuesOf(fields, months), isDuplicate))
  }

  function OptionToSeq<T>(o: Option<T>): seq<T> {
    match o
    case None => []
    case Some(x) => [x]
  }

  /** What each line of the file gives: nothing for the header line, otherwise its parsed row. */
  function Rows(lines: seq<string>, months: seq<string>, draw: nat -> bool): (rows: seq<Option<FinancialRecord>>)
    ensures |rows| == |lines|
  {
    seq(|lines|, k requires 0 <= k < |lines| => if k == 0 then None else ParseRow(lines[k], months, draw(k)))
  }

  /** The records present among the rows, in order. */
  function Collect(rows: seq<Option<FinancialRecord>>): (rs: seq<FinancialRecord>)
    ensures |rs| <= |rows|
    ensures forall r :: r in rs <==> Some(r) in rows
  {
    if rows == [] then []
    else
      var init := rows[..|rows| - 1];
      assert forall o :: o in rows <==> o in init || o == rows[|rows| - 1] by {
        assert rows == init + [rows[|rows| - 1]];
      }
      Collect(init) + OptionToSeq(rows[|rows| - 1])
  }

  /** A line that trims to empty is skipped. */
  lemma BlankLineSkipped(line: string, months: seq<string>, isDuplicate: bool)
    requires Trim(line) == []
    ensures ParseRow(line, months, isDuplicate).None?
  {
  }

  /** Rows that are all skipped give no records. */
  lemma {:induction false} CollectNone(rows: seq<Option<FinancialRecord>>)
    requires forall k :: 0 <= k < |rows| ==> rows[k].None?
    ensures Collect(rows) == []
  {
    if rows != [] {
      CollectNone(rows[..|rows| - 1]);
    }
  }

  /** The records of the data lines of a file, in line order. */
  function Records(lines: seq<string>, months: seq<string>, draw: nat -> bool): seq<FinancialRecord> {
    Collect(Rows(lines, months, draw))
  }

  lemma {:induction false} CollectSkipsFirst(rows: seq<Option<FinancialRecord>>)
    requires |rows| > 0 && rows[0].None?
    ensures |Collect(rows)| <= |rows| - 1
  {
    if |rows| > 1 {
      CollectSkipsFirst(rows[..|rows| - 1]);
    }
  }

  /** At most one record per data line: the header line never gives one. */
  lemma RecordCount(lines: seq<string>, months: seq<string>, draw: nat -> bool)
    requires |lines| >= 1
    ensures |Records(lines, months, draw)| <= |lines| - 1
  {
    CollectSkipsFirst(Rows(lines, months, draw));
  }

  predicate IsCategoryId(id: string) {
    '.' !in id
  }

  /** The records whose id has no `.`, in order. */
  function Categories(rs: seq<FinancialRecord>): (r: seq<FinancialRecord>)
    ensures forall x :: x in r <==> x in rs && IsCategoryId(x.id)
  {
    if rs == [] then []
    else
      var last := rs[|rs| - 1];
      assert forall x :: x in rs <==> x in rs[..|rs| - 1] || x == last by {
        assert rs == rs[..|rs| - 1] + [last];
      }
      Categories(rs[..|rs| - 1]) + if IsCategoryId(last.id) then [last] else []
  }

  /** The records whose id has a `.`, in order. */
  function Subcategories(rs: seq<FinancialRecord>): (r: seq<FinancialRecord>)
    ensures forall x :: x in r <==> x in rs && !IsCategoryId(x.id)
  {
    if rs == [] then []
    else
      var last := rs[|rs| - 1];
      assert forall x :: x in rs <==> x in rs[..|rs| - 1] || x == last by {
        assert rs == rs[..|rs| - 1] + [last];
      }
      Subcategories(rs[..|rs| - 1]) + if IsCategoryId(last.id) then [] else [last]
  }

  /** The number of records marked duplicate. */
  function DuplicateCount(rs: seq<FinancialRecord>): (c: nat)
    ensures c <= |rs|
    ensures c == 0 <==> forall x :: x in rs ==> !x.isDuplicate
  {
    if rs == [] then 0
    else
      var last := rs[|rs| - 1];
      assert forall x :: x in rs <==> x in rs[..|rs| - 1] || x == last by {
        assert rs == rs[..|rs| - 1] + [last];
      }
      DuplicateCount(rs[..|rs| - 1]) + if last.isDuplicate then 1 else 0
  }

  /** Every record goes to exactly one of the two lists. */
  lemma {:induction false} Partition(rs: seq<FinancialRecord>)
    ensures |Categories(rs)| + |Subcategories(rs)| == |rs|
    ensures multiset(Categories(rs)) + multiset(Subcategories(rs)) == multiset(rs)
  {
    if rs != [] {
      var init := rs[..|rs| - 1];
      var last := rs[|rs| - 1];
      Partition(init);
      assert rs == init + [last];
      RecordsStep(init, last);
      SplitStep(Categories(init), Subcategories(init), init, last, IsCategoryId(last.id));
    }
  }

  lemma SplitStep(cs: seq<FinancialRecord>, ss: seq<FinancialRecord>, rs: seq<FinancialRecord>,
                  r: FinancialRecord, isCategory: bool)
    requires |cs| + |ss| == |rs| && multiset(cs) + multiset(ss) == multiset(rs)
    ensures var cs', ss' := cs + (if isCategory then [r] else []), ss + (if isCategory then [] else [r]);
      |cs'| + |ss'| == |rs + [r]| && multiset(cs') + multiset(ss') == multiset(rs + [r])
  {
  }

  /** The split keeps file order: the categories of a concatenation are the concatenated categories. */
  lemma {:induction false} CategoriesKeepOrder(a: seq<FinancialRecord>, b: seq<FinancialRecord>)
    ensures Categories(a + b) == Categories(a) + Categories(b)
  {
    if b == [] {
      assert a + b == a;
    } else {
      var init := b[..|b| - 1];
      var last := b[|b| - 1];
      var tail := if IsCategoryId(last.id) then [last] else [];
      SplitLast(a, b);
      calc {
        Categories(a + b);
        Categories((a + init) + [last]);
        { CategoriesStep(a + init, last); }
        Categories(a + init) + tail;
        { CategoriesKeepOrder(a, init); }
        Categories(a) + Categories(init) + tail;
        { Associate3(Categories(a), Categories(init), tail); }
        Categories(a) + (Categories(init) + tail);
        { CategoriesStep(init, last); }
        Categories(a) + Categories(b);
      }
    }
  }

  /** The same for the subcategories. */
  lemma {:induction false} SubcategoriesKeepOrder(a: seq<FinancialRecord>, b: seq<FinancialRecord>)
    ensures Subcategories(a + b) == Subcategories(a) + Subcategories(b)
  {
    if b == [] {
      assert a + b == a;
    } else {
      var init := b[..|b| - 1];
      var last := b[|b| - 1];
      var tail := if IsCategoryId(last.id) then [] else [last];
      SplitLast(a, b);
      calc {
        Subcategories(a + b);
        Subcategories((a + init) + [last]);
        { SubcategoriesStep(a + init, last); }
        Subcategories(a + init) + tail;
        { SubcategoriesKeepOrder(a, init); }
        Subcategories(a) + Subcategories(init) + tail;
        { Associate3(Subcategories(a), Subcategories(init), tail); }
        Subcategories(a) + (Subcategories(init) + tail);
        { SubcategoriesStep(init, last); }
        Subcategories(a) + Subcategories(b);
      }
    }
  }

  /** `b` is its front followed by its last element, and so is `a + b`. */
  lemma SplitLast<T>(a: seq<T>, b: seq<T>)
    requires b != []
    ensures b == b[..|b| - 1] + [b[|b| - 1]]
    ensures a + b == (a + b[..|b| - 1]) + [b[|b| - 1]]
  {
    assert b == b[..|b| - 1] + [b[|b| - 1]];
  }

  lemma Associate3<T>(x: seq<T>, y: seq<T>, z: seq<T>)
    ensures x + y + z == x + (y + z)
  {
  }

  /** What every record of the import satisfies. */
  predicate WellFormed(r: FinancialRecord, months: seq<string>) {
    && r.id != [] && r.name != []
    && !IsWhitespace(r.id[0]) && !IsWhitespace(r.id[|r.id| - 1])
    && !IsWhitespace(r.name[0]) && !IsWhitespace(r.name[|r.name| - 1])
    && ';' !in r.id && ';' !in r.name
    && r.code == r.id
    && r.recordType == RecordTypeOf(r.id, r.name)
    && Keys(r.values) == MonthKeys(months)
    && DistinctKeys(r.values)
  }

  lemma TrimKeepsOut(s: string, c: char)
    requires c !in s
    ensures c !in Trim(s)
  {
    TrimWithin(s);
  }

  lemma ParsedRowWellFormed(line: string, months: seq<string>, isDuplicate: bool)
    requires ParseRow(line, months, isDuplicate).Some?
    ensures WellFormed(ParseRow(line, months, isDuplicate).value, months)
    ensures ParseRow(line, months, isDuplicate).value.isDuplicate == isDuplicate
  {
    var fields := Split(Trim(line), ';');
    assert fields[1] in fields && fields[2] in fields;
    TrimKeepsOut(fields[1], ';');
    TrimKeepsOut(fields[2], ';');
    MonthlyValuesKeys(months, ColumnAmount(fields));
  }

  /** Every record of the file is well formed. */
  lemma RecordsWellFormed(lines: seq<string>, months: seq<string>, draw: nat -> bool)
    ensures forall r :: r in Records(lines, months, draw) ==> WellFormed(r, months)
  {
    var rows := Rows(lines, months, draw);
    forall r | r in Records(lines, months, draw)
      ensures WellFormed(r, months)
    {
      var k :| 0 <= k < |rows| && rows[k] == Some(r);
      ParsedRowWellFormed(lines[k], months, draw(k));
    }
  }

  /** The records with their duplicate marks cleared. */
  function Unmarked(rs: seq<FinancialRecord>): (r: seq<FinancialRecord>)
    ensures |r| == |rs|
  {
    seq(|rs|, i requires 0 <= i < |rs| => rs[i].(isDuplicate := false))
  }

  function UnmarkRow(o: Option<FinancialRecord>): Option<FinancialRecord> {
    match o
    case None => None
    case Some(r) => Some(r.(isDuplicate := false))
  }

  lemma {:induction false} CollectUnmarked(rows: seq<Option<FinancialRecord>>)
    ensures Unmarked(Collect(rows)) == Collect(seq(|rows|, k requires 0 <= k < |rows| => UnmarkRow(rows[k])))
  {
    if rows != [] {
      var init, last := rows[..|rows| - 1], rows[|rows| - 1];
      var unInit := seq(|init|, k requires 0 <= k < |init| => UnmarkRow(init[k]));
      var un := seq(|rows|, k requires 0 <= k < |rows| => UnmarkRow(rows[k]));
      assert un == unInit + [UnmarkRow(last)];
      calc {
        Unmarked(Collect(rows));
        Unmarked(Collect(init) + OptionToSeq(last));
        { UnmarkedAppend(Collect(init), OptionToSeq(last)); }
        Unmarked(Collect(init)) + Unmarked(OptionToSeq(last));
        { CollectUnmarked(init); UnmarkedOption(last); }
        Collect(unInit) + OptionToSeq(UnmarkRow(last));
        { CollectNext(unInit, UnmarkRow(last)); }
        Collect(un);
      }
    }
  }

  lemma UnmarkedAppend(a: seq<FinancialRecord>, b: seq<FinancialRecord>)
    ensures Unmarked(a + b) == Unmarked(a) + Unmarked(b)
  {
  }

  lemma UnmarkedOption(o: Option<FinancialRecord>)
    ensures Unmarked(OptionToSeq(o)) == OptionToSeq(UnmarkRow(o))
  {
  }

  lemma RowMarkOnly(line: string, months: seq<string>, m1: bool, m2: bool)
    ensures UnmarkRow(ParseRow(line, months, m1)) == UnmarkRow(ParseRow(line, months, m2))
  {
  }

  /** The duplicate check only marks records: which records there are does not depend on it. */
  lemma DrawsOnlyMark(lines: seq<string>, months: seq<string>, d1: nat -> bool, d2: nat -> bool)
    ensures Unmarked(Records(lines, months, d1)) == Unmarked(Records(lines, months, d2))
  {
    var r1 := Rows(lines, months, d1);
    var r2 := Rows(lines, months, d2);
    CollectUnmarked(r1);
    CollectUnmarked(r2);
    forall k | 1 <= k < |lines|
      ensures UnmarkRow(r1[k]) == UnmarkRow(r2[k])
    {
      RowMarkOnly(lines[k], months, d1(k), d2(k));
    }
    assert seq(|r1|, k requires 0 <= k < |r1| => UnmarkRow(r1[k]))
        == seq(|r2|, k requires 0 <= k < |r2| => UnmarkRow(r2[k]));
  }

  /** The inner loop of the row loop. */
  method BuildMonthlyValues(fields: seq<string>, months: seq<string>) returns (mv: MonthlyValues)
    ensures mv == MonthlyValuesOf(fields, months)
  {
    mv := [];
    var j := 0;
    while j < |months|
      invariant 0 <= j <= |months|
      invariant mv == MonthlyValuesOf(fields, months[..j])
    {
      assert months[..j + 1][..j] == months[..j];
      MonthlyValuesLast(months[..j + 1], ColumnAmount(fields));
      var month := Trim(months[j]);
      if month != [] {
        var valueStr := FieldAt(fields, j + 3);
        var amount := if IsBlank(valueStr) then Finite(0.0) else ConvertFinancialValue(valueStr.value);
        ColumnAmountAt(fields, j);
        mv := Put(mv, month, amount);
      }
      j := j + 1;
    }
    assert months[..j] == months;
  }

  /** The body of the row loop for one line: the record it adds, if any. */
  method ReadRow(lineText: string, months: seq<string>, isDuplicate: bool) returns (row: Option<FinancialRecord>)
    ensures row == ParseRow(lineText, months, isDuplicate)
  {
    var line := Trim(lineText);
    if line == [] {
      return None;
    }
    var values := Split(line, ';');
    var id := FieldAt(values, 1);
    var description := FieldAt(values, 2);
    if IsBlank(id) || IsBlank(description) {
      return None;
    }
    var monthlyValues := BuildMonthlyValues(values, months);
    var recordType := DetermineRecordType(id.value, description.value, Amounts(monthlyValues));
    return Some(FinancialRecord(id.value, id.value, description.value, recordType, monthlyValues, isDuplicate));
  }

  lemma RowsNext(lines: seq<string>, months: seq<string>, draw: nat -> bool, i: nat,
                 rows: seq<Option<FinancialRecord>>, row: Option<FinancialRecord>)
    requires 1 <= i < |lines|
    requires rows == Rows(lines, months, draw)[..i] && row == Rows(lines, months, draw)[i]
    ensures Rows(lines, months, draw)[..i + 1] == rows + [row]
    ensures Collect(rows + [row]) == Collect(rows) + OptionToSeq(row)
  {
    var all := Rows(lines, months, draw);
    assert all[..i + 1] == all[..i] + [all[i]];
    CollectNext(rows, row);
  }

  /** Reading line `i` gives the row `Rows` has there. */
  method ReadLine(lines: seq<string>, months: seq<string>, draw: nat -> bool, i: nat) returns (row: Option<FinancialRecord>)
    requires 1 <= i < |lines|
    ensures row == Rows(lines, months, draw)[i]
  {
    var isDuplicate := draw(i);
    row := ReadRow(lines[i], months, isDuplicate);
  }

  lemma CollectNext(rows: seq<Option<FinancialRecord>>, row: Option<FinancialRecord>)
    ensures Collect(rows + [row]) == Collect(rows) + OptionToSeq(row)
  {
    assert (rows + [row])[..|rows|] == rows;
  }

  /** Appending one record to the records read so far. */
  lemma RecordsStep(rs: seq<FinancialRecord>, r: FinancialRecord)
    ensures Categories(rs + [r]) == Categories(rs) + if IsCategoryId(r.id) then [r] else []
    ensures Subcategories(rs + [r]) == Subcategories(rs) + if IsCategoryId(r.id) then [] else [r]
    ensures DuplicateCount(rs + [r]) == DuplicateCount(rs) + if r.isDuplicate then 1 else 0
  {
    CategoriesStep(rs, r);
    SubcategoriesStep(rs, r);
    assert (rs + [r])[..|rs|] == rs;
  }

  lemma CategoriesStep(rs: seq<FinancialRecord>, r: FinancialRecord)
    ensures Categories(rs + [r]) == Categories(rs) + if IsCategoryId(r.id) then [r] else []
  {
    assert (rs + [r])[..|rs|] == rs;
  }

  lemma SubcategoriesStep(rs: seq<FinancialRecord>, r: FinancialRecord)
    ensures Subcategories(rs + [r]) == Subcategories(rs) + if IsCategoryId(r.id) then [] else [r]
  {
    assert (rs + [r])[..|rs|] == rs;
  }

  /** Where the row loop puts one record, and how it counts a duplicate. */
  method AddRecord(categories: seq<FinancialRecord>, subcategories: seq<FinancialRecord>, duplicatesFound: nat,
                   ghost records: seq<FinancialRecord>, record: FinancialRecord)
    returns (categories': seq<FinancialRecord>, subcategories': seq<FinancialRecord>, duplicatesFound': nat)
    requires categories == Categories(records) && subcategories == Subcategories(records)
    requires duplicatesFound == DuplicateCount(records)
    ensures categories' == Categories(records + [record]) && subcategories' == Subcategories(records + [record])
    ensures duplicatesFound' == DuplicateCount(records + [record])
  {
    RecordsStep(records, record);
    categories', subcategories', duplicatesFound' := categories, subcategories, duplicatesFound;
    if record.isDuplicate {
      duplicatesFound' := duplicatesFound + 1;
    }
    if '.' !in record.id {
      categories' := categories + [record];
    } else {
      subcategories' := subcategories + [record];
    }
  }

  /**
   * The row loop: the lines after the header split into categories and
   * subcategories, with the number of records marked duplicate.
   */
  method ImportRows(lines: seq<string>, months: seq<string>, draw: nat -> bool)
    returns (categories: seq<FinancialRecord>, subcategories: seq<FinancialRecord>, duplicatesFound: nat)
    requires |lines| >= 1
    ensures categories == Categories(Records(lines, months, draw))
    ensures subcategories == Subcategories(Records(lines, months, draw))
    ensures duplicatesFound == DuplicateCount(Records(lines, months, draw))
  {
    categories, subcategories, duplicatesFound := [], [], 0;
    ghost var rows: seq<Option<FinancialRecord>> := [None];
    ghost var records: seq<FinancialRecord> := [];
    var i := 1;
    while i < |lines|
      invariant 1 <= i <= |lines|
      invariant rows == Rows(lines, months, draw)[..i]
      invariant records == Collect(rows)
      invariant categories == Categories(records)
      invariant subcategories == Subcategories(records)
      invariant duplicatesFound == DuplicateCount(records)
    {
      var row := ReadLine(lines, months, draw, i);
      RowsNext(lines, months, draw, i, rows, row);
      if row.Some? {
        categories, subcategories, duplicatesFound :=
          AddRecord(categories, subcategories, duplicatesFound, records, row.value);
        records := records + [row.value];
      }
      rows := rows + [row];
      i := i + 1;
    }
    assert rows == Rows(lines, months, draw);
  }
}

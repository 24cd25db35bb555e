/**
 * `processCSVImport` end to end, and the import history around it.
 *
 * Two histories exist side by side: the module-level `importHistory`
 * array, which only ever grows, and the copy written to the browser's
 * storage under `financeImportHistory`. Reading the history prefers the
 * stored copy; an import appends to the in-memory array and writes the
 * whole array back, so entries removed or cleared from storage come back
 * with the next import.
 *
 * The import id and the two timestamps the import reads from the clock
 * are parameters, as is whether the storage write fails.
 */
module ImportHistory {
  import opened Wrappers
  import opened Text
  import opened CsvHeader
  import opened CsvRows
  import opened Hierarchy

  datatype ImportRecord = ImportRecord(
    id: string,
    fileName: string,
    dateImported: string,
    rowCount: nat,
    categories: nat,
    subcategories: nat)

  datatype ImportError =
    | FormatError(message: string)  // the header was rejected
    | StorageError                  // writing the history to storage threw

  const FormatMessage := "O formato do arquivo CSV n\U{00E3}o \U{00E9} compat\U{00ED}vel. Verifique o modelo esperado."

  /** What the import returns: the organized categories and the duplicate count. */
  datatype ImportOutcome = ImportOutcome(data: seq<CategoryNode>, duplicatesFound: nat)

  /** The two lists and the duplicate count the row loop produces. */
  datatype ParsedImport = ParsedImport(
    categories: seq<FinancialRecord>,
    subcategories: seq<FinancialRecord>,
    duplicatesFound: nat)

  function HeaderOf(csvContent: string): seq<string> {
    Split(Split(csvContent, '\n')[0], ';')
  }

  predicate HasValidHeader(csvContent: string) {
    IsValidHeader(HeaderOf(csvContent))
  }

  /** The parsing half of the import, as a function of the file and the duplicate oracle. */
  function ParseImport(csvContent: string, draw: nat -> bool): Result<ParsedImport, ImportError> {
    var lines := Split(csvContent, '\n');
    var header := Split(lines[0], ';');
    if !IsValidHeader(header) then Failure(FormatError(FormatMessage))
    else
      var records := Records(lines, MonthColumns(header), draw);
      Success(ParsedImport(Categories(records), Subcategories(records), DuplicateCount(records)))
  }

  /** `stamp.split('T')[0]`: the date part of an ISO timestamp. */
  function DatePart(stamp: string): string {
    Split(stamp, 'T')[0]
  }

  /** The history entry of an import. */
  function EntryFor(parsed: ParsedImport, importId: string, fileStamp: string, importStamp: string): ImportRecord {
    ImportRecord(importId, "import-" + DatePart(fileStamp), importStamp,
      |parsed.categories| + |parsed.subcategories|, |parsed.categories|, |parsed.subcategories|)
  }

  /** `history.filter(record => record.id !== importId)`. */
  function WithoutImport(history: seq<ImportRecord>, importId: string): (r: seq<ImportRecord>)
    ensures |r| <= |history|
    ensures forall e :: e in r <==> e in history && e.id != importId
  {
    if history == [] then []
    else
      var rest := history[1..];
      assert forall e :: e in history <==> e == history[0] || e in rest by {
        assert history == [history[0]] + rest;
      }
      (if history[0].id != importId then [history[0]] else []) + WithoutImport(rest, importId)
  }

  /** Removing an id that is not there leaves the history as it was. */
  lemma {:induction false} WithoutAbsent(history: seq<ImportRecord>, importId: string)
    requires forall e :: e in history ==> e.id != importId
    ensures WithoutImport(history, importId) == history
  {
    if history != [] {
      assert forall e :: e in history[1..] ==> e in history;
      WithoutAbsent(history[1..], importId);
    }
  }

  /** The filter distributes over concatenation: the remaining entries keep their order. */
  lemma {:induction false} WithoutAppend(a: seq<ImportRecord>, b: seq<ImportRecord>, importId: string)
    ensures WithoutImport(a + b, importId) == WithoutImport(a, importId) + WithoutImport(b, importId)
  {
    if a == [] {
      assert a + b == b;
    } else {
      assert (a + b)[1..] == a[1..] + b;
      WithoutAppend(a[1..], b, importId);
    }
  }

  /** Removing twice is removing once. */
  lemma WithoutIdempotent(history: seq<ImportRecord>, importId: string)
    ensures WithoutImport(WithoutImport(history, importId), importId) == WithoutImport(history, importId)
  {
    WithoutAbsent(WithoutImport(history, importId), importId);
  }

  /** A timestamp `date + "T" + time` is filed under `date`. */
  lemma FileNameDate(date: string, time: string)
    requires 'T' !in date
    ensures DatePart(date + "T" + time) == date
  {
    SplitAtSeparator(date, 'T', time);
    assert date + "T" + time == date + ['T'] + time;
  }

  /** The counts of a successful parse agree with the file. */
  lemma ImportCounts(csvContent: string, draw: nat -> bool)
    requires ParseImport(csvContent, draw).Success?
    ensures var p := ParseImport(csvContent, draw).value;
      && |p.categories| + |p.subcategories| <= |Split(csvContent, '\n')| - 1
      && p.duplicatesFound <= |p.categories| + |p.subcategories|
      && (forall r :: r in p.categories ==> IsCategoryId(r.id))
      && (forall r :: r in p.subcategories ==> !IsCategoryId(r.id))
  {
    var lines := Split(csvContent, '\n');
    var records := Records(lines, MonthColumns(Split(lines[0], ';')), draw);
    Partition(records);
    RecordCount(lines, MonthColumns(Split(lines[0], ';')), draw);
  }

  /**
   * A file with a valid header whose later lines are all blank, such as a
   * header followed by a trailing newline, imports nothing.
   */
  lemma HeaderOnly(csvContent: string, draw: nat -> bool)
    requires HasValidHeader(csvContent)
    requires forall k :: 1 <= k < |Split(csvContent, '\n')| ==> Trim(Split(csvContent, '\n')[k]) == []
    ensures ParseImport(csvContent, draw) == Success(ParsedImport([], [], 0))
  {
    var lines := Split(csvContent, '\n');
    var months := MonthColumns(Split(lines[0], ';'));
    var rows := Rows(lines, months, draw);
    forall k | 0 <= k < |rows|
      ensures rows[k].None?
    {
      if k > 0 {
        BlankLineSkipped(lines[k], months, draw(k));
      }
    }
    CollectNone(rows);
  }

  /** The parsing half of `processCSVImport`: split, validate the header, run the row loop. */
  method ParseCsv(csvContent: string, draw: nat -> bool) returns (parsed: Result<ParsedImport, ImportError>)
    ensures parsed == ParseImport(csvContent, draw)
  {
    var lines := Split(csvContent, '\n');
    var header := Split(lines[0], ';');
    var ok := ValidateCsvHeader(header);
    if !ok {
      return Failure(FormatError(FormatMessage));
    }
    var months := MonthColumns(header);
    var categories, subcategories, duplicatesFound := ImportRows(lines, months, draw);
    return Success(ParsedImport(categories, subcategories, duplicatesFound));
  }

  class ImportStore {
    /** The module-level `importHistory` array. */
    var importHistory: seq<ImportRecord>
    /** The history stored under `financeImportHistory`; None while nothing was written. */
    var storedHistory: Option<seq<ImportRecord>>

    /** A fresh page load over whatever storage already holds. */
    constructor(stored: Option<seq<ImportRecord>>)
      ensures importHistory == [] && storedHistory == stored
    {
      importHistory := [];
      storedHistory := stored;
    }

    /** `getImportHistory()`: the stored history when there is one, else the in-memory array. */
    function GetImportHistory(): seq<ImportRecord>
      reads this
    {
      if storedHistory.Some? then storedHistory.value else importHistory
    }

    /**
     * `processCSVImport(csvContent)`. A rejected header changes nothing. An
     * accepted file is always recorded in memory; when the storage write
     * then throws, the error is passed on and storage keeps its old value.
     */
    method ProcessCsvImport(csvContent: string, draw: nat -> bool, importId: string,
                            fileStamp: string, importStamp: string, writeFails: bool)
      returns (result: Result<ImportOutcome, ImportError>)
      modifies this
      ensures ParseImport(csvContent, draw).Failure? ==>
        result == Failure(FormatError(FormatMessage))
        && importHistory == old(importHistory) && storedHistory == old(storedHistory)
      ensures ParseImport(csvContent, draw).Success? ==>
        var parsed := ParseImport(csvContent, draw).value;
        && importHistory == old(importHistory) + [EntryFor(parsed, importId, fileStamp, importStamp)]
        && (writeFails ==> result == Failure(StorageError) && storedHistory == old(storedHistory))
        && (!writeFails ==>
              && storedHistory == Some(importHistory)
              && result == Success(ImportOutcome(OrganizeHierarchy(parsed.categories, parsed.subcategories), parsed.duplicatesFound)))
    {
      var parsed := ParseCsv(csvContent, draw);
      if parsed.Failure? {
        return Failure(parsed.error);
      }
      var p := parsed.value;
      var organizedData := OrganizeHierarchy(p.categories, p.subcategories);
      var entry := EntryFor(p, importId, fileStamp, importStamp);
      importHistory := importHistory + [entry];
      if writeFails {
        return Failure(StorageError);
      }
      storedHistory := Some(importHistory);
      return Success(ImportOutcome(organizedData, p.duplicatesFound));
    }

    /**
     * `removeImport(importId)`: the history as read, without that id, is
     * written to storage. It reports success whether or not the id was
     * there, and the in-memory array keeps the entry.
     */
    method RemoveImport(importId: string, writeFails: bool) returns (ok: bool)
      modifies this
      ensures ok == !writeFails
      ensures importHistory == old(importHistory)
      ensures writeFails ==> storedHistory == old(storedHistory)
      ensures !writeFails ==> storedHistory == Some(WithoutImport(old(GetImportHistory()), importId))
    {
      var currentHistory := GetImportHistory();
      var updatedHistory := WithoutImport(currentHistory, importId);
      if writeFails {
        return false;
      }
      storedHistory := Some(updatedHistory);
      return true;
    }

    /** `clearAllImportedData()`: storage is set to the empty history; memory is not touched. */
    method ClearAllImportedData(writeFails: bool) returns (ok: bool)
      modifies this
      ensures ok == !writeFails
      ensures importHistory == old(importHistory)
      ensures storedHistory == if writeFails then old(storedHistory) else Some([])
      ensures !writeFails ==> GetImportHistory() == []
    {
      if writeFails {
        return false;
      }
      storedHistory := Some([]);
      return true;
    }
  }

  /**
   * Clearing empties the history as read, but the next import writes the
   * in-memory array back, so the cleared entry returns in front of the new
   * one.
   */
  method ClearedHistoryReturns(csvContent: string, draw: nat -> bool, firstId: string, secondId: string, stamp: string)
    returns (afterClear: seq<ImportRecord>, afterNext: seq<ImportRecord>)
    requires HasValidHeader(csvContent)
    ensures afterClear == []
    ensures |afterNext| == 2 && afterNext[0].id == firstId && afterNext[1].id == secondId
  {
    var store := new ImportStore(None);
    var first := store.ProcessCsvImport(csvContent, draw, firstId, stamp, stamp, false);
    var cleared := store.ClearAllImportedData(false);
    afterClear := store.GetImportHistory();
    var second := store.ProcessCsvImport(csvContent, draw, secondId, stamp, stamp, false);
    afterNext := store.GetImportHistory();
  }

  /**
   * Removing an entry hides it from the history as read until the next
   * import, which writes the in-memory array, entry included, back.
   */
  method RemovedEntryReturns(csvContent: string, draw: nat -> bool, firstId: string, secondId: string, stamp: string)
    returns (afterRemove: seq<ImportRecord>, afterNext: seq<ImportRecord>)
    requires HasValidHeader(csvContent) && firstId != secondId
    ensures afterRemove == []
    ensures |afterNext| == 2 && afterNext[0].id == firstId && afterNext[1].id == secondId
  {
    var store := new ImportStore(None);
    var first := store.ProcessCsvImport(csvContent, draw, firstId, stamp, stamp, false);
    var removed := store.RemoveImport(firstId, false);
    afterRemove := store.GetImportHistory();
    var second := store.ProcessCsvImport(csvContent, draw, secondId, stamp, stamp, false);
    afterNext := store.GetImportHistory();
  }
}

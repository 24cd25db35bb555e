/**
 * `determineRecordType`: whether a ledger line is income or expense. An
 * id starting with `016` or `017` is income; otherwise a description that,
 * lower-cased, contains one of the receipt keywords is income; everything
 * else is expense. The monthly values are passed in but never consulted.
 */
module RecordTypes {
  import opened Text
  import opened JsNumbers

  datatype RecordType = Income | Expense

  /** The words that mark a description as income. */
  const ReceiptKeywords: seq<string> := ["receita", "entrada", "renda", "sal\U{00E1}rio", "vendas"]

  predicate HasIncomePrefix(id: string) {
    StartsWith(id, "016") || StartsWith(id, "017")
  }

  /** The lower-cased description contains some receipt keyword. */
  predicate MentionsReceipt(description: string) {
    exists k :: k in ReceiptKeywords && Contains(ToLower(description), k)
  }

  /** The classification as a rule. */
  function RecordTypeOf(id: string, description: string): RecordType {
    if HasIncomePrefix(id) || MentionsReceipt(description) then Income else Expense
  }

  /** `determineRecordType(id, description, values)`, scanning the keywords in order. */
  method DetermineRecordType(id: string, description: string, values: seq<Number>) returns (t: RecordType)
    ensures t == RecordTypeOf(id, description)
  {
    if StartsWith(id, "016") || StartsWith(id, "017") {
      return Income;
    }
    var lower := ToLower(description);
    var i := 0;
    while i < |ReceiptKeywords|
      invariant 0 <= i <= |ReceiptKeywords|
      invariant forall k :: 0 <= k < i ==> !Contains(lower, ReceiptKeywords[k])
    {
      if Contains(lower, ReceiptKeywords[i]) {
        return Income;
      }
      i := i + 1;
    }
    return Expense;
  }

  /** Text around an income description keeps it income. */
  lemma IncomeDescriptionExtended(id: string, description: string, before: string, after: string)
    requires MentionsReceipt(description)
    ensures RecordTypeOf(id, before + description + after) == Income
  {
    var k :| k in ReceiptKeywords && Contains(ToLower(description), k);
    LowerAppend(before, description);
    LowerAppend(before + description, after);
    ContainsAppend(ToLower(description), ToLower(after), k);
    ContainsAppend(ToLower(description) + ToLower(after), ToLower(before), k);
    assert ToLower(before + description + after)
        == ToLower(before) + (ToLower(description) + ToLower(after));
    assert MentionsReceipt(before + description + after);
  }

  /** Upper-case accented descriptions are lowered before the keyword search. */
  lemma UpperCaseKeyword()
    ensures RecordTypeOf("001", "SAL\U{00C1}RIO") == Income
  {
    var lower := ToLower("SAL\U{00C1}RIO");
    assert lower == "sal\U{00E1}rio";
    assert StartsWith(lower, ReceiptKeywords[3]);
    assert ReceiptKeywords[3] in ReceiptKeywords && Contains(lower, ReceiptKeywords[3]);
  }

  /** An id under `016` or `017` is income whatever the description says. */
  lemma SalaryRow(id: string, description: string)
    requires StartsWith(id, "016") || StartsWith(id, "017")
    ensures RecordTypeOf(id, description) == Income
  {
  }

  /**
   * An id starting with `3` has no income prefix, so its type follows the
   * description alone: income exactly when the description mentions a keyword.
   */
  lemma PrefixThreeIsExpense(id: string, description: string)
    requires |id| > 0 && id[0] == '3'
    ensures RecordTypeOf(id, description) == Expense <==> !MentionsReceipt(description)
  {
    assert !StartsWith(id, "016") && !StartsWith(id, "017") by {
      assert id[0] != "016"[0];
    }
  }

  /** An empty description mentions no keyword. */
  lemma EmptyDescriptionNoKeyword()
    ensures !MentionsReceipt("")
  {
    assert forall k :: k in ReceiptKeywords ==> !Contains(ToLower(""), k);
  }

  /** `016.01` is income with any description; `3.01` with an empty one is expense. */
  lemma PrefixExamples(description: string)
    ensures RecordTypeOf("016.01", description) == Income
    ensures RecordTypeOf("3.01", "") == Expense
  {
    assert "016.01"[..3] == "016";
    SalaryRow("016.01", description);
    EmptyDescriptionNoKeyword();
    PrefixThreeIsExpense("3.01", "");
  }
}

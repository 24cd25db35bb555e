/**
 * `validateCsvHeader`: the gate on the first line of a ledger export. The
 * header is the line split at `;`: a blank field, `ID`, `DESCRIÇÃO` and
 * twelve month labels such as `jan/25`.
 */
module CsvHeader {
  import opened Text

  /** Fields a header must have: the blank first column, ID, DESCRIÇÃO and twelve months. */
  const HeaderWidth := 15

  const IdLabel := "ID"

  const DescriptionLabel := "DESCRI\U{00C7}\U{00C3}O"

  /** The Portuguese month abbreviations of the month pattern. */
  const MonthAbbreviations: seq<string> :=
    ["jan", "fev", "mar", "abr", "mai", "jun", "jul", "ago", "set", "out", "nov", "dez"]

  /**
   * Case folding of a regular expression with the `i` flag and without the
   * `u` flag: a non-ASCII character never matches an ASCII one, so only the
   * ASCII letters fold.
   */
  function AsciiLowerChar(c: char): char {
    if 'A' <= c <= 'Z' then (c as int + 32) as char else c
  }

  /** The first three characters name a month, in any mix of ASCII cases. */
  predicate NamesMonth(m: string)
    requires |m| >= 3
  {
    [AsciiLowerChar(m[0]), AsciiLowerChar(m[1]), AsciiLowerChar(m[2])] in MonthAbbreviations
  }

  /** `/^(jan|fev|mar|abr|mai|jun|jul|ago|set|out|nov|dez)\/\d{2}$/i.test(m)`. */
  predicate IsMonthLabel(m: string) {
    |m| == 6 && NamesMonth(m) && m[3] == '/' && IsDigit(m[4]) && IsDigit(m[5])
  }

  /** A month column passes when, trimmed, it is blank or a month label. */
  predicate MonthFieldAccepted(field: string) {
    var m := Trim(field);
    m == "" || IsMonthLabel(m)
  }

  /** The two label columns, compared after trimming and upper-casing. */
  predicate LabelsAccepted(header: seq<string>)
    requires |header| >= 3
  {
    ToUpper(Trim(header[1])) == IdLabel && ToUpper(Trim(header[2])) == DescriptionLabel
  }

  /** What the gate accepts: width, the two label columns, and the twelve month columns. */
  predicate IsValidHeader(header: seq<string>) {
    && |header| >= HeaderWidth
    && LabelsAccepted(header)
    && forall i :: 3 <= i < HeaderWidth ==> MonthFieldAccepted(header[i])
  }

  /** `validateCsvHeader(header)`, with its early returns. */
  method ValidateCsvHeader(header: seq<string>) returns (ok: bool)
    ensures ok == IsValidHeader(header)
  {
    if |header| < HeaderWidth || !LabelsAccepted(header) {
      return false;
    }
    var i := 3;
    while i < HeaderWidth
      invariant 3 <= i <= HeaderWidth
      invariant forall k :: 3 <= k < i ==> MonthFieldAccepted(header[k])
    {
      if !MonthFieldAccepted(header[i]) {
        return false;
      }
      i := i + 1;
    }
    return true;
  }

  /** Fields after the fifteenth are never looked at. */
  lemma ExtraFieldsIgnored(header: seq<string>, extra: seq<string>)
    requires |header| >= HeaderWidth
    ensures IsValidHeader(header + extra) == IsValidHeader(header)
  {
    assert forall i :: 0 <= i < HeaderWidth ==> (header + extra)[i] == header[i];
  }

  /** Blanking a month column never turns an accepted header into a rejected one. */
  lemma BlankMonthAccepted(header: seq<string>, i: nat, blank: string)
    requires IsValidHeader(header) && 3 <= i < HeaderWidth
    requires forall k :: 0 <= k < |blank| ==> IsWhitespace(blank[k])
    ensures IsValidHeader(header[i := blank])
  {
    TrimBlank(blank);
    assert forall k :: 3 <= k < HeaderWidth && k != i ==> header[i := blank][k] == header[k];
  }

  lemma UpperToI(c: char)
    ensures UpperChar(c) == 'I' <==> c in {'i', 'I', '\U{0131}'}
  {
  }

  lemma UpperToD(c: char)
    ensures UpperChar(c) == 'D' <==> c in {'d', 'D'}
  {
  }

  /**
   * The ID column passes exactly for `id` in any mix of cases, and also with
   * the dotless `ı`, which upper-cases to `I`.
   */
  lemma IdLabelSpellings(t: string)
    ensures ToUpper(t) == IdLabel
        <==> |t| == 2 && t[0] in {'i', 'I', '\U{0131}'} && t[1] in {'d', 'D'}
  {
    UpperToI(if |t| > 0 then t[0] else ' ');
    UpperToD(if |t| > 1 then t[1] else ' ');
    if |t| == 2 && t[0] in {'i', 'I', '\U{0131}'} && t[1] in {'d', 'D'} {
      assert ToUpper(t)[0] == 'I' && ToUpper(t)[1] == 'D';
      assert ToUpper(t) == IdLabel;
    }
    if ToUpper(t) == IdLabel {
      assert ToUpper(t)[0] == 'I' && ToUpper(t)[1] == 'D';
    }
  }

  /** The lower-case Portuguese label passes. */
  lemma DescriptionSpellings()
    ensures ToUpper("descri\U{00E7}\U{00E3}o") == DescriptionLabel
  {
    var lower := "descri\U{00E7}\U{00E3}o";
    assert forall k :: 0 <= k < |lower| ==> ToUpper(lower)[k] == DescriptionLabel[k];
  }

  /**
   * No cell written in ASCII passes as the description column: the label's
   * `Ç` is not the upper case of any ASCII character, so `DESCRICAO` fails.
   */
  lemma AsciiNeverDescription(t: string)
    requires forall i :: 0 <= i < |t| ==> t[i] < '\U{0080}'
    ensures ToUpper(Trim(t)) != DescriptionLabel
  {
    var r := Trim(t);
    TrimWithin(t);
    if |r| == |DescriptionLabel| {
      assert r[6] in t;
      assert UpperChar(r[6]) != DescriptionLabel[6];
    }
  }
}

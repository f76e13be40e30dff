/**
 * app/.../util/csv.kt: the later `composeCsvRow`, over nullable fields. A null field
 * becomes the empty field; the rest is escaped exactly as in csv.kt, by this file's
 * own private `convertToCsvValue`.
 */
module UtilCsv {
  import opened Strings
  import opened Values
  import Csv

  /** This file's `convertToCsvValue`: quoted, with quotes doubled, when the field holds a comma or a quote. */
  function ConvertToCsvValue(s: string): (r: string)
    ensures !(',' in s || '"' in s) ==> r == s
  {
    if ',' in s || '"' in s then "\"" + Csv.DoubleQuotes(s) + "\"" else s
  }

  /** `value ?: ""` */
  function OrEmpty(value: Option<string>): string {
    match value
    case None => ""
    case Some(s) => s
  }

  /** `composeCsvRow(vararg values: String?)`: nulls as empty fields, escaped, joined by ",". */
  function ComposeCsvRow(values: seq<Option<string>>): string {
    Join(",", seq(|values|, i requires 0 <= i < |values| => ConvertToCsvValue(OrEmpty(values[i]))))
  }

  /** The two files escape a field identically. */
  lemma SameEscaping(s: string)
    ensures ConvertToCsvValue(s) == Csv.ConvertToCsvValue(s)
  {
  }

  /**
   * A quoted field starts and ends with a quote, and its inner part holds only doubled
   * quotes: reading it back as a quoted field gives the original.
   */
  lemma QuotedFieldShape(s: string)
    requires ',' in s || '"' in s
    ensures var r := ConvertToCsvValue(s);
      && |r| >= 2 && r[0] == '"' && r[|r| - 1] == '"'
      && Csv.ParseQuoted(r[1..]) == (s, "")
  {
    var r := ConvertToCsvValue(s);
    Csv.ParseQuotedDoubled(s, "");
    assert r[1..] == Csv.DoubleQuotes(s) + "\"" + "";
  }

  /** The nullable row is the non-null row of csv.kt with every null replaced by the empty field. */
  lemma ComposeMatchesNonNullRow(values: seq<Option<string>>)
    ensures ComposeCsvRow(values) == Csv.ComposeCsvRow(seq(|values|, i requires 0 <= i < |values| => OrEmpty(values[i])))
  {
    var plain := seq(|values|, i requires 0 <= i < |values| => OrEmpty(values[i]));
    assert seq(|values|, i requires 0 <= i < |values| => ConvertToCsvValue(OrEmpty(values[i])))
        == seq(|plain|, i requires 0 <= i < |plain| => Csv.ConvertToCsvValue(plain[i]));
  }

  /** Reading a composed row back gives each field, with null read back as the empty field. */
  lemma ParseComposeRoundTrip(values: seq<Option<string>>)
    requires |values| >= 1
    ensures |Csv.ParseRow(ComposeCsvRow(values))| == |values|
    ensures forall i :: 0 <= i < |values| ==> Csv.ParseRow(ComposeCsvRow(values))[i] == OrEmpty(values[i])
  {
    ComposeMatchesNonNullRow(values);
    Csv.ParseComposeRoundTrip(seq(|values|, i requires 0 <= i < |values| => OrEmpty(values[i])));
  }
}

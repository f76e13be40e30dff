/**
 * app/.../csv.kt: one CSV row from non-null fields. A field is quoted, with its
 * quotes doubled, when it holds a comma or a quote (rules 6 and 7 of section 2 of
 * RFC 4180); a field holding a line break is NOT quoted.
 *
 * The partner of the writer is `ParseRow`, a reader of one RFC 4180 record that is
 * written independently of the writer; `ParseComposeRoundTrip` proves that reading a
 * composed row gives the fields back.
 */
module Csv {
  import opened Strings

  /** `s.replace("\"", "\"\"")`: every quote doubled. */
  function DoubleQuotes(s: string): (r: string)
    ensures |r| >= |s|
    ensures ',' !in s ==> ',' !in r
    decreases |s|
  {
    if s == [] then ""
    else (if s[0] == '"' then "\"\"" else [s[0]]) + DoubleQuotes(s[1..])
  }

  predicate NeedsQuotes(s: string) {
    ',' in s || '"' in s
  }

  /** `convertToCsvValue`: unchanged unless the field holds a comma or a quote; then quoted with quotes doubled. */
  function ConvertToCsvValue(s: string): (r: string)
    ensures !NeedsQuotes(s) ==> r == s
    ensures NeedsQuotes(s) ==> |r| >= 2 && r[0] == '"' && r[|r| - 1] == '"'
  {
    if NeedsQuotes(s) then "\"" + DoubleQuotes(s) + "\"" else s
  }

  /** `composeCsvRow(vararg values)`: the converted fields joined by ",", in argument order. */
  function ComposeCsvRow(values: seq<string>): string {
    Join(",", seq(|values|, i requires 0 <= i < |values| => ConvertToCsvValue(values[i])))
  }

  // ---------------------------------------------------------------------------
  // A reader for one record

  /** Reads the rest of a quoted field (after its opening quote): `""` is a quote, a lone `"` closes the field. */
  function ParseQuoted(s: string): (r: (string, string))
    ensures |r.1| <= |s|
    decreases |s|
  {
    if s == [] then ("", "")
    else if s[0] == '"' then
      if |s| > 1 && s[1] == '"' then
        var (v, rest) := ParseQuoted(s[2..]);
        ("\"" + v, rest)
      else ("", s[1..])
    else
      var (v, rest) := ParseQuoted(s[1..]);
      ([s[0]] + v, rest)
  }

  /** Reads an unquoted field: everything up to the next comma. */
  function ParseBare(s: string): (r: (string, string))
    ensures |r.1| <= |s|
    decreases |s|
  {
    if s == [] || s[0] == ',' then ("", s)
    else
      var (v, rest) := ParseBare(s[1..]);
      ([s[0]] + v, rest)
  }

  /** Reads one field; returns its value and what follows it. */
  function ParseField(s: string): (r: (string, string))
    ensures |r.1| <= |s|
  {
    if s != [] && s[0] == '"' then ParseQuoted(s[1..]) else ParseBare(s)
  }

  /** Reads the fields of one record, separated by commas. */
  function ParseRow(s: string): (r: seq<string>)
    ensures |r| >= 1
    decreases |s|
  {
    var (v, rest) := ParseField(s);
    if rest != [] && rest[0] == ',' then [v] + ParseRow(rest[1..]) else [v]
  }

  /** What may follow a field: the end of the record or a separator. */
  predicate FieldEnd(t: string) {
    t == [] || t[0] == ','
  }

  lemma ParseQuotedEscapedQuote(rest: string)
    ensures ParseQuoted("\"\"" + rest) == ("\"" + ParseQuoted(rest).0, ParseQuoted(rest).1)
  {
    var s := "\"\"" + rest;
    assert s[0] == '"' && s[1] == '"' && s[2..] == rest;
  }

  lemma ParseQuotedPlainChar(c: char, rest: string)
    requires c != '"'
    ensures ParseQuoted([c] + rest) == ([c] + ParseQuoted(rest).0, ParseQuoted(rest).1)
  {
    var s := [c] + rest;
    assert s[0] == c && s[1..] == rest;
  }

  lemma {:induction false} ParseQuotedDoubled(v: string, t: string)
    requires FieldEnd(t)
    ensures ParseQuoted(DoubleQuotes(v) + "\"" + t) == (v, t)
    decreases |v|
  {
    if v == [] {
      ParseQuotedClosing(t);
    } else {
      ParseQuotedDoubled(v[1..], t);
      var rest := DoubleQuotes(v[1..]) + "\"" + t;
      DoubleQuotesCons(v, t);
      if v[0] == '"' {
        ParseQuotedEscapedQuote(rest);
      } else {
        ParseQuotedPlainChar(v[0], rest);
      }
      assert v == [v[0]] + v[1..];
    }
  }

  lemma ParseQuotedClosing(t: string)
    requires FieldEnd(t)
    ensures ParseQuoted(DoubleQuotes("") + "\"" + t) == ("", t)
  {
    assert DoubleQuotes("") + "\"" + t == "\"" + t;
    assert ("\"" + t)[1..] == t;
  }

  lemma DoubleQuotesCons(v: string, t: string)
    requires v != []
    ensures DoubleQuotes(v) + "\"" + t
      == (if v[0] == '"' then "\"\"" else [v[0]]) + (DoubleQuotes(v[1..]) + "\"" + t)
  {
  }

  lemma {:induction false} ParseBarePlain(v: string, t: string)
    requires ',' !in v
    requires FieldEnd(t)
    ensures ParseBare(v + t) == (v, t)
    decreases |v|
  {
    if v != [] {
      ParseBarePlain(v[1..], t);
      assert v[0] in v;
      assert v == [v[0]] + v[1..];
      assert (v + t)[0] == v[0] && (v + t)[1..] == v[1..] + t;
    } else {
      assert v + t == t;
    }
  }

  /** A converted field reads back as the original, whatever follows it. */
  lemma ParseFieldConverted(v: string, t: string)
    requires FieldEnd(t)
    ensures ParseField(ConvertToCsvValue(v) + t) == (v, t)
  {
    if NeedsQuotes(v) {
      ParseFieldQuoted(v, t);
    } else {
      ParseBarePlain(v, t);
    }
  }

  lemma ParseFieldQuoted(v: string, t: string)
    requires FieldEnd(t)
    ensures ParseField("\"" + DoubleQuotes(v) + "\"" + t) == (v, t)
  {
    var u := DoubleQuotes(v) + "\"" + t;
    assert "\"" + DoubleQuotes(v) + "\"" + t == "\"" + u;
    ParseFieldOpeningQuote(u);
    ParseQuotedDoubled(v, t);
  }

  lemma ParseFieldOpeningQuote(u: string)
    ensures ParseField("\"" + u) == ParseQuoted(u)
  {
    assert ("\"" + u)[1..] == u;
  }

  /** Escaping loses nothing: reading back the escaped field gives the field. */
  lemma ConvertToCsvValueRoundTrip(v: string)
    ensures ParseField(ConvertToCsvValue(v)).0 == v
  {
    ParseFieldConverted(v, "");
    assert ConvertToCsvValue(v) + "" == ConvertToCsvValue(v);
  }

  lemma ConvertToCsvValueInjective(v: string, w: string)
    requires ConvertToCsvValue(v) == ConvertToCsvValue(w)
    ensures v == w
  {
    ConvertToCsvValueRoundTrip(v);
    ConvertToCsvValueRoundTrip(w);
  }

  /**
   * Reading a composed row gives back its fields, in order. (No fields and one empty
   * field both compose to "", hence at least one field.) The record is a single line
   * only when no field holds a line break, since such a field is written unquoted.
   */
  lemma {:induction false} ParseComposeRoundTrip(values: seq<string>)
    requires |values| >= 1
    ensures ParseRow(ComposeCsvRow(values)) == values
    decreases |values|
  {
    var conv := seq(|values|, i requires 0 <= i < |values| => ConvertToCsvValue(values[i]));
    if |values| == 1 {
      ParseFieldConverted(values[0], "");
      assert ComposeCsvRow(values) == ConvertToCsvValue(values[0]) + "";
    } else {
      var rest := ComposeCsvRow(values[1..]);
      assert conv[1..] == seq(|values[1..]|, i requires 0 <= i < |values[1..]| => ConvertToCsvValue(values[1..][i]));
      assert ComposeCsvRow(values) == ConvertToCsvValue(values[0]) + ("," + rest);
      ParseFieldConverted(values[0], "," + rest);
      ParseComposeRoundTrip(values[1..]);
      assert values == [values[0]] + values[1..];
    }
  }

  /** A field without quotes is its own escaped form. */
  lemma {:induction false} DoubleQuotesNone(v: string)
    requires '"' !in v
    ensures DoubleQuotes(v) == v
    decreases |v|
  {
    if v != [] {
      DoubleQuotesNone(v[1..]);
      assert v == [v[0]] + v[1..];
    }
  }

  /** A field without commas or quotes, written as it is, reads back as itself. */
  lemma ParseFieldBare(v: string, t: string)
    requires ',' !in v && '"' !in v
    requires FieldEnd(t)
    ensures ParseField(v + t) == (v, t)
  {
    if v == [] {
      assert v + t == t;
    } else {
      assert (v + t)[0] == v[0];
    }
    ParseBarePlain(v, t);
  }

  /** A field without quotes, written between quotes, reads back as itself. */
  lemma ParseFieldQuotedPlain(v: string, t: string)
    requires '"' !in v
    requires FieldEnd(t)
    ensures ParseField("\"" + v + "\"" + t) == (v, t)
  {
    DoubleQuotesNone(v);
    ParseFieldQuoted(v, t);
  }

  /** A record is its first field, then, after a separator, the rest of the record. */
  lemma ParseRowNext(s: string, v: string, rest: string)
    requires ParseField(s) == (v, "," + rest)
    ensures ParseRow(s) == [v] + ParseRow(rest)
  {
    assert ("," + rest)[1..] == rest;
  }

  lemma ParseRowLast(s: string, v: string)
    requires ParseField(s) == (v, "")
    ensures ParseRow(s) == [v]
  {
  }

  /** Escaping adds nothing but quotes. */
  lemma {:induction false} DoubleQuotesHasNo(s: string, c: char)
    requires c != '"' && c !in s
    ensures c !in DoubleQuotes(s)
    decreases |s|
  {
    if s != [] {
      DoubleQuotesHasNo(s[1..], c);
    }
  }

  /** A row holds a character other than ',' and '"' only when one of its fields does. */
  lemma RowHasNo(values: seq<string>, c: char)
    requires c != ',' && c != '"'
    requires forall i :: 0 <= i < |values| ==> c !in values[i]
    ensures c !in ComposeCsvRow(values)
  {
    var conv := seq(|values|, i requires 0 <= i < |values| => ConvertToCsvValue(values[i]));
    forall i | 0 <= i < |values| ensures c !in conv[i] {
      DoubleQuotesHasNo(values[i], c);
    }
    JoinChars(",", conv, c);
  }

  /** A field with a line break but no comma or quote is written as it is, line break included. */
  lemma LineBreakNotQuoted(s: string)
    requires '\n' in s && !NeedsQuotes(s)
    ensures '\n' in ConvertToCsvValue(s)
  {
  }
}

/**
 * app/.../util/unpacking.kt: the unbraced rendering of an attribute map, entries
 * separated by ", " (`joinToString`'s default separator).
 */
module UtilUnpacking {
  import opened Values
  import opened Strings

  /** `attributesMapToString()`: `k=v, k2=v2` in iteration order, "" for an empty map. */
  function AttributesMapToString(m: StringMap): string {
    Join(", ", KeyValues(m))
  }

  /** Drops the space `", "` leaves in front of an entry. */
  function Unspace(p: string): string {
    if p != [] && p[0] == ' ' then p[1..] else p
  }

  /** Reads the rendering back: cut at ',', the space after each separator dropped, each entry cut at its first '='. */
  function ParseAttributesMap(s: string): StringMap {
    var parts := Split(s, ',');
    if parts == [""] then []
    else ParseKeyValues([parts[0]] + seq(|parts| - 1, i requires 0 <= i < |parts| - 1 => Unspace(parts[i + 1])))
  }

  /** An empty map renders as the empty string, with no braces. */
  lemma EmptyAttributesMap()
    ensures AttributesMapToString([]) == ""
  {
  }

  /** The parts a ", "-joined rendering is cut into at ',': every entry but the first keeps its leading space. */
  function Spaced(entries: seq<string>): (r: seq<string>)
    requires |entries| >= 1
    ensures |r| == |entries| && r[0] == entries[0]
    ensures forall i :: 1 <= i < |entries| ==> r[i] == " " + entries[i]
  {
    [entries[0]] + seq(|entries| - 1, i requires 0 <= i < |entries| - 1 => " " + entries[i + 1])
  }

  lemma SplitSpaced(entries: seq<string>)
    requires |entries| >= 1
    requires forall i :: 0 <= i < |entries| ==> ',' !in entries[i]
    ensures Split(Join(", ", entries), ',') == Spaced(entries)
  {
    var parts := Spaced(entries);
    JoinSpaced(entries);
    forall i | 0 <= i < |parts| ensures ',' !in parts[i] {
      if i > 0 {
        assert parts[i] == " " + entries[i];
      }
    }
    SplitJoin(parts, ',');
  }

  lemma UnspaceSpaced(entries: seq<string>)
    requires |entries| >= 1
    ensures var parts := Spaced(entries);
      [parts[0]] + seq(|parts| - 1, i requires 0 <= i < |parts| - 1 => Unspace(parts[i + 1])) == entries
  {
    var parts := Spaced(entries);
    var unspaced := [parts[0]] + seq(|parts| - 1, i requires 0 <= i < |parts| - 1 => Unspace(parts[i + 1]));
    forall i | 0 <= i < |entries| ensures unspaced[i] == entries[i] {
      if i > 0 {
        assert parts[i] == " " + entries[i];
      }
    }
  }

  /**
   * Nothing is lost in the rendering when keys hold neither ',' nor '=' and values hold
   * no ',': the map is read back entry by entry, in order.
   */
  lemma AttributesMapRoundTrip(m: StringMap)
    requires forall i :: 0 <= i < |m| ==> ',' !in m[i].0 && '=' !in m[i].0 && ',' !in m[i].1
    ensures ParseAttributesMap(AttributesMapToString(m)) == m
  {
    var entries := KeyValues(m);
    if m == [] {
      assert Split("", ',') == [""];
    } else {
      forall i | 0 <= i < |entries| ensures ',' !in entries[i] {
        assert entries[i] == m[i].0 + "=" + m[i].1;
      }
      SplitSpaced(entries);
      assert Spaced(entries) != [""] by {
        assert '=' in entries[0];
      }
      UnspaceSpaced(entries);
      ParseKeyValuesRoundTrip(m);
    }
  }
}

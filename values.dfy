/**
 * The free-form payloads of build operations (`details`, `result`): JSON values as Gson
 * hands them over, maps keeping their iteration order. Also the two wrappers the model
 * uses for Kotlin's nullable types and for code that throws, the Kotlin casts the
 * decoders perform, and Kotlin's `toString` of a payload value.
 */
module Values {
  import opened Strings
  import Sorting

  /** A Kotlin nullable value: `None` is `null`. */
  datatype Option<+T> = None | Some(value: T)

  /** The outcome of Kotlin code that may throw: `Err` stands for the exception (a failed cast, `!!` on null). */
  datatype Result<+T> = Ok(value: T) | Err(reason: string) {
    predicate IsFailure() {
      Err?
    }

    function PropagateFailure<U>(): Result<U>
      requires Err?
    {
      Err(reason)
    }

    function Extract(): T
      requires Ok?
    {
      value
    }
  }

  datatype Value =
    | Null
    | Bool(b: bool)
    | Num(n: int)
    | Str(s: string)
    | Array(items: seq<Value>)
    | Object(entries: seq<Entry>)

  datatype Entry = Entry(key: string, value: Value)

  /** A `Map<String, *>` as a sequence of entries in iteration order. */
  type Fields = seq<Entry>

  /** A `Map<String, String>` as a sequence of key/value pairs in iteration order. */
  type StringMap = seq<(string, string)>

  /** `m[key]` on a map whose keys are distinct: the value of the first entry with that key. */
  function Get(m: Fields, key: string): (r: Option<Value>)
    ensures r.None? <==> forall i :: 0 <= i < |m| ==> m[i].key != key
    ensures r.Some? ==> exists i :: 0 <= i < |m| && m[i] == Entry(key, r.value)
    decreases |m|
  {
    if m == [] then None
    else if m[0].key == key then Some(m[0].value)
    else
      var r := Get(m[1..], key);
      assert r.Some? ==> exists i :: 1 <= i < |m| && m[i] == Entry(key, r.value);
      r
  }

  /** `m[key]` on a `Map<String, String>`. */
  function GetString(m: StringMap, key: string): (r: Option<string>)
    ensures r.None? <==> forall i :: 0 <= i < |m| ==> m[i].0 != key
    ensures r.Some? ==> exists i :: 0 <= i < |m| && m[i] == (key, r.value)
    decreases |m|
  {
    if m == [] then None
    else if m[0].0 == key then Some(m[0].1)
    else
      var r := GetString(m[1..], key);
      assert r.Some? ==> exists i :: 1 <= i < |m| && m[i] == (key, r.value);
      r
  }

  /** `m[key]` when the keys before entry `i` differ from its key. */
  lemma {:induction false} GetStringAt(m: StringMap, i: int)
    requires 0 <= i < |m|
    requires forall j :: 0 <= j < i ==> m[j].0 != m[i].0
    ensures GetString(m, m[i].0) == Some(m[i].1)
    decreases i
  {
    if i > 0 {
      GetStringAt(m[1..], i - 1);
    }
  }

  /** An entry added at the end is found only for a key the map did not have. */
  lemma {:induction false} GetStringSnoc(m: StringMap, k: string, v: string, key: string)
    ensures GetString(m + [(k, v)], key) ==
      if GetString(m, key).Some? then GetString(m, key) else if k == key then Some(v) else None
    decreases |m|
  {
    if m != [] {
      GetStringSnoc(m[1..], k, v, key);
      assert (m + [(k, v)])[1..] == m[1..] + [(k, v)];
    }
  }

  // ---------------------------------------------------------------------------
  // Kotlin casts: `x as T` throws on null and on a value of another type,
  // `x as T?` lets null through.

  /** `x!!` / `x as T` on a nullable reference. */
  function NotNull<T>(x: Option<T>, what: string): Result<T> {
    match x
    case Some(v) => Ok(v)
    case None => Err("null " + what)
  }

  /** `m[key] as String` */
  function CastString(m: Fields, key: string): Result<string> {
    match Get(m, key)
    case Some(Str(s)) => Ok(s)
    case _ => Err("not a String: " + key)
  }

  /** `m[key] as String?` (the checked cast Kotlin inserts when a `Map<String, String>` value is read) */
  function CastNullableString(m: Fields, key: string): Result<Option<string>> {
    match Get(m, key)
    case None => Ok(None)
    case Some(Null) => Ok(None)
    case Some(Str(s)) => Ok(Some(s))
    case _ => Err("not a String: " + key)
  }

  /** `m[key]` when the keys before entry `i` differ from its key. */
  lemma {:induction false} GetAt(m: Fields, i: int)
    requires 0 <= i < |m|
    requires forall j :: 0 <= j < i ==> m[j].key != m[i].key
    ensures Get(m, m[i].key) == Some(m[i].value)
    decreases i
  {
    if i > 0 {
      GetAt(m[1..], i - 1);
    }
  }

  /** `m[key] as Map<String, *>` */
  function CastMap(m: Fields, key: string): Result<Fields> {
    match Get(m, key)
    case Some(Object(fs)) => Ok(fs)
    case _ => Err("not a Map: " + key)
  }

  /** `m[key] as Map<String, *>?` */
  function CastNullableMap(m: Fields, key: string): Result<Option<Fields>> {
    match Get(m, key)
    case None => Ok(None)
    case Some(Null) => Ok(None)
    case Some(Object(fs)) => Ok(Some(fs))
    case _ => Err("not a Map: " + key)
  }

  /** `m[key] as List<*>` */
  function CastList(m: Fields, key: string): Result<seq<Value>> {
    match Get(m, key)
    case Some(Array(items)) => Ok(items)
    case _ => Err("not a List: " + key)
  }

  /**
   * `m[key].toString().toDouble().toLong()`, for an identifier that is already a whole
   * number; every other shape is treated as the failure it usually is.
   */
  function CastLong(m: Fields, key: string): Result<int> {
    match Get(m, key)
    case Some(Num(n)) => Ok(n)
    case _ => Err("not a number: " + key)
  }

  /** `fs as Map<String, String>`, with every value read as a String. */
  function AsStringMap(fs: Fields): (r: Result<StringMap>)
    ensures r.Ok? ==> |r.value| == |fs|
    ensures r.Ok? ==> forall i :: 0 <= i < |fs| ==> fs[i] == Entry(r.value[i].0, Str(r.value[i].1))
    decreases |fs|
  {
    if fs == [] then Ok([])
    else match fs[0].value
      case Str(s) =>
        (match AsStringMap(fs[1..])
         case Ok(rest) => Ok([(fs[0].key, s)] + rest)
         case Err(e) => Err(e))
      case _ => Err("not a String: " + fs[0].key)
  }

  /** `m[key] as Map<String, String>` */
  function CastStringMap(m: Fields, key: string): Result<StringMap> {
    match CastMap(m, key)
    case Ok(fs) => AsStringMap(fs)
    case Err(e) => Err(e)
  }

  // ---------------------------------------------------------------------------
  // Kotlin's toString of a payload value

  /** `v.toString()`; lists render as `[a, b]`, maps as `{k=v, k2=v2}`. */
  function Show(v: Value): string
    decreases v
  {
    match v
    case Null => "null"
    case Bool(b) => if b then "true" else "false"
    case Num(n) => IntToString(n)
    case Str(s) => s
    case Array(items) => "[" + ShowItems(items) + "]"
    case Object(entries) => "{" + ShowEntries(entries) + "}"
  }

  function ShowItems(items: seq<Value>): string
    decreases items
  {
    if items == [] then ""
    else if |items| == 1 then Show(items[0])
    else Show(items[0]) + ", " + ShowItems(items[1..])
  }

  function ShowEntries(entries: seq<Entry>): string
    decreases entries
  {
    if entries == [] then ""
    else
      var e := entries[0];
      var head := e.key + "=" + Show(e.value);
      if |entries| == 1 then head else head + ", " + ShowEntries(entries[1..])
  }

  /** `x.toString()` for a nullable map: "null" for null. */
  function ShowNullableMap(m: Option<Fields>): string {
    match m
    case None => "null"
    case Some(fs) => Show(Object(fs))
  }

  /** The entries of a map rendered as `key=value`, in iteration order. */
  function KeyValues(m: StringMap): (r: seq<string>)
    ensures |r| == |m|
    ensures forall i :: 0 <= i < |m| ==> r[i] == KeyValue(m[i].0, m[i].1) && '=' in r[i]
  {
    seq(|m|, i requires 0 <= i < |m| => assert '=' in KeyValue(m[i].0, m[i].1) by { assert KeyValue(m[i].0, m[i].1)[|m[i].0|] == '='; } KeyValue(m[i].0, m[i].1))
  }

  /** Reads `key=value` strings back into a map. */
  function ParseKeyValues(parts: seq<string>): StringMap {
    seq(|parts|, i requires 0 <= i < |parts| => ParseKeyValue(parts[i]))
  }

  /** A map whose keys hold no '=' is read back from its rendered entries. */
  lemma ParseKeyValuesRoundTrip(m: StringMap)
    requires forall i :: 0 <= i < |m| ==> '=' !in m[i].0
    ensures ParseKeyValues(KeyValues(m)) == m
  {
    forall i | 0 <= i < |m| ensures ParseKeyValues(KeyValues(m))[i] == m[i] {
      ParseKeyValueRoundTrip(m[i].0, m[i].1);
    }
  }

  // ---------------------------------------------------------------------------
  // Orders used by `toSortedMap()` and `sortedBy { ... }`

  function KeyOf(e: (string, string)): string {
    e.0
  }

  /** The entries are in ascending key order. */
  ghost predicate KeysSorted(m: StringMap) {
    forall i, j :: 0 <= i < j < |m| ==> StrLe(m[i].0, m[j].0)
  }

  /** `m.toSortedMap()`: the same entries, ordered by key. */
  function ToSortedMap(m: StringMap): StringMap {
    Sorting.SortBy(m, KeyOf, StrLe)
  }

  lemma StrLeIsTotalPreorder()
    ensures Sorting.TotalPreorder(StrLe)
  {
    forall a, b ensures StrLe(a, b) || StrLe(b, a) {
      StrLeTotal(a, b);
    }
    forall a, b, c | StrLe(a, b) && StrLe(b, c) ensures StrLe(a, c) {
      StrLeTransitive(a, b, c);
    }
  }

  /** `toSortedMap()` orders the entries by key and keeps every entry. */
  lemma ToSortedMapCorrect(m: StringMap)
    ensures KeysSorted(ToSortedMap(m))
    ensures multiset(ToSortedMap(m)) == multiset(m)
  {
    StrLeIsTotalPreorder();
    Sorting.SortByCorrect(m, KeyOf, StrLe);
  }

  /** Kotlin's `compareValues` on nullable strings: null before every string. */
  predicate NullsFirstLe(a: Option<string>, b: Option<string>) {
    a.None? || (b.Some? && StrLe(a.value, b.value))
  }

  lemma NullsFirstLeIsTotalPreorder()
    ensures Sorting.TotalPreorder(NullsFirstLe)
  {
    forall a, b ensures NullsFirstLe(a, b) || NullsFirstLe(b, a) {
      if a.Some? && b.Some? {
        StrLeTotal(a.value, b.value);
      }
    }
    forall a, b, c | NullsFirstLe(a, b) && NullsFirstLe(b, c) ensures NullsFirstLe(a, c) {
      if a.Some? {
        StrLeTransitive(a.value, b.value, c.value);
      }
    }
  }
}

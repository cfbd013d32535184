/**
 * The Python values the enrichment and scoring tools pass around: the
 * JSON-like values of a `Dict[str, Any]`, with Python's truthiness, `str()`
 * and `repr()`. A dict is an association list in insertion order, so that
 * its `repr` and its iteration order are those of Python's dict.
 */
module PyValues {
  import opened Options
  import opened Strings

  datatype Value =
    | Null                                  // None
    | Bool(b: bool)
    | Int(i: int)
    | Str(s: string)
    | List(items: seq<Value>)
    | Object(entries: seq<(string, Value)>)  // a dict with string keys

  /** A dict with string keys, in insertion order. */
  type Dict = seq<(string, Value)>

  /** `bool(v)`: None, False, 0, "", [] and {} are falsy. */
  predicate Truthy(v: Value)
  {
    match v
    case Null => false
    case Bool(b) => b
    case Int(i) => i != 0
    case Str(s) => s != []
    case List(items) => items != []
    case Object(entries) => entries != []
  }

  // ---------------------------------------------------------------------
  // Dicts

  /** The keys, in order. */
  function Keys(d: Dict): (r: seq<string>)
    ensures |r| == |d| && forall i :: 0 <= i < |d| ==> r[i] == d[i].0
  {
    seq(|d|, i requires 0 <= i < |d| => d[i].0)
  }

  /** No key occurs twice, as in every Python dict. */
  predicate UniqueKeys(d: Dict)
  {
    forall i, j :: 0 <= i < j < |d| ==> d[i].0 != d[j].0
  }

  /** `d.get(key)`: the value stored under `key`, if any. */
  function Get(d: Dict, key: string): (r: Option<Value>)
    ensures r.Some? <==> key in Keys(d)
  {
    if d == [] then None
    else if d[0].0 == key then Some(d[0].1)
    else
      assert Keys(d) == [d[0].0] + Keys(d[1..]);
      Get(d[1..], key)
  }

  /** `d.get(key, default)`. */
  function GetOr(d: Dict, key: string, default: Value): (r: Value)
    ensures key !in Keys(d) ==> r == default
    ensures key in Keys(d) ==> Some(r) == Get(d, key)
  {
    match Get(d, key)
    case Some(v) => v
    case None => default
  }

  /** `d[key] = value`: an existing key keeps its place and takes the new
      value; a new key goes at the end. */
  function Put(d: Dict, key: string, value: Value): (r: Dict)
    ensures key in Keys(d) ==> Keys(r) == Keys(d)
    ensures key !in Keys(d) ==> Keys(r) == Keys(d) + [key]
  {
    if d == [] then [(key, value)]
    else if d[0].0 == key then [(key, value)] + d[1..]
    else
      assert Keys(d) == [d[0].0] + Keys(d[1..]);
      var r := [d[0]] + Put(d[1..], key, value);
      assert Keys(r) == [d[0].0] + Keys(Put(d[1..], key, value));
      r
  }

  /** After `d[key] = value`, the key holds the value and every other key
      what it held before. */
  lemma {:induction false} PutGet(d: Dict, key: string, value: Value, other: string)
    ensures Get(Put(d, key, value), key) == Some(value)
    ensures other != key ==> Get(Put(d, key, value), other) == Get(d, other)
  {
    if d != [] && d[0].0 != key {
      PutGet(d[1..], key, value, other);
    }
  }

  /** `context.get("mode", "backend")`: the mode both tools read from their
      context, "backend" when none is given. */
  function Mode(context: Dict): (r: Value)
    ensures "mode" !in Keys(context) ==> r == Str("backend")
    ensures "mode" in Keys(context) ==> Some(r) == Get(context, "mode")
  {
    GetOr(context, "mode", Str("backend"))
  }

  /** Assignment keeps the existing keys in their places. */
  lemma PutKeepsKeys(d: Dict, key: string, value: Value)
    ensures |Put(d, key, value)| >= |d|
    ensures Keys(Put(d, key, value))[..|d|] == Keys(d)
  {
  }

  /** A prefix of a prefix is a prefix. */
  lemma PrefixOfPrefix(x: seq<string>, y: seq<string>, z: seq<string>)
    requires |y| <= |x| && x[..|y|] == y
    requires |z| <= |y| && y[..|z|] == z
    ensures x[..|z|] == z
  {
    assert x[..|z|] == x[..|y|][..|z|];
  }

  /** Assignment keeps a dict's keys unique. */
  lemma {:induction false} PutUnique(d: Dict, key: string, value: Value)
    requires UniqueKeys(d)
    ensures UniqueKeys(Put(d, key, value))
  {
    var r := Put(d, key, value);
    forall i, j | 0 <= i < j < |r|
      ensures r[i].0 != r[j].0
    {
      assert Keys(r)[i] == r[i].0 && Keys(r)[j] == r[j].0;
      if key in Keys(d) {
        assert Keys(d)[i] == d[i].0 && Keys(d)[j] == d[j].0;
      } else if j < |d| {
        assert Keys(d)[i] == d[i].0 && Keys(d)[j] == d[j].0;
      } else {
        assert Keys(d)[i] == d[i].0;
      }
    }
  }

  // ---------------------------------------------------------------------
  // str() and repr()

  /** `repr(s)` for a string: single quotes unless the text holds a single
      quote and no double quote; backslash, the quote and the three common
      control characters are escaped. */
  function ReprString(s: string): string
  {
    if '\'' in s && '"' !in s then "\"" + Escaped(s, '"') + "\""
    else "'" + Escaped(s, '\'') + "'"
  }

  /** The body of a string literal quoted with `quote`. */
  function Escaped(s: string, quote: char): string
  {
    if s == [] then []
    else EscapedChar(s[0], quote) + Escaped(s[1..], quote)
  }

  function EscapedChar(c: char, quote: char): string
  {
    if c == '\\' then "\\\\"
    else if c == '\n' then "\\n"
    else if c == '\r' then "\\r"
    else if c == '\t' then "\\t"
    else if c == quote then ['\\', quote]
    else [c]
  }

  /** `repr(v)`. */
  function Repr(v: Value): string
  {
    match v
    case Null => "None"
    case Bool(b) => if b then "True" else "False"
    case Int(i) => IntToString(i)
    case Str(s) => ReprString(s)
    case List(items) =>
      "[" + Join(seq(|items|, k requires 0 <= k < |items| => Repr(items[k])), ", ") + "]"
    case Object(entries) =>
      "{" + Join(seq(|entries|, k requires 0 <= k < |entries| =>
        ReprString(entries[k].0) + ": " + Repr(entries[k].1)), ", ") + "}"
  }

  /** `str(v)`, as an f-string writes it: a string as itself, anything
      else as its `repr`. */
  function StrOf(v: Value): (r: string)
    ensures v.Str? ==> r == v.s
  {
    if v.Str? then v.s else Repr(v)
  }

  /** A string without quotes, backslashes or control characters is
      written out unchanged between the quotes. */
  lemma {:induction false} EscapedPlain(s: string, quote: char)
    requires forall i :: 0 <= i < |s| ==> s[i] != quote && s[i] != '\\' && s[i] != '\n' && s[i] != '\r' && s[i] != '\t'
    ensures Escaped(s, quote) == s
  {
    if s != [] {
      EscapedPlain(s[1..], quote);
    }
  }
}

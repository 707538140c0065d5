/**
 * The Python values the backend passes around: decoded JSON documents,
 * request bodies, metadata dictionaries and product records.
 *
 * A dictionary is an insertion-ordered list of entries, as a Python 3
 * `dict` is; lookup finds the first entry with the key. The string helpers
 * follow the Python built-ins the backend calls (`str`, `str.isspace`,
 * `str.strip`, `str.lower`, `str.title`, `in`, `startswith`).
 */
module PyValue {

  datatype Option<+T> = None | Some(value: T)

  datatype Value =
    | Null
    | Bool(b: bool)
    | Int(i: int)
    | Str(s: string)
    | List(items: seq<Value>)
    | Dict(entries: seq<Entry>)

  datatype Entry = Entry(key: string, val: Value)

  /** A call that either returned a value or raised an exception with a message. */
  datatype Outcome<+T> = Returned(value: T) | Raised(message: string)

  /** Python truthiness: `None`, `False`, `0`, `""`, `[]` and `{}` are false. */
  predicate Truthy(v: Value)
  {
    match v
    case Null => false
    case Bool(b) => b
    case Int(i) => i != 0
    case Str(s) => s != ""
    case List(items) => items != []
    case Dict(entries) => entries != []
  }

  /** The keys of a dictionary, in insertion order. */
  function Keys(entries: seq<Entry>): (ks: seq<string>)
    ensures |ks| == |entries|
    ensures forall i :: 0 <= i < |entries| ==> ks[i] == entries[i].key
  {
    if entries == [] then [] else [entries[0].key] + Keys(entries[1..])
  }

  /** A well-formed dictionary: no key occurs twice. */
  predicate DistinctKeys(entries: seq<Entry>)
  {
    forall i, j :: 0 <= i < j < |entries| ==> entries[i].key != entries[j].key
  }

  /** `d.get(k)`: the value of the first entry with key `k`, if any. */
  function Get(entries: seq<Entry>, k: string): Option<Value>
  {
    if entries == [] then None
    else if entries[0].key == k then Some(entries[0].val)
    else Get(entries[1..], k)
  }

  /** `d.get(k)` finds nothing exactly when `k` is not a key of `d`. */
  lemma {:induction false} GetNoneIffAbsent(entries: seq<Entry>, k: string)
    ensures Get(entries, k).None? <==> k !in Keys(entries)
  {
    if entries != [] {
      GetNoneIffAbsent(entries[1..], k);
    }
  }

  /** The value of an entry whose key no earlier entry has is what `d.get` finds for that key. */
  lemma {:induction false} GetFirst(entries: seq<Entry>, i: nat)
    requires i < |entries|
    requires forall j :: 0 <= j < i ==> entries[j].key != entries[i].key
    ensures Get(entries, entries[i].key) == Some(entries[i].val)
  {
    if i > 0 {
      assert entries[1..][i - 1] == entries[i];
      GetFirst(entries[1..], i - 1);
    }
  }

  /** In a dictionary without repeated keys, `d.get` finds every entry's value under its key. */
  lemma GetDistinct(entries: seq<Entry>, i: nat)
    requires DistinctKeys(entries) && i < |entries|
    ensures Get(entries, entries[i].key) == Some(entries[i].val)
  {
    GetFirst(entries, i);
  }

  /** `d.get(k, default)`. */
  function GetOr(entries: seq<Entry>, k: string, default: Value): Value
  {
    match Get(entries, k)
    case Some(v) => v
    case None => default
  }

  /** `d[k] = v`: overwrites the first entry with key `k` in place, or appends one. */
  function Put(entries: seq<Entry>, k: string, v: Value): (r: seq<Entry>)
    ensures Get(r, k) == Some(v)
    ensures k !in Keys(entries) ==> r == entries + [Entry(k, v)]
  {
    if entries == [] then [Entry(k, v)]
    else if entries[0].key == k then [Entry(k, v)] + entries[1..]
    else [entries[0]] + Put(entries[1..], k, v)
  }

  /**
   * `d[k] = v` changes nothing under any other key, and a key already in
   * `d` keeps its place: the keys, in order, stay those of `d`.
   */
  lemma {:induction false} PutFrame(entries: seq<Entry>, k: string, v: Value)
    ensures forall k' :: k' != k ==> Get(Put(entries, k, v), k') == Get(entries, k')
    ensures k in Keys(entries) ==> Keys(Put(entries, k, v)) == Keys(entries)
  {
    if entries != [] {
      var r := Put(entries, k, v);
      if entries[0].key == k {
        assert r[1..] == entries[1..];
      } else {
        PutFrame(entries[1..], k, v);
        assert r[0] == entries[0] && r[1..] == Put(entries[1..], k, v);
      }
    }
  }

  /** An optional result as a Python value: `None` when absent. */
  function OrNone(o: Option<Value>): Value
  {
    match o
    case Some(v) => v
    case None => Null
  }

  /** `k in v` for a value `v` that is a dictionary. */
  predicate HasKey(v: Value, k: string)
  {
    v.Dict? && Get(v.entries, k).Some?
  }

  // ---------------------------------------------------------------------
  // Characters and strings

  /** `c.isspace()`: the characters Python classes as whitespace. */
  predicate IsSpace(c: char)
  {
    c in SpaceChars
  }

  const SpaceChars: set<char> := {'\t', '\n', '\U{0B}', '\U{0C}', '\r', '\U{1C}', '\U{1D}', '\U{1E}', '\U{1F}', ' ', '\U{85}', '\U{A0}', '\U{1680}', '\U{2000}', '\U{2001}', '\U{2002}', '\U{2003}', '\U{2004}', '\U{2005}', '\U{2006}', '\U{2007}', '\U{2008}', '\U{2009}', '\U{200A}', '\U{2028}', '\U{2029}', '\U{202F}', '\U{205F}', '\U{3000}'}

  /** `s.lstrip()`: drops the leading whitespace. */
  function LStrip(s: string): (r: string)
    ensures |r| <= |s|
    ensures r == [] || !IsSpace(r[0])
  {
    if s != [] && IsSpace(s[0]) then LStrip(s[1..]) else s
  }

  /** `s.lstrip()` is what follows the leading whitespace run of `s`. */
  lemma {:induction false} LStripSuffix(s: string)
    ensures LStrip(s) == s[|s| - |LStrip(s)|..]
    ensures forall k :: 0 <= k < |s| - |LStrip(s)| ==> IsSpace(s[k])
  {
    if s != [] && IsSpace(s[0]) {
      LStripSuffix(s[1..]);
      assert forall k :: 1 <= k < |s| ==> s[k] == s[1..][k - 1];
    }
  }

  /** How many whitespace characters `s` ends with. */
  function TrailingSpaces(s: string): (n: nat)
    ensures n <= |s|
    ensures forall k :: |s| - n <= k < |s| ==> IsSpace(s[k])
    ensures n < |s| ==> !IsSpace(s[|s| - n - 1])
  {
    if s != [] && IsSpace(s[|s| - 1]) then 1 + TrailingSpaces(s[..|s| - 1]) else 0
  }

  /** `s.rstrip()`: drops the trailing whitespace. */
  function RStrip(s: string): string
  {
    s[..|s| - TrailingSpaces(s)]
  }

  /** `s.strip()`. */
  function Strip(s: string): (r: string)
    ensures |r| <= |s|
    ensures r == [] || (!IsSpace(r[0]) && !IsSpace(r[|r| - 1]))
  {
    RStrip(LStrip(s))
  }

  /**
   * `s.strip()` removes a whitespace run at each end and nothing else: it is
   * a slice `s[i..j]` with only whitespace before `i` and from `j` on.
   */
  lemma StripKeepsInner(s: string)
    ensures exists i, j ::
      && 0 <= i <= j <= |s| && Strip(s) == s[i..j]
      && (forall k :: 0 <= k < i ==> IsSpace(s[k]))
      && (forall k :: j <= k < |s| ==> IsSpace(s[k]))
  {
    LStripSuffix(s);
    var t := LStrip(s);
    var i := |s| - |t|;
    var j := |s| - TrailingSpaces(t);
    assert t == s[i..];
    assert Strip(s) == s[i..j];
    forall k | j <= k < |s|
      ensures IsSpace(s[k])
    {
      assert s[k] == t[k - i];
    }
  }

  /** `s.startswith(p)`. */
  predicate StartsWith(s: string, p: string)
  {
    |p| <= |s| && s[..|p|] == p
  }

  /** `s.endswith(p)`. */
  predicate EndsWith(s: string, p: string)
  {
    |p| <= |s| && s[|s| - |p|..] == p
  }

  /** `sub in s` for strings. */
  predicate Contains(s: string, sub: string)
  {
    StartsWith(s, sub) || (s != [] && Contains(s[1..], sub))
  }

  predicate IsUpper(c: char) { 'A' <= c <= 'Z' }
  predicate IsLower(c: char) { 'a' <= c <= 'z' }
  predicate IsLetter(c: char) { IsUpper(c) || IsLower(c) }

  function ToLower(c: char): (r: char)
    ensures !IsUpper(r)
  {
    if IsUpper(c) then (c as int + 32) as char else c
  }

  function ToUpper(c: char): (r: char)
    ensures !IsLower(r)
  {
    if IsLower(c) then (c as int - 32) as char else c
  }

  /** `s.lower()` on ASCII letters. */
  function Lower(s: string): (r: string)
    ensures |r| == |s|
    ensures forall i :: 0 <= i < |s| ==> r[i] == ToLower(s[i])
  {
    if s == [] then [] else [ToLower(s[0])] + Lower(s[1..])
  }

  /**
   * `s.title()` on ASCII letters: a letter that follows a letter is put in
   * lower case, any other letter in upper case; other characters stay.
   */
  function Title(s: string): (r: string)
    ensures |r| == |s|
    ensures forall i :: 0 <= i < |s| ==>
      r[i] == (if i > 0 && IsLetter(s[i - 1]) then ToLower(s[i]) else ToUpper(s[i]))
  {
    TitleAfter(s, false)
  }

  function TitleAfter(s: string, afterLetter: bool): (r: string)
    ensures |r| == |s|
    ensures forall i :: 0 <= i < |s| ==>
      r[i] == (if (if i == 0 then afterLetter else IsLetter(s[i - 1])) then ToLower(s[i]) else ToUpper(s[i]))
  {
    if s == [] then []
    else [if afterLetter then ToLower(s[0]) else ToUpper(s[0])] + TitleAfter(s[1..], IsLetter(s[0]))
  }

  /** The name Python gives the type of a value in error messages. */
  function TypeName(v: Value): string
  {
    match v
    case Null => "NoneType"
    case Bool(_) => "bool"
    case Int(_) => "int"
    case Str(_) => "str"
    case List(_) => "list"
    case Dict(_) => "dict"
  }

  /** The message of the `AttributeError` raised by calling `attr` on `v`. */
  function NoAttribute(v: Value, attr: string): string
  {
    "'" + TypeName(v) + "' object has no attribute '" + attr + "'"
  }

  // ---------------------------------------------------------------------
  // str() and repr()

  function DigitChar(d: nat): char
    requires d < 10
  {
    ('0' as int + d) as char
  }

  function NatToDecimal(n: nat): (r: string)
    ensures r != []
  {
    if n < 10 then [DigitChar(n)] else NatToDecimal(n / 10) + [DigitChar(n % 10)]
  }

  function IntToDecimal(i: int): string
  {
    if i < 0 then "-" + NatToDecimal(-i) else NatToDecimal(i)
  }

  /** `str(v)`: a string is itself, everything else its `repr`. */
  function PyStr(v: Value): string
  {
    if v.Str? then v.s else Repr(v)
  }

  /** `repr(v)`, as `str` renders the elements of a list or dictionary. */
  function Repr(v: Value): string
  {
    match v
    case Null => "None"
    case Bool(b) => if b then "True" else "False"
    case Int(i) => IntToDecimal(i)
    case Str(s) => ReprStr(s)
    case List(items) => "[" + ReprItems(items) + "]"
    case Dict(entries) => "{" + ReprEntries(entries) + "}"
  }

  function ReprItems(items: seq<Value>): string
  {
    if items == [] then ""
    else Repr(items[0]) + (if |items| == 1 then "" else ", " + ReprItems(items[1..]))
  }

  function ReprEntries(entries: seq<Entry>): string
  {
    if entries == [] then ""
    else
      ReprStr(entries[0].key) + ": " + Repr(entries[0].val)
      + (if |entries| == 1 then "" else ", " + ReprEntries(entries[1..]))
  }

  /** A string literal: single quotes, unless the text holds a single quote and no double one. */
  function ReprStr(s: string): string
  {
    var q := if '\'' in s && '"' !in s then '"' else '\'';
    [q] + Escape(s, q) + [q]
  }

  function Escape(s: string, q: char): string
  {
    if s == [] then ""
    else
      var c := s[0];
      (if c == '\\' then "\\\\"
       else if c == '\n' then "\\n"
       else if c == '\r' then "\\r"
       else if c == '\t' then "\\t"
       else if c == q then ['\\', q]
       else [c])
      + Escape(s[1..], q)
  }

  // ---------------------------------------------------------------------
  // str.join

  /**
   * `sep.join(parts)`: the parts with `sep` between them, or the `TypeError`
   * of the first part that is not a string.
   */
  function Join(sep: string, parts: seq<Value>): (r: Outcome<string>)
    ensures r.Returned? <==> forall i :: 0 <= i < |parts| ==> parts[i].Str?
  {
    JoinFrom(sep, parts, 0)
  }

  function JoinFrom(sep: string, parts: seq<Value>, index: nat): (r: Outcome<string>)
    ensures r.Returned? <==> forall i :: 0 <= i < |parts| ==> parts[i].Str?
    ensures r.Returned? && parts == [] ==> r.value == ""
    ensures r.Returned? && |parts| == 1 ==> r.value == parts[0].s
  {
    if parts == [] then Returned("")
    else if !parts[0].Str? then
      Raised("sequence item " + IntToDecimal(index) + ": expected str instance, " + TypeName(parts[0]) + " found")
    else if |parts| == 1 then Returned(parts[0].s)
    else
      match JoinFrom(sep, parts[1..], index + 1)
      case Raised(m) => Raised(m)
      case Returned(rest) => Returned(parts[0].s + sep + rest)
  }
}

/** The part of Python's `json.dumps(value, sort_keys=True)` (default
    separators, `ensure_ascii=True`) that the cache key uses: strings,
    integers, booleans, null, lists and string-keyed objects. */
module Json {
  import opened Text
  import opened Sorting

  datatype Json =
    | JNull
    | JBool(b: bool)
    | JInt(i: int)
    | JStr(s: string)
    | JArr(items: seq<Json>)
    | JObj(fields: seq<(string, Json)>)

  function HexDigit(d: nat): char
    requires d < 16
  {
    "0123456789abcdef"[d]
  }

  /** Four lower-case hex digits, as in `'\\u{0:04x}'`. */
  function Hex4(n: nat): (r: string)
    requires n < 0x1_0000
    ensures |r| == 4
  {
    [HexDigit(n / 0x1000), HexDigit(n / 0x100 % 16), HexDigit(n / 0x10 % 16), HexDigit(n % 16)]
  }

  predicate Printable(c: char)
  {
    ' ' <= c <= '~'
  }

  /** The escape of one character: backslash and double quote, the five
      named control escapes, printable ASCII as itself, everything else as
      `\uXXXX` (a surrogate pair above U+FFFF). */
  function EscapeChar(c: char): (r: string)
    ensures |r| >= 1
  {
    if c == '"' then "\\\""
    else if c == '\\' then "\\\\"
    else if c == '\n' then "\\n"
    else if c == '\r' then "\\r"
    else if c == '\t' then "\\t"
    else if c == '\U{8}' then "\\b"
    else if c == '\U{c}' then "\\f"
    else if Printable(c) then [c]
    else if c as int < 0x1_0000 then UnicodeEscape(c as int)
    else SurrogatePair(c as int - 0x1_0000)
  }

  /** `\uXXXX` for a code unit. */
  function UnicodeEscape(n: nat): (r: string)
    requires n < 0x1_0000
    ensures |r| == 6
  {
    "\\u" + Hex4(n)
  }

  /** The UTF-16 surrogate pair of the code point `0x10000 + v`, each half escaped. */
  function SurrogatePair(v: nat): (r: string)
    requires v < 0x10_0000
    ensures |r| == 12
  {
    UnicodeEscape(0xd800 + v / 0x400) + UnicodeEscape(0xdc00 + v % 0x400)
  }

  function EscapeText(s: string): string
  {
    if s == [] then [] else EscapeChar(s[0]) + EscapeText(s[1..])
  }

  /** `json.dumps` of a string. */
  function Quote(s: string): string
  {
    "\"" + EscapeText(s) + "\""
  }

  predicate AllPrintable(s: string)
  {
    forall i :: 0 <= i < |s| ==> Printable(s[i])
  }

  lemma {:induction false} Hex4Printable(n: nat)
    requires n < 0x1_0000
    ensures AllPrintable(Hex4(n))
  {
    var h := Hex4(n);
    forall d | 0 <= d < 16 ensures Printable(HexDigit(d)) {
    }
  }

  lemma {:induction false} UnicodeEscapePrintable(n: nat)
    requires n < 0x1_0000
    ensures AllPrintable(UnicodeEscape(n))
  {
    Hex4Printable(n);
  }

  lemma {:induction false} SurrogatePairPrintable(v: nat)
    requires v < 0x10_0000
    ensures AllPrintable(SurrogatePair(v))
  {
    UnicodeEscapePrintable(0xd800 + v / 0x400);
    UnicodeEscapePrintable(0xdc00 + v % 0x400);
  }

  lemma {:induction false} EscapeCharPrintable(c: char)
    ensures AllPrintable(EscapeChar(c))
  {
    if c == '"' || c == '\\' || c == '\n' || c == '\r' || c == '\t' || c == '\U{8}' || c == '\U{c}' {
    } else if Printable(c) {
    } else if c as int < 0x1_0000 {
      UnicodeEscapePrintable(c as int);
    } else {
      SurrogatePairPrintable(c as int - 0x1_0000);
    }
  }

  lemma {:induction false} EscapeTextPrintable(s: string)
    ensures AllPrintable(EscapeText(s))
    decreases |s|
  {
    if s != [] {
      EscapeCharPrintable(s[0]);
      EscapeTextPrintable(s[1..]);
    }
  }

  /** With `ensure_ascii`, the encoded string is printable ASCII only. */
  lemma {:induction false} QuoteIsAscii(s: string)
    ensures AllPrintable(Quote(s))
  {
    EscapeTextPrintable(s);
  }

  /** `json.dumps(j, sort_keys=True)`: items joined by ", ", a name and its
      value by ": ", the members of every object in ascending name order. */
  function Dumps(j: Json): string
    decreases j
  {
    match j
    case JNull => "null"
    case JBool(b) => if b then "true" else "false"
    case JInt(i) => IntToString(i)
    case JStr(s) => Quote(s)
    case JArr(items) =>
      "[" + Join(seq(|items|, k requires 0 <= k < |items| => Dumps(items[k])), ", ") + "]"
    case JObj(fields) =>
      var rendered := seq(|fields|, k requires 0 <= k < |fields| => (fields[k].0, Dumps(fields[k].1)));
      "{" + Join(Members(SortByName(rendered)), ", ") + "}"
  }

  /** Each member as `"name": value`. */
  function Members(sorted: seq<(string, string)>): (r: seq<string>)
    ensures |r| == |sorted|
  {
    seq(|sorted|, k requires 0 <= k < |sorted| => Quote(sorted[k].0) + ": " + sorted[k].1)
  }

  /** The members of an object with their values encoded, in the object's order. */
  function Rendered(fields: seq<(string, Json)>): (r: seq<(string, string)>)
  {
    seq(|fields|, k requires 0 <= k < |fields| => (fields[k].0, Dumps(fields[k].1)))
  }

  /** Applying `f` to every element. */
  function MapSeq<A, B>(f: A -> B, s: seq<A>): (r: seq<B>)
    ensures |r| == |s|
    ensures forall k :: 0 <= k < |s| ==> r[k] == f(s[k])
  {
    if s == [] then [] else [f(s[0])] + MapSeq(f, s[1..])
  }

  lemma {:induction false} MapSeqAppend<A, B>(f: A -> B, x: seq<A>, y: seq<A>)
    ensures MapSeq(f, x + y) == MapSeq(f, x) + MapSeq(f, y)
  {
  }

  /** Removing one occurrence of `e` from both sides of a multiset equation. */
  lemma {:induction false} RemoveOne<T>(a: seq<T>, b: seq<T>, i: nat)
    requires a != [] && i < |b| && b[i] == a[0] && multiset(a) == multiset(b)
    ensures multiset(a[1..]) == multiset(b[..i] + b[i + 1..])
  {
    assert a == [a[0]] + a[1..];
    assert b == b[..i] + [b[i]] + b[i + 1..];
    var b' := b[..i] + b[i + 1..];
    forall e ensures multiset(a[1..])[e] == multiset(b')[e] {
      assert multiset(a)[e] == multiset{a[0]}[e] + multiset(a[1..])[e];
      assert multiset(b)[e] == multiset(b[..i])[e] + multiset{b[i]}[e] + multiset(b[i + 1..])[e];
    }
  }

  lemma {:induction false} PermStep<B>(m: seq<B>, rest: seq<B>, y1: seq<B>, y2: seq<B>)
    requires multiset(rest) == multiset(y1 + y2)
    ensures multiset(m + rest) == multiset(y1 + (m + y2))
  {
  }

  /** Mapping a function over two rearrangements of one multiset gives two
      rearrangements of one multiset. */
  lemma {:induction false} MapSeqPermutation<A, B>(f: A -> B, a: seq<A>, b: seq<A>)
    requires multiset(a) == multiset(b)
    ensures multiset(MapSeq(f, a)) == multiset(MapSeq(f, b))
    decreases |a|
  {
    if a == [] {
      assert |multiset(b)| == 0;
    } else {
      assert a[0] in multiset(b);
      var i :| 0 <= i < |b| && b[i] == a[0];
      RemoveOne(a, b, i);
      MapSeqPermutation(f, a[1..], b[..i] + b[i + 1..]);
      MapSeqAround(f, b, i);
      PermStep([f(a[0])], MapSeq(f, a[1..]), MapSeq(f, b[..i]), MapSeq(f, b[i + 1..]));
    }
  }

  /** The image of `b` split around its `i`-th element. */
  lemma {:induction false} MapSeqAround<A, B>(f: A -> B, b: seq<A>, i: nat)
    requires i < |b|
    ensures MapSeq(f, b) == MapSeq(f, b[..i]) + ([f(b[i])] + MapSeq(f, b[i + 1..]))
    ensures MapSeq(f, b[..i] + b[i + 1..]) == MapSeq(f, b[..i]) + MapSeq(f, b[i + 1..])
  {
    assert b == b[..i] + ([b[i]] + b[i + 1..]);
    MapSeqAppend(f, b[..i], [b[i]] + b[i + 1..]);
    MapSeqAppend(f, [b[i]], b[i + 1..]);
    MapSeqAppend(f, b[..i], b[i + 1..]);
  }

  /** Encoding each value keeps the multiset of members in step. */
  lemma {:induction false} RenderedPermutation(a: seq<(string, Json)>, b: seq<(string, Json)>)
    requires multiset(a) == multiset(b)
    ensures multiset(Rendered(a)) == multiset(Rendered(b))
  {
    var f := (p: (string, Json)) => (p.0, Dumps(p.1));
    MapSeqPermutation(f, a, b);
    assert Rendered(a) == MapSeq(f, a);
    assert Rendered(b) == MapSeq(f, b);
  }

  lemma {:induction false} RenderedNames(fields: seq<(string, Json)>)
    requires DistinctNames(fields)
    ensures DistinctNames(Rendered(fields))
  {
  }

  /** The member order of an object (as given by the model's dump) does not
      show in its encoding: `sort_keys=True` puts the members in name order. */
  lemma {:induction false} DumpsForgetsMemberOrder(a: seq<(string, Json)>, b: seq<(string, Json)>)
    requires DistinctNames(a) && DistinctNames(b)
    requires multiset(a) == multiset(b)
    ensures Dumps(JObj(a)) == Dumps(JObj(b))
  {
    RenderedPermutation(a, b);
    RenderedNames(a);
    RenderedNames(b);
    SortForgetsOrder(Rendered(a), Rendered(b));
    assert Dumps(JObj(a)) == "{" + Join(Members(SortByName(Rendered(a))), ", ") + "}";
    assert Dumps(JObj(b)) == "{" + Join(Members(SortByName(Rendered(b))), ", ") + "}";
  }
}

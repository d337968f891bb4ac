/** String helpers with the meaning Python gives them for the text this
    model handles (ASCII case mapping, `in`, `split`, `join`, `str(int)`). */
module Text {

  /** `c.lower()` restricted to ASCII: only 'A'..'Z' change. */
  function LowerChar(c: char): (r: char)
    ensures !('A' <= r <= 'Z')
    ensures r != c ==> 'A' <= c <= 'Z' && 'a' <= r <= 'z'
  {
    if 'A' <= c <= 'Z' then (c as int + 32) as char else c
  }

  /** `s.lower()` for ASCII letters; every other character is kept. */
  function ToLower(s: string): (r: string)
    ensures |r| == |s|
    ensures forall i :: 0 <= i < |r| ==> !('A' <= r[i] <= 'Z')
    ensures forall i :: 0 <= i < |s| && r[i] != s[i] ==> 'A' <= s[i] <= 'Z'
  {
    seq(|s|, i requires 0 <= i < |s| => LowerChar(s[i]))
  }

  predicate StartsWith(s: string, prefix: string)
  {
    |prefix| <= |s| && s[..|prefix|] == prefix
  }

  /** Python's `sub in s`. */
  predicate Contains(s: string, sub: string)
    decreases |s|
  {
    StartsWith(s, sub) || (s != [] && Contains(s[1..], sub))
  }

  lemma {:induction false} ContainsAt(s: string, sub: string, i: nat)
    requires i + |sub| <= |s| && s[i..i + |sub|] == sub
    ensures Contains(s, sub)
    decreases i
  {
    if i > 0 {
      assert s[1..][i - 1..i - 1 + |sub|] == sub;
      ContainsAt(s[1..], sub, i - 1);
    }
  }

  lemma {:induction false} ContainsWitness(s: string, sub: string) returns (i: nat)
    requires Contains(s, sub)
    ensures i + |sub| <= |s| && s[i..i + |sub|] == sub
    decreases |s|
  {
    if StartsWith(s, sub) {
      i := 0;
    } else {
      var j := ContainsWitness(s[1..], sub);
      i := j + 1;
      assert s[i..i + |sub|] == s[1..][j..j + |sub|];
    }
  }

  /** A text missing one of the characters of `sub` does not contain it. */
  lemma {:induction false} MissingCharNotContained(s: string, sub: string, ch: char)
    requires ch in sub && ch !in s
    ensures !Contains(s, sub)
  {
    if Contains(s, sub) {
      var i := ContainsWitness(s, sub);
    }
  }

  /** First position of `c` in `s`. */
  function IndexOf(s: string, c: char): (i: nat)
    requires c in s
    ensures i < |s| && s[i] == c
    ensures forall k :: 0 <= k < i ==> s[k] != c
  {
    if s[0] == c then 0 else IndexOf(s[1..], c) + 1
  }

  lemma {:induction false} IndexOfAtMost(s: string, c: char, k: nat)
    requires k < |s| && s[k] == c
    ensures c in s && IndexOf(s, c) <= k
  {
  }

  /** Python's `s.split(sep)` for a one-character separator. */
  function Split(s: string, sep: char): (parts: seq<string>)
    ensures |parts| >= 1
    decreases |s|
  {
    if sep !in s then [s]
    else
      var i := IndexOf(s, sep);
      [s[..i]] + Split(s[i + 1..], sep)
  }

  /** Python's `sep.join(parts)`. */
  function Join(parts: seq<string>, sep: string): string
  {
    if parts == [] then ""
    else if |parts| == 1 then parts[0]
    else parts[0] + sep + Join(parts[1..], sep)
  }

  /** Splitting the join of separator-free pieces gives the pieces back. */
  lemma {:induction false} SplitJoin(parts: seq<string>, sep: char)
    requires |parts| >= 1
    requires forall k :: 0 <= k < |parts| ==> sep !in parts[k]
    ensures Split(Join(parts, [sep]), sep) == parts
    decreases |parts|
  {
    if |parts| > 1 {
      var s := Join(parts, [sep]);
      assert s == parts[0] + [sep] + Join(parts[1..], [sep]);
      assert s[|parts[0]|] == sep;
      assert s[..|parts[0]|] == parts[0];
      assert sep in s;
      assert IndexOf(s, sep) == |parts[0]|;
      assert s[|parts[0]| + 1..] == Join(parts[1..], [sep]);
      SplitJoin(parts[1..], sep);
    }
  }

  /** `s.split(sep)[-1]`: the text after the last separator. */
  function LastPart(s: string, sep: char): string
  {
    var parts := Split(s, sep);
    parts[|parts| - 1]
  }

  /** A separator in `x` is the first one of `x + [sep] + y`. */
  lemma {:induction false} SeparatorInPrefix(x: string, sep: char, y: string)
    requires sep in x
    ensures sep in x + [sep] + y && IndexOf(x + [sep] + y, sep) == IndexOf(x, sep)
  {
    var j := IndexOf(x, sep);
    assert (x + [sep] + y)[j] == sep;
    IndexOfAtMost(x + [sep] + y, sep, j);
  }

  /** Without a separator in `x`, the first one of `x + [sep] + y` follows `x`. */
  lemma {:induction false} SeparatorAfterPrefix(x: string, sep: char, y: string)
    requires sep !in x
    ensures sep in x + [sep] + y && IndexOf(x + [sep] + y, sep) == |x|
  {
    var s := x + [sep] + y;
    assert s[|x|] == sep;
    IndexOfAtMost(s, sep, |x|);
  }

  lemma {:induction false} DropThrough(x: string, sep: char, y: string, j: nat)
    requires j < |x|
    ensures (x + [sep] + y)[j + 1..] == x[j + 1..] + [sep] + y
  {
  }

  /** The last part is found after the first separator. */
  lemma {:induction false} LastPartSkipsFirst(s: string, sep: char)
    requires sep in s
    ensures LastPart(s, sep) == LastPart(s[IndexOf(s, sep) + 1..], sep)
  {
    var i := IndexOf(s, sep);
    var parts := Split(s, sep);
    var rest := Split(s[i + 1..], sep);
    assert parts == [s[..i]] + rest;
    assert parts[|parts| - 1] == rest[|rest| - 1];
  }

  /** Whatever stands before a separator does not change the last part. */
  lemma {:induction false} LastPartAfterSeparator(x: string, sep: char, y: string)
    ensures LastPart(x + [sep] + y, sep) == LastPart(y, sep)
    decreases |x|
  {
    var s := x + [sep] + y;
    if sep in x {
      var j := IndexOf(x, sep);
      SeparatorInPrefix(x, sep, y);
      DropThrough(x, sep, y, j);
      LastPartSkipsFirst(s, sep);
      LastPartAfterSeparator(x[j + 1..], sep, y);
    } else {
      SeparatorAfterPrefix(x, sep, y);
      LastPartSkipsFirst(s, sep);
      assert s[|x| + 1..] == y;
    }
  }

  function DigitChar(d: nat): (c: char)
    requires d < 10
  {
    ['0', '1', '2', '3', '4', '5', '6', '7', '8', '9'][d]
  }

  function NatToString(n: nat): (r: string)
    ensures |r| >= 1
    decreases n
  {
    if n < 10 then [DigitChar(n)] else NatToString(n / 10) + [DigitChar(n % 10)]
  }

  /** Python's `str(i)` for an integer. */
  function IntToString(i: int): (r: string)
    ensures |r| >= 1
  {
    if i < 0 then "-" + NatToString(-i) else NatToString(i)
  }
}

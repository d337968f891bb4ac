/** The query-text helpers of `QueryProcessor`: qualifying two-part table
    references with the project id, and deriving a short alias from a table
    name. Both are pure functions of their text arguments and the project id. */
module QueryProcessor {
  import opened Common
  import opened Text

  /** A character of the class `[^`\.]`. */
  predicate PlainChar(c: char)
  {
    c != '`' && c != '.'
  }

  predicate Plain(s: string)
  {
    forall i :: 0 <= i < |s| ==> PlainChar(s[i])
  }

  /** `s` is exactly one text matched by the pattern `` `([^`\.]+\.[^`\.]+)` ``,
      with `a` and `b` the parts before and after its dot. */
  predicate IsTwoPartRef(s: string, a: string, b: string)
  {
    && s == "`" + a + "." + b + "`"
    && a != [] && b != []
    && Plain(a) && Plain(b)
  }

  datatype TableRef = TableRef(dataset: string, table: string)

  /** End of the longest run of plain characters of `s` that starts at `i`. */
  function RunEnd(s: string, i: nat): (j: nat)
    requires i <= |s|
    ensures i <= j <= |s|
    decreases |s| - i
  {
    if i < |s| && PlainChar(s[i]) then RunEnd(s, i + 1) else i
  }

  /** The run is plain and stops at the end or at a non-plain character. */
  lemma {:induction false} RunEndPlain(s: string, i: nat)
    requires i <= |s|
    ensures Plain(s[i..RunEnd(s, i)])
    ensures RunEnd(s, i) < |s| ==> !PlainChar(s[RunEnd(s, i)])
    decreases |s| - i
  {
    if i < |s| && PlainChar(s[i]) {
      RunEndPlain(s, i + 1);
      assert s[i..RunEnd(s, i)] == [s[i]] + s[i + 1..RunEnd(s, i)];
    }
  }

  /** An attempt of the pattern at the start of `s`: the reference it matches
      and the number of characters the match consumes. No backtracking is
      needed, because neither character class admits '.' or '`'. */
  function MatchAt(s: string): (m: Option<(TableRef, nat)>)
    ensures m.Some? ==> 5 <= m.value.1 <= |s|
  {
    if |s| == 0 || s[0] != '`' then None
    else
      var j := RunEnd(s, 1);
      if j == 1 || j == |s| || s[j] != '.' then None
      else
        var k := RunEnd(s, j + 1);
        if k == j + 1 || k == |s| || s[k] != '`' then None
        else Some((TableRef(s[1..j], s[j + 1..k]), k + 1))
  }

  /** Whatever the scanner matches is a two-part reference, and the parts it
      reports are that reference's parts. */
  lemma {:induction false} MatchAtSound(s: string)
    requires MatchAt(s).Some?
    ensures var (r, n) := MatchAt(s).value;
      IsTwoPartRef(s[..n], r.dataset, r.table)
  {
    var j := RunEnd(s, 1);
    var k := RunEnd(s, j + 1);
    RunEndPlain(s, 1);
    RunEndPlain(s, j + 1);
    assert s[..k + 1] == "`" + s[1..j] + "." + s[j + 1..k] + "`";
  }

  /** A run starting at `i` over a plain block followed by a non-plain
      character ends exactly after the block. */
  lemma {:induction false} RunEndOver(s: string, i: nat, w: string)
    requires i + |w| < |s| && s[i..i + |w|] == w && Plain(w)
    requires !PlainChar(s[i + |w|])
    ensures RunEnd(s, i) == i + |w|
    decreases |w|
  {
    if w != [] {
      assert s[i] == w[0];
      assert s[i + 1..i + 1 + |w[1..]|] == w[1..];
      RunEndOver(s, i + 1, w[1..]);
    }
  }

  /** Every two-part reference at the start of a text is matched, with its
      own parts and its whole length: together with the postcondition of
      `MatchAt`, the scanner matches exactly the language of the pattern. */
  lemma {:induction false} MatchAtComplete(t: string, a: string, b: string, rest: string)
    requires IsTwoPartRef(t, a, b)
    ensures MatchAt(t + rest) == Some((TableRef(a, b), |t|))
  {
    var s := t + rest;
    assert s[1..1 + |a|] == a;
    RunEndOver(s, 1, a);
    assert s[|a| + 2..|a| + 2 + |b|] == b;
    RunEndOver(s, |a| + 2, b);
    assert s[1..|a| + 1] == a;
    assert s[|a| + 2..|a| + |b| + 2] == b;
  }

  /** A three-part reference is never matched where it starts. */
  lemma {:induction false} ThreePartNotMatched(a: string, b: string, c: string, rest: string)
    requires a != [] && b != [] && Plain(a) && Plain(b) && Plain(c)
    ensures MatchAt("`" + a + "." + b + "." + c + "`" + rest) == None
  {
    var s := "`" + a + "." + b + "." + c + "`" + rest;
    assert s[1..1 + |a|] == a;
    RunEndOver(s, 1, a);
    assert s[|a| + 2..|a| + 2 + |b|] == b;
    RunEndOver(s, |a| + 2, b);
  }

  /** The callback `replace_match`: `original` is the whole matched text. */
  function Rewrite(projectId: string, r: TableRef, original: string): string
  {
    var tableRef := r.dataset + "." + r.table;
    if '.' in tableRef && !StartsWith(tableRef, projectId + ".")
    then "`" + projectId + "." + tableRef + "`"
    else original
  }

  /** `re.sub(pattern, replace_match, query)`: a left-to-right scan that, after
      a failed attempt, copies one character and, after a match, resumes past
      the closing backtick. */
  function Qualify(projectId: string, query: string): string
    decreases |query|
  {
    if query == [] then []
    else match MatchAt(query)
      case Some((r, n)) => Rewrite(projectId, r, query[..n]) + Qualify(projectId, query[n..])
      case None => [query[0]] + Qualify(projectId, query[1..])
  }

  /** For a matched reference `a.b`, "starts with the project id and a dot"
      means exactly that the dataset part is the project id. */
  lemma {:induction false} StartsWithProjectIff(a: string, b: string, projectId: string)
    requires Plain(a) && Plain(b)
    ensures StartsWith(a + "." + b, projectId + ".") <==> a == projectId
  {
    var t := a + "." + b;
    if StartsWith(t, projectId + ".") {
      var p := |projectId|;
      assert t[p] == '.';
      assert t[..p] == a;
    }
  }

  /** The `"." in table_ref` test of the callback always holds: a match has
      exactly one dot. */
  lemma {:induction false} DotTestAlwaysHolds(a: string, b: string)
    ensures '.' in a + "." + b
  {
    assert (a + "." + b)[|a|] == '.';
  }

  /** The callback's effect on a matched reference: a reference whose dataset
      is already the project id is left as it is, every other one gains the
      project id as a third, leading part. */
  lemma {:induction false} RewriteCases(projectId: string, t: string, a: string, b: string)
    requires IsTwoPartRef(t, a, b)
    ensures Rewrite(projectId, TableRef(a, b), t)
         == if a == projectId then t else "`" + projectId + "." + a + "." + b + "`"
  {
    DotTestAlwaysHolds(a, b);
    StartsWithProjectIff(a, b, projectId);
    assert projectId + "." + (a + "." + b) == projectId + "." + a + "." + b;
  }

  /** A reference at the head of a query is rewritten and the scan resumes
      right after its closing backtick. */
  lemma {:induction false} QualifyAtReference(projectId: string, t: string, a: string, b: string, rest: string)
    requires IsTwoPartRef(t, a, b)
    ensures Qualify(projectId, t + rest)
         == (if a == projectId then t else "`" + projectId + "." + a + "." + b + "`")
            + Qualify(projectId, rest)
  {
    MatchAtComplete(t, a, b, rest);
    assert (t + rest)[..|t|] == t;
    assert (t + rest)[|t|..] == rest;
    RewriteCases(projectId, t, a, b);
  }

  lemma {:induction false} EmptyPrefix(q: string)
    ensures [] + q == q
  {
  }

  lemma {:induction false} ConsTail(u: string, q: string)
    requires u != []
    ensures [u[0]] + (u[1..] + q) == u + q
  {
  }

  /** A character other than a backtick never starts a match. */
  lemma {:induction false} QualifyUnfoldPlainHead(projectId: string, q: string)
    requires q != [] && q[0] != '`'
    ensures Qualify(projectId, q) == [q[0]] + Qualify(projectId, q[1..])
  {
    assert MatchAt(q) == None;
  }

  /** Text without a backtick is copied verbatim, and the scan continues
      with what follows it. */
  lemma {:induction false} QualifyCopiesPlainText(projectId: string, u: string, v: string)
    requires '`' !in u
    ensures Qualify(projectId, u + v) == u + Qualify(projectId, v)
    decreases |u|
  {
    if u != [] {
      var w := u + v;
      assert w[0] == u[0] && u[0] in u;
      QualifyUnfoldPlainHead(projectId, w);
      assert w[1..] == u[1..] + v;
      assert '`' !in u[1..];
      QualifyCopiesPlainText(projectId, u[1..], v);
      ConsTail(u, Qualify(projectId, v));
    } else {
      EmptyPrefix(v);
      EmptyPrefix(Qualify(projectId, v));
    }
  }

  /** A query without a backtick is returned unchanged. */
  lemma {:induction false} QualifyNoBacktick(projectId: string, q: string)
    requires '`' !in q
    ensures Qualify(projectId, q) == q
  {
    QualifyCopiesPlainText(projectId, q, []);
    assert q + [] == q;
  }

  /** When every position where the pattern matches names the project's own
      dataset, the query is returned unchanged; in particular a query with no
      match at all is returned unchanged. */
  lemma {:induction false} QualifyOwnedUnchanged(projectId: string, q: string)
    requires forall i :: 0 <= i < |q| && MatchAt(q[i..]).Some? ==>
               MatchAt(q[i..]).value.0.dataset == projectId
    ensures Qualify(projectId, q) == q
    decreases |q|
  {
    if q != [] {
      assert q[0..] == q;
      match MatchAt(q)
      case Some((r, n)) =>
        MatchAtSound(q);
        RewriteCases(projectId, q[..n], r.dataset, r.table);
        forall i | 0 <= i < |q[n..]| && MatchAt(q[n..][i..]).Some?
          ensures MatchAt(q[n..][i..]).value.0.dataset == projectId
        {
          assert q[n..][i..] == q[n + i..];
        }
        QualifyOwnedUnchanged(projectId, q[n..]);
        assert q == q[..n] + q[n..];
      case None =>
        forall i | 0 <= i < |q[1..]| && MatchAt(q[1..][i..]).Some?
          ensures MatchAt(q[1..][i..]).value.0.dataset == projectId
        {
          assert q[1..][i..] == q[1 + i..];
        }
        QualifyOwnedUnchanged(projectId, q[1..]);
        assert q == [q[0]] + q[1..];
    }
  }

  lemma {:induction false} ThreePartHasNoBacktick(a: string, b: string, c: string)
    requires Plain(a) && Plain(b) && Plain(c)
    ensures '`' !in a + "." + b + "." + c
  {
    var u := a + "." + b + "." + c;
    forall i | 0 <= i < |u| ensures u[i] != '`' {
      if i < |a| { assert u[i] == a[i]; }
      else if i == |a| { }
      else if i < |a| + 1 + |b| { assert u[i] == b[i - |a| - 1]; }
      else if i == |a| + 1 + |b| { }
      else { assert u[i] == c[i - |a| - |b| - 2]; }
    }
  }

  lemma {:induction false} Regroup(a: string, b: string, c: string, tail: string)
    ensures "`" + (a + "." + b + "." + c + tail) == "`" + a + "." + b + "." + c + tail
  {
  }

  /** Where no match starts, one character is copied. */
  lemma {:induction false} QualifyUnfoldNoMatch(projectId: string, q: string)
    requires q != [] && MatchAt(q) == None
    ensures Qualify(projectId, q) == [q[0]] + Qualify(projectId, q[1..])
  {
  }

  /** What follows the opening backtick of a quoted three-part name. */
  lemma {:induction false} AfterOpeningBacktick(a: string, b: string, c: string, rest: string)
    ensures ("`" + a + "." + b + "." + c + "`" + rest)[1..] == (a + "." + b + "." + c) + ("`" + rest)
  {
    var u := a + "." + b + "." + c;
    assert "`" + a + "." + b + "." + c + "`" + rest == "`" + u + "`" + rest;
    assert ("`" + u + "`" + rest)[1..] == u + "`" + rest;
  }

  /** A backtick-quoted three-part name is copied unchanged; the scan
      resumes at its closing backtick, which may open a later match. */
  lemma {:induction false} QualifyThreePart(projectId: string, a: string, b: string, c: string, rest: string)
    requires a != [] && b != [] && Plain(a) && Plain(b) && Plain(c)
    ensures Qualify(projectId, "`" + a + "." + b + "." + c + "`" + rest)
         == "`" + a + "." + b + "." + c + Qualify(projectId, "`" + rest)
  {
    var q := "`" + a + "." + b + "." + c + "`" + rest;
    var u := a + "." + b + "." + c;
    ThreePartNotMatched(a, b, c, rest);
    QualifyUnfoldNoMatch(projectId, q);
    ThreePartHasNoBacktick(a, b, c);
    AfterOpeningBacktick(a, b, c, rest);
    QualifyCopiesPlainText(projectId, u, "`" + rest);
    assert [q[0]] == "`";
    Regroup(a, b, c, Qualify(projectId, "`" + rest));
  }

  /** The words of the last dot-separated component, split on '_'. */
  function AliasWords(tableName: string): seq<string>
  {
    Split(LastPart(tableName, '.'), '_')
  }

  /** First characters of the words longer than two characters, in order. */
  function Initials(words: seq<string>): (r: string)
    ensures |r| <= |words|
  {
    if words == [] then []
    else (if |words[0]| > 2 then [words[0][0]] else []) + Initials(words[1..])
  }

  /** `generate_alias`. */
  function GenerateAlias(tableName: string): (alias: string)
    ensures alias != []
    ensures |alias| <= |AliasWords(tableName)|
  {
    var lowered := ToLower(Initials(AliasWords(tableName)));
    if lowered == [] then "t" else lowered
  }

  /** The words longer than two characters, in order. */
  function LongWordList(words: seq<string>): (r: seq<string>)
    ensures forall w :: w in r <==> w in words && |w| > 2
  {
    if words == [] then []
    else
      var rest := LongWordList(words[1..]);
      assert forall w :: w in words <==> w == words[0] || w in words[1..];
      (if |words[0]| > 2 then [words[0]] else []) + rest
  }

  /** The k-th initial is the first character of the k-th long word. */
  lemma {:induction false} InitialsAreFirstChars(words: seq<string>)
    ensures var long := LongWordList(words);
            |Initials(words)| == |long| &&
            forall k :: 0 <= k < |long| ==> Initials(words)[k] == long[k][0]
  {
    if words != [] {
      InitialsAreFirstChars(words[1..]);
      var long := LongWordList(words);
      var rest := LongWordList(words[1..]);
      if |words[0]| > 2 {
        assert long == [words[0]] + rest;
        forall k | 0 < k < |long|
          ensures Initials(words)[k] == long[k][0]
        {
          assert long[k] == rest[k - 1];
          assert Initials(words)[k] == Initials(words[1..])[k - 1];
        }
      } else {
        assert long == rest;
        assert Initials(words) == Initials(words[1..]);
      }
    }
  }

  /** The alias is "t" when the last component has no word longer than two
      characters; otherwise it holds, in order, the lowered first character
      of each such word, one per word. */
  lemma {:induction false} AliasShape(tableName: string)
    ensures var long := LongWordList(AliasWords(tableName));
      && (long == [] ==> GenerateAlias(tableName) == "t")
      && (long != [] ==>
            |GenerateAlias(tableName)| == |long|
            && forall k :: 0 <= k < |long| ==> GenerateAlias(tableName)[k] == LowerChar(long[k][0]))
  {
    InitialsAreFirstChars(AliasWords(tableName));
  }

  /** The words of a name without a dot are its `_`-separated pieces. */
  lemma {:induction false} WordsOfTwoPieces(u: string, v: string)
    requires '.' !in u && '.' !in v && '_' !in u && '_' !in v
    ensures AliasWords(u + "_" + v) == [u, v]
  {
    var s := u + "_" + v;
    assert forall i :: 0 <= i < |s| ==> s[i] != '.' by {
      forall i | 0 <= i < |s| ensures s[i] != '.' {
        if i < |u| { assert s[i] == u[i]; } else if i > |u| { assert s[i] == v[i - |u| - 1]; }
      }
    }
    assert LastPart(s, '.') == s;
    assert s[|u|] == '_';
    assert IndexOf(s, '_') == |u| by {
      forall k | 0 <= k < |u| ensures s[k] != '_' { assert s[k] == u[k]; }
    }
    assert s[..|u|] == u && s[|u| + 1..] == v;
    assert Split(v, '_') == [v];
    assert Split(s, '_') == [u] + Split(v, '_');
  }

  /** Both words of `abc_xyz` are longer than two characters: its alias is `ax`. */
  lemma {:induction false} AliasOfTwoLongWords()
    ensures GenerateAlias("abc_xyz") == "ax"
  {
    assert AliasWords("abc_xyz") == ["abc", "xyz"] by {
      assert "abc_xyz" == "abc" + "_" + "xyz";
      WordsOfTwoPieces("abc", "xyz");
    }
    assert Initials(["abc", "xyz"]) == "ax";
    assert ToLower("ax") == "ax";
  }

  /** A word of two characters contributes nothing: the alias of `ab_xyz` is `x`. */
  lemma {:induction false} AliasSkipsShortWord()
    ensures GenerateAlias("ab_xyz") == "x"
  {
    assert AliasWords("ab_xyz") == ["ab", "xyz"] by {
      assert "ab_xyz" == "ab" + "_" + "xyz";
      WordsOfTwoPieces("ab", "xyz");
    }
    assert Initials(["ab", "xyz"]) == "x";
    assert ToLower("x") == "x";
  }

  /** Only the text after the last dot decides the alias. */
  lemma {:induction false} AliasIgnoresQualifiers(prefix: string, name: string)
    ensures GenerateAlias(prefix + "." + name) == GenerateAlias(name)
  {
    LastPartAfterSeparator(prefix, '.', name);
  }
}

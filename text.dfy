/** String helpers with the meaning of the Python and JavaScript built-ins the exporter uses. */
module Text {

  /** `sep.join(parts)` in Python, `parts.join(sep)` in JavaScript. */
  function Join(parts: seq<string>, sep: string): (r: string)
    ensures parts == [] ==> r == ""
    ensures |parts| == 1 ==> r == parts[0]
    decreases |parts|
  {
    if parts == [] then ""
    else if |parts| == 1 then parts[0]
    else parts[0] + sep + Join(parts[1..], sep)
  }

  /** `[s] * n` in Python. */
  function Repeat(s: string, n: nat): (r: seq<string>)
    ensures |r| == n
    ensures forall i :: 0 <= i < n ==> r[i] == s
  {
    if n == 0 then [] else [s] + Repeat(s, n - 1)
  }

  /** Index of the first `c` in `s`, or `|s|` when there is none. */
  function IndexOf(s: string, c: char): (k: nat)
    ensures k <= |s|
    ensures c !in s[..k]
    ensures k < |s| ==> s[k] == c
  {
    if s == [] then 0
    else if s[0] == c then 0
    else
      var k' := IndexOf(s[1..], c);
      assert s[..k' + 1] == [s[0]] + s[1..][..k'];
      k' + 1
  }

  /**
   * `s.splitlines()` in Python, restricted to '\n' as the only line break:
   * the pieces between line breaks, without a trailing empty piece.
   */
  function SplitLines(s: string): (lines: seq<string>)
    ensures forall i :: 0 <= i < |lines| ==> '\n' !in lines[i]
    ensures lines == [] <==> s == []
    decreases |s|
  {
    if s == [] then []
    else
      var k := IndexOf(s, '\n');
      if k == |s| then [s] else [s[..k]] + SplitLines(s[k + 1..])
  }

  /** Every line followed by a line break, concatenated. */
  function JoinLines(lines: seq<string>): (r: string)
    decreases |lines|
  {
    if lines == [] then "" else lines[0] + "\n" + JoinLines(lines[1..])
  }

  /** Joined lines are empty exactly when there are none, and otherwise end with a line break. */
  lemma JoinLinesEnd(lines: seq<string>)
    ensures JoinLines(lines) == "" <==> lines == []
    ensures lines != [] ==> JoinLines(lines)[|JoinLines(lines)| - 1] == '\n'
  {
    if lines != [] {
      var r := JoinLines(lines);
      var t := JoinLines(lines[1..]);
      assert r == lines[0] + "\n" + t;
      if t != [] {
        JoinLinesEnd(lines[1..]);
        assert r[|r| - 1] == t[|t| - 1];
      }
    }
  }

  /** `[prefix + line for line in lines]`. */
  function Prefixed(prefix: string, lines: seq<string>): (r: seq<string>)
    ensures |r| == |lines|
    ensures forall i :: 0 <= i < |lines| ==> r[i] == prefix + lines[i]
    decreases |lines|
  {
    if lines == [] then [] else [prefix + lines[0]] + Prefixed(prefix, lines[1..])
  }

  lemma {:induction false} IndexOfAfter(a: string, b: string)
    requires '\n' !in a
    ensures IndexOf(a + "\n" + b, '\n') == |a|
    decreases |a|
  {
    if a != [] {
      assert (a + "\n" + b)[1..] == a[1..] + "\n" + b;
      IndexOfAfter(a[1..], b);
    }
  }

  /** A first line without a line break, then a line break: that line, then the lines of the rest. */
  lemma SplitLinesCons(a: string, rest: string)
    requires '\n' !in a
    ensures SplitLines(a + "\n" + rest) == [a] + SplitLines(rest)
  {
    IndexOfAfter(a, rest);
    var s := a + "\n" + rest;
    assert s[..|a|] == a;
    assert s[|a| + 1..] == rest;
  }

  /**
   * A line break splits text in two: the lines before it (the last one
   * ended by it) and then the lines after it.
   */
  lemma {:induction false} SplitLinesAfterBreak(x: string, y: string)
    ensures SplitLines(x + "\n" + y) == SplitLines(x + "\n") + SplitLines(y)
    decreases |x|
  {
    var k := IndexOf(x, '\n');
    if k == |x| {
      assert x[..k] == x;
      SplitLinesCons(x, y);
      SplitLinesCons(x, []);
      assert x + "\n" + [] == x + "\n";
    } else {
      var a := x[..k];
      var x' := x[k + 1..];
      assert x == a + "\n" + x';
      SplitLinesAfterBreak(x', y);
      SplitLinesAfterBreakStep(a, x' + "\n" + y, x' + "\n", SplitLines(y));
      AppendAssoc(a + "\n", x' + "\n", y);
      AppendAssoc(a + "\n", x', "\n");
      AppendAssoc(a + "\n", x', "\n" + y);
      AppendAssoc(x', "\n", y);
    }
  }

  lemma SplitLinesAfterBreakStep(a: string, u: string, v: string, w: seq<string>)
    requires '\n' !in a
    requires SplitLines(u) == SplitLines(v) + w
    ensures SplitLines(a + "\n" + u) == SplitLines(a + "\n" + v) + w
  {
    SplitLinesCons(a, u);
    SplitLinesCons(a, v);
    AppendAssoc([a], SplitLines(v), w);
  }

  /** Splitting text made of whole lines gives those lines back. */
  lemma {:induction false} SplitJoinLines(lines: seq<string>)
    requires forall i :: 0 <= i < |lines| ==> '\n' !in lines[i]
    ensures SplitLines(JoinLines(lines)) == lines
    decreases |lines|
  {
    if lines != [] {
      var rest := JoinLines(lines[1..]);
      IndexOfAfter(lines[0], rest);
      var s := lines[0] + "\n" + rest;
      assert s[..|lines[0]|] == lines[0];
      assert s[|lines[0]| + 1..] == rest;
      SplitJoinLines(lines[1..]);
    }
  }

  /**
   * The text `"".join([f"{prefix}{line}\n" for line in s.splitlines()])`:
   * every line of `s` preceded by `prefix` and ended by a line break.
   */
  function IndentEachLine(prefix: string, s: string): (r: string)
    ensures r == "" <==> s == ""
    ensures r != "" ==> r[|r| - 1] == '\n'
    ensures '\n' !in prefix ==> SplitLines(r) == Prefixed(prefix, SplitLines(s)) && r == JoinLines(SplitLines(r))
  {
    var lines := Prefixed(prefix, SplitLines(s));
    JoinLinesEnd(lines);
    if '\n' !in prefix then
      PrefixedLinesHaveNoBreak(prefix, SplitLines(s));
      SplitJoinLines(lines);
      JoinLines(lines)
    else
      JoinLines(lines)
  }

  lemma PrefixedLinesHaveNoBreak(prefix: string, lines: seq<string>)
    requires '\n' !in prefix
    requires forall i :: 0 <= i < |lines| ==> '\n' !in lines[i]
    ensures forall i :: 0 <= i < |lines| ==> '\n' !in Prefixed(prefix, lines)[i]
  {
    forall i | 0 <= i < |lines| ensures '\n' !in Prefixed(prefix, lines)[i] {
      assert Prefixed(prefix, lines)[i] == prefix + lines[i];
    }
  }

  /** `s.startswith(prefix)`. */
  predicate StartsWith(s: string, prefix: string) {
    |prefix| <= |s| && s[..|prefix|] == prefix
  }

  /** `sub in s` in Python, `s.includes(sub)` in JavaScript. */
  predicate Contains(s: string, sub: string)
    decreases |s|
  {
    StartsWith(s, sub) || (s != [] && Contains(s[1..], sub))
  }

  /** `sub` occurs in `s` starting at index `i`. */
  predicate OccursAt(s: string, sub: string, i: int) {
    0 <= i <= |s| - |sub| && s[i..i + |sub|] == sub
  }

  /** `Contains` holds exactly when `sub` occurs at some position of `s`. */
  lemma {:induction false} ContainsIff(s: string, sub: string)
    ensures Contains(s, sub) <==> exists i :: OccursAt(s, sub, i)
    decreases |s|
  {
    if StartsWith(s, sub) {
      assert OccursAt(s, sub, 0);
    }
    if s != [] {
      ContainsIff(s[1..], sub);
      if Contains(s[1..], sub) {
        var i :| OccursAt(s[1..], sub, i);
        assert s[i + 1..i + 1 + |sub|] == s[1..][i..i + |sub|];
        assert OccursAt(s, sub, i + 1);
      }
      if exists i :: OccursAt(s, sub, i) {
        var i :| OccursAt(s, sub, i);
        if i > 0 {
          assert s[1..][i - 1..i - 1 + |sub|] == s[i..i + |sub|];
          assert OccursAt(s[1..], sub, i - 1);
        }
      }
    }
  }

  /** Each character of `s` that is in `chars` replaced by `repl`. */
  function ReplaceChars(s: string, chars: set<char>, repl: char): (r: string)
    ensures |r| == |s|
    ensures forall i :: 0 <= i < |s| ==> r[i] == if s[i] in chars then repl else s[i]
    decreases |s|
  {
    if s == [] then []
    else [if s[0] in chars then repl else s[0]] + ReplaceChars(s[1..], chars, repl)
  }

  lemma JoinLines1(a: string)
    ensures JoinLines([a]) == a + "\n"
  {
    assert [a][1..] == [];
  }

  lemma JoinLines2(a: string, b: string)
    ensures JoinLines([a, b]) == a + "\n" + b + "\n"
  {
    assert [a, b][1..] == [b];
    JoinLines1(b);
  }

  lemma JoinLines3(a: string, b: string, c: string)
    ensures JoinLines([a, b, c]) == a + "\n" + b + "\n" + c + "\n"
  {
    assert [a, b, c][1..] == [b, c];
    JoinLines2(b, c);
  }

  /** Text made of one, two or three whole lines splits into exactly those lines. */
  lemma SplitLines1(a: string)
    ensures '\n' !in a ==> SplitLines(a + "\n") == [a]
  {
    if '\n' !in a {
      JoinLines1(a);
      SplitJoinLines([a]);
    }
  }

  lemma SplitLines2(a: string, b: string)
    ensures '\n' !in a && '\n' !in b ==> SplitLines(a + "\n" + b + "\n") == [a, b]
  {
    if '\n' !in a && '\n' !in b {
      JoinLines2(a, b);
      SplitJoinLines([a, b]);
    }
  }

  lemma SplitLines3(a: string, b: string, c: string)
    ensures '\n' !in a && '\n' !in b && '\n' !in c ==> SplitLines(a + "\n" + b + "\n" + c + "\n") == [a, b, c]
  {
    if '\n' !in a && '\n' !in b && '\n' !in c {
      JoinLines3(a, b, c);
      SplitJoinLines([a, b, c]);
    }
  }

  /** Prefixing two lines and an empty one. */
  lemma PrefixedThenBlank(prefix: string, a: string, b: string)
    ensures Prefixed(prefix, [a, b, ""]) == [prefix + a, prefix + b, prefix]
  {
    var p := Prefixed(prefix, [a, b, ""]);
    assert p[0] == prefix + a && p[1] == prefix + b && p[2] == prefix + "";
    assert prefix + "" == prefix;
  }

  lemma {:induction false} JoinLinesAppend(a: seq<string>, b: seq<string>)
    ensures JoinLines(a + b) == JoinLines(a) + JoinLines(b)
    decreases |a|
  {
    if a == [] {
      assert a + b == b;
    } else {
      assert (a + b)[0] == a[0];
      assert (a + b)[1..] == a[1..] + b;
      JoinLinesAppend(a[1..], b);
    }
  }

  /** Joining pieces without line breaks with a separator without line breaks gives no line break. */
  lemma {:induction false} JoinNoBreak(parts: seq<string>, sep: string)
    requires '\n' !in sep
    requires forall i :: 0 <= i < |parts| ==> '\n' !in parts[i]
    ensures '\n' !in Join(parts, sep)
    decreases |parts|
  {
    if |parts| > 1 {
      JoinNoBreak(parts[1..], sep);
    }
  }

  /** Whole lines followed by one more line break split into those lines and an empty one. */
  lemma SplitLinesThenBlank(lines: seq<string>)
    requires forall i :: 0 <= i < |lines| ==> '\n' !in lines[i]
    ensures SplitLines(JoinLines(lines) + "\n") == lines + [""]
  {
    var all := lines + [""];
    JoinLines1("");
    JoinLinesAppend(lines, [""]);
    assert JoinLines(all) == JoinLines(lines) + "\n";
    NoBreakAppend(lines, "");
    SplitJoinLines(all);
  }

  lemma NoBreakConcat(a: string, b: string)
    requires '\n' !in a && '\n' !in b
    ensures '\n' !in a + b
  {
  }

  lemma NoBreakAppend(lines: seq<string>, last: string)
    requires forall i :: 0 <= i < |lines| ==> '\n' !in lines[i]
    requires '\n' !in last
    ensures forall i :: 0 <= i < |lines + [last]| ==> '\n' !in (lines + [last])[i]
  {
  }


  lemma AppendAssoc<T>(a: seq<T>, b: seq<T>, c: seq<T>)
    ensures a + b + c == a + (b + c)
  {
  }

  lemma ConsAt<T>(x: T, r: seq<T>, m: nat)
    requires 0 < m <= |r|
    ensures ([x] + r)[m] == r[m - 1]
  {
  }

  /** A character JavaScript's `\s` matches and `trim()` removes: white space and line terminators. */
  predicate IsJsSpace(c: char) {
    || ('\t' <= c <= '\r') || c == ' ' || c == '\U{00A0}' || c == '\U{1680}'
    || ('\U{2000}' <= c <= '\U{200A}') || c == '\U{2028}' || c == '\U{2029}'
    || c == '\U{202F}' || c == '\U{205F}' || c == '\U{3000}' || c == '\U{FEFF}'
  }

  predicate AllJsSpace(s: string) {
    forall i :: 0 <= i < |s| ==> IsJsSpace(s[i])
  }

  /** The number of white-space characters `s` starts with. */
  function LeadingSpaces(s: string): (n: nat)
    ensures n <= |s|
    decreases |s|
  {
    if s != [] && IsJsSpace(s[0]) then 1 + LeadingSpaces(s[1..]) else 0
  }

  /** The number of white-space characters `s` ends with. */
  function TrailingSpaces(s: string): (n: nat)
    ensures n <= |s|
    decreases |s|
  {
    if s != [] && IsJsSpace(s[|s| - 1]) then 1 + TrailingSpaces(s[..|s| - 1]) else 0
  }

  /** The leading run is white space and is maximal. */
  lemma {:induction false} LeadingSpacesShape(s: string)
    ensures AllJsSpace(s[..LeadingSpaces(s)])
    ensures LeadingSpaces(s) < |s| ==> !IsJsSpace(s[LeadingSpaces(s)])
    decreases |s|
  {
    if s != [] && IsJsSpace(s[0]) {
      LeadingSpacesShape(s[1..]);
      assert s[..LeadingSpaces(s)] == [s[0]] + s[1..][..LeadingSpaces(s[1..])];
    }
  }

  /** The trailing run is white space and is maximal. */
  lemma {:induction false} TrailingSpacesShape(s: string)
    ensures AllJsSpace(s[|s| - TrailingSpaces(s)..])
    ensures TrailingSpaces(s) < |s| ==> !IsJsSpace(s[|s| - 1 - TrailingSpaces(s)])
    decreases |s|
  {
    if s != [] && IsJsSpace(s[|s| - 1]) {
      var init := s[..|s| - 1];
      TrailingSpacesShape(init);
      var k := |init| - TrailingSpaces(init);
      assert |s| - TrailingSpaces(s) == k;
      assert s[k..] == s[k..|s| - 1] + [s[|s| - 1]];
      assert s[k..|s| - 1] == init[k..];
    }
  }

  /** `s.trimStart()`: the suffix of `s` after its leading white space. */
  function TrimStart(s: string): string {
    s[LeadingSpaces(s)..]
  }

  /** `s.trimEnd()`: the prefix of `s` before its trailing white space. */
  function TrimEnd(s: string): string {
    s[..|s| - TrailingSpaces(s)]
  }

  /** `s.trim()`. */
  function Trim(s: string): string {
    TrimEnd(TrimStart(s))
  }

  /** Trimming leaves a slice of `s`; only white space is removed around it. */
  lemma TrimShape(s: string)
    ensures var r := Trim(s);
      exists i :: 0 <= i <= |s| - |r| && r == s[i..i + |r|] && AllJsSpace(s[..i]) && AllJsSpace(s[i + |r|..])
  {
    var i := LeadingSpaces(s);
    var t := s[i..];
    var r := t[..|t| - TrailingSpaces(t)];
    assert Trim(s) == r;
    LeadingSpacesShape(s);
    TrailingSpacesShape(t);
    assert s[i..i + |r|] == r;
    assert s[i + |r|..] == t[|r|..];
    assert 0 <= i <= |s| - |r| && AllJsSpace(s[..i]) && AllJsSpace(s[i + |r|..]);
  }

  /** What trimming leaves neither starts nor ends with white space. */
  lemma TrimEdges(s: string)
    ensures var r := Trim(s); r == [] || (!IsJsSpace(r[0]) && !IsJsSpace(r[|r| - 1]))
  {
    var t := TrimStart(s);
    var r := TrimEnd(t);
    LeadingSpacesShape(s);
    TrailingSpacesShape(t);
    assert r != [] ==> r[0] == t[0] && r[|r| - 1] == t[|t| - 1 - TrailingSpaces(t)];
  }

  lemma AllJsSpaceConcat(a: string, b: string)
    ensures AllJsSpace(a + b) <==> AllJsSpace(a) && AllJsSpace(b)
  {
    if AllJsSpace(a + b) {
      forall i | 0 <= i < |a| ensures IsJsSpace(a[i]) {
        assert a[i] == (a + b)[i];
      }
      forall i | 0 <= i < |b| ensures IsJsSpace(b[i]) {
        assert b[i] == (a + b)[|a| + i];
      }
    }
    if AllJsSpace(a) && AllJsSpace(b) {
      forall i | 0 <= i < |a + b| ensures IsJsSpace((a + b)[i]) {
        if i < |a| {
          assert (a + b)[i] == a[i];
        } else {
          assert (a + b)[i] == b[i - |a|];
        }
      }
    }
  }

  /** `s.trim()` is empty exactly when `s` is all white space. */
  lemma TrimBlank(s: string)
    ensures Trim(s) == [] <==> AllJsSpace(s)
  {
    var n := LeadingSpaces(s);
    var t := TrimStart(s);
    LeadingSpacesShape(s);
    TrailingSpacesShape(t);
    assert s == s[..n] + t;
    AllJsSpaceConcat(s[..n], t);
    assert t != [] ==> t[0] == s[n];
    assert Trim(s) == [] ==> t[|t| - TrailingSpaces(t)..] == t;
  }

  /** `s.replace(/\s+/g, "_")`: every maximal run of white space becomes one `_`. */
  function UnderscoreSpaceRuns(s: string): (r: string)
    ensures forall i :: 0 <= i < |r| ==> !IsJsSpace(r[i])
    ensures (forall i :: 0 <= i < |s| ==> !IsJsSpace(s[i])) ==> r == s
    ensures r == [] <==> s == []
    decreases |s|
  {
    if s == [] then []
    else if IsJsSpace(s[0]) then
      "_" + UnderscoreSpaceRuns(TrimStart(s))
    else [s[0]] + UnderscoreSpaceRuns(s[1..])
  }

  /** The leading white space of a concatenation stops in `a` unless `a` is all white space. */
  lemma {:induction false} LeadingSpacesAppend(a: string, b: string)
    ensures !AllJsSpace(a) ==> LeadingSpaces(a + b) == LeadingSpaces(a)
    ensures AllJsSpace(a) ==> LeadingSpaces(a + b) == |a| + LeadingSpaces(b)
    decreases |a|
  {
    if a == [] {
      assert a + b == b;
    } else {
      assert (a + b)[0] == a[0];
      assert (a + b)[1..] == a[1..] + b;
      LeadingSpacesAppend(a[1..], b);
      assert AllJsSpace(a) <==> IsJsSpace(a[0]) && AllJsSpace(a[1..]) by {
        if IsJsSpace(a[0]) && AllJsSpace(a[1..]) {
          forall i | 0 <= i < |a| ensures IsJsSpace(a[i]) {
            if i > 0 {
              assert a[i] == a[1..][i - 1];
            }
          }
        }
      }
    }
  }

  /** A non-empty run of white space alone becomes one `_`. */
  lemma UnderscoreAllSpace(w: string)
    requires w != [] && AllJsSpace(w)
    ensures UnderscoreSpaceRuns(w) == "_"
  {
    LeadingSpacesAppend(w, []);
    assert w + [] == w;
    assert TrimStart(w) == [];
  }

  /** Trimming the start of `a + b` stays inside `a` when a white-space run does not cross the cut. */
  lemma TrimStartAppend(a: string, b: string)
    requires a != [] && IsJsSpace(a[0])
    requires b == [] || !IsJsSpace(a[|a| - 1]) || !IsJsSpace(b[0])
    ensures TrimStart(a + b) == TrimStart(a) + b
    ensures |TrimStart(a)| < |a|
    ensures TrimStart(a) != [] ==> TrimStart(a)[|TrimStart(a)| - 1] == a[|a| - 1]
  {
    LeadingSpacesAppend(a, b);
    LeadingSpacesAppend(a, []);
    assert a + [] == a;
    LeadingSpacesShape(a);
    assert a[..|a|] == a;
    if !AllJsSpace(a) {
      var n := LeadingSpaces(a);
      assert (a + b)[n..] == a[n..] + b;
    } else if b != [] {
      assert (a + b)[|a|..] == b;
    }
  }

  /**
   * `UnderscoreSpaceRuns` works piece by piece when the cut does not fall
   * inside a run of white space.
   */
  lemma {:induction false} UnderscoreSpaceRunsAppend(a: string, b: string)
    requires a == [] || b == [] || !IsJsSpace(a[|a| - 1]) || !IsJsSpace(b[0])
    ensures UnderscoreSpaceRuns(a + b) == UnderscoreSpaceRuns(a) + UnderscoreSpaceRuns(b)
    decreases |a|
  {
    if a == [] {
      assert a + b == b;
    } else if b == [] {
      assert a + b == a;
    } else if !IsJsSpace(a[0]) {
      assert (a + b)[0] == a[0];
      assert (a + b)[1..] == a[1..] + b;
      UnderscoreSpaceRunsAppend(a[1..], b);
    } else {
      assert (a + b)[0] == a[0];
      TrimStartAppend(a, b);
      var t := TrimStart(a);
      if t == [] {
        assert t + b == b;
      } else {
        UnderscoreSpaceRunsAppend(t, b);
      }
    }
  }

  /** A maximal run of white space between two pieces becomes exactly one `_`, and the pieces are kept. */
  lemma UnderscoreRunCollapse(a: string, w: string, b: string)
    requires w != [] && AllJsSpace(w)
    requires a == [] || !IsJsSpace(a[|a| - 1])
    requires b == [] || !IsJsSpace(b[0])
    ensures UnderscoreSpaceRuns(a + w + b) == UnderscoreSpaceRuns(a) + "_" + UnderscoreSpaceRuns(b)
  {
    var x, y := UnderscoreSpaceRuns(a), UnderscoreSpaceRuns(b);
    UnderscoreAllSpace(w);
    UnderscoreSpaceRunsAppend(w, b);
    UnderscoreSpaceRunsAppend(a, w + b);
    AppendAssoc(a, w, b);
    AppendAssoc(x, "_", y);
  }
}

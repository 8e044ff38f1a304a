/**
  The Python string operations the backend relies on, written out over `string`
  (a sequence of code points): `str.isspace`, `str.split()` with and without a
  separator, `str.strip()`, `str.lower()` (ASCII letters only), `str.join`,
  `str.endswith`, slicing `s[:n]` and the substring test `w in s`.
 */
module PyStr {

  /** The characters Python's `str.isspace()` accepts; `split()` and `strip()` cut on these. */
  predicate IsSpace(c: char) {
    var n := c as int;
    (9 <= n <= 13) || (28 <= n <= 32) || n == 0x85 || n == 0xA0 || n == 0x1680
    || (0x2000 <= n <= 0x200A) || n == 0x2028 || n == 0x2029 || n == 0x202F
    || n == 0x205F || n == 0x3000
  }

  predicate NoSpace(s: string) {
    forall i :: 0 <= i < |s| ==> !IsSpace(s[i])
  }

  predicate AllSpace(s: string) {
    forall i :: 0 <= i < |s| ==> IsSpace(s[i])
  }

  /** A whitespace-free, non-empty piece: what `str.split()` produces. */
  predicate IsToken(w: string) {
    |w| > 0 && NoSpace(w)
  }

  // ---------------------------------------------------------------------------
  // Lower-casing

  function LowerChar(c: char): char {
    if 'A' <= c <= 'Z' then (c as int + 32) as char else c
  }

  /** ASCII `str.lower()`: each capital becomes its small letter, every other character stays. */
  function ToLower(s: string): (r: string)
    ensures |r| == |s|
    ensures forall i :: 0 <= i < |s| ==> r[i] == LowerChar(s[i])
    ensures IsLowered(r)
    ensures IsLowered(s) ==> r == s
    ensures AllSpace(s) ==> AllSpace(r)
  {
    seq(|s|, i requires 0 <= i < |s| => LowerChar(s[i]))
  }

  /** Every character is already lower case. */
  predicate IsLowered(s: string) {
    forall i :: 0 <= i < |s| ==> LowerChar(s[i]) == s[i]
  }

  // ---------------------------------------------------------------------------
  // Slicing and suffixes

  /** Python's slice `s[:n]`. */
  function Take<T>(s: seq<T>, n: nat): (r: seq<T>)
    ensures |r| == if |s| <= n then |s| else n
    ensures r <= s
  {
    if |s| <= n then s else s[..n]
  }

  /** `s[:n] + "..." if len(s) > n else s`, the shape of the preview and of `context_used`. */
  function Truncate(s: string, n: nat): (r: string)
    ensures |s| <= n ==> r == s
    ensures |s| > n ==> |r| == n + 3 && r[..n] == s[..n] && r[n..] == "..."
    ensures Take(s, n) <= r && |r| <= n + 3
  {
    if |s| > n then s[..n] + "..." else s
  }

  /** Python's `s.endswith(suffix)`. */
  predicate EndsWith(s: string, suffix: string)
    ensures EndsWith(s, suffix) <==> exists i :: 0 <= i <= |s| && s[i..] == suffix
  {
    |suffix| <= |s| && s[|s| - |suffix|..] == suffix
  }

  // ---------------------------------------------------------------------------
  // Substrings: Python's `w in s`

  predicate Contains(s: string, w: string)
    ensures |w| == 0 ==> Contains(s, w)
    ensures Contains(s, w) ==> |w| <= |s|
  {
    assert |w| == 0 ==> w <= s[0..];
    exists i :: 0 <= i <= |s| && w <= s[i..]
  }

  lemma {:induction false} ContainsMiddle(a: string, w: string, b: string)
    ensures Contains(a + w + b, w)
  {
    var s := a + w + b;
    assert s[|a|..] == w + b;
    assert w <= s[|a|..];
  }

  // ---------------------------------------------------------------------------
  // Concatenation and join

  /** `"".join(parts)`, also the result of a loop of `text += part`. */
  function Concat(parts: seq<string>): (r: string)
    ensures |parts| > 0 ==> parts[0] <= r
  {
    if |parts| == 0 then "" else parts[0] + Concat(parts[1..])
  }

  /** The concatenation is empty exactly when every part is. */
  lemma {:induction false} ConcatEmpty(parts: seq<string>)
    ensures Concat(parts) == "" <==> forall i :: 0 <= i < |parts| ==> parts[i] == ""
  {
    if |parts| > 0 {
      ConcatEmpty(parts[1..]);
      assert forall i :: 1 <= i < |parts| ==> parts[i] == parts[1..][i - 1];
    }
  }

  lemma {:induction false} ConcatSnoc(parts: seq<string>, p: string)
    ensures Concat(parts + [p]) == Concat(parts) + p
  {
    if |parts| == 0 {
      assert parts + [p] == [p];
      assert [p][1..] == [];
    } else {
      assert (parts + [p])[1..] == parts[1..] + [p];
      ConcatSnoc(parts[1..], p);
    }
  }

  /** Python's `sep.join(xs)`. */
  function Join(sep: string, xs: seq<string>): (r: string)
    ensures sep == "" ==> r == Concat(xs)
  {
    if |xs| == 0 then ""
    else if |xs| == 1 then xs[0]
    else xs[0] + sep + Join(sep, xs[1..])
  }

  lemma JoinCons(sep: string, x: string, xs: seq<string>)
    requires |xs| > 0
    ensures Join(sep, [x] + xs) == x + sep + Join(sep, xs)
  {
    assert ([x] + xs)[1..] == xs;
  }

  /** A join ends with its last piece. */
  lemma {:induction false} JoinEndsWith(sep: string, xs: seq<string>)
    requires |xs| > 0
    ensures EndsWith(Join(sep, xs), xs[|xs| - 1])
  {
    if |xs| > 1 {
      JoinEndsWith(sep, xs[1..]);
      var t := Join(sep, xs[1..]);
      var r := xs[0] + sep + t;
      assert r[|r| - |t|..] == t;
      assert r[|r| - |xs[|xs| - 1]|..] == t[|t| - |xs[|xs| - 1]|..];
    }
  }

  // ---------------------------------------------------------------------------
  // s.split(sep) for a one-character separator

  /** Python's `s.split(sep)`: the pieces between separators, empty ones included. */
  function Split(s: string, sep: char): (r: seq<string>)
    ensures |r| >= 1
    ensures forall i :: 0 <= i < |r| ==> sep !in r[i]
  {
    if |s| == 0 then [""]
    else
      var rest := Split(s[1..], sep);
      if s[0] == sep then [""] + rest
      else [[s[0]] + rest[0]] + rest[1..]
  }

  /** Joining the pieces with the separator gives the string back. */
  lemma {:induction false} JoinSplit(s: string, sep: char)
    ensures Join([sep], Split(s, sep)) == s
  {
    if |s| > 0 {
      var rest := Split(s[1..], sep);
      JoinSplit(s[1..], sep);
      if s[0] == sep {
        JoinCons([sep], "", rest);
        assert s == [sep] + s[1..];
      } else if |rest| == 1 {
        assert Split(s, sep) == [[s[0]] + rest[0]];
        assert s == [s[0]] + s[1..];
      } else {
        assert rest == [rest[0]] + rest[1..];
        JoinCons([sep], rest[0], rest[1..]);
        JoinCons([sep], [s[0]] + rest[0], rest[1..]);
        assert s == [s[0]] + s[1..];
      }
    }
  }

  /** A prefix free of the separator is glued to the first piece of what follows. */
  lemma {:induction false} SplitPrefix(x: string, t: string, sep: char)
    requires sep !in x
    ensures Split(x + t, sep) == [x + Split(t, sep)[0]] + Split(t, sep)[1..]
  {
    if |x| == 0 {
      assert x + t == t;
      assert x + Split(t, sep)[0] == Split(t, sep)[0];
      assert Split(t, sep) == [Split(t, sep)[0]] + Split(t, sep)[1..];
    } else {
      assert (x + t)[1..] == x[1..] + t;
      assert (x + t)[0] == x[0];
      assert x == [x[0]] + x[1..];
      SplitPrefix(x[1..], t, sep);
      assert [x[0]] + (x[1..] + Split(t, sep)[0]) == x + Split(t, sep)[0];
    }
  }

  /** Splitting a join of separator-free pieces gives the pieces back. */
  lemma {:induction false} SplitJoin(xs: seq<string>, sep: char)
    requires |xs| >= 1
    requires forall i :: 0 <= i < |xs| ==> sep !in xs[i]
    ensures Split(Join([sep], xs), sep) == xs
  {
    if |xs| == 1 {
      SplitPrefix(xs[0], "", sep);
      assert xs[0] + "" == xs[0];
    } else {
      var tail := Join([sep], xs[1..]);
      SplitJoin(xs[1..], sep);
      assert Join([sep], xs) == xs[0] + ([sep] + tail);
      assert ([sep] + tail)[1..] == tail;
      assert Split([sep] + tail, sep) == [""] + Split(tail, sep);
      SplitPrefix(xs[0], [sep] + tail, sep);
      assert xs[0] + "" == xs[0];
      assert xs == [xs[0]] + xs[1..];
    }
  }

  /** Every piece of a lower-cased string is lower-cased. */
  lemma {:induction false} SplitKeepsLowered(s: string, sep: char)
    requires IsLowered(s)
    ensures forall i :: 0 <= i < |Split(s, sep)| ==> IsLowered(Split(s, sep)[i])
  {
    if |s| > 0 {
      SplitKeepsLowered(s[1..], sep);
      var rest := Split(s[1..], sep);
      if s[0] != sep {
        assert IsLowered([s[0]] + rest[0]) by {
          assert IsLowered(rest[0]);
        }
        var r := Split(s, sep);
        forall i | 0 <= i < |r| ensures IsLowered(r[i]) {
          if i > 0 {
            assert r[i] == rest[i];
          }
        }
      }
    }
  }

  // ---------------------------------------------------------------------------
  // s.split(): whitespace-separated tokens

  /** Length of the leading run of non-whitespace characters. */
  function TokenLength(s: string): (n: nat)
    ensures n <= |s|
    ensures NoSpace(s[..n])
    ensures n < |s| ==> IsSpace(s[n])
  {
    if |s| == 0 || IsSpace(s[0]) then 0 else 1 + TokenLength(s[1..])
  }

  /** Python's `s.split()`: maximal runs of non-whitespace, leading and trailing whitespace ignored. */
  function Words(s: string): (ws: seq<string>)
    ensures forall i :: 0 <= i < |ws| ==> IsToken(ws[i])
    decreases |s|
  {
    if |s| == 0 then []
    else if IsSpace(s[0]) then Words(s[1..])
    else
      var n := TokenLength(s);
      [s[..n]] + Words(s[n..])
  }

  /** An empty or whitespace-only string has no words. */
  lemma {:induction false} WordsOfBlank(s: string)
    requires AllSpace(s)
    ensures Words(s) == []
  {
    if |s| > 0 {
      WordsOfBlank(s[1..]);
    }
  }

  lemma {:induction false} TokenLengthOf(w: string, t: string)
    requires NoSpace(w)
    requires |t| == 0 || IsSpace(t[0])
    ensures TokenLength(w + t) == |w|
  {
    if |w| == 0 {
      assert w + t == t;
    } else {
      assert (w + t)[1..] == w[1..] + t;
      TokenLengthOf(w[1..], t);
    }
  }

  /** Splitting a single-space join of tokens gives the tokens back. */
  lemma {:induction false} WordsOfJoin(ws: seq<string>)
    requires forall i :: 0 <= i < |ws| ==> IsToken(ws[i])
    ensures Words(Join(" ", ws)) == ws
  {
    if |ws| == 1 {
      var w := ws[0];
      TokenLengthOf(w, "");
      assert w + "" == w;
      assert w[..|w|] == w;
      assert w[|w|..] == "";
    } else if |ws| > 1 {
      var w := ws[0];
      var tail := Join(" ", ws[1..]);
      var s := w + (" " + tail);
      assert Join(" ", ws) == s;
      TokenLengthOf(w, " " + tail);
      assert s[..|w|] == w;
      assert s[|w|..] == " " + tail;
      assert (" " + tail)[1..] == tail;
      WordsOfJoin(ws[1..]);
      assert ws == [w] + ws[1..];
    }
  }

  /** A lone token is one word. */
  lemma WordsOfToken(w: string)
    requires IsToken(w)
    ensures Words(w) == [w]
  {
    WordsOfJoin([w]);
  }

  /** A token run that stops inside `a` stops at the same place once more text follows. */
  lemma {:induction false} TokenLengthPrefix(a: string, t: string)
    requires TokenLength(a) < |a|
    ensures TokenLength(a + t) == TokenLength(a)
  {
    if !IsSpace(a[0]) {
      assert (a + t)[1..] == a[1..] + t;
      TokenLengthPrefix(a[1..], t);
    }
  }

  /**
    A whitespace character separates words: `split()` of `a + c + b` is the words
    of `a` followed by the words of `b`, whatever whitespace surrounds them.
   */
  lemma {:induction false} WordsAtSpace(a: string, c: char, b: string)
    requires IsSpace(c)
    ensures Words(a + [c] + b) == Words(a) + Words(b)
    decreases |a|
  {
    var s := a + [c] + b;
    if |a| == 0 {
      assert s == [c] + b;
      assert s[1..] == b;
    } else if IsSpace(a[0]) {
      assert s[1..] == a[1..] + [c] + b;
      WordsAtSpace(a[1..], c, b);
    } else {
      var m := TokenLength(a);
      if m < |a| {
        TokenLengthPrefix(a, [c] + b);
        assert s == a + ([c] + b);
      } else {
        assert a[..m] == a;
        TokenLengthOf(a, [c] + b);
        assert s == a + ([c] + b);
      }
      assert TokenLength(s) == m;
      assert s[..m] == a[..m];
      assert s[m..] == a[m..] + [c] + b;
      WordsAtSpace(a[m..], c, b);
    }
  }

  /** The words of lower-cased text are lower-cased. */
  lemma {:induction false} WordsKeepLowered(s: string)
    requires IsLowered(s)
    ensures forall i :: 0 <= i < |Words(s)| ==> IsLowered(Words(s)[i])
    decreases |s|
  {
    if |s| > 0 {
      if IsSpace(s[0]) {
        WordsKeepLowered(s[1..]);
      } else {
        var n := TokenLength(s);
        WordsKeepLowered(s[n..]);
        var ws := Words(s);
        forall i | 0 <= i < |ws| ensures IsLowered(ws[i]) {
          if i > 0 {
            assert ws[i] == Words(s[n..])[i - 1];
          }
        }
      }
    }
  }

  // ---------------------------------------------------------------------------
  // s.strip()

  /** Number of leading whitespace characters. */
  function LeadingSpaces(s: string): (n: nat)
    ensures n <= |s|
    ensures AllSpace(s[..n])
    ensures n < |s| ==> !IsSpace(s[n])
  {
    if |s| == 0 || !IsSpace(s[0]) then 0 else 1 + LeadingSpaces(s[1..])
  }

  /** Index just past the last non-whitespace character (0 when there is none). */
  function ContentEnd(s: string): (n: nat)
    ensures n <= |s|
    ensures forall i :: n <= i < |s| ==> IsSpace(s[i])
    ensures n > 0 ==> !IsSpace(s[n - 1])
  {
    ContentEndBefore(s, |s|)
  }

  function ContentEndBefore(s: string, j: nat): (n: nat)
    requires j <= |s|
    ensures n <= j
    ensures forall i :: n <= i < j ==> IsSpace(s[i])
    ensures n > 0 ==> !IsSpace(s[n - 1])
  {
    if j == 0 || !IsSpace(s[j - 1]) then j else ContentEndBefore(s, j - 1)
  }

  /** Python's `s.strip()`: the string with leading and trailing whitespace removed. */
  function Strip(s: string): (r: string)
    ensures |r| > 0 ==> !IsSpace(r[0]) && !IsSpace(r[|r| - 1])
    ensures |r| <= |s|
  {
    var t := s[LeadingSpaces(s)..];
    t[..ContentEnd(t)]
  }

  /** A non-empty run of non-whitespace inside `s` lies between the leading and the trailing whitespace. */
  lemma TokenWithinContent(s: string, w: string, j: nat, i: nat, m: nat)
    requires IsToken(w)
    requires j <= |s| && w <= s[j..]
    requires i + m <= |s| && AllSpace(s[..i]) && AllSpace(s[i + m..])
    ensures i <= j && j + |w| <= i + m
  {
    assert s[j..][0] == w[0];
    assert s[j..][|w| - 1] == w[|w| - 1];
  }

  /** `Strip` cuts out the slice between the leading and the trailing whitespace. */
  lemma StripSlice(s: string) returns (i: nat, m: nat)
    ensures m == |Strip(s)|
    ensures i + m <= |s| && AllSpace(s[..i]) && AllSpace(s[i + m..])
    ensures Strip(s) == s[i..i + m]
  {
    i := LeadingSpaces(s);
    var t := s[i..];
    m := ContentEnd(t);
    assert s[i + m..] == t[m..];
    assert t[..m] == s[i..i + m];
  }

  lemma ContainsAt(s: string, w: string, k: nat)
    requires k <= |s| && w <= s[k..]
    ensures Contains(s, w)
  {
  }

  /** Stripping keeps every whitespace-free word the string contained. */
  lemma StripKeepsToken(s: string, w: string)
    requires IsToken(w)
    requires Contains(s, w)
    ensures Contains(Strip(s), w)
  {
    var j :| 0 <= j <= |s| && w <= s[j..];
    var i, m := StripSlice(s);
    TokenWithinContent(s, w, j, i, m);
    SliceKeepsPrefix(s, w, j, i, m);
    ContainsAt(Strip(s), w, j - i);
  }

  lemma SliceKeepsPrefix(s: string, w: string, j: nat, i: nat, m: nat)
    requires i <= j && j + |w| <= i + m <= |s|
    requires w <= s[j..]
    ensures w <= s[i..i + m][j - i..]
  {
    assert s[i..i + m][j - i..][..|w|] == s[j..][..|w|];
  }

  lemma StripKeepsLowered(s: string)
    requires IsLowered(s)
    ensures IsLowered(Strip(s))
  {
    var i, m := StripSlice(s);
    assert forall k :: 0 <= k < m ==> Strip(s)[k] == s[i + k];
  }

  // ---------------------------------------------------------------------------
  // List comprehensions

  /** `[f(x) for x in xs if keep(x)]` */
  function Comprehension<T, U>(xs: seq<T>, keep: T -> bool, f: T -> U): (r: seq<U>)
    ensures |r| <= |xs|
  {
    if |xs| == 0 then []
    else (if keep(xs[0]) then [f(xs[0])] else []) + Comprehension(xs[1..], keep, f)
  }

  /** The comprehension is empty exactly when no element is kept. */
  lemma {:induction false} ComprehensionEmpty<T, U>(xs: seq<T>, keep: T -> bool, f: T -> U)
    ensures Comprehension(xs, keep, f) == [] <==> forall j :: 0 <= j < |xs| ==> !keep(xs[j])
  {
    if |xs| > 0 {
      ComprehensionEmpty(xs[1..], keep, f);
      assert forall j :: 1 <= j < |xs| ==> xs[j] == xs[1..][j - 1];
    }
  }

  /**
    `idx` lists, increasingly, every position of `xs` whose element is kept, and
    `out` holds `f` of those elements in that order.
   */
  ghost predicate Enumerates<T, U>(xs: seq<T>, keep: T -> bool, f: T -> U, out: seq<U>, idx: seq<nat>) {
    && |idx| == |out|
    && (forall i :: 0 <= i < |idx| ==> idx[i] < |xs| && keep(xs[idx[i]]) && out[i] == f(xs[idx[i]]))
    && (forall i, j :: 0 <= i < j < |idx| ==> idx[i] < idx[j])
    && (forall j :: 0 <= j < |xs| && keep(xs[j]) ==> j in idx)
  }

  /** The comprehension's elements are `f` of exactly the kept elements, in order. */
  lemma {:induction false} ComprehensionIndices<T, U>(xs: seq<T>, keep: T -> bool, f: T -> U) returns (idx: seq<nat>)
    ensures Enumerates(xs, keep, f, Comprehension(xs, keep, f), idx)
  {
    if |xs| == 0 {
      idx := [];
    } else {
      var rest := ComprehensionIndices(xs[1..], keep, f);
      var head := if keep(xs[0]) then [0] else [];
      var out := if keep(xs[0]) then [f(xs[0])] else [];
      assert Comprehension(xs, keep, f) == out + Comprehension(xs[1..], keep, f);
      idx := head + Shifted(rest);
      EnumeratesSound(xs, keep, f, rest, head, out);
      EnumeratesComplete(xs, keep, rest, head);
    }
  }

  lemma EnumeratesSound<T, U>(xs: seq<T>, keep: T -> bool, f: T -> U, rest: seq<nat>, head: seq<nat>, out: seq<U>)
    requires |xs| > 0
    requires Enumerates(xs[1..], keep, f, Comprehension(xs[1..], keep, f), rest)
    requires head == (if keep(xs[0]) then [0] else []) && out == (if keep(xs[0]) then [f(xs[0])] else [])
    ensures var idx, ys := head + Shifted(rest), out + Comprehension(xs[1..], keep, f);
      && |idx| == |ys|
      && (forall i :: 0 <= i < |idx| ==> idx[i] < |xs| && keep(xs[idx[i]]) && ys[i] == f(xs[idx[i]]))
      && (forall i, j :: 0 <= i < j < |idx| ==> idx[i] < idx[j])
  {
    var idx, ys := head + Shifted(rest), out + Comprehension(xs[1..], keep, f);
    var tail := Comprehension(xs[1..], keep, f);
    forall i | 0 <= i < |idx|
      ensures idx[i] < |xs| && keep(xs[idx[i]]) && ys[i] == f(xs[idx[i]])
    {
      if i >= |head| {
        var k := i - |head|;
        assert idx[i] == rest[k] + 1;
        assert xs[idx[i]] == xs[1..][rest[k]];
        assert ys[i] == tail[k];
      }
    }
  }

  lemma EnumeratesComplete<T>(xs: seq<T>, keep: T -> bool, rest: seq<nat>, head: seq<nat>)
    requires |xs| > 0
    requires forall j :: 0 <= j < |xs[1..]| && keep(xs[1..][j]) ==> j in rest
    requires head == (if keep(xs[0]) then [0] else [])
    ensures forall j :: 0 <= j < |xs| && keep(xs[j]) ==> j in head + Shifted(rest)
  {
    var idx := head + Shifted(rest);
    forall j | 0 <= j < |xs| && keep(xs[j]) ensures j in idx {
      if j > 0 {
        assert xs[1..][j - 1] == xs[j];
        var k :| 0 <= k < |rest| && rest[k] == j - 1;
        assert idx[k + |head|] == j;
      }
    }
  }

  function Shifted(idx: seq<nat>): (r: seq<nat>)
    ensures |r| == |idx|
    ensures forall i :: 0 <= i < |idx| ==> r[i] == idx[i] + 1
  {
    seq(|idx|, i requires 0 <= i < |idx| => idx[i] + 1)
  }
}

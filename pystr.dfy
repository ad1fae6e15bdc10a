/**
 * The Python `str` operations the package relies on, written out on `seq<char>`:
 * substring search (`pat in s`), `s.split(pat, 1)[-1]`, `s.rsplit(c, 1)[0]`,
 * `s.split(c)`, `s.split(c, n)`, `s.strip()` and the slice `s[1:-1]`.
 * Each is characterised by its ensures clauses so that callers never unfold a body.
 */
module PyStr {
  import opened Wrappers

  /** `pat` occurs in `s` starting at index `i`. */
  predicate OccursAt(s: string, pat: string, i: nat) {
    i + |pat| <= |s| && s[i..i + |pat|] == pat
  }

  /** The index of the first occurrence of `pat` in `s` (`s.find(pat)`, None for -1). */
  function Find(s: string, pat: string): (r: Option<nat>)
    ensures r.Some? ==> OccursAt(s, pat, r.value)
    ensures r.Some? ==> forall j :: 0 <= j < r.value ==> !OccursAt(s, pat, j)
    ensures r.None? ==> forall j: nat :: !OccursAt(s, pat, j)
    decreases |s|
  {
    if |s| < |pat| then None
    else if s[..|pat|] == pat then Some(0)
    else
      var rest := Find(s[1..], pat);
      assert forall j: nat :: OccursAt(s[1..], pat, j) <==> OccursAt(s, pat, j + 1) by {
        forall j: nat ensures OccursAt(s[1..], pat, j) <==> OccursAt(s, pat, j + 1) {
          if j + 1 + |pat| <= |s| {
            assert s[1..][j..j + |pat|] == s[j + 1..j + 1 + |pat|];
          }
        }
      }
      assert !OccursAt(s, pat, 0);
      assert forall j: nat :: j > 0 ==> (OccursAt(s, pat, j) <==> OccursAt(s[1..], pat, j - 1));
      match rest
      case None => None
      case Some(i) => Some(i + 1)
  }

  /** An occurrence of `pat` at `j` puts its `k`th character at `j + k`. */
  lemma OccursAtChar(s: string, pat: string, j: nat, k: nat)
    requires k < |pat|
    ensures OccursAt(s, pat, j) ==> j + k < |s| && s[j + k] == pat[k]
  {
    if OccursAt(s, pat, j) {
      assert s[j..j + |pat|][k] == s[j + k];
    }
  }

  /** Python's `pat in s`. */
  predicate Contains(s: string, pat: string) {
    Find(s, pat).Some?
  }

  /** `pat in s` holds exactly when `pat` occurs somewhere in `s`. */
  lemma ContainsOccurs(s: string, pat: string)
    ensures Contains(s, pat) <==> exists i: nat :: OccursAt(s, pat, i)
  {
  }

  /** `s.split(pat, 1)[-1]`: the text after the first occurrence of `pat`, or all of `s`. */
  function AfterFirst(s: string, pat: string): (r: string)
    ensures Find(s, pat).None? ==> r == s
    ensures Find(s, pat).Some? ==> s == s[..Find(s, pat).value] + pat + r
  {
    match Find(s, pat)
    case None => s
    case Some(i) =>
      assert s == s[..i] + s[i..i + |pat|] + s[i + |pat|..];
      s[i + |pat|..]
  }

  /** The index of the last occurrence of `c` in `s`. */
  function LastIndex(s: string, c: char): (i: nat)
    requires c in s
    ensures i < |s| && s[i] == c && c !in s[i + 1..]
  {
    if s[|s| - 1] == c then |s| - 1
    else
      var i := LastIndex(s[..|s| - 1], c);
      assert s[i + 1..] == s[..|s| - 1][i + 1..] + [s[|s| - 1]];
      i
  }

  /** `s.rsplit(c, 1)[0]`: everything before the last `c`, or all of `s` when there is none. */
  function BeforeLast(s: string, c: char): (r: string)
    ensures c !in s ==> r == s
    ensures c in s ==> |r| < |s| && s[|r|] == c && r == s[..|r|] && c !in s[|r| + 1..]
  {
    if c in s then s[..LastIndex(s, c)] else s
  }

  /** The index of the first occurrence of `c` in `s`: `s.index(c)`, and `list.index` too. */
  function FirstIndex<T(==)>(s: seq<T>, c: T): (i: nat)
    requires c in s
    ensures i < |s| && s[i] == c && c !in s[..i]
  {
    if s[0] == c then 0
    else
      var i := FirstIndex(s[1..], c);
      assert s[..i + 1] == [s[0]] + s[1..][..i];
      i + 1
  }

  /** `s.split(c)` for a one-character separator. */
  function Split(s: string, c: char): (parts: seq<string>)
    ensures |parts| >= 1
    ensures forall k :: 0 <= k < |parts| ==> c !in parts[k]
    decreases |s|
  {
    if c in s then
      var i := FirstIndex(s, c);
      [s[..i]] + Split(s[i + 1..], c)
    else [s]
  }

  /** `s.split(c, n)`: at most `n` splits, the remainder left whole in the last part. */
  function SplitMax(s: string, c: char, n: nat): (parts: seq<string>)
    ensures 1 <= |parts| <= n + 1
    ensures |parts| == 1 <==> n == 0 || c !in s
    ensures |parts| > 1 ==> parts[0] == s[..FirstIndex(s, c)]
    ensures forall k :: 0 <= k < |parts| - 1 ==> c !in parts[k]
    ensures |parts| == n + 1 || c !in parts[|parts| - 1]
    decreases n
  {
    if n == 0 || c !in s then [s]
    else
      var i := FirstIndex(s, c);
      [s[..i]] + SplitMax(s[i + 1..], c, n - 1)
  }

  /**
   * Joining the parts of `s.split(c, n)` with `c` gives back `s`. With the clauses of
   * `SplitMax` (no separator in any part but the last, and all `n` splits taken when the
   * text has them) this fixes every part.
   */
  lemma JoinSplitMax(s: string, c: char, n: nat)
    ensures Join(SplitMax(s, c, n), c) == s
    decreases n
  {
    if n != 0 && c in s {
      var i := FirstIndex(s, c);
      JoinSplitMax(s[i + 1..], c, n - 1);
      JoinSplitMaxStep(s, c, n, i);
    }
  }

  /** The step of `JoinSplitMax`: one split at the first separator, at `i`. */
  lemma JoinSplitMaxStep(s: string, c: char, n: nat, i: nat)
    requires n != 0 && i < |s| && s[i] == c && c !in s[..i]
    requires Join(SplitMax(s[i + 1..], c, n - 1), c) == s[i + 1..]
    ensures Join(SplitMax(s, c, n), c) == s
  {
    var a, b := s[..i], s[i + 1..];
    assert s == a + [c] + b;
    SplitMaxCons(a, c, b, n);
    JoinCons(a, SplitMax(b, c, n - 1), c);
  }

  /** `sep.join(parts)` for a one-character separator. */
  function Join(parts: seq<string>, sep: char): string {
    if parts == [] then ""
    else if |parts| == 1 then parts[0]
    else parts[0] + [sep] + Join(parts[1..], sep)
  }

  /** Splitting on `c` and joining with `c` gives back the original text. */
  lemma {:induction false} JoinSplit(s: string, c: char)
    ensures Join(Split(s, c), c) == s
    decreases |s|
  {
    if c in s {
      var i := FirstIndex(s, c);
      JoinSplit(s[i + 1..], c);
      Around(s, i);
    }
  }

  /** Joining a first part onto at least one more part. */
  lemma JoinCons(x: string, rest: seq<string>, sep: char)
    requires rest != []
    ensures Join([x] + rest, sep) == x + [sep] + Join(rest, sep)
  {
    assert ([x] + rest)[1..] == rest;
  }


  /** A text is what lies before position `i`, the character at `i`, and what follows. */
  lemma Around(s: string, i: nat)
    requires i < |s|
    ensures s == s[..i] + [s[i]] + s[i + 1..]
  {
  }

  /** A non-empty sequence is its first element followed by the rest. */
  lemma HeadTail(xs: seq<string>)
    requires xs != []
    ensures [xs[0]] + xs[1..] == xs
  {
  }

  /** Joining one more part onto at least one part. */
  lemma {:induction false} JoinSnoc(parts: seq<string>, x: string, sep: char)
    requires parts != []
    ensures Join(parts + [x], sep) == Join(parts, sep) + [sep] + x
    decreases |parts|
  {
    if |parts| == 1 {
      assert parts + [x] == [parts[0], x];
    } else {
      assert (parts + [x])[1..] == parts[1..] + [x];
      JoinSnoc(parts[1..], x, sep);
    }
  }

  /** Joining parts that hold no separator and splitting again gives back the parts. */
  lemma {:induction false} SplitJoin(parts: seq<string>, c: char)
    requires parts != []
    requires forall k :: 0 <= k < |parts| ==> c !in parts[k]
    ensures Split(Join(parts, c), c) == parts
    decreases |parts|
  {
    if |parts| > 1 {
      SplitJoin(parts[1..], c);
      SplitCons(parts[0], c, Join(parts[1..], c));
      HeadTail(parts);
    }
  }

  /** Splitting `a + c + b` where `a` holds no `c` yields `a` followed by the parts of `b`. */
  lemma SplitCons(a: string, c: char, b: string)
    requires c !in a
    ensures Split(a + [c] + b, c) == [a] + Split(b, c)
  {
    var s := a + [c] + b;
    assert s[|a|] == c;
    assert s[..|a|] == a;
    var i := FirstIndex(s, c);
    assert i == |a|;
    assert s[..i] == a;
    assert s[i + 1..] == b;
  }

  /** `s.split(c, n)` of `a + c + b`, where `a` holds no `c`, is `a` then `b.split(c, n - 1)`. */
  lemma SplitMaxCons(a: string, c: char, b: string, n: nat)
    requires c !in a && n >= 1
    ensures SplitMax(a + [c] + b, c, n) == [a] + SplitMax(b, c, n - 1)
  {
    var s := a + [c] + b;
    assert s[|a|] == c;
    assert s[..|a|] == a;
    var i := FirstIndex(s, c);
    assert i == |a|;
    assert s[i + 1..] == b;
  }

  /** A text that contains `pat` as its prefix contains `pat`. */
  lemma ContainsPrefix(s: string, pat: string)
    requires |pat| <= |s| && s[..|pat|] == pat
    ensures Contains(s, pat)
  {
    assert OccursAt(s, pat, 0);
  }

  /** Python's `str.isspace` for one character: the characters `s.strip()` removes. */
  predicate IsSpace(ch: char) {
    || ('\t' <= ch <= '\r')
    || ('\U{1C}' <= ch <= ' ')
    || ch == '\U{85}' || ch == '\U{A0}' || ch == '\U{1680}'
    || ('\U{2000}' <= ch <= '\U{200A}')
    || ch == '\U{2028}' || ch == '\U{2029}' || ch == '\U{202F}' || ch == '\U{205F}'
    || ch == '\U{3000}'
  }

  /** `s.lstrip()`. */
  function StripLeading(s: string): string {
    if s != [] && IsSpace(s[0]) then StripLeading(s[1..]) else s
  }

  /** `s.rstrip()`. */
  function StripTrailing(s: string): string {
    if s != [] && IsSpace(s[|s| - 1]) then StripTrailing(s[..|s| - 1]) else s
  }

  /** `s.lstrip()` is the suffix of `s` left after all of its leading white space. */
  lemma {:induction false} StripLeadingSuffix(s: string)
    ensures var r := StripLeading(s);
      && |r| <= |s| && r == s[|s| - |r|..]
      && (r == [] || !IsSpace(r[0]))
      && (forall i :: 0 <= i < |s| - |r| ==> IsSpace(s[i]))
    decreases |s|
  {
    if s != [] && IsSpace(s[0]) {
      StripLeadingSuffix(s[1..]);
    }
  }

  /** `s.rstrip()` is the prefix of `s` left before all of its trailing white space. */
  lemma {:induction false} StripTrailingPrefix(s: string)
    ensures var r := StripTrailing(s);
      && |r| <= |s| && r == s[..|r|]
      && (r == [] || !IsSpace(r[|r| - 1]))
      && (forall i :: |r| <= i < |s| ==> IsSpace(s[i]))
    decreases |s|
  {
    if s != [] && IsSpace(s[|s| - 1]) {
      StripTrailingPrefix(s[..|s| - 1]);
    }
  }

  /** `s.strip()`. */
  function Strip(s: string): string {
    StripTrailing(StripLeading(s))
  }

  /**
   * `s.strip()` is a piece of `s` that neither starts nor ends with white space, and
   * everything around it is white space.
   */
  lemma StripEnds(s: string)
    ensures var r := Strip(s);
      && (r == [] || (!IsSpace(r[0]) && !IsSpace(r[|r| - 1])))
      && exists i :: 0 <= i <= |s| - |r| && s[i..i + |r|] == r
           && AllSpace(s[..i]) && AllSpace(s[i + |r|..])
  {
    var l := StripLeading(s);
    var r := Strip(s);
    StripLeadingSuffix(s);
    StripTrailingPrefix(l);
    var i := |s| - |l|;
    assert s[i..i + |r|] == r;
    assert AllSpace(s[..i]);
    assert AllSpace(s[i + |r|..]);
  }

  /** A text that neither starts nor ends with white space is its own `strip()`. */
  lemma StripUnchanged(s: string)
    requires s == [] || (!IsSpace(s[0]) && !IsSpace(s[|s| - 1]))
    ensures Strip(s) == s
  {
  }

  /** One blank before or after such a text is stripped away. */
  lemma StripBlank(s: string)
    requires s != [] && !IsSpace(s[0]) && !IsSpace(s[|s| - 1])
    ensures Strip(" " + s) == s
    ensures Strip(s + " ") == s
  {
    assert (" " + s)[1..] == s;
    StripUnchanged(s);
    assert StripLeading(s + " ") == s + " ";
    assert (s + " ")[..|s|] == s;
  }

  /** A text made of white space only (possibly empty). */
  predicate AllSpace(w: string) {
    forall i :: 0 <= i < |w| ==> IsSpace(w[i])
  }

  /** `lstrip()` passes over leading white space. */
  lemma {:induction false} StripLeadingSpaces(w: string, x: string)
    requires AllSpace(w)
    ensures StripLeading(w + x) == StripLeading(x)
    decreases |w|
  {
    if w != [] {
      assert (w + x)[0] == w[0];
      assert (w + x)[1..] == w[1..] + x;
      StripLeadingSpaces(w[1..], x);
    } else {
      assert w + x == x;
    }
  }

  /** `rstrip()` passes over trailing white space. */
  lemma {:induction false} StripTrailingSpaces(x: string, w: string)
    requires AllSpace(w)
    ensures StripTrailing(x + w) == StripTrailing(x)
    decreases |w|
  {
    if w != [] {
      var w' := w[..|w| - 1];
      assert (x + w)[|x + w| - 1] == w[|w| - 1];
      assert (x + w)[..|x + w| - 1] == x + w';
      StripTrailingSpaces(x, w');
    } else {
      assert x + w == x;
    }
  }

  /** A text without white space at its ends, padded with white space, strips back to itself. */
  lemma StripPadded(w1: string, x: string, w2: string)
    requires AllSpace(w1) && AllSpace(w2)
    requires x != [] && !IsSpace(x[0]) && !IsSpace(x[|x| - 1])
    ensures Strip(w1 + x + w2) == x
  {
    assert w1 + x + w2 == w1 + (x + w2);
    StripLeadingSpaces(w1, x + w2);
    assert (x + w2)[0] == x[0];
    StripTrailingSpaces(x, w2);
    StripUnchanged(x);
  }

  /** `[x.strip() for x in xs]`. */
  function StripAll(xs: seq<string>): (r: seq<string>)
    ensures |r| == |xs|
    ensures forall i :: 0 <= i < |xs| ==> r[i] == Strip(xs[i])
  {
    if xs == [] then [] else [Strip(xs[0])] + StripAll(xs[1..])
  }

  /** The slice `s[1:-1]`: `s` without its first and last characters; empty when `|s| < 2`. */
  function Inner(s: string): (r: string)
    ensures |s| >= 2 ==> s == [s[0]] + r + [s[|s| - 1]]
    ensures |s| < 2 ==> r == ""
  {
    if |s| >= 2 then s[1..|s| - 1] else ""
  }
}

/** The clean-up the server applies to the converter's markdown: collapsing
    runs of blank lines, trimming, and deleting nested image links
    (`[![alt](src)](href)`), as the three regular expressions and the
    `trim()` of server/routes.ts do it. */
module Markdown {
  import opened Common

  // ---------------------------------------------------------------------
  // Counting line feeds

  function NewlineCount(s: string): nat {
    if s == [] then 0 else (if s[0] == '\n' then 1 else 0) + NewlineCount(s[1..])
  }

  lemma {:induction false} NewlineCountAppend(a: string, b: string)
    ensures NewlineCount(a + b) == NewlineCount(a) + NewlineCount(b)
  {
    if a == [] {
      assert a + b == b;
    } else {
      assert (a + b)[1..] == a[1..] + b;
      NewlineCountAppend(a[1..], b);
    }
  }

  lemma NewlineCountSlice(s: string, i: nat, j: nat)
    requires i <= j <= |s|
    ensures NewlineCount(s[i..j]) <= NewlineCount(s)
  {
    assert s == s[..i] + s[i..j] + s[j..];
    NewlineCountAppend(s[..i] + s[i..j], s[j..]);
    NewlineCountAppend(s[..i], s[i..j]);
  }

  /** Position of the first line feed. */
  function FirstNewline(r: string): (i: nat)
    requires NewlineCount(r) > 0
    ensures i < |r| && r[i] == '\n' && NewlineCount(r[..i]) == 0
  {
    if r[0] == '\n' then 0
    else
      var i := 1 + FirstNewline(r[1..]);
      assert r[..i] == [r[0]] + r[1..][..i - 1];
      NewlineCountAppend([r[0]], r[1..][..i - 1]);
      i
  }

  /** Position of the last line feed. */
  function LastNewline(r: string): (i: nat)
    requires NewlineCount(r) > 0
    ensures i < |r| && r[i] == '\n' && NewlineCount(r[i + 1..]) == 0
  {
    var n := |r| - 1;
    assert r == r[..n] + [r[n]];
    NewlineCountAppend(r[..n], [r[n]]);
    if r[n] == '\n' then n
    else
      var i := LastNewline(r[..n]);
      assert r[i + 1..] == r[..n][i + 1..] + [r[n]];
      NewlineCountAppend(r[..n][i + 1..], [r[n]]);
      i
  }

  // ---------------------------------------------------------------------
  // Step 1: `.replace(/\n\s*\n\s*\n/g, '\n\n')`

  /** Length of the white-space run at the start of `s`. */
  function SpaceRunLength(s: string): (k: nat)
    ensures k <= |s| && AllSpace(s[..k])
    ensures k < |s| ==> !IsSpace(s[k])
  {
    if s == [] || !IsSpace(s[0]) then 0
    else
      var k := 1 + SpaceRunLength(s[1..]);
      assert s[..k] == [s[0]] + s[1..][..k - 1];
      k
  }

  /** One maximal white-space run: when it holds three or more line feeds,
      everything from its first line feed to its last becomes one blank
      line. (At the first line feed of such a run the greedy pattern
      reaches the run's last line feed; a run with fewer line feeds holds
      no match.) */
  function CollapseRun(r: string): (t: string)
    requires AllSpace(r)
    ensures AllSpace(t)
    ensures NewlineCount(r) <= 2 ==> t == r
    ensures NewlineCount(r) >= 3 ==> NewlineCount(t) == 2
  {
    if NewlineCount(r) >= 3 then
      var f, l := FirstNewline(r), LastNewline(r);
      var t := r[..f] + "\n\n" + r[l + 1..];
      NewlineCountAppend(r[..f] + "\n\n", r[l + 1..]);
      NewlineCountAppend(r[..f], "\n\n");
      assert NewlineCount("\n\n") == 2;
      assert AllSpace(t) by {
        forall k | 0 <= k < |t| ensures IsSpace(t[k]) {
          if k < f { assert t[k] == r[k]; }
          else if k >= f + 2 { assert t[k] == r[l + 1 + k - f - 2]; }
        }
      }
      t
    else r
  }

  /** The whole first step, run by run from left to right. */
  function Collapse(s: string): string
    decreases |s|
  {
    if s == [] then []
    else if !IsSpace(s[0]) then [s[0]] + Collapse(s[1..])
    else
      var k := SpaceRunLength(s);
      CollapseRun(s[..k]) + Collapse(s[k..])
  }

  /** No stretch of white space holds more than two line feeds: what the
      pattern `\n\s*\n\s*\n` finds nowhere. */
  ghost predicate BreaksCollapsed(t: string) {
    forall i, j :: 0 <= i <= j <= |t| && AllSpace(t[i..j]) ==> NewlineCount(t[i..j]) <= 2
  }

  lemma BreaksCollapsedFew(r: string)
    requires NewlineCount(r) <= 2
    ensures BreaksCollapsed(r)
  {
    forall i, j | 0 <= i <= j <= |r| ensures NewlineCount(r[i..j]) <= 2 {
      NewlineCountSlice(r, i, j);
    }
  }

  lemma SpaceInWindow(t: string, i: int, j: int, k: int)
    ensures 0 <= i <= k < j <= |t| && AllSpace(t[i..j]) ==> IsSpace(t[k])
  {
    if 0 <= i <= k < j <= |t| {
      assert t[i..j][k - i] == t[k];
    }
  }

  lemma SliceOfAppendLeft(a: string, b: string, i: nat, j: nat)
    requires i <= j <= |a|
    ensures (a + b)[i..j] == a[i..j]
  {
    assert forall k :: 0 <= k < j - i ==> (a + b)[i..j][k] == a[i..j][k];
  }

  lemma SliceOfAppendRight(a: string, b: string, i: nat, j: nat)
    requires |a| <= i <= j <= |a| + |b|
    ensures (a + b)[i..j] == b[i - |a|..j - |a|]
  {
    assert forall k :: 0 <= k < j - i ==> (a + b)[i..j][k] == b[i - |a|..j - |a|][k];
  }

  /** Joining two such strings keeps the property when a non-space
      character stands at the seam. */
  lemma BreaksCollapsedAppend(a: string, b: string)
    requires BreaksCollapsed(a) && BreaksCollapsed(b)
    requires a == [] || b == [] || !IsSpace(a[|a| - 1]) || !IsSpace(b[0])
    ensures BreaksCollapsed(a + b)
  {
    var t := a + b;
    forall i, j | 0 <= i <= j <= |t| && AllSpace(t[i..j]) ensures NewlineCount(t[i..j]) <= 2 {
      if j <= |a| {
        SliceOfAppendLeft(a, b, i, j);
      } else if i >= |a| {
        SliceOfAppendRight(a, b, i, j);
      } else {
        SpaceInWindow(t, i, j, |a|);
        SpaceInWindow(t, i, j, |a| - 1);
        assert false;
      }
    }
  }

  /** After the first step no white-space run holds more than two line
      feeds. */
  lemma {:induction false} CollapseBreaks(s: string)
    ensures BreaksCollapsed(Collapse(s))
    decreases |s|
  {
    if s == [] {
      BreaksCollapsedFew([]);
    } else if !IsSpace(s[0]) {
      BreaksCollapsedFew([s[0]]);
      CollapseBreaks(s[1..]);
      BreaksCollapsedAppend([s[0]], Collapse(s[1..]));
    } else {
      var k := SpaceRunLength(s);
      var r := CollapseRun(s[..k]);
      BreaksCollapsedFew(r);
      CollapseBreaks(s[k..]);
      if k < |s| {
        CollapseStartsWith(s[k..]);
      }
      BreaksCollapsedAppend(r, Collapse(s[k..]));
    }
  }

  lemma CollapseStartsWith(s: string)
    requires s != [] && !IsSpace(s[0])
    ensures Collapse(s) != [] && Collapse(s)[0] == s[0]
  {
  }

  lemma BreaksCollapsedSuffix(s: string, k: nat)
    requires k <= |s| && BreaksCollapsed(s)
    ensures BreaksCollapsed(s[k..])
  {
    var t := s[k..];
    forall i, j | 0 <= i <= j <= |t| && AllSpace(t[i..j]) ensures NewlineCount(t[i..j]) <= 2 {
      assert t[i..j] == s[k + i..k + j];
    }
  }

  /** Text whose blank lines are already collapsed passes unchanged. */
  lemma {:induction false} CollapseKeepsCalmText(s: string)
    requires BreaksCollapsed(s)
    ensures Collapse(s) == s
    decreases |s|
  {
    if s != [] {
      if !IsSpace(s[0]) {
        BreaksCollapsedSuffix(s, 1);
        CollapseKeepsCalmText(s[1..]);
      } else {
        var k := SpaceRunLength(s);
        assert s[0..k] == s[..k];
        BreaksCollapsedSuffix(s, k);
        CollapseKeepsCalmText(s[k..]);
        assert s == s[..k] + s[k..];
      }
    }
  }

  /** The first step changes the text exactly when some white-space run holds
      three or more line feeds; applying it twice is applying it once. */
  lemma CollapseIdentityIff(s: string)
    ensures Collapse(s) == s <==> BreaksCollapsed(s)
    ensures Collapse(Collapse(s)) == Collapse(s)
  {
    CollapseBreaks(s);
    if BreaksCollapsed(s) {
      CollapseKeepsCalmText(s);
    }
    CollapseKeepsCalmText(Collapse(s));
  }

  /** The characters that are not white space. */
  function Visible(s: string): string {
    if s == [] then [] else (if IsSpace(s[0]) then [] else [s[0]]) + Visible(s[1..])
  }

  lemma {:induction false} VisibleAppend(a: string, b: string)
    ensures Visible(a + b) == Visible(a) + Visible(b)
  {
    if a == [] {
      assert a + b == b;
    } else {
      assert (a + b)[1..] == a[1..] + b;
      VisibleAppend(a[1..], b);
    }
  }

  lemma {:induction false} VisibleOfSpace(r: string)
    requires AllSpace(r)
    ensures Visible(r) == []
  {
    if r != [] {
      VisibleOfSpace(r[1..]);
    }
  }

  /** The first step only rewrites white space: every other character is
      kept, in order. */
  lemma {:induction false} CollapseKeepsVisible(s: string)
    ensures Visible(Collapse(s)) == Visible(s)
    decreases |s|
  {
    if s != [] {
      if !IsSpace(s[0]) {
        VisibleAppend([s[0]], Collapse(s[1..]));
        CollapseKeepsVisible(s[1..]);
      } else {
        var k := SpaceRunLength(s);
        VisibleAppend(CollapseRun(s[..k]), Collapse(s[k..]));
        VisibleOfSpace(CollapseRun(s[..k]));
        CollapseKeepsVisible(s[k..]);
        assert s == s[..k] + s[k..];
        VisibleAppend(s[..k], s[k..]);
        VisibleOfSpace(s[..k]);
      }
    }
  }

  // ---------------------------------------------------------------------
  // Steps 2 and 4: `.replace(/^\s+|\s+$/g, '')` and `.trim()`
  // (both remove the leading and the trailing white-space run, with the
  // same notion of white space, so one function models both)

  /** Length of the white-space run at the end of `s`. */
  function TrailingSpaceLength(s: string): (n: nat)
    ensures n <= |s| && AllSpace(s[|s| - n..])
    ensures n < |s| ==> !IsSpace(s[|s| - n - 1])
  {
    if s == [] || !IsSpace(s[|s| - 1]) then 0
    else
      var init := s[..|s| - 1];
      var n := 1 + TrailingSpaceLength(init);
      assert s[|s| - n..] == init[|init| - (n - 1)..] + [s[|s| - 1]];
      AllSpaceAppend(init[|init| - (n - 1)..], [s[|s| - 1]]);
      assert n < |s| ==> s[|s| - n - 1] == init[|init| - (n - 1) - 1];
      n
  }

  lemma AllSpaceAppend(a: string, b: string)
    requires AllSpace(a) && AllSpace(b)
    ensures AllSpace(a + b)
  {
    forall k | 0 <= k < |a + b| ensures IsSpace((a + b)[k]) {
      if k < |a| {
        assert (a + b)[k] == a[k];
      } else {
        assert (a + b)[k] == b[k - |a|];
      }
    }
  }

  /** Trimming leaves no white space at either end. */
  function Trim(s: string): (r: string)
    ensures r == [] || (!IsSpace(r[0]) && !IsSpace(r[|r| - 1]))
  {
    var k := SpaceRunLength(s);
    var m := TrailingSpaceLength(s[k..]);
    assert s[k..][|s| - k - m..] == s[|s| - m..];
    s[k..|s| - m]
  }

  /** Trimming removes the white space at both ends and nothing else: the
      result is a slice of the input with only white space on either side. */
  lemma {:induction false} TrimIsSlice(s: string)
    ensures var r, i := Trim(s), SpaceRunLength(s);
      i + |r| <= |s| && r == s[i..i + |r|] && AllSpace(s[..i]) && AllSpace(s[i + |r|..])
  {
    var k := SpaceRunLength(s);
    var m := TrailingSpaceLength(s[k..]);
    assert s[k..][|s| - k - m..] == s[|s| - m..];
    assert Trim(s) == s[k..|s| - m];
    assert k + |Trim(s)| == |s| - m;
  }

  lemma SpacePrefixStart(s: string, k: int)
    ensures 0 < k <= |s| && AllSpace(s[..k]) ==> IsSpace(s[0])
  {
    if 0 < k <= |s| {
      assert s[..k][0] == s[0];
    }
  }

  lemma SpaceSuffixEnd(s: string, m: int)
    ensures 0 < m <= |s| && AllSpace(s[|s| - m..]) ==> IsSpace(s[|s| - 1])
  {
    if 0 < m <= |s| {
      assert s[|s| - m..][m - 1] == s[|s| - 1];
    }
  }

  /** A string without white space at either end is its own trim. */
  lemma TrimKeepsTrimmed(s: string)
    requires s == [] || (!IsSpace(s[0]) && !IsSpace(s[|s| - 1]))
    ensures Trim(s) == s
  {
    if s != [] {
      var k := SpaceRunLength(s);
      SpacePrefixStart(s, k);
      assert s[k..] == s;
      var m := TrailingSpaceLength(s[k..]);
      SpaceSuffixEnd(s, m);
      assert s[k..|s| - m] == s;
    }
  }

  lemma TrimIdempotent(s: string)
    ensures Trim(Trim(s)) == Trim(s)
  {
    TrimKeepsTrimmed(Trim(s));
  }

  // ---------------------------------------------------------------------
  // Step 3: `.replace(/\[!\[.*?\]\(.*?\)\]\(.*?\)/g, '')`
  // Each `.*?` is lazy and stops at line terminators; the search below
  // explores the alternatives in the order backtracking tries them.

  /** `.*?\)` from position c: the end of the match, if any. */
  function LinkTail(s: string, c: nat): (e: Option<nat>)
    ensures e.Some? ==> c < e.value <= |s| && s[e.value - 1] == ')'
    decreases |s| - c
  {
    if c < |s| && s[c] == ')' then Some(c + 1)
    else if c < |s| && !IsLineTerminator(s[c]) then LinkTail(s, c + 1)
    else None
  }

  /** `.*?\)\]\(.*?\)` from position b. */
  function ImageTail(s: string, b: nat): (e: Option<nat>)
    ensures e.Some? ==> b < e.value <= |s| && s[e.value - 1] == ')'
    decreases |s| - b
  {
    if OccursAt(s, ")](", b) && LinkTail(s, b + 3).Some? then LinkTail(s, b + 3)
    else if b < |s| && !IsLineTerminator(s[b]) then ImageTail(s, b + 1)
    else None
  }

  /** `.*?\]\(.*?\)\]\(.*?\)` from position a. */
  function AltTail(s: string, a: nat): (e: Option<nat>)
    ensures e.Some? ==> a < e.value <= |s| && s[e.value - 1] == ')'
    decreases |s| - a
  {
    if OccursAt(s, "](", a) && ImageTail(s, a + 2).Some? then ImageTail(s, a + 2)
    else if a < |s| && !IsLineTerminator(s[a]) then AltTail(s, a + 1)
    else None
  }

  /** The end of the nested-image match that starts at position p, if any:
      it begins with `[![` and closes with `)`. */
  function ImageLinkAt(s: string, p: nat): (e: Option<nat>)
    ensures e.Some? ==> OccursAt(s, "[![", p) && p + 3 < e.value <= |s| && s[e.value - 1] == ')'
  {
    if OccursAt(s, "[![", p) then AltTail(s, p + 3) else None
  }

  /** The global replacement from position i on: a match is deleted and the
      scan resumes after it, otherwise one character is kept. */
  function StripFrom(s: string, i: nat): string
    decreases |s| - i
  {
    if i >= |s| then []
    else
      match ImageLinkAt(s, i)
      case Some(e) => StripFrom(s, e)
      case None => [s[i]] + StripFrom(s, i + 1)
  }

  function StripNestedImages(s: string): string {
    StripFrom(s, 0)
  }

  /** `a` can be obtained from `b` by deleting characters. */
  predicate IsSubsequence(a: string, b: string)
    decreases |b|
  {
    a == [] || (b != [] && ((a[0] == b[0] && IsSubsequence(a[1..], b[1..])) || IsSubsequence(a, b[1..])))
  }

  lemma {:induction false} SubsequenceDropFront(a: string, b: string, k: nat)
    requires k <= |b| && IsSubsequence(a, b[k..])
    ensures IsSubsequence(a, b)
    decreases k
  {
    if k > 0 {
      assert b[k - 1..][1..] == b[k..];
      SubsequenceDropFront(a, b, k - 1);
    }
  }

  lemma {:induction false} SubsequenceOfSelf(a: string)
    ensures IsSubsequence(a, a)
  {
    if a != [] {
      SubsequenceOfSelf(a[1..]);
    }
  }

  lemma {:induction false} PrefixIsSubsequence(b: string, n: nat)
    requires n <= |b|
    ensures IsSubsequence(b[..n], b)
  {
    if n > 0 {
      assert b[..n][1..] == b[1..][..n - 1];
      PrefixIsSubsequence(b[1..], n - 1);
    }
  }

  lemma SliceIsSubsequence(b: string, i: nat, j: nat)
    requires i <= j <= |b|
    ensures IsSubsequence(b[i..j], b)
  {
    assert b[i..j] == b[i..][..j - i];
    PrefixIsSubsequence(b[i..], j - i);
    SubsequenceDropFront(b[i..j], b, i);
  }

  lemma {:induction false} SubsequenceTransitive(a: string, b: string, c: string)
    requires IsSubsequence(a, b) && IsSubsequence(b, c)
    ensures IsSubsequence(a, c)
    decreases |c|
  {
    if a != [] {
      if IsSubsequence(b, c[1..]) {
        SubsequenceTransitive(a, b, c[1..]);
      } else if a[0] == b[0] && IsSubsequence(a[1..], b[1..]) {
        SubsequenceTransitive(a[1..], b[1..], c[1..]);
      } else {
        SubsequenceTransitive(a, b[1..], c[1..]);
      }
    }
  }

  lemma {:induction false} StripFromDeletesOnly(s: string, i: nat)
    requires i <= |s|
    ensures IsSubsequence(StripFrom(s, i), s[i..])
    decreases |s| - i
  {
    if i < |s| {
      match ImageLinkAt(s, i)
      case Some(e) =>
        StripFromDeletesOnly(s, e);
        assert s[i..][e - i..] == s[e..];
        SubsequenceDropFront(StripFrom(s, e), s[i..], e - i);
      case None =>
        StripFromDeletesOnly(s, i + 1);
        assert s[i..][1..] == s[i + 1..];
    }
  }

  /** Removing nested image links only deletes characters. */
  lemma StripDeletesOnly(s: string)
    ensures IsSubsequence(StripNestedImages(s), s)
  {
    StripFromDeletesOnly(s, 0);
  }

  lemma {:induction false} StripFromWithoutPattern(s: string, i: nat)
    requires i <= |s| && !Contains(s, "[![")
    ensures StripFrom(s, i) == s[i..]
    decreases |s| - i
  {
    if i < |s| {
      if OccursAt(s, "[![", i) {
        assert false;
      }
      StripFromWithoutPattern(s, i + 1);
      assert s[i..] == [s[i]] + s[i + 1..];
    }
  }

  /** Text without `[![` passes unchanged. */
  lemma StripWithoutPattern(s: string)
    requires !Contains(s, "[![")
    ensures StripNestedImages(s) == s
  {
    StripFromWithoutPattern(s, 0);
  }

  lemma TrimIsSubsequence(s: string)
    ensures IsSubsequence(Trim(s), s)
  {
    var r, i := Trim(s), SpaceRunLength(s);
    TrimIsSlice(s);
    SliceIsSubsequence(s, i, i + |r|);
  }

  // ---------------------------------------------------------------------
  // The whole chain

  /** `markdown.replace(…).replace(…).replace(…).trim()`. */
  function Clean(markdown: string): string {
    Trim(StripNestedImages(Trim(Collapse(markdown))))
  }

  /** What the chain promises: no white space at either end, and after the
      first step only deletions. */
  lemma CleanSpec(markdown: string)
    ensures var c := Clean(markdown);
      (c == [] || (!IsSpace(c[0]) && !IsSpace(c[|c| - 1])))
      && IsSubsequence(c, Collapse(markdown))
  {
    AfterCollapse(Collapse(markdown));
  }

  /** Steps 2 to 4 on any text. */
  lemma AfterCollapse(s: string)
    ensures IsSubsequence(Trim(StripNestedImages(Trim(s))), s)
  {
    var t1 := Trim(s);
    var t2 := StripNestedImages(t1);
    var t3 := Trim(t2);
    TrimIsSubsequence(s);
    StripDeletesOnly(t1);
    TrimIsSubsequence(t2);
    SubsequenceTransitive(t3, t2, t1);
    SubsequenceTransitive(t3, t1, s);
  }

  // ---------------------------------------------------------------------
  // Worked examples

  /** Four line feeds in a row become one blank line. */
  lemma CollapseExample()
    ensures Collapse("a\n\n\n\nb") == "a\n\nb"
  {
    var s := "a\n\n\n\nb";
    var t := s[1..];
    assert IsSpace('\n') && !IsSpace('b') && !IsSpace('a');
    assert t[4..] == "b" && t[3..][1..] == t[4..] && t[2..][1..] == t[3..] && t[1..][1..] == t[2..];
    assert SpaceRunLength(t[4..]) == 0;
    assert SpaceRunLength(t[3..]) == 1;
    assert SpaceRunLength(t[2..]) == 2;
    assert SpaceRunLength(t[1..]) == 3;
    assert SpaceRunLength(t) == 4;
    assert t[..4] == "\n\n\n\n" && t[4..] == "b";
    assert NewlineCount("\n\n\n\n") == 4;
    assert CollapseRun("\n\n\n\n") == "\n\n";
  }

  /** A linked image is deleted as a whole, and the text around it stays. */
  lemma StripExample()
    ensures StripNestedImages("x[![a](b)](c)y") == "xy"
  {
    var s := "x[![a](b)](c)y";
    assert !OccursAt(s, "[![", 0);
    assert OccursAt(s, "[![", 1);
    assert OccursAt(s, "](", 5);
    assert OccursAt(s, ")](", 8);
    assert LinkTail(s, 11) == Some(13);
    assert ImageTail(s, 7) == Some(13);
    assert AltTail(s, 4) == Some(13);
    assert ImageLinkAt(s, 1) == Some(13);
    assert !OccursAt(s, "[![", 13);
    assert StripFrom(s, 14) == [];
  }
}

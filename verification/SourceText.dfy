/** Splitting a text into lines that keep their terminators, and joining lines into a text. */
module SourceText {
  import opened Common
  import opened UnifiedDiff

  /** The characters at which a text is split: LF, VT, FF, CR, FS, GS, RS, NEL and the two Unicode separators. */
  predicate IsBreak(c: char) {
    c as int in {0x0a, 0x0b, 0x0c, 0x0d, 0x1c, 0x1d, 0x1e, 0x85, 0x2028, 0x2029}
  }

  /** Where the line that is read from position `i` on ends; CR LF is one terminator. */
  function LineEnd(t: string, i: nat): (e: nat)
    requires i < |t|
    ensures i < e <= |t|
    decreases |t| - i
  {
    if IsBreak(t[i]) then (if t[i] == '\r' && i + 1 < |t| && t[i + 1] == '\n' then i + 2 else i + 1)
    else if i + 1 == |t| then |t|
    else LineEnd(t, i + 1)
  }

  function Lines(t: string): seq<Text>
    decreases |t|
  {
    if t == "" then []
    else [Text(t[..LineEnd(t, 0)])] + Lines(t[LineEnd(t, 0)..])
  }

  function Join(lines: seq<Text>): string {
    if lines == [] then "" else lines[0].s + Join(lines[1..])
  }

  predicate OneLine(t: string) {
    t != "" && LineEnd(t, 0) == |t|
  }

  /** `t` is terminated, and what follows it does not change where it ends. */
  predicate EndsBefore(t: string, next: string) {
    t != "" && IsBreak(t[|t| - 1]) && !(t[|t| - 1] == '\r' && next != "" && next[0] == '\n')
  }

  /** Lines as splitting a text produces them. */
  predicate Proper(lines: seq<Text>)
    decreases |lines|
  {
    lines == [] ||
    (OneLine(lines[0].s) && (|lines| > 1 ==> EndsBefore(lines[0].s, lines[1].s)) && Proper(lines[1..]))
  }

  lemma {:induction false} JoiningUndoesSplitting(t: string)
    ensures Join(Lines(t)) == t
    decreases |t|
  {
    if t != "" {
      var e := LineEnd(t, 0);
      JoiningUndoesSplitting(t[e..]);
      assert Lines(t)[1..] == Lines(t[e..]);
      assert t == t[..e] + t[e..];
    }
  }

  // ---------------------------------------------------------------------------------------
  // Splitting undoes joining exactly for proper lines
  // ---------------------------------------------------------------------------------------

  /** The first line of a text reads the same without what follows it, and is terminated if anything does. */
  lemma {:induction false} FirstLine(t: string, i: nat, e: nat)
    requires i < |t| && e == LineEnd(t, i)
    ensures i < |t[..e]| && LineEnd(t[..e], i) == e
    ensures e < |t| ==> EndsBefore(t[..e], t[e..])
    decreases |t| - i
  {
    var line := t[..e];
    assert line[i] == t[i];
    if !IsBreak(t[i]) && i + 1 < |t| {
      FirstLine(t, i + 1, e);
    }
  }

  /** A terminated line keeps its end whatever comes after it, but for LF after CR. */
  lemma {:induction false} LineStays(line: string, rest: string, i: nat)
    requires i < |line| && LineEnd(line, i) == |line| && (rest == "" || EndsBefore(line, rest))
    ensures LineEnd(line + rest, i) == |line|
    decreases |line| - i
  {
    var t := line + rest;
    assert t[i] == line[i];
    if rest == "" {
      assert t == line;
    } else if !IsBreak(line[i]) {
      LineStays(line, rest, i + 1);
    } else if i + 1 < |line| {
      assert t[i + 1] == line[i + 1];
    }
  }

  lemma {:induction false} LinesAreProper(t: string)
    ensures Proper(Lines(t))
    decreases |t|
  {
    if t != "" {
      var e := LineEnd(t, 0);
      FirstLine(t, 0, e);
      LinesAreProper(t[e..]);
      var lines, rest := Lines(t), Lines(t[e..]);
      assert lines[1..] == rest;
      if |lines| > 1 {
        var next := t[e..];
        assert rest[0].s == next[..LineEnd(next, 0)];
        assert rest[0].s[0] == next[0];
      }
    }
  }

  lemma {:induction false} ProperLinesSurvive(lines: seq<Text>)
    requires Proper(lines)
    ensures Lines(Join(lines)) == lines
    decreases |lines|
  {
    if lines != [] {
      var line, rest := lines[0].s, Join(lines[1..]);
      if |lines| > 1 {
        assert rest == lines[1].s + Join(lines[1..][1..]);
        assert rest[0] == lines[1].s[0];
      }
      LineStays(line, rest, 0);
      ProperLinesSurvive(lines[1..]);
      assert (line + rest)[..|line|] == line && (line + rest)[|line|..] == rest;
      assert lines == [lines[0]] + lines[1..];
    }
  }

  /** Splitting undoes joining if and only if the lines are proper. */
  lemma SplittingUndoesJoiningIff(lines: seq<Text>)
    ensures Lines(Join(lines)) == lines <==> Proper(lines)
  {
    if Proper(lines) { ProperLinesSurvive(lines); }
    LinesAreProper(Join(lines));
  }

  // ---------------------------------------------------------------------------------------
  // Seams
  // ---------------------------------------------------------------------------------------

  function FirstOf(lines: seq<Text>): seq<Text> {
    if lines == [] then [] else [lines[0]]
  }

  function LastOf(lines: seq<Text>): seq<Text> {
    if lines == [] then [] else [lines[|lines| - 1]]
  }

  /** Whether two pieces join properly is decided by the first piece, the second, and the line at the seam. */
  lemma {:induction false} ProperConcat(a: seq<Text>, b: seq<Text>)
    ensures Proper(a + b) <==> Proper(a) && Proper(LastOf(a) + b)
    decreases |a|
  {
    if a == [] {
      assert a + b == b && LastOf(a) + b == b;
    } else if |a| == 1 {
      assert LastOf(a) == a && (a + b)[0] == a[0] && a[1..] == [];
    } else {
      ProperConcat(a[1..], b);
      assert (a + b)[1..] == a[1..] + b && (a + b)[0] == a[0] && (a + b)[1] == a[1];
      assert LastOf(a[1..]) == LastOf(a);
    }
  }

  lemma ProperSingle(t: Text)
    ensures Proper([t]) <==> OneLine(t.s)
  {
    assert [t][1..] == [];
  }

  /** One line in front of proper lines: only the seam counts. */
  lemma ProperInFront(x: seq<Text>, b: seq<Text>)
    requires |x| <= 1 && Proper(b)
    ensures Proper(x + b) <==> Proper(x + FirstOf(b))
  {
    if x == [] {
      assert x + b == b && x + FirstOf(b) == FirstOf(b);
      if b != [] { assert FirstOf(b)[1..] == []; }
    } else if b == [] {
      assert x + b == x + FirstOf(b);
    } else {
      var two := x + FirstOf(b);
      assert (x + b)[1..] == b && (x + b)[0] == x[0] && (x + b)[1] == b[0];
      assert two[1..] == [b[0]] && two[0] == x[0] && two[1] == b[0];
      ProperSingle(b[0]);
    }
  }

  lemma {:induction false} ProperSuffix(lines: seq<Text>, i: nat)
    requires Proper(lines) && i <= |lines|
    ensures Proper(lines[i..])
    decreases i
  {
    if i > 0 {
      ProperSuffix(lines, i - 1);
      assert lines[i - 1..][1..] == lines[i..];
    }
  }

  lemma ProperSlice(lines: seq<Text>, i: nat, j: nat)
    requires Proper(lines) && i <= j <= |lines|
    ensures Proper(lines[i..j])
  {
    ProperSuffix(lines, i);
    assert lines[i..] == lines[i..j] + lines[j..];
    ProperConcat(lines[i..j], lines[j..]);
  }

  /**
   The condition on a file and the hunks that are undone on it: every hunk's old side is proper together with the
   line that stays before it, and so is what stays after it.  `before` is the line that stands before `actual[at..]`
   once the earlier hunks are undone, if there is one.
   */
  predicate SeamsProper(actual: seq<Text>, hunks: seq<Hunk>, k: nat, at: nat, written: nat, before: seq<Text>)
    requires k <= |hunks| && Applies(Backwards, actual, hunks, k, at, written)
    decreases |hunks| - k
  {
    if k == |hunks| then Proper(before + FirstOf(actual[at..]))
    else
      var h := hunks[k];
      var kept := actual[at..Index(Backwards, h.header)];
      var last := LastOf(before + kept);
      && Proper(before + FirstOf(kept))
      && Proper(last + Part(Forwards, h))
      && SeamsProper(actual, hunks, k + 1, After(Backwards, h), After(Forwards, h), LastOf(last + Part(Forwards, h)))
  }

  /** Undoing the hunks on proper lines gives proper lines exactly when the seams are proper. */
  lemma {:induction false} UndoneIsProperIff(actual: seq<Text>, hunks: seq<Hunk>, k: nat, at: nat, written: nat, before: seq<Text>)
    requires k <= |hunks| && Applies(Backwards, actual, hunks, k, at, written) && Proper(actual) && |before| <= 1
    ensures Proper(before + Applied(Backwards, actual, hunks, k, at, written)) <==>
            SeamsProper(actual, hunks, k, at, written, before)
    decreases |hunks| - k
  {
    if k == |hunks| {
      ProperSuffix(actual, at);
      ProperInFront(before, actual[at..]);
    } else {
      var h := hunks[k];
      var rest := Applied(Backwards, actual, hunks, k + 1, After(Backwards, h), After(Forwards, h));
      var kept := actual[at..Index(Backwards, h.header)];
      ProperSlice(actual, at, Index(Backwards, h.header));
      OneHunkIsProperIff(before, kept, Part(Forwards, h), rest);
      UndoneIsProperIff(actual, hunks, k + 1, After(Backwards, h), After(Forwards, h),
                        LastOf(LastOf(before + kept) + Part(Forwards, h)));
    }
  }

  lemma OneHunkIsProperIff(before: seq<Text>, kept: seq<Text>, restored: seq<Text>, rest: seq<Text>)
    requires |before| <= 1 && Proper(kept)
    ensures
      var last := LastOf(before + kept);
      Proper(before + (kept + restored + rest)) <==>
        Proper(before + FirstOf(kept)) && Proper(last + restored) && Proper(LastOf(last + restored) + rest)
  {
    var last := LastOf(before + kept);
    RegroupFour(before, kept, restored, rest);
    Regroup(before + kept, restored, rest);
    ProperConcat(before + kept, restored + rest);
    ProperInFront(before, kept);
    Regroup(last, restored, rest);
    ProperConcat(last + restored, rest);
  }

  // ---------------------------------------------------------------------------------------
  // Lines that end in LF
  // ---------------------------------------------------------------------------------------

  predicate Clean(t: Text) {
    OneLine(t.s) && t.s[|t.s| - 1] == '\n'
  }

  predicate AllClean(lines: seq<Text>) {
    forall i :: 0 <= i < |lines| ==> Clean(lines[i])
  }

  lemma {:induction false} CleanLinesAreProper(lines: seq<Text>)
    requires AllClean(lines)
    ensures Proper(lines)
    decreases |lines|
  {
    if lines != [] {
      assert Clean(lines[0]);
      if |lines| > 1 { assert Clean(lines[1]); }
      CleanLinesAreProper(lines[1..]);
    }
  }

  predicate CleanHunk(h: Hunk) {
    forall i :: 0 <= i < |h.edits| ==> Clean(h.edits[i].text)
  }

  lemma {:induction false} SideIsClean(way: Way, h: Hunk, k: nat)
    requires k <= |h.edits| && CleanHunk(h)
    ensures AllClean(Side(way, h.edits, k))
    decreases |h.edits| - k
  {
    if k < |h.edits| { SideIsClean(way, h, k + 1); }
  }

  lemma CleanJoin(a: seq<Text>, b: seq<Text>)
    requires AllClean(a) && AllClean(b)
    ensures AllClean(a + b) && AllClean(LastOf(a)) && AllClean(FirstOf(a))
  {
  }

  /** Line feeds throughout make every seam proper. */
  lemma {:induction false} CleanSeamsAreProper(actual: seq<Text>, hunks: seq<Hunk>, k: nat, at: nat, written: nat, before: seq<Text>)
    requires k <= |hunks| && Applies(Backwards, actual, hunks, k, at, written)
    requires AllClean(actual) && AllClean(before) && forall i :: 0 <= i < |hunks| ==> CleanHunk(hunks[i])
    ensures SeamsProper(actual, hunks, k, at, written, before)
    decreases |hunks| - k
  {
    if k == |hunks| {
      CleanJoin(before, FirstOf(actual[at..]));
      CleanLinesAreProper(before + FirstOf(actual[at..]));
    } else {
      var h := hunks[k];
      var kept := actual[at..Index(Backwards, h.header)];
      SideIsClean(Forwards, h, 0);
      CleanPieces(before, kept, Part(Forwards, h));
      CleanSeamsAreProper(actual, hunks, k + 1, After(Backwards, h), After(Forwards, h),
                          LastOf(LastOf(before + kept) + Part(Forwards, h)));
    }
  }

  lemma CleanPieces(before: seq<Text>, kept: seq<Text>, restored: seq<Text>)
    requires AllClean(before) && AllClean(kept) && AllClean(restored)
    ensures var last := LastOf(before + kept);
      Proper(before + FirstOf(kept)) && Proper(last + restored) && AllClean(LastOf(last + restored))
  {
    var last := LastOf(before + kept);
    CleanJoin(before, FirstOf(kept));
    CleanLinesAreProper(before + FirstOf(kept));
    CleanJoin(before + kept, []);
    CleanJoin(last, restored);
    CleanLinesAreProper(last + restored);
  }

  // ---------------------------------------------------------------------------------------
  // Where lines end
  // ---------------------------------------------------------------------------------------

  /** LF, VT, FF, CR; file, group and record separator; next line; line and paragraph separator. */
  predicate Terminates(c: char) {
    || '\U{000A}' <= c <= '\U{000D}' || '\U{001C}' <= c <= '\U{001E}'
    || c == '\U{0085}' || c == '\U{2028}' || c == '\U{2029}'
  }

  lemma BreaksTerminate(c: char)
    ensures IsBreak(c) <==> Terminates(c)
  {}

  /** Nothing in `s` terminates before its end, but for a CR in front of a last LF. */
  predicate UnbrokenTo(s: string, from: nat) {
    forall j :: from <= j < |s| - 1 ==> UnbrokenAt(s, j)
  }

  predicate UnbrokenAt(s: string, j: nat)
    requires j < |s| - 1
  {
    !Terminates(s[j]) || (j == |s| - 2 && s[j] == '\r' && s[j + 1] == '\n')
  }

  lemma {:induction false} LineEndsAtFirstBreak(t: string, i: nat)
    requires i < |t|
    ensures var e := LineEnd(t, i);
      UnbrokenTo(t[..e], i) && (e < |t| ==> Terminates(t[e - 1]) && !(t[e - 1] == '\r' && t[e] == '\n'))
    decreases |t| - i
  {
    BreaksTerminate(t[i]);
    var e := LineEnd(t, i);
    var line := t[..e];
    if !IsBreak(t[i]) && i + 1 < |t| {
      LineEndsAtFirstBreak(t, i + 1);
      assert UnbrokenTo(line, i + 1) && line[i] == t[i] && !Terminates(line[i]);
      assert UnbrokenTo(line, i);
    }
  }

  /**
   Splitting is what it should be: no line is empty or broken inside, every line but the last is terminated, and a
   CR LF is never torn apart.
   */
  lemma {:induction false} LinesEndAtTerminators(t: string, k: nat)
    requires k < |Lines(t)|
    ensures Lines(t)[k].s != "" && UnbrokenTo(Lines(t)[k].s, 0)
    ensures k + 1 < |Lines(t)| ==> Terminates(Lines(t)[k].s[|Lines(t)[k].s| - 1]) && Lines(t)[k + 1].s != ""
    ensures k + 1 < |Lines(t)| ==> !(Lines(t)[k].s[|Lines(t)[k].s| - 1] == '\r' && Lines(t)[k + 1].s[0] == '\n')
    decreases |t|
  {
    var e := LineEnd(t, 0);
    var rest := Lines(t[e..]);
    assert Lines(t) == [Text(t[..e])] + rest;
    if k == 0 {
      LineEndsAtFirstBreak(t, 0);
      if rest != [] { NextLineBegins(t, e); }
    } else {
      LinesEndAtTerminators(t[e..], k - 1);
    }
  }

  lemma NextLineBegins(t: string, e: nat)
    requires e < |t|
    ensures Lines(t[e..]) != [] && Lines(t[e..])[0].s != "" && Lines(t[e..])[0].s[0] == t[e]
  {
    var next := t[e..];
    assert Lines(next)[0].s == next[..LineEnd(next, 0)];
  }
}

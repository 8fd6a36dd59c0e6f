/**
 Hunks of a unified diff and what they mean.

 A list of hunks relates an original file and a modified one.  It can be applied either way: `Applies` says
 that the hunks fit a file at exactly the positions their headers name, and `Applied` is the file they make
 of it.  Applying forwards and applying backwards are inverse functions.  `ReverseFile` is the no-fuzz
 reversal as the fork check performs it, with a cursor in the modified file and a growing original; it is
 the application backwards.
 */
module UnifiedDiff {
  import opened Common

  /** One line of a file, terminator included. */
  datatype Text = Text(s: string)

  datatype Edit = Keep(text: Text) | Add(text: Text) | Del(text: Text)

  datatype Header = Header(oldStart: nat, oldCount: nat, newStart: nat, newCount: nat)

  datatype Hunk = Hunk(header: Header, edits: seq<Edit>)

  datatype Way = Forwards | Backwards

  function Flip(way: Way): Way {
    if way.Forwards? then Backwards else Forwards
  }

  /** Where the hunk's source side begins; a side without lines is named by the line before it. */
  function Index(way: Way, h: Header): int {
    var start := if way.Forwards? then h.oldStart else h.newStart;
    var count := if way.Forwards? then h.oldCount else h.newCount;
    if count != 0 then start - 1 else start
  }

  /** The lines of the source side among `edits[k..]`. */
  function Side(way: Way, edits: seq<Edit>, k: nat): seq<Text>
    requires k <= |edits|
    decreases |edits| - k
  {
    if k == |edits| then []
    else if (if way.Forwards? then edits[k].Add? else edits[k].Del?) then Side(way, edits, k + 1)
    else [edits[k].text] + Side(way, edits, k + 1)
  }

  function Part(way: Way, h: Hunk): seq<Text> {
    Side(way, h.edits, 0)
  }

  predicate CountsMatch(h: Hunk) {
    |Part(Forwards, h)| == h.header.oldCount && |Part(Backwards, h)| == h.header.newCount
  }

  // ---------------------------------------------------------------------------------------
  // Applying hunks, either way
  // ---------------------------------------------------------------------------------------

  /** Hunk `h` fits `source` at line `at` or later, when `written` lines of output exist already. */
  predicate Fits(way: Way, source: seq<Text>, h: Hunk, at: nat, written: nat) {
    var here, there := Index(way, h.header), Index(Flip(way), h.header);
    && CountsMatch(h)
    && at <= here <= |source|
    && there == written + (here - at)
    && StandsAt(source, here, Part(way, h))
  }

  /** The line after hunk `h`. */
  function After(way: Way, h: Hunk): int {
    Index(way, h.header) + |Part(way, h)|
  }

  /** The hunks from the `k`-th on fit `source` from line `at` on. */
  predicate Applies(way: Way, source: seq<Text>, hunks: seq<Hunk>, k: nat, at: nat, written: nat)
    requires k <= |hunks|
    decreases |hunks| - k
  {
    if k == |hunks| then at <= |source|
    else
      Fits(way, source, hunks[k], at, written)
      && Applies(way, source, hunks, k + 1, After(way, hunks[k]), After(Flip(way), hunks[k]))
  }

  /** What the hunks make of `source[at..]`. */
  function Applied(way: Way, source: seq<Text>, hunks: seq<Hunk>, k: nat, at: nat, written: nat): seq<Text>
    requires k <= |hunks| && Applies(way, source, hunks, k, at, written)
    decreases |hunks| - k
  {
    if k == |hunks| then source[at..]
    else
      source[at..Index(way, hunks[k].header)] + Part(Flip(way), hunks[k])
      + Applied(way, source, hunks, k + 1, After(way, hunks[k]), After(Flip(way), hunks[k]))
  }

  /** Applying one way can be undone by applying the other way, from any point of the two files on. */
  lemma {:induction false} ApplyingInverts(way: Way, source: seq<Text>, hunks: seq<Hunk>, k: nat, at: nat, written: nat,
                                           target: seq<Text>)
    requires k <= |hunks| && Applies(way, source, hunks, k, at, written)
    requires written <= |target| && target[written..] == Applied(way, source, hunks, k, at, written)
    ensures at <= |source|
    ensures Applies(Flip(way), target, hunks, k, written, at)
    ensures Applied(Flip(way), target, hunks, k, written, at) == source[at..]
    decreases |hunks| - k
  {
    if k < |hunks| {
      var h := hunks[k];
      var tail := Applied(way, source, hunks, k + 1, After(way, h), After(Flip(way), h));
      HunkInverts(way, source, h, at, written, target, tail);
      ApplyingInverts(way, source, hunks, k + 1, After(way, h), After(Flip(way), h), target);
    }
  }

  lemma HunkInverts(way: Way, source: seq<Text>, h: Hunk, at: nat, written: nat, target: seq<Text>, tail: seq<Text>)
    requires Fits(way, source, h, at, written) && written <= |target|
    requires target[written..] == source[at..Index(way, h.header)] + Part(Flip(way), h) + tail
    ensures Fits(Flip(way), target, h, written, at)
    ensures After(Flip(way), h) <= |target| && target[After(Flip(way), h)..] == tail
    ensures source[at..] == target[written..Index(Flip(way), h.header)] + Part(way, h) + source[After(way, h)..]
  {
    SplitInThree(target, written, source[at..Index(way, h.header)], Part(Flip(way), h), tail);
    JoinThree(source, at, Index(way, h.header), After(way, h));
  }

  lemma SplitInThree<T>(target: seq<T>, written: nat, gap: seq<T>, part: seq<T>, tail: seq<T>)
    requires written <= |target| && target[written..] == gap + part + tail
    ensures written + |gap| + |part| <= |target|
    ensures target[written..written + |gap|] == gap
    ensures StandsAt(target, written + |gap|, part)
    ensures target[written + |gap| + |part|..] == tail
  {
    var w := target[written..];
    assert w[..|gap|] == gap && w[|gap|..|gap| + |part|] == part && w[|gap| + |part|..] == tail;
    assert target[written..written + |gap|] == w[..|gap|];
    assert target[written + |gap|..written + |gap| + |part|] == w[|gap|..|gap| + |part|];
    assert target[written + |gap| + |part|..] == w[|gap| + |part|..];
  }

  lemma JoinThree<T>(source: seq<T>, i: nat, j: nat, k: nat)
    requires i <= j <= k <= |source|
    ensures source[i..] == source[i..j] + source[j..k] + source[k..]
  {
  }

  /** `hunks` turn the whole file `source` into the whole file `target`. */
  predicate Makes(way: Way, source: seq<Text>, hunks: seq<Hunk>, target: seq<Text>) {
    Applies(way, source, hunks, 0, 0, 0) && Applied(way, source, hunks, 0, 0, 0) == target
  }

  /** Inverse functions: forwards from `original` to `actual` exactly when backwards from `actual` to `original`. */
  lemma WaysAreInverse(original: seq<Text>, hunks: seq<Hunk>, actual: seq<Text>)
    ensures Makes(Forwards, original, hunks, actual) <==> Makes(Backwards, actual, hunks, original)
  {
    assert original[0..] == original && actual[0..] == actual;
    if Makes(Forwards, original, hunks, actual) {
      ApplyingInverts(Forwards, original, hunks, 0, 0, 0, actual);
    }
    if Makes(Backwards, actual, hunks, original) {
      ApplyingInverts(Backwards, actual, hunks, 0, 0, 0, original);
    }
  }

  // ---------------------------------------------------------------------------------------
  // The reversal with a cursor
  // ---------------------------------------------------------------------------------------

  /** Cursor into the modified file, and the original as far as it is restored. */
  datatype Progress = Progress(cursor: nat, result: seq<Text>)

  function Past(e: Edit, p: Progress): Progress {
    Progress(if e.Del? then p.cursor else p.cursor + 1, if e.Add? then p.result else p.result + [e.text])
  }

  /** Context and additions must be in the modified file where the cursor stands. */
  predicate Agrees(actual: seq<Text>, e: Edit, p: Progress) {
    e.Del? || (p.cursor < |actual| && actual[p.cursor] == e.text)
  }

  function ReverseEdits(actual: seq<Text>, edits: seq<Edit>, k: nat, p: Progress): Option<Progress>
    requires k <= |edits|
    decreases |edits| - k
  {
    if k == |edits| then Some(p)
    else if !Agrees(actual, edits[k], p) then None
    else ReverseEdits(actual, edits, k + 1, Past(edits[k], p))
  }

  /** Copies what lies before the hunk; both positions must be the ones the header names. */
  function ReverseGap(actual: seq<Text>, h: Header, p: Progress): Option<Progress> {
    var start := Index(Backwards, h);
    if !(p.cursor <= start <= |actual|) then None
    else
      var result := p.result + actual[p.cursor..start];
      if |result| != Index(Forwards, h) then None else Some(Progress(start, result))
  }

  function ReverseHunk(actual: seq<Text>, h: Hunk, p: Progress): Option<Progress> {
    var q := ReverseGap(actual, h.header, p);
    if q.None? then None
    else
      var r := ReverseEdits(actual, h.edits, 0, q.value);
      if r.None? || !CountsMatch(h) then None else r
  }

  function ReverseFrom(actual: seq<Text>, hunks: seq<Hunk>, k: nat, p: Progress): Option<seq<Text>>
    requires k <= |hunks|
    decreases |hunks| - k
  {
    if k == |hunks| then (if p.cursor <= |actual| then Some(p.result + actual[p.cursor..]) else None)
    else
      var q := ReverseHunk(actual, hunks[k], p);
      if q.None? then None else ReverseFrom(actual, hunks, k + 1, q.value)
  }

  function ReverseFile(actual: seq<Text>, hunks: seq<Hunk>): Option<seq<Text>> {
    ReverseFrom(actual, hunks, 0, Progress(0, []))
  }

  /** Where a hunk's body leads whose sides are `newPart` and `oldPart`. */
  function Landing(actual: seq<Text>, p: Progress, newPart: seq<Text>, oldPart: seq<Text>): Option<Progress> {
    if StandsAt(actual, p.cursor, newPart) then Some(Progress(p.cursor + |newPart|, p.result + oldPart)) else None
  }

  /** The body of a hunk succeeds exactly when the new side stands at the cursor; it yields the old side. */
  lemma {:induction false} ReverseEditsMeans(actual: seq<Text>, edits: seq<Edit>, k: nat, p: Progress)
    requires k <= |edits| && p.cursor <= |actual|
    ensures ReverseEdits(actual, edits, k, p) == Landing(actual, p, Side(Backwards, edits, k), Side(Forwards, edits, k))
    decreases |edits| - k
  {
    if k == |edits| {
      assert actual[p.cursor..p.cursor] == [] && p.result + [] == p.result;
    } else {
      EditLands(actual, edits[k], p, Side(Backwards, edits, k + 1), Side(Forwards, edits, k + 1));
      if Agrees(actual, edits[k], p) {
        ReverseEditsMeans(actual, edits, k + 1, Past(edits[k], p));
      }
    }
  }

  lemma EditLands(actual: seq<Text>, e: Edit, p: Progress, newPart: seq<Text>, oldPart: seq<Text>)
    requires p.cursor <= |actual|
    ensures Landing(actual, p, if e.Del? then newPart else [e.text] + newPart, if e.Add? then oldPart else [e.text] + oldPart) ==
            if Agrees(actual, e, p) then Landing(actual, Past(e, p), newPart, oldPart) else None
  {
    StandsAtSplits(actual, p.cursor, e.text, newPart);
    Regroup(p.result, [e.text], oldPart);
  }

  lemma StandsAtSplits<T>(whole: seq<T>, at: int, x: T, rest: seq<T>)
    ensures StandsAt(whole, at, [x] + rest) <==> (0 <= at < |whole| && whole[at] == x && StandsAt(whole, at + 1, rest))
  {
    if 0 <= at < |whole| && whole[at] == x && StandsAt(whole, at + 1, rest) {
      assert whole[at..at + 1 + |rest|] == [x] + whole[at + 1..at + 1 + |rest|];
    }
    if StandsAt(whole, at, [x] + rest) {
      var slice := whole[at..at + 1 + |rest|];
      assert slice == [x] + rest;
      assert whole[at] == slice[0];
      assert whole[at + 1..at + 1 + |rest|] == slice[1..] == rest;
    }
  }

  /** One hunk goes through exactly when it fits backwards. */
  lemma ReverseHunkMeans(actual: seq<Text>, h: Hunk, p: Progress)
    requires p.cursor <= |actual|
    ensures ReverseHunk(actual, h, p) ==
            if Fits(Backwards, actual, h, p.cursor, |p.result|)
            then Some(Progress(After(Backwards, h),
                               p.result + actual[p.cursor..Index(Backwards, h.header)] + Part(Forwards, h)))
            else None
  {
    var gap := ReverseGap(actual, h.header, p);
    if gap.Some? {
      ReverseEditsMeans(actual, h.edits, 0, gap.value);
    }
  }

  lemma {:induction false} ReverseFromMeans(actual: seq<Text>, hunks: seq<Hunk>, k: nat, p: Progress)
    requires k <= |hunks| && p.cursor <= |actual|
    ensures ReverseFrom(actual, hunks, k, p) ==
            if Applies(Backwards, actual, hunks, k, p.cursor, |p.result|)
            then Some(p.result + Applied(Backwards, actual, hunks, k, p.cursor, |p.result|))
            else None
    decreases |hunks| - k
  {
    if k < |hunks| {
      var h := hunks[k];
      ReverseHunkMeans(actual, h, p);
      if Fits(Backwards, actual, h, p.cursor, |p.result|) {
        var q := ReverseHunk(actual, h, p).value;
        ReverseFromMeans(actual, hunks, k + 1, q);
        if Applies(Backwards, actual, hunks, k + 1, q.cursor, |q.result|) {
          var gap, tail := actual[p.cursor..Index(Backwards, h.header)],
                           Applied(Backwards, actual, hunks, k + 1, q.cursor, |q.result|);
          RegroupFour(p.result, gap, Part(Forwards, h), tail);
        }
      }
    }
  }

  /**
   For every file and every list of hunks: the reversal of `actual` succeeds with `original` if and only if the
   hunks apply to `original` at the named positions and produce `actual`, line for line.
   */
  lemma ReverseIsInverse(actual: seq<Text>, hunks: seq<Hunk>, original: seq<Text>)
    ensures ReverseFile(actual, hunks) == Some(original) <==> Makes(Forwards, original, hunks, actual)
  {
    WaysAreInverse(original, hunks, actual);
    ReverseFromMeans(actual, hunks, 0, Progress(0, []));
    if Applies(Backwards, actual, hunks, 0, 0, 0) {
      assert [] + Applied(Backwards, actual, hunks, 0, 0, 0) == Applied(Backwards, actual, hunks, 0, 0, 0);
    }
  }
}

/**
 The fork check: reverse a patch over the vendored files and compare with the upstream inventory.

 A patch line is modelled by its readings.  Whether a line is a file header, a hunk header or a marked line
 depends on where it stands, so every line carries all of them side by side, and the grammar below picks one.
 */
module ReversePatch {
  import opened Common
  import opened UnifiedDiff

  datatype Path = Path(name: string)

  datatype OldName = DevNull | Under(path: Path) | Elsewhere

  /**
   All readings of one line of the patch.  `starts` and `startsAny` say that it begins with `diff --git a/` and
   with `diff --git `; `startsHunk` that it begins with `@@ `; `header` is its reading as a whole hunk header,
   `minus` and `plus` its readings as `--- ` and `+++ b/` line with a safe path, `edit` its reading as marked line.
   */
  datatype Line = Line(starts: bool, startsAny: bool, startsHunk: bool, header: Option<Header>,
                       minus: Option<OldName>, plus: Option<Path>, edit: Option<Edit>)

  datatype FilePatch = FilePatch(created: bool, path: Path, hunks: seq<Hunk>)

  // ---------------------------------------------------------------------------------------
  // The grammar
  // ---------------------------------------------------------------------------------------

  datatype Read<T> = Read(value: T, next: nat)

  predicate EndsBody(lines: seq<Line>, i: nat) {
    i >= |lines| || lines[i].startsHunk || lines[i].startsAny
  }

  function ReadEdits(lines: seq<Line>, i: nat): (r: Option<Read<seq<Edit>>>)
    requires i <= |lines|
    ensures r.Some? ==> i <= r.value.next <= |lines|
    decreases |lines| - i
  {
    if EndsBody(lines, i) then Some(Read([], i))
    else if lines[i].edit.None? then None
    else
      var rest := ReadEdits(lines, i + 1);
      if rest.None? then None
      else Some(Read([lines[i].edit.value] + rest.value.value, rest.value.next))
  }

  predicate EndsFile(lines: seq<Line>, i: nat) {
    i >= |lines| || lines[i].startsAny
  }

  function ReadHunks(lines: seq<Line>, i: nat): (r: Option<Read<seq<Hunk>>>)
    requires i <= |lines|
    ensures r.Some? ==> i <= r.value.next <= |lines|
    decreases |lines| - i
  {
    if EndsFile(lines, i) then Some(Read([], i))
    else if lines[i].header.None? then None
    else
      var edits := ReadEdits(lines, i + 1);
      if edits.None? then None
      else
        var rest := ReadHunks(lines, edits.value.next);
        if rest.None? then None
        else Some(Read([Hunk(lines[i].header.value, edits.value.value)] + rest.value.value, rest.value.next))
  }

  /** Three header lines: the `diff` line, the old name and the new one, which must agree. */
  predicate HeadsFile(lines: seq<Line>, i: nat) {
    && i + 2 < |lines| && lines[i].starts && lines[i + 1].minus.Some? && lines[i + 2].plus.Some?
    && (lines[i + 1].minus.value == DevNull || lines[i + 1].minus.value == Under(lines[i + 2].plus.value))
  }

  function ReadFiles(lines: seq<Line>, i: nat): Option<seq<FilePatch>>
    requires i <= |lines|
    decreases |lines| - i
  {
    if i == |lines| then Some([])
    else if !HeadsFile(lines, i) then None
    else
      var hunks := ReadHunks(lines, i + 3);
      if hunks.None? || hunks.value.value == [] then None
      else
        var rest := ReadFiles(lines, hunks.value.next);
        if rest.None? then None
        else Some([FilePatch(lines[i + 1].minus.value == DevNull, lines[i + 2].plus.value, hunks.value.value)] + rest.value)
  }

  // ---------------------------------------------------------------------------------------
  // Reversing a parsed patch
  // ---------------------------------------------------------------------------------------

  type Files = map<Path, seq<Text>>

  /** Nothing at all is left once the lines are joined. */
  predicate Blank(lines: seq<Text>) {
    forall i :: 0 <= i < |lines| ==> lines[i].s == ""
  }

  datatype Outcome = Outcome(restored: Files, changed: seq<Path>)

  function ReverseOne(vendor: Files, patch: FilePatch, so: Outcome): Option<Outcome> {
    if patch.path !in vendor || patch.path in so.changed then None
    else
      var original := ReverseFile(vendor[patch.path], patch.hunks);
      if original.None? || (patch.created && !Blank(original.value)) then None
      else if patch.created then Some(Outcome(so.restored - {patch.path}, so.changed + [patch.path]))
      else Some(Outcome(so.restored[patch.path := original.value], so.changed + [patch.path]))
  }

  function ReverseAll(vendor: Files, patches: seq<FilePatch>, k: nat, so: Outcome): Option<Outcome>
    requires k <= |patches|
    decreases |patches| - k
  {
    if k == |patches| then Some(so)
    else
      var next := ReverseOne(vendor, patches[k], so);
      if next.None? then None else ReverseAll(vendor, patches, k + 1, next.value)
  }

  function Reversed(vendor: Files, lines: seq<Line>): Option<Outcome> {
    var patches := ReadFiles(lines, 0);
    if patches.None? then None else ReverseAll(vendor, patches.value, 0, Outcome(vendor, []))
  }

  // ---------------------------------------------------------------------------------------
  // The loops
  // ---------------------------------------------------------------------------------------

  /** What the innermost loop leaves: how far it read, where the cursor stands, and how many lines of each side it saw. */
  datatype Body = Body(next: nat, progress: Progress, seenOld: nat, seenNew: nat)

  ghost function BodyOf(lines: seq<Line>, i: nat, actual: seq<Text>, p: Progress): Option<Body>
    requires i <= |lines|
  {
    var edits := ReadEdits(lines, i);
    if edits.None? then None
    else
      var es := edits.value.value;
      var q := ReverseEdits(actual, es, 0, p);
      if q.None? then None
      else Some(Body(edits.value.next, q.value, |Side(Forwards, es, 0)|, |Side(Backwards, es, 0)|))
  }

  /** The loop stands before line `b.next`, having read `k` of the edits that `whole` holds, if the text is well formed. */
  ghost predicate Underway(lines: seq<Line>, actual: seq<Text>, whole: Option<Read<seq<Edit>>>, k: nat, b: Body, p: Progress)
    requires b.next <= |lines|
  {
    if whole.None? then ReadEdits(lines, b.next).None?
    else
      var es := whole.value.value;
      && k <= |es|
      && ReadEdits(lines, b.next) == Some(Read(es[k..], whole.value.next))
      && ReverseEdits(actual, es, 0, p) == ReverseEdits(actual, es, k, b.progress)
      && b.seenOld + |Side(Forwards, es, k)| == |Side(Forwards, es, 0)|
      && b.seenNew + |Side(Backwards, es, k)| == |Side(Backwards, es, 0)|
  }

  /** What reading one marked line does to the loop's variables. */
  function Marked(b: Body, e: Edit): Body {
    Body(b.next + 1, Past(e, b.progress), if e.Add? then b.seenOld else b.seenOld + 1,
         if e.Del? then b.seenNew else b.seenNew + 1)
  }

  lemma StaysUnderway(lines: seq<Line>, actual: seq<Text>, whole: Option<Read<seq<Edit>>>, k: nat, b: Body, p: Progress)
    requires b.next < |lines| && !EndsBody(lines, b.next) && Underway(lines, actual, whole, k, b, p)
    requires lines[b.next].edit.Some? && Agrees(actual, lines[b.next].edit.value, b.progress)
    ensures Underway(lines, actual, whole, k + 1, Marked(b, lines[b.next].edit.value), p)
  {
    if whole.Some? {
      var es, rest := whole.value.value, ReadEdits(lines, b.next + 1).value.value;
      assert es[k..] == [lines[b.next].edit.value] + rest;
      assert es[k] == es[k..][0] && es[k + 1..] == es[k..][1..] == rest;
    }
  }

  /** Where the loop stops for good, there is no way to read and reverse the body. */
  lemma StuckUnderway(lines: seq<Line>, start: nat, actual: seq<Text>, k: nat, b: Body, p: Progress)
    requires start <= |lines| && b.next < |lines| && !EndsBody(lines, b.next)
    requires Underway(lines, actual, ReadEdits(lines, start), k, b, p)
    requires lines[b.next].edit.None? || !Agrees(actual, lines[b.next].edit.value, b.progress)
    ensures BodyOf(lines, start, actual, p) == None
  {
    if ReadEdits(lines, start).Some? && lines[b.next].edit.Some? {
      var es := ReadEdits(lines, start).value.value;
      assert es[k] == es[k..][0] == lines[b.next].edit.value;
    }
  }

  lemma DoneUnderway(lines: seq<Line>, start: nat, actual: seq<Text>, k: nat, b: Body, p: Progress)
    requires start <= |lines| && b.next <= |lines| && EndsBody(lines, b.next)
    requires Underway(lines, actual, ReadEdits(lines, start), k, b, p)
    ensures BodyOf(lines, start, actual, p) == Some(b)
  {
    var es := ReadEdits(lines, start).value.value;
    assert es[k..] == [] && k == |es|;
  }

  method ReverseBody(lines: seq<Line>, start: nat, actual: seq<Text>, p: Progress) returns (r: Option<Body>)
    requires start <= |lines|
    ensures r == BodyOf(lines, start, actual, p)
  {
    ghost var k: nat := 0;
    var b := Body(start, p, 0, 0);
    while b.next < |lines| && !lines[b.next].startsHunk && !lines[b.next].startsAny
      invariant b.next <= |lines| && Underway(lines, actual, ReadEdits(lines, start), k, b, p)
      decreases |lines| - b.next
    {
      ghost var before := b;
      if lines[b.next].edit.None? {
        StuckUnderway(lines, start, actual, k, b, p);
        return None;
      }
      var e := lines[b.next].edit.value;
      b := b.(next := b.next + 1);
      if !e.Del? {
        if !(b.progress.cursor < |actual| && actual[b.progress.cursor] == e.text) {
          StuckUnderway(lines, start, actual, k, before, p);
          return None;
        }
        b := b.(progress := Progress(b.progress.cursor + 1, b.progress.result), seenNew := b.seenNew + 1);
      }
      if !e.Add? {
        b := b.(progress := Progress(b.progress.cursor, b.progress.result + [e.text]), seenOld := b.seenOld + 1);
      }
      assert b == Marked(before, e);
      StaysUnderway(lines, actual, ReadEdits(lines, start), k, before, p);
      k := k + 1;
    }
    DoneUnderway(lines, start, actual, k, b, p);
    return Some(b);
  }

  ghost function HunkOf(lines: seq<Line>, i: nat, actual: seq<Text>, p: Progress): Option<Read<Progress>>
    requires i < |lines|
  {
    if lines[i].header.None? then None
    else
      var edits := ReadEdits(lines, i + 1);
      if edits.None? then None
      else
        var q := ReverseHunk(actual, Hunk(lines[i].header.value, edits.value.value), p);
        if q.None? then None else Some(Read(q.value, edits.value.next))
  }

  method ReverseOneHunk(lines: seq<Line>, i: nat, actual: seq<Text>, p: Progress) returns (r: Option<Read<Progress>>)
    requires i < |lines| && p.cursor <= |actual|
    ensures r == HunkOf(lines, i, actual, p)
  {
    if lines[i].header.None? { return None; }
    var header := lines[i].header.value;
    var start := if header.newCount != 0 then header.newStart - 1 else header.newStart;
    if !(p.cursor <= start <= |actual|) { return None; }
    var result := p.result + actual[p.cursor..start];
    var oldStart := if header.oldCount != 0 then header.oldStart - 1 else header.oldStart;
    if |result| != oldStart { return None; }
    var body := ReverseBody(lines, i + 1, actual, Progress(start, result));
    if body.None? || body.value.seenOld != header.oldCount || body.value.seenNew != header.newCount { return None; }
    return Some(Read(body.value.progress, body.value.next));
  }

  ghost function FileOf(lines: seq<Line>, i: nat, actual: seq<Text>): Option<Read<seq<Text>>>
    requires i <= |lines|
  {
    var hunks := ReadHunks(lines, i);
    if hunks.None? || hunks.value.value == [] then None
    else
      var original := ReverseFile(actual, hunks.value.value);
      if original.None? then None else Some(Read(original.value, hunks.value.next))
  }

  /** The loop over hunks stands before line `i`, having reversed `k` of the hunks that `whole` holds. */
  ghost predicate AmongHunks(lines: seq<Line>, actual: seq<Text>, whole: Option<Read<seq<Hunk>>>, k: nat, i: nat, p: Progress)
    requires i <= |lines|
  {
    && p.cursor <= |actual|
    && if whole.None? then ReadHunks(lines, i).None?
       else
         var hs := whole.value.value;
         && k <= |hs|
         && ReadHunks(lines, i) == Some(Read(hs[k..], whole.value.next))
         && ReverseFile(actual, hs) == ReverseFrom(actual, hs, k, p)
  }

  lemma HunkMovesOn(lines: seq<Line>, actual: seq<Text>, whole: Option<Read<seq<Hunk>>>, k: nat, i: nat, p: Progress)
    requires i < |lines| && !EndsFile(lines, i) && AmongHunks(lines, actual, whole, k, i, p)
    requires HunkOf(lines, i, actual, p).Some?
    ensures i < HunkOf(lines, i, actual, p).value.next <= |lines|
    ensures AmongHunks(lines, actual, whole, k + 1, HunkOf(lines, i, actual, p).value.next, HunkOf(lines, i, actual, p).value.value)
  {
    var next := HunkOf(lines, i, actual, p).value.next;
    var h := Hunk(lines[i].header.value, ReadEdits(lines, i + 1).value.value);
    ReverseHunkMeans(actual, h, p);
    if whole.Some? {
      var hs, rest := whole.value.value, ReadHunks(lines, next).value.value;
      assert hs[k..] == [h] + rest;
      assert hs[k] == hs[k..][0] && hs[k + 1..] == hs[k..][1..] == rest;
    }
  }

  lemma HunkIsStuck(lines: seq<Line>, start: nat, actual: seq<Text>, k: nat, i: nat, p: Progress)
    requires start <= |lines| && i < |lines| && !EndsFile(lines, i)
    requires AmongHunks(lines, actual, ReadHunks(lines, start), k, i, p) && HunkOf(lines, i, actual, p).None?
    ensures FileOf(lines, start, actual) == None
  {
    var whole := ReadHunks(lines, start);
    if whole.Some? {
      var hs := whole.value.value;
      assert hs[k] == hs[k..][0] == Hunk(lines[i].header.value, ReadEdits(lines, i + 1).value.value);
    }
  }

  lemma HunksAreDone(lines: seq<Line>, start: nat, actual: seq<Text>, k: nat, i: nat, p: Progress)
    requires start <= |lines| && i <= |lines| && EndsFile(lines, i)
    requires AmongHunks(lines, actual, ReadHunks(lines, start), k, i, p)
    ensures FileOf(lines, start, actual) == if k == 0 then None else Some(Read(p.result + actual[p.cursor..], i))
  {
    var hs := ReadHunks(lines, start).value.value;
    assert hs[k..] == [] && k == |hs|;
  }

  method ReverseHunks(lines: seq<Line>, start: nat, actual: seq<Text>) returns (r: Option<Read<seq<Text>>>)
    requires start <= |lines|
    ensures r == FileOf(lines, start, actual)
  {
    var i, hunks := start, 0;
    var p := Progress(0, []);
    while i < |lines| && !lines[i].startsAny
      invariant 0 <= i <= |lines| && 0 <= hunks
      invariant AmongHunks(lines, actual, ReadHunks(lines, start), hunks, i, p)
      decreases |lines| - i
    {
      var one := ReverseOneHunk(lines, i, actual, p);
      if one.None? {
        HunkIsStuck(lines, start, actual, hunks, i, p);
        return None;
      }
      HunkMovesOn(lines, actual, ReadHunks(lines, start), hunks, i, p);
      i, p, hunks := one.value.next, one.value.value, hunks + 1;
    }
    HunksAreDone(lines, start, actual, hunks, i, p);
    if hunks == 0 { return None; }
    return Some(Read(p.result + actual[p.cursor..], i));
  }

  // ---------------------------------------------------------------------------------------
  // The whole patch
  // ---------------------------------------------------------------------------------------

  /** The loop over files stands before line `i`, having reversed `k` of the files that `whole` holds. */
  ghost predicate AmongFiles(vendor: Files, lines: seq<Line>, whole: Option<seq<FilePatch>>, k: nat, i: nat, so: Outcome)
    requires i <= |lines|
  {
    if whole.None? then ReadFiles(lines, i).None?
    else
      && k <= |whole.value|
      && ReadFiles(lines, i) == Some(whole.value[k..])
      && ReverseAll(vendor, whole.value, 0, Outcome(vendor, [])) == ReverseAll(vendor, whole.value, k, so)
  }

  /** The file patch that heads the text at line `i`, reversed. */
  ghost function OneOf(vendor: Files, lines: seq<Line>, i: nat, so: Outcome): Option<Read<Outcome>>
    requires i <= |lines|
  {
    if !HeadsFile(lines, i) then None
    else
      var hunks := ReadHunks(lines, i + 3);
      if hunks.None? || hunks.value.value == [] then None
      else
        var patch := FilePatch(lines[i + 1].minus.value == DevNull, lines[i + 2].plus.value, hunks.value.value);
        var next := ReverseOne(vendor, patch, so);
        if next.None? then None else Some(Read(next.value, hunks.value.next))
  }

  lemma FileMovesOn(vendor: Files, lines: seq<Line>, whole: Option<seq<FilePatch>>, k: nat, i: nat, so: Outcome)
    requires i < |lines| && AmongFiles(vendor, lines, whole, k, i, so) && OneOf(vendor, lines, i, so).Some?
    ensures i < OneOf(vendor, lines, i, so).value.next <= |lines|
    ensures AmongFiles(vendor, lines, whole, k + 1, OneOf(vendor, lines, i, so).value.next, OneOf(vendor, lines, i, so).value.value)
  {
    if whole.Some? {
      var ps := whole.value;
      assert ps[k] == ps[k..][0] && ps[k + 1..] == ps[k..][1..];
    }
  }

  lemma FileIsStuck(vendor: Files, lines: seq<Line>, k: nat, i: nat, so: Outcome)
    requires i < |lines| && AmongFiles(vendor, lines, ReadFiles(lines, 0), k, i, so) && OneOf(vendor, lines, i, so).None?
    ensures Reversed(vendor, lines) == None
  {
    var whole := ReadFiles(lines, 0);
    if whole.Some? {
      var ps := whole.value;
      assert ps[k] == ps[k..][0];
    }
  }

  method ReverseFilePatch(vendor: Files, lines: seq<Line>, i: nat, so: Outcome) returns (r: Option<Read<Outcome>>)
    requires i < |lines|
    ensures r == OneOf(vendor, lines, i, so)
  {
    if !lines[i].starts || !(i + 2 < |lines| && lines[i + 1].minus.Some? && lines[i + 2].plus.Some?) { return None; }
    var minus, plus := lines[i + 1].minus.value, lines[i + 2].plus.value;
    if !((minus == DevNull || minus == Under(plus)) && plus in vendor && plus !in so.changed) { return None; }
    var original := ReverseHunks(lines, i + 3, vendor[plus]);
    if original.None? { return None; }
    var changed := so.changed + [plus];
    if minus == DevNull {
      if !Blank(original.value.value) { return None; }
      return Some(Read(Outcome(so.restored - {plus}, changed), original.value.next));
    }
    return Some(Read(Outcome(so.restored[plus := original.value.value], changed), original.value.next));
  }

  /** The reversal of a whole patch, with its loop over the files of the patch. */
  method ReversePatchLines(vendor: Files, lines: seq<Line>) returns (r: Option<Outcome>)
    ensures r == Reversed(vendor, lines)
  {
    ghost var k: nat := 0;
    var i, so := 0, Outcome(vendor, []);
    while i < |lines|
      invariant 0 <= i <= |lines| && AmongFiles(vendor, lines, ReadFiles(lines, 0), k, i, so)
    {
      var one := ReverseFilePatch(vendor, lines, i, so);
      if one.None? {
        FileIsStuck(vendor, lines, k, i, so);
        return None;
      }
      FileMovesOn(vendor, lines, ReadFiles(lines, 0), k, i, so);
      i, so, k := one.value.next, one.value.value, k + 1;
    }
    return Some(so);
  }
}

/**
 How the text of a patch spells file patches, by boundaries between its lines: every file has its three header lines,
 every hunk its header and its marked lines, and nothing is left over.
 */
module PatchGrammar {
  import opened Common
  import opened UnifiedDiff
  import opened ReversePatch

  // ---------------------------------------------------------------------------------------
  // Marked lines
  // ---------------------------------------------------------------------------------------

  predicate MarkedLine(line: Line, e: Edit) {
    !line.startsHunk && !line.startsAny && line.edit == Some(e)
  }

  /** The marked lines of a body go from `i` to before `j`, where the text ends or a hunk or a file begins. */
  predicate Body(lines: seq<Line>, i: nat, j: nat, edits: seq<Edit>) {
    && i + |edits| == j <= |lines|
    && (forall k :: 0 <= k < |edits| ==> MarkedLine(lines[i + k], edits[k]))
    && (j == |lines| || lines[j].startsHunk || lines[j].startsAny)
  }

  lemma BodiesAreRead(lines: seq<Line>, i: nat, j: nat, edits: seq<Edit>)
    requires i <= |lines|
    ensures ReadEdits(lines, i) == Some(Read(edits, j)) <==> Body(lines, i, j, edits)
  {
    if Body(lines, i, j, edits) { SpeltBodyIsRead(lines, i, j, edits); }
    if ReadEdits(lines, i) == Some(Read(edits, j)) { ReadBodyIsSpelt(lines, i); }
  }

  lemma {:induction false} SpeltBodyIsRead(lines: seq<Line>, i: nat, j: nat, edits: seq<Edit>)
    requires i <= |lines| && Body(lines, i, j, edits)
    ensures ReadEdits(lines, i) == Some(Read(edits, j))
    decreases |lines| - i
  {
    if edits != [] {
      BodyGoesOn(lines, i, j, edits);
      SpeltBodyIsRead(lines, i + 1, j, edits[1..]);
      assert [edits[0]] + edits[1..] == edits;
    }
  }

  lemma {:induction false} ReadBodyIsSpelt(lines: seq<Line>, i: nat)
    requires i <= |lines| && ReadEdits(lines, i).Some?
    ensures Body(lines, i, ReadEdits(lines, i).value.next, ReadEdits(lines, i).value.value)
    decreases |lines| - i
  {
    if !EndsBody(lines, i) {
      ReadBodyIsSpelt(lines, i + 1);
      var rest := ReadEdits(lines, i + 1).value;
      var edits := [lines[i].edit.value] + rest.value;
      assert edits[1..] == rest.value;
      BodyGoesOn(lines, i, rest.next, edits);
    }
  }

  lemma BodyGoesOn(lines: seq<Line>, i: nat, j: nat, edits: seq<Edit>)
    requires i < |lines| && edits != []
    ensures Body(lines, i, j, edits) <==> MarkedLine(lines[i], edits[0]) && Body(lines, i + 1, j, edits[1..])
  {
    var rest := edits[1..];
    if Body(lines, i, j, edits) {
      assert MarkedLine(lines[i + 0], edits[0]);
      forall k | 0 <= k < |rest| ensures MarkedLine(lines[i + 1 + k], rest[k]) {
        assert MarkedLine(lines[i + (k + 1)], edits[k + 1]);
      }
    }
    if MarkedLine(lines[i], edits[0]) && Body(lines, i + 1, j, rest) {
      forall k | 0 <= k < |edits| ensures MarkedLine(lines[i + k], edits[k]) {
        if k > 0 { assert MarkedLine(lines[i + 1 + (k - 1)], rest[k - 1]); }
      }
    }
  }

  // ---------------------------------------------------------------------------------------
  // Hunks
  // ---------------------------------------------------------------------------------------

  predicate SpellsHunk(lines: seq<Line>, i: nat, j: nat, h: Hunk) {
    i < |lines| && !lines[i].startsAny && lines[i].header == Some(h.header) && Body(lines, i + 1, j, h.edits)
  }

  /** `cuts` are where the hunks begin and, last, where the text ends or the next file begins. */
  predicate SpellsHunks(lines: seq<Line>, cuts: seq<nat>, hunks: seq<Hunk>) {
    && |cuts| == |hunks| + 1
    && (forall k :: 0 <= k < |hunks| ==> SpellsHunk(lines, cuts[k], cuts[k + 1], hunks[k]))
    && (cuts[|hunks|] == |lines| || (cuts[|hunks|] < |lines| && lines[cuts[|hunks|]].startsAny))
  }

  ghost predicate HunksFrom(lines: seq<Line>, i: nat, j: nat, hunks: seq<Hunk>) {
    exists cuts :: SpellsHunks(lines, cuts, hunks) && cuts[0] == i && cuts[|hunks|] == j
  }

  lemma MoreHunks(lines: seq<Line>, i: nat, j: nat, end: nat, h: Hunk, rest: seq<Hunk>)
    requires SpellsHunk(lines, i, j, h) && HunksFrom(lines, j, end, rest)
    ensures HunksFrom(lines, i, end, [h] + rest)
  {
    var cuts :| SpellsHunks(lines, cuts, rest) && cuts[0] == j && cuts[|rest|] == end;
    var longer, hunks := [i] + cuts, [h] + rest;
    forall k | 0 <= k < |hunks| ensures SpellsHunk(lines, longer[k], longer[k + 1], hunks[k]) {
      if k > 0 { assert SpellsHunk(lines, cuts[k - 1], cuts[k], rest[k - 1]); }
    }
    assert SpellsHunks(lines, longer, hunks) && longer[0] == i && longer[|hunks|] == end;
  }

  lemma FewerHunks(lines: seq<Line>, i: nat, end: nat, hunks: seq<Hunk>) returns (j: nat)
    requires HunksFrom(lines, i, end, hunks) && hunks != []
    ensures SpellsHunk(lines, i, j, hunks[0]) && HunksFrom(lines, j, end, hunks[1..])
  {
    var cuts :| SpellsHunks(lines, cuts, hunks) && cuts[0] == i && cuts[|hunks|] == end;
    j := cuts[1];
    assert SpellsHunk(lines, cuts[0], cuts[1], hunks[0]);
    var shorter, rest := cuts[1..], hunks[1..];
    forall k | 0 <= k < |rest| ensures SpellsHunk(lines, shorter[k], shorter[k + 1], rest[k]) {
      assert SpellsHunk(lines, cuts[k + 1], cuts[k + 2], hunks[k + 1]);
    }
    assert SpellsHunks(lines, shorter, rest) && shorter[0] == j && shorter[|rest|] == end;
  }

  lemma NoHunks(lines: seq<Line>, i: nat, end: nat)
    ensures HunksFrom(lines, i, end, []) <==> i == end && (i == |lines| || (i < |lines| && lines[i].startsAny))
  {
    var none: seq<Hunk> := [];
    if i == end && (i == |lines| || (i < |lines| && lines[i].startsAny)) {
      assert SpellsHunks(lines, [i], none) && [i][0] == i && [i][|none|] == end;
    }
  }

  lemma {:induction false} SpeltHunksAreRead(lines: seq<Line>, i: nat, end: nat, hunks: seq<Hunk>)
    requires i <= |lines| && HunksFrom(lines, i, end, hunks)
    ensures ReadHunks(lines, i) == Some(Read(hunks, end))
    decreases |lines| - i
  {
    if hunks == [] {
      NoHunks(lines, i, end);
    } else {
      var j := FewerHunks(lines, i, end, hunks);
      BodiesAreRead(lines, i + 1, j, hunks[0].edits);
      SpeltHunksAreRead(lines, j, end, hunks[1..]);
      assert [hunks[0]] + hunks[1..] == hunks;
    }
  }

  lemma {:induction false} ReadHunksAreSpelt(lines: seq<Line>, i: nat)
    requires i <= |lines| && ReadHunks(lines, i).Some?
    ensures HunksFrom(lines, i, ReadHunks(lines, i).value.next, ReadHunks(lines, i).value.value)
    decreases |lines| - i
  {
    if EndsFile(lines, i) {
      NoHunks(lines, i, i);
    } else {
      var edits := ReadEdits(lines, i + 1).value;
      BodiesAreRead(lines, i + 1, edits.next, edits.value);
      ReadHunksAreSpelt(lines, edits.next);
      var rest := ReadHunks(lines, edits.next).value;
      MoreHunks(lines, i, edits.next, rest.next, Hunk(lines[i].header.value, edits.value), rest.value);
    }
  }

  // ---------------------------------------------------------------------------------------
  // Files
  // ---------------------------------------------------------------------------------------

  /** The `diff` line, the old name, which is the new one or `/dev/null`, the new name, and at least one hunk. */
  ghost predicate SpellsFile(lines: seq<Line>, i: nat, j: nat, f: FilePatch) {
    && i + 3 <= |lines| && lines[i].starts
    && lines[i + 1].minus == Some(if f.created then DevNull else Under(f.path)) && lines[i + 2].plus == Some(f.path)
    && f.hunks != [] && HunksFrom(lines, i + 3, j, f.hunks)
  }

  /** `cuts` are where the files begin and, last, the end of the text. */
  ghost predicate SpellsFiles(lines: seq<Line>, cuts: seq<nat>, files: seq<FilePatch>) {
    && |cuts| == |files| + 1 && cuts[|files|] == |lines|
    && forall k :: 0 <= k < |files| ==> SpellsFile(lines, cuts[k], cuts[k + 1], files[k])
  }

  ghost predicate FilesFrom(lines: seq<Line>, i: nat, files: seq<FilePatch>) {
    exists cuts :: SpellsFiles(lines, cuts, files) && cuts[0] == i
  }

  lemma MoreFiles(lines: seq<Line>, i: nat, j: nat, f: FilePatch, rest: seq<FilePatch>)
    requires SpellsFile(lines, i, j, f) && FilesFrom(lines, j, rest)
    ensures FilesFrom(lines, i, [f] + rest)
  {
    var cuts :| SpellsFiles(lines, cuts, rest) && cuts[0] == j;
    var longer, files := [i] + cuts, [f] + rest;
    forall k | 0 <= k < |files| ensures SpellsFile(lines, longer[k], longer[k + 1], files[k]) {
      if k > 0 { assert SpellsFile(lines, cuts[k - 1], cuts[k], rest[k - 1]); }
    }
    assert SpellsFiles(lines, longer, files) && longer[0] == i;
  }

  lemma FewerFiles(lines: seq<Line>, i: nat, files: seq<FilePatch>) returns (j: nat)
    requires FilesFrom(lines, i, files) && files != []
    ensures SpellsFile(lines, i, j, files[0]) && FilesFrom(lines, j, files[1..])
  {
    var cuts :| SpellsFiles(lines, cuts, files) && cuts[0] == i;
    j := cuts[1];
    assert SpellsFile(lines, cuts[0], cuts[1], files[0]);
    var shorter, rest := cuts[1..], files[1..];
    forall k | 0 <= k < |rest| ensures SpellsFile(lines, shorter[k], shorter[k + 1], rest[k]) {
      assert SpellsFile(lines, cuts[k + 1], cuts[k + 2], files[k + 1]);
    }
    assert SpellsFiles(lines, shorter, rest) && shorter[0] == j;
  }

  lemma {:induction false} SpeltFilesAreRead(lines: seq<Line>, i: nat, files: seq<FilePatch>)
    requires i <= |lines| && FilesFrom(lines, i, files)
    ensures ReadFiles(lines, i) == Some(files)
    decreases |lines| - i
  {
    if files != [] {
      var j := FewerFiles(lines, i, files);
      SpeltHunksAreRead(lines, i + 3, j, files[0].hunks);
      SpeltFilesAreRead(lines, j, files[1..]);
      assert [files[0]] + files[1..] == files;
    }
  }

  lemma {:induction false} ReadFilesAreSpelt(lines: seq<Line>, i: nat)
    requires i <= |lines| && ReadFiles(lines, i).Some?
    ensures FilesFrom(lines, i, ReadFiles(lines, i).value)
    decreases |lines| - i
  {
    if i == |lines| {
      var none: seq<FilePatch> := [];
      assert SpellsFiles(lines, [i], none) && [i][0] == i;
    } else {
      var hunks := ReadHunks(lines, i + 3).value;
      ReadHunksAreSpelt(lines, i + 3);
      ReadFilesAreSpelt(lines, hunks.next);
      var f := FilePatch(lines[i + 1].minus.value == DevNull, lines[i + 2].plus.value, hunks.value);
      MoreFiles(lines, i, hunks.next, f, ReadFiles(lines, hunks.next).value);
    }
  }

  /** For every text: it is read as these file patches if and only if it spells them, from its first line to its last. */
  lemma PatchIsReadIff(lines: seq<Line>, files: seq<FilePatch>)
    ensures ReadFiles(lines, 0) == Some(files) <==> FilesFrom(lines, 0, files)
  {
    if FilesFrom(lines, 0, files) { SpeltFilesAreRead(lines, 0, files); }
    if ReadFiles(lines, 0) == Some(files) { ReadFilesAreSpelt(lines, 0); }
  }

  // ---------------------------------------------------------------------------------------
  // Where hunks stand
  // ---------------------------------------------------------------------------------------

  /** Lines are counted from one; a side without lines is named by the line before it. */
  predicate StandsAsNamed(file: seq<Text>, start: nat, count: nat, part: seq<Text>) {
    && |part| == count
    && if count == 0 then start <= |file|
       else 0 < start && start - 1 + count <= |file| && forall k :: 0 <= k < count ==> file[start - 1 + k] == part[k]
  }

  /** The old side of a hunk is what it keeps and deletes, the new side what it keeps and adds, in their order. */
  predicate IsOldSide(edits: seq<Edit>, part: seq<Text>)
    decreases |edits|
  {
    if edits == [] then part == []
    else
      match edits[0]
      case Add(_) => IsOldSide(edits[1..], part)
      case Keep(text) => part != [] && part[0] == text && IsOldSide(edits[1..], part[1..])
      case Del(text) => part != [] && part[0] == text && IsOldSide(edits[1..], part[1..])
  }

  predicate IsNewSide(edits: seq<Edit>, part: seq<Text>)
    decreases |edits|
  {
    if edits == [] then part == []
    else
      match edits[0]
      case Del(_) => IsNewSide(edits[1..], part)
      case Keep(text) => part != [] && part[0] == text && IsNewSide(edits[1..], part[1..])
      case Add(text) => part != [] && part[0] == text && IsNewSide(edits[1..], part[1..])
  }

  lemma {:induction false} SidesAreSides(edits: seq<Edit>, k: nat)
    requires k <= |edits|
    ensures IsOldSide(edits[k..], Side(Forwards, edits, k)) && IsNewSide(edits[k..], Side(Backwards, edits, k))
    decreases |edits| - k
  {
    if k < |edits| {
      SidesAreSides(edits, k + 1);
      assert edits[k..][1..] == edits[k + 1..] && edits[k..][0] == edits[k];
      var was, now := Side(Forwards, edits, k), Side(Backwards, edits, k);
      if !edits[k].Add? { assert was[1..] == Side(Forwards, edits, k + 1); }
      if !edits[k].Del? { assert now[1..] == Side(Backwards, edits, k + 1); }
    }
  }

  lemma {:induction false} AppliedHunksFit(way: Way, source: seq<Text>, hunks: seq<Hunk>, k: nat, at: nat, written: nat, m: nat)
    requires k <= m < |hunks| && Applies(way, source, hunks, k, at, written)
    ensures exists a: nat, w: nat :: Fits(way, source, hunks[m], a, w)
    decreases m - k
  {
    if k < m { AppliedHunksFit(way, source, hunks, k + 1, After(way, hunks[k]), After(Flip(way), hunks[k]), m); }
  }

  /**
   Every hunk of a patch that leads from `original` to `actual` stands where its header says: its old side in the
   one, its new side in the other, at the lines and with the counts that the header names.
   */
  lemma HunksStandAsNamed(original: seq<Text>, hunks: seq<Hunk>, actual: seq<Text>, m: nat)
    requires Makes(Forwards, original, hunks, actual) && m < |hunks|
    ensures var h := hunks[m];
      && IsOldSide(h.edits, Part(Forwards, h)) && StandsAsNamed(original, h.header.oldStart, h.header.oldCount, Part(Forwards, h))
      && IsNewSide(h.edits, Part(Backwards, h)) && StandsAsNamed(actual, h.header.newStart, h.header.newCount, Part(Backwards, h))
  {
    var h := hunks[m];
    SidesAreSides(h.edits, 0);
    assert h.edits[0..] == h.edits;
    WaysAreInverse(original, hunks, actual);
    AppliedHunksFit(Forwards, original, hunks, 0, 0, 0, m);
    FittingStands(Forwards, original, h);
    AppliedHunksFit(Backwards, actual, hunks, 0, 0, 0, m);
    FittingStands(Backwards, actual, h);
  }

  lemma FittingStands(way: Way, source: seq<Text>, h: Hunk)
    requires exists a: nat, w: nat :: Fits(way, source, h, a, w)
    ensures var (start, count) := if way.Forwards? then (h.header.oldStart, h.header.oldCount) else (h.header.newStart, h.header.newCount);
      StandsAsNamed(source, start, count, Part(way, h))
  {
    var a: nat, w: nat :| Fits(way, source, h, a, w);
    var here, part := Index(way, h.header), Part(way, h);
    forall k | 0 <= k < |part| ensures source[here + k] == part[k] {
      assert source[here..here + |part|][k] == source[here + k];
    }
  }
}

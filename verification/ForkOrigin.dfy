/**
 The comparison of the reversed patch with the upstream inventory.

 The inventory knows upstream files by digest and size.  For a digest without collisions among the files at
 hand, the check accepts exactly the patches whose reversal is the upstream tree and which name exactly the
 files that differ from it.
 */
module ForkOrigin {
  import opened Common
  import opened UnifiedDiff
  import opened ReversePatch
  import opened PatchMeaning
  import opened SourceText

  datatype Content = Content(text: string)

  type Tree = map<Path, Content>

  datatype Digest = Digest(hex: string)

  datatype Row = Row(digest: Digest, bytes: nat, mode: nat)

  type Inventory = map<Path, Row>

  const PLAIN_FILE := 420

  function SplitTree(tree: Tree): Files {
    map p | p in tree :: Lines(tree[p].text)
  }

  function JoinTree(files: Files): Tree {
    map p | p in files :: Content(Join(files[p]))
  }

  /** The contents after reversal: the files the patch names are joined again, the others are as they were. */
  function Contents(vendor: Tree, so: Outcome): Tree {
    map p | p in so.restored :: if p in so.changed || p !in vendor then Content(Join(so.restored[p])) else vendor[p]
  }

  predicate RowFits(row: Row, content: Content, sha: Content -> Digest, size: Content -> nat) {
    sha(content) == row.digest && size(content) == row.bytes && row.mode == PLAIN_FILE
  }

  predicate Restores(restored: Tree, inventory: Inventory, sha: Content -> Digest, size: Content -> nat) {
    restored.Keys == inventory.Keys && forall p :: p in restored ==> RowFits(inventory[p], restored[p], sha, size)
  }

  /** The vendored files that differ from the inventory. */
  function Differing(vendor: Tree, inventory: Inventory, sha: Content -> Digest): set<Path> {
    set p | p in vendor && (p !in inventory || sha(vendor[p]) != inventory[p].digest)
  }

  predicate Accepts(vendor: Tree, lines: seq<Line>, inventory: Inventory, sha: Content -> Digest, size: Content -> nat) {
    var so := Reversed(SplitTree(vendor), lines);
    && so.Some?
    && Restores(Contents(vendor, so.value), inventory, sha, size)
    && (set p | p in so.value.changed) == Differing(vendor, inventory, sha)
  }

  method CheckOrigin(vendor: Tree, lines: seq<Line>, inventory: Inventory, sha: Content -> Digest, size: Content -> nat)
    returns (changed: Option<seq<Path>>)
    ensures changed.Some? <==> Accepts(vendor, lines, inventory, sha, size)
    ensures changed.Some? ==> changed.value == Reversed(SplitTree(vendor), lines).value.changed
  {
    var so := ReversePatchLines(SplitTree(vendor), lines);
    if so.None? { return None; }
    var restored := Contents(vendor, so.value);
    if restored.Keys != inventory.Keys { return None; }
    var rest := restored.Keys;
    while rest != {}
      invariant rest <= restored.Keys
      invariant forall p :: p in restored && p !in rest ==> RowFits(inventory[p], restored[p], sha, size)
      decreases |rest|
    {
      var p :| p in rest;
      if !RowFits(inventory[p], restored[p], sha, size) { return None; }
      rest := rest - {p};
    }
    if (set p | p in so.value.changed) != Differing(vendor, inventory, sha) { return None; }
    return Some(so.value.changed);
  }

  // ---------------------------------------------------------------------------------------
  // What acceptance means
  // ---------------------------------------------------------------------------------------

  /** The inventory of a tree. */
  function InventoryOf(tree: Tree, sha: Content -> Digest, size: Content -> nat): Inventory {
    map p | p in tree :: Row(sha(tree[p]), size(tree[p]), PLAIN_FILE)
  }

  /** No two different files in the two trees have one digest. */
  predicate Collisionless(one: Tree, other: Tree, sha: Content -> Digest) {
    forall p :: p in one && p in other && sha(one[p]) == sha(other[p]) ==> one[p] == other[p]
  }

  /** Reading the reversal as lines and joining them is the same as keeping what the patch does not name. */
  lemma ContentsAreJoined(vendor: Tree, lines: seq<Line>, so: Outcome)
    requires Reversed(SplitTree(vendor), lines) == Some(so)
    ensures Contents(vendor, so) == JoinTree(so.restored)
  {
    var files := SplitTree(vendor);
    var patches := ReadFiles(lines, 0).value;
    ReversalIsExact(files, lines, so);
    forall p | p in so.restored && p !in so.changed && p in vendor
      ensures Content(Join(so.restored[p])) == vendor[p]
    {
      UnlistedIsUnnamed(patches, so.changed, p);
      assert so.restored[p] == files[p];
      JoiningUndoesSplitting(vendor[p].text);
    }
  }

  lemma UnlistedIsUnnamed(patches: seq<FilePatch>, changed: seq<Path>, p: Path)
    requires changed == Paths(patches, |patches|) && p !in changed
    ensures !Named(patches, |patches|, p)
  {
    forall i | 0 <= i < |patches| ensures patches[i].path != p {
      assert changed[i] == patches[i].path;
    }
  }

  /**
   Acceptance, for every vendored tree, every patch text and every upstream tree: given no digest collision, the
   check accepts if and only if the patch reverses the vendored tree to the upstream tree, content by content,
   and names exactly the vendored files that are not in the upstream tree or differ from it.
   */
  lemma AcceptanceIsExact(vendor: Tree, lines: seq<Line>, upstream: Tree, sha: Content -> Digest, size: Content -> nat)
    requires Collisionless(vendor, upstream, sha)
    requires var so := Reversed(SplitTree(vendor), lines); so.Some? ==> Collisionless(JoinTree(so.value.restored), upstream, sha)
    ensures Accepts(vendor, lines, InventoryOf(upstream, sha, size), sha, size) <==>
            ReversesTo(vendor, lines, upstream)
  {
    var so := Reversed(SplitTree(vendor), lines);
    var inventory := InventoryOf(upstream, sha, size);
    assert Differing(vendor, inventory, sha) == Unlike(vendor, upstream);
    if so.Some? {
      ContentsAreJoined(vendor, lines, so.value);
      RestoresMeansEqual(JoinTree(so.value.restored), upstream, sha, size);
    }
  }

  lemma RestoresMeansEqual(restored: Tree, upstream: Tree, sha: Content -> Digest, size: Content -> nat)
    requires Collisionless(restored, upstream, sha)
    ensures Restores(restored, InventoryOf(upstream, sha, size), sha, size) <==> restored == upstream
  {
    var inventory := InventoryOf(upstream, sha, size);
    assert inventory.Keys == upstream.Keys;
    if Restores(restored, inventory, sha, size) {
      assert restored.Keys == upstream.Keys;
      forall p | p in restored ensures restored[p] == upstream[p] {
        assert RowFits(inventory[p], restored[p], sha, size);
      }
    }
  }

  /** An inventory with a file of another mode than 0644, or of another size than what is restored, is never accepted. */
  lemma OtherModesAreRefused(vendor: Tree, lines: seq<Line>, inventory: Inventory, sha: Content -> Digest, size: Content -> nat, p: Path)
    requires p in inventory && Accepts(vendor, lines, inventory, sha, size)
    ensures inventory[p].mode == 6 * 64 + 4 * 8 + 4
    ensures var so := Reversed(SplitTree(vendor), lines).value;
      p in so.restored && p in Contents(vendor, so) && inventory[p].bytes == size(Contents(vendor, so)[p])
  {
    var so := Reversed(SplitTree(vendor), lines).value;
    assert p in Contents(vendor, so);
    assert RowFits(inventory[p], Contents(vendor, so)[p], sha, size);
  }

  /** The vendored files that upstream does not have, or has differently. */
  function Unlike(vendor: Tree, upstream: Tree): set<Path> {
    set p | p in vendor && (p !in upstream || vendor[p] != upstream[p])
  }

  predicate ReversesTo(vendor: Tree, lines: seq<Line>, upstream: Tree) {
    var so := Reversed(SplitTree(vendor), lines);
    && so.Some?
    && JoinTree(so.value.restored) == upstream
    && (set p | p in so.value.changed) == Unlike(vendor, upstream)
  }

  // ---------------------------------------------------------------------------------------
  // Forwards again, on the upstream text
  // ---------------------------------------------------------------------------------------

  /** The seams of one file of the patch, on its vendored text and its hunks. */
  predicate FileSeamsProper(vendored: Content, hunks: seq<Hunk>) {
    var actual := Lines(vendored.text);
    Applies(Backwards, actual, hunks, 0, 0, 0) && SeamsProper(actual, hunks, 0, 0, 0, [])
  }

  /**
   Whether the patch also leads from the upstream text of an accepted file forwards to the vendored text: if and
   only if, on the vendored lines, every hunk's old side is proper together with the lines that stay around it.
   */
  lemma UpstreamPatchesForwardIff(vendor: Tree, lines: seq<Line>, upstream: Tree, k: nat)
    requires ReversesTo(vendor, lines, upstream)
    requires var patches := ReadFiles(lines, 0); patches.Some? && k < |patches.value| && !patches.value[k].created
    ensures
      var patch := ReadFiles(lines, 0).value[k];
      && patch.path in upstream && patch.path in vendor
      && (Makes(Forwards, Lines(upstream[patch.path].text), patch.hunks, Lines(vendor[patch.path].text)) <==>
          FileSeamsProper(vendor[patch.path], patch.hunks))
  {
    var so, patch := Reversed(SplitTree(vendor), lines).value, ReadFiles(lines, 0).value[k];
    var files := SplitTree(vendor);
    ReversalIsExact(files, lines, so);
    assert Links(files, patch, so.restored);
    var restored, actual := so.restored[patch.path], files[patch.path];
    assert JoinTree(so.restored)[patch.path] == Content(Join(restored));
    SplittingUndoesJoiningIff(restored);
    ReverseIsInverse(actual, patch.hunks, restored);
    ReverseIsInverse(actual, patch.hunks, Lines(upstream[patch.path].text));
    RestoredIsProperIff(vendor[patch.path], patch.hunks, restored);
  }

  /** The restored lines are proper exactly when the seams are. */
  lemma RestoredIsProperIff(vendored: Content, hunks: seq<Hunk>, restored: seq<Text>)
    requires Makes(Forwards, restored, hunks, Lines(vendored.text))
    ensures Proper(restored) <==> FileSeamsProper(vendored, hunks)
  {
    var actual := Lines(vendored.text);
    WaysAreInverse(restored, hunks, actual);
    LinesAreProper(vendored.text);
    UndoneIsProperIff(actual, hunks, 0, 0, 0, []);
    assert [] + Applied(Backwards, actual, hunks, 0, 0, 0) == restored;
  }

  /** Line feeds throughout are enough for that: in the vendored file and in the body of the patch. */
  lemma LineFeedsAreEnough(vendored: Content, hunks: seq<Hunk>)
    requires ReverseFile(Lines(vendored.text), hunks).Some?
    requires AllClean(Lines(vendored.text)) && forall i :: 0 <= i < |hunks| ==> CleanHunk(hunks[i])
    ensures FileSeamsProper(vendored, hunks)
  {
    var actual := Lines(vendored.text);
    ReverseFromMeans(actual, hunks, 0, Progress(0, []));
    CleanSeamsAreProper(actual, hunks, 0, 0, 0, []);
  }

  // ---------------------------------------------------------------------------------------
  // A patch without a final terminator
  // ---------------------------------------------------------------------------------------

  const TheFile := Path("f")
  const TheHunk := Hunk(Header(1, 1, 0, 0), [Del(Text("a"))])

  /** The lines `diff --git a/f b/f`, `--- a/f`, `+++ b/f`, `@@ -1 +0,0 @@`, and `-a` without a terminator, in all readings. */
  function UnterminatedPatch(): seq<Line> {
    [Line(true, true, false, None, None, None, None),
     Line(false, false, false, None, Some(Under(TheFile)), None, Some(Del(Text("-- a/f\n")))),
     Line(false, false, false, None, None, Some(TheFile), Some(Add(Text("++ b/f\n")))),
     Line(false, false, true, Some(Header(1, 1, 0, 0)), None, None, None),
     Line(false, false, false, None, None, None, Some(Del(Text("a"))))]
  }

  lemma UnterminatedPatchReads()
    ensures ReadFiles(UnterminatedPatch(), 0) == Some([FilePatch(false, TheFile, [TheHunk])])
  {
    var lines, edit := UnterminatedPatch(), Del(Text("a"));
    var patch := FilePatch(false, TheFile, [TheHunk]);
    assert [edit] + [] == [edit] && [TheHunk] + [] == [TheHunk] && [patch] + [] == [patch];
    assert ReadEdits(lines, 5) == Some(Read([], 5));
    assert ReadEdits(lines, 4) == Some(Read([edit], 5));
    assert ReadHunks(lines, 5) == Some(Read([], 5));
    assert ReadHunks(lines, 3) == Some(Read([TheHunk], 5));
    assert HeadsFile(lines, 0) && ReadFiles(lines, 5) == Some([]);
  }

  lemma TwoTexts()
    ensures Lines("b\n") == [Text("b\n")] && Lines("ab\n") == [Text("ab\n")]
    ensures Join([Text("a"), Text("b\n")]) == "ab\n"
  {
    var b, ab := "b\n", "ab\n";
    assert LineEnd(b, 0) == 2 && LineEnd(ab, 0) == 3;
    assert b[..2] == b && b[2..] == "" && ab[..3] == ab && ab[3..] == "";
    assert Join([Text(b)]) == b + Join([]);
    assert [Text("a"), Text(b)][1..] == [Text(b)];
  }

  lemma UnterminatedHunkReverses()
    ensures ReverseFile([Text("b\n")], [TheHunk]) == Some([Text("a"), Text("b\n")])
  {
    var b, hunks, h := Text("b\n"), [TheHunk], TheHunk;
    assert Part(Forwards, h) == [Text("a")] && Part(Backwards, h) == [];
    var p, q := Progress(0, []), Progress(0, [Text("a")]);
    assert ReverseGap([b], h.header, p) == Some(p);
    assert Past(h.edits[0], p) == q;
    assert ReverseEdits([b], h.edits, 1, q) == Some(q);
    assert q.result + [b][0..] == [Text("a"), b];
    assert ReverseFrom([b], hunks, 1, q) == Some([Text("a"), b]);
  }

  lemma UnterminatedHunkDoesNotApply()
    ensures !Applies(Forwards, [Text("ab\n")], [TheHunk], 0, 0, 0)
  {
    assert Part(Forwards, TheHunk) == [Text("a")];
    assert |"a"| != |"ab\n"| && [Text("ab\n")][0..1] == [Text("ab\n")];
  }

  /**
   Such a patch over a vendored file `b` is accepted with an upstream file `ab`, to which it does not apply: its
   seam is not proper.
   */
  lemma UnterminatedPatchIsAccepted()
    ensures
      var vendor, upstream: Tree := map[TheFile := Content("b\n")], map[TheFile := Content("ab\n")];
      && ReversesTo(vendor, UnterminatedPatch(), upstream)
      && !Makes(Forwards, Lines(upstream[TheFile].text), [TheHunk], Lines(vendor[TheFile].text))
      && !FileSeamsProper(vendor[TheFile], [TheHunk])
  {
    var vendor, upstream: Tree := map[TheFile := Content("b\n")], map[TheFile := Content("ab\n")];
    UnterminatedPatchReads();
    TwoTexts();
    UnterminatedHunkReverses();
    UnterminatedHunkDoesNotApply();
    assert |"b\n"| != |"ab\n"|;
    OneFileReverses(UnterminatedPatch(), Content("b\n"), Content("ab\n"), [Text("a"), Text("b\n")]);
    UpstreamPatchesForwardIff(vendor, UnterminatedPatch(), upstream, 0);
  }

  /** A tree of one file, with a patch of the one hunk. */
  lemma OneFileReverses(lines: seq<Line>, vendored: Content, original: Content, restored: seq<Text>)
    requires ReadFiles(lines, 0) == Some([FilePatch(false, TheFile, [TheHunk])])
    requires ReverseFile(Lines(vendored.text), [TheHunk]) == Some(restored)
    requires Join(restored) == original.text && vendored != original
    ensures ReversesTo(map[TheFile := vendored], lines, map[TheFile := original])
  {
    var vendor, upstream: Tree := map[TheFile := vendored], map[TheFile := original];
    var files := SplitTree(vendor);
    UnterminatedReversal(files, lines, restored);
    var so := Outcome(files[TheFile := restored], [TheFile]);
    assert JoinTree(so.restored) == upstream;
    assert (set p | p in so.changed) == {TheFile} == Unlike(vendor, upstream);
  }

  lemma UnterminatedReversal(files: Files, lines: seq<Line>, restored: seq<Text>)
    requires ReadFiles(lines, 0) == Some([FilePatch(false, TheFile, [TheHunk])])
    requires TheFile in files && ReverseFile(files[TheFile], [TheHunk]) == Some(restored)
    ensures Reversed(files, lines) == Some(Outcome(files[TheFile := restored], [TheFile]))
  {
    var patches := [FilePatch(false, TheFile, [TheHunk])];
    var so := Outcome(files[TheFile := restored], [TheFile]);
    assert [] + [TheFile] == [TheFile];
    assert ReverseOne(files, patches[0], Outcome(files, [])) == Some(so);
    assert ReverseAll(files, patches, 1, so) == Some(so);
  }

  lemma {:induction false} BlankIsEmptyText(lines: seq<Text>)
    ensures Blank(lines) <==> Join(lines) == ""
    decreases |lines|
  {
    if lines != [] {
      BlankIsEmptyText(lines[1..]);
      if Join(lines) == "" {
        assert |lines[0].s| == 0;
        assert forall i :: 0 < i < |lines| ==> lines[i] == lines[1..][i - 1];
      }
    }
  }
}

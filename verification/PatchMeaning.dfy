/** What the reversal of a whole patch means: it succeeds exactly for the original that the patch turns into the vendored files. */
module PatchMeaning {
  import opened Common
  import opened UnifiedDiff
  import opened ReversePatch

  /** File patch `patch` turns what `restored` says about its path into the vendored file. */
  ghost predicate Links(vendor: Files, patch: FilePatch, restored: Files) {
    && patch.path in vendor
    && if patch.created
       then patch.path !in restored && CreatesFromNothing(patch.hunks, vendor[patch.path])
       else patch.path in restored && Makes(Forwards, restored[patch.path], patch.hunks, vendor[patch.path])
  }

  ghost predicate CreatesFromNothing(hunks: seq<Hunk>, actual: seq<Text>) {
    exists original :: Blank(original) && Makes(Forwards, original, hunks, actual)
  }

  predicate DistinctPaths(patches: seq<FilePatch>) {
    forall i, j :: 0 <= i < j < |patches| ==> patches[i].path != patches[j].path
  }

  /** Path `p` is named by one of the first `k` file patches. */
  predicate Named(patches: seq<FilePatch>, k: nat, p: Path) {
    exists i :: 0 <= i < k && i < |patches| && patches[i].path == p
  }

  /** Where the patch names no path, the two trees agree. */
  ghost predicate AgreeElsewhere(vendor: Files, patches: seq<FilePatch>, k: nat, restored: Files) {
    forall p :: !Named(patches, k, p) ==> (p in vendor <==> p in restored) && (p in vendor ==> restored[p] == vendor[p])
  }

  /** `restored` with the first `k` file patches applied is the vendored tree. */
  ghost predicate Undoes(vendor: Files, patches: seq<FilePatch>, k: nat, restored: Files)
    requires k <= |patches|
  {
    && (forall i :: 0 <= i < k ==> Links(vendor, patches[i], restored))
    && AgreeElsewhere(vendor, patches, k, restored)
  }

  function Paths(patches: seq<FilePatch>, k: nat): seq<Path>
    requires k <= |patches|
  {
    seq(k, i requires 0 <= i < k => patches[i].path)
  }

  // ---------------------------------------------------------------------------------------
  // One file patch
  // ---------------------------------------------------------------------------------------

  lemma ReverseOneLinks(vendor: Files, patch: FilePatch, so: Outcome)
    requires ReverseOne(vendor, patch, so).Some?
    ensures Links(vendor, patch, ReverseOne(vendor, patch, so).value.restored)
  {
    var original := ReverseFile(vendor[patch.path], patch.hunks).value;
    ReverseIsInverse(vendor[patch.path], patch.hunks, original);
  }

  /** A file patch can be reversed exactly when some tree has it as link to the vendored one. */
  lemma LinksReverse(vendor: Files, patch: FilePatch, so: Outcome, restored: Files)
    requires Links(vendor, patch, restored) && patch.path !in so.changed
    ensures ReverseOne(vendor, patch, so).Some?
  {
    var actual := vendor[patch.path];
    if patch.created {
      var original :| Blank(original) && Makes(Forwards, original, patch.hunks, actual);
      ReverseIsInverse(actual, patch.hunks, original);
    } else {
      ReverseIsInverse(actual, patch.hunks, restored[patch.path]);
    }
  }

  /** At a path the patch names, the vendored tree leaves one choice for the original. */
  lemma LinksDetermine(vendor: Files, patch: FilePatch, one: Files, other: Files)
    requires Links(vendor, patch, one) && Links(vendor, patch, other)
    ensures patch.path in one <==> patch.path in other
    ensures patch.path in one ==> one[patch.path] == other[patch.path]
  {
    if !patch.created {
      ReverseIsInverse(vendor[patch.path], patch.hunks, one[patch.path]);
      ReverseIsInverse(vendor[patch.path], patch.hunks, other[patch.path]);
    }
  }

  // ---------------------------------------------------------------------------------------
  // All of them
  // ---------------------------------------------------------------------------------------

  /** What the loop over files has done after `k` of them. */
  ghost predicate Reached(vendor: Files, patches: seq<FilePatch>, k: nat, so: Outcome)
    requires k <= |patches|
  {
    && Undoes(vendor, patches, k, so.restored) && so.changed == Paths(patches, k)
    && DistinctPaths(patches[..k])
  }

  lemma ReverseOneReaches(vendor: Files, patches: seq<FilePatch>, k: nat, so: Outcome)
    requires k < |patches| && Reached(vendor, patches, k, so)
    requires ReverseOne(vendor, patches[k], so).Some?
    ensures Reached(vendor, patches, k + 1, ReverseOne(vendor, patches[k], so).value)
  {
    var now := ReverseOne(vendor, patches[k], so).value;
    PathIsNew(patches, k, so.changed);
    assert Undoes(vendor, patches, k + 1, now.restored) by {
      ReverseOneLinks(vendor, patches[k], so);
      LinksGrow(vendor, patches, k, so.restored, now.restored);
    }
    assert now.changed == Paths(patches, k + 1);
  }

  lemma PathIsNew(patches: seq<FilePatch>, k: nat, changed: seq<Path>)
    requires k < |patches| && changed == Paths(patches, k) && patches[k].path !in changed
    requires DistinctPaths(patches[..k])
    ensures DistinctPaths(patches[..k + 1])
    ensures forall i :: 0 <= i < k ==> patches[i].path != patches[k].path
  {
    forall i | 0 <= i < k ensures patches[i].path != patches[k].path {
      assert changed[i] == patches[i].path;
    }
    var now, before := patches[..k + 1], patches[..k];
    forall i, j | 0 <= i < j < |now| ensures now[i].path != now[j].path {
      if j < k { assert before[i].path != before[j].path; }
    }
  }

  /** A tree that changes at the next path alone, to a link, undoes one more file patch. */
  lemma LinksGrow(vendor: Files, patches: seq<FilePatch>, k: nat, before: Files, after: Files)
    requires k < |patches| && Undoes(vendor, patches, k, before) && Links(vendor, patches[k], after)
    requires forall i :: 0 <= i < k ==> patches[i].path != patches[k].path
    requires forall p :: p != patches[k].path ==> SameAt(before, after, p)
    ensures Undoes(vendor, patches, k + 1, after)
  {
    forall i | 0 <= i < k + 1 ensures Links(vendor, patches[i], after) {
      if i < k { assert SameAt(before, after, patches[i].path); }
    }
    forall p | !Named(patches, k + 1, p)
      ensures (p in vendor <==> p in after) && (p in vendor ==> after[p] == vendor[p])
    {
      assert patches[k].path != p && !Named(patches, k, p);
      assert SameAt(before, after, p);
    }
  }

  ghost predicate SameAt(one: Files, other: Files, p: Path) {
    (p in one <==> p in other) && (p in one ==> one[p] == other[p])
  }

  lemma {:induction false} ReverseAllReaches(vendor: Files, patches: seq<FilePatch>, k: nat, so: Outcome)
    requires k <= |patches| && Reached(vendor, patches, k, so)
    requires ReverseAll(vendor, patches, k, so).Some?
    ensures Reached(vendor, patches, |patches|, ReverseAll(vendor, patches, k, so).value)
    decreases |patches| - k
  {
    if k < |patches| {
      ReverseOneReaches(vendor, patches, k, so);
      ReverseAllReaches(vendor, patches, k + 1, ReverseOne(vendor, patches[k], so).value);
    }
  }

  lemma {:induction false} ReverseAllSucceeds(vendor: Files, patches: seq<FilePatch>, k: nat, so: Outcome, restored: Files)
    requires k <= |patches| && so.changed == Paths(patches, k)
    requires DistinctPaths(patches) && Undoes(vendor, patches, |patches|, restored)
    ensures ReverseAll(vendor, patches, k, so).Some?
    decreases |patches| - k
  {
    if k < |patches| {
      assert patches[k].path !in so.changed;
      LinksReverse(vendor, patches[k], so, restored);
      assert so.changed + [patches[k].path] == Paths(patches, k + 1);
      ReverseAllSucceeds(vendor, patches, k + 1, ReverseOne(vendor, patches[k], so).value, restored);
    }
  }

  lemma UndoesDetermines(vendor: Files, patches: seq<FilePatch>, one: Files, other: Files)
    requires Undoes(vendor, patches, |patches|, one) && Undoes(vendor, patches, |patches|, other)
    ensures one == other
  {
    forall p ensures (p in one <==> p in other) && (p in one ==> one[p] == other[p]) {
      if Named(patches, |patches|, p) {
        var i :| 0 <= i < |patches| && patches[i].path == p;
        LinksDetermine(vendor, patches[i], one, other);
      }
    }
  }

  /**
   The whole reversal, for every tree and every text of a patch: it succeeds with `so` if and only if the text
   reads as file patches with different paths, `so.restored` is the tree that these file patches turn into the
   vendored one, with every path they do not name untouched, and `so.changed` lists the paths they name.
   */
  lemma ReversalIsExact(vendor: Files, lines: seq<Line>, so: Outcome)
    ensures Reversed(vendor, lines) == Some(so) <==> Explains(vendor, ReadFiles(lines, 0), so)
  {
    var read := ReadFiles(lines, 0);
    if read.Some? {
      var patches, begin := read.value, Outcome(vendor, []);
      if Reversed(vendor, lines) == Some(so) {
        ReverseAllReaches(vendor, patches, 0, begin);
        assert patches[..|patches|] == patches;
      }
      if Explains(vendor, read, so) {
        ReverseAllSucceeds(vendor, patches, 0, begin, so.restored);
        ReverseAllReaches(vendor, patches, 0, begin);
        UndoesDetermines(vendor, patches, so.restored, ReverseAll(vendor, patches, 0, begin).value.restored);
      }
    }
  }

  ghost predicate Explains(vendor: Files, read: Option<seq<FilePatch>>, so: Outcome) {
    && read.Some? && DistinctPaths(read.value)
    && Undoes(vendor, read.value, |read.value|, so.restored)
    && so.changed == Paths(read.value, |read.value|)
  }
}

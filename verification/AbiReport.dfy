/**
 What the comparison reports, problem by problem: exactly the places where the two documents, walked side by side,
 part from each other, each under its own path.
 */
module AbiReport {
  import opened Common
  import opened AbiCompat
  import opened AbiReading

  /** One step down both documents: the same key, the same `id`, or the same position. */
  predicate StepBoth(was: Json, now: Json, seg: Seg, x: Json, y: Json) {
    match seg
    case Key(name) => was.Obj? && now.Obj? && Field(name, x) in was.fields && Lookup(now.fields, name) == Some(y)
    case Id(id) =>
      && was.List? && now.List? && IsEntryList(was.items)
      && x in was.items && IdOf(x) == Some(id) && LastWithId(now.items, id) == Some(y)
    case Index(k) =>
      && was.List? && now.List? && !IsEntryList(was.items) && !IsWordList(was.items)
      && k < |was.items| <= |now.items| && was.items[k] == x && now.items[k] == y
  }

  /** A field or an entry of `v` that `w` does not have, one step further down. */
  predicate Lacks(v: Json, w: Json, seg: Seg) {
    match seg
    case Key(name) => v.Obj? && w.Obj? && (exists i :: 0 <= i < |v.fields| && v.fields[i].name == name) && Lookup(w.fields, name).None?
    case Id(id) =>
      && v.List? && w.List? && IsEntryList(v.items)
      && (exists i :: 0 <= i < |v.items| && IdOf(v.items[i]) == Some(id)) && LastWithId(w.items, id).None?
    case Index(_) => false
  }

  /** What is wrong with `w` in the place of `v`, at `path`. */
  predicate Wrong(p: Problem, path: seq<Seg>, v: Json, w: Json) {
    match p
    case Retyped(at, was, now) => at == path && !SameConstructor(v, w) && was == KindOf(v) && now == KindOf(w)
    case Removed(at) => at != [] && at[..|at| - 1] == path && Lacks(v, w, at[|at| - 1])
    case WordGone(at, word) =>
      at == path && v.List? && w.List? && IsWordList(v.items) && !SaysNo(Last(path)) && Str(word) in v.items && Str(word) !in w.items
    case Shrank(at, was, now) =>
      && at == path && v.List? && w.List? && !IsEntryList(v.items) && !IsWordList(v.items)
      && was == |v.items| && now == |w.items| && now < was
    case PinChanged(at, was, now) =>
      && at == path && SameConstructor(v, w) && !v.Obj? && !v.List? && NamesAVersion(Last(path))
      && was == v && now == w && v != w
    case TurnedOff(at) => at == path && v == Bool(true) && w == Bool(false) && !NamesAVersion(Last(path))
  }

  /** Where the steps lead from here, `p` describes what is wrong. */
  ghost predicate DescribesAt(p: Problem, path: seq<Seg>, steps: Path, was: Json, now: Json)
    decreases steps
  {
    match steps
    case Here => Wrong(p, path, was, now)
    case Down(seg, rest) => exists x, y :: StepBoth(was, now, seg, x, y) && DescribesAt(p, path + [seg], rest, x, y)
  }

  ghost predicate Describes(p: Problem, path: seq<Seg>, was: Json, now: Json) {
    exists steps :: DescribesAt(p, path, steps, was, now)
  }

  /** What is wrong is wrong below one step. */
  ghost predicate DescribesBelow(p: Problem, path: seq<Seg>, was: Json, now: Json) {
    exists seg, x, y :: StepBoth(was, now, seg, x, y) && Describes(p, path + [seg], x, y)
  }

  lemma DescribesIff(p: Problem, path: seq<Seg>, was: Json, now: Json)
    ensures Describes(p, path, was, now) <==> Wrong(p, path, was, now) || DescribesBelow(p, path, was, now)
  {
    if Wrong(p, path, was, now) { assert DescribesAt(p, path, Here, was, now); }
    if DescribesBelow(p, path, was, now) { DescribedAbove(p, path, was, now); }
    if Describes(p, path, was, now) { DescribedSomewhere(p, path, was, now); }
  }

  lemma DescribedAbove(p: Problem, path: seq<Seg>, was: Json, now: Json)
    requires DescribesBelow(p, path, was, now)
    ensures Describes(p, path, was, now)
  {
    var seg, x, y :| StepBoth(was, now, seg, x, y) && Describes(p, path + [seg], x, y);
    var rest :| DescribesAt(p, path + [seg], rest, x, y);
    assert DescribesAt(p, path, Down(seg, rest), was, now);
  }

  lemma DescribedSomewhere(p: Problem, path: seq<Seg>, was: Json, now: Json)
    requires Describes(p, path, was, now)
    ensures Wrong(p, path, was, now) || DescribesBelow(p, path, was, now)
  {
    var steps :| DescribesAt(p, path, steps, was, now);
    match steps
    case Here =>
    case Down(seg, rest) =>
      var x, y :| StepBoth(was, now, seg, x, y) && DescribesAt(p, path + [seg], rest, x, y);
      assert Describes(p, path + [seg], x, y);
  }

  // ---------------------------------------------------------------------------------------
  // The lists of problems, element by element
  // ---------------------------------------------------------------------------------------

  lemma {:induction false} InFieldProblems(p: Problem, path: seq<Seg>, was: Json, now: seq<Field>, k: nat)
    requires was.Obj? && k <= |was.fields|
    ensures p in FieldProblems(path, was, now, k) <==> exists i :: k <= i < |was.fields| && p in FieldProblem(path, was.fields[i], now)
    decreases |was.fields| - k
  {
    if k < |was.fields| { InFieldProblems(p, path, was, now, k + 1); }
  }

  lemma {:induction false} InEntryProblems(p: Problem, path: seq<Seg>, was: Json, now: seq<Json>, k: nat)
    requires was.List? && AllKeyed(was.items) && k <= |was.items|
    ensures p in EntryProblems(path, was, now, k) <==> exists i :: k <= i < |was.items| && p in EntryProblem(path, was.items[i], now)
    decreases |was.items| - k
  {
    if k < |was.items| { InEntryProblems(p, path, was, now, k + 1); }
  }

  predicate InWordProblem(p: Problem, path: seq<Seg>, item: Json, now: seq<Json>) {
    item.Str? && item !in now && p == WordGone(path, item.word)
  }

  ghost predicate SomeWordGone(p: Problem, path: seq<Seg>, was: seq<Json>, now: seq<Json>, k: nat) {
    exists i :: k <= i < |was| && InWordProblem(p, path, was[i], now)
  }

  lemma SomeWordFromHere(p: Problem, path: seq<Seg>, was: seq<Json>, now: seq<Json>, k: nat)
    requires k < |was|
    ensures SomeWordGone(p, path, was, now, k) <==> InWordProblem(p, path, was[k], now) || SomeWordGone(p, path, was, now, k + 1)
  {
    if InWordProblem(p, path, was[k], now) { assert SomeWordGone(p, path, was, now, k); }
  }

  lemma {:induction false} InWordProblems(p: Problem, path: seq<Seg>, was: seq<Json>, now: seq<Json>, k: nat)
    requires AllWords(was) && k <= |was|
    ensures p in WordProblems(path, was, now, k) <==> SomeWordGone(p, path, was, now, k)
    decreases |was| - k
  {
    if k < |was| {
      InWordProblems(p, path, was, now, k + 1);
      SomeWordFromHere(p, path, was, now, k);
      InSum(p, WordProblem(path, was[k], now), WordProblems(path, was, now, k + 1));
    }
  }

  lemma InSum<T>(x: T, a: seq<T>, b: seq<T>)
    ensures x in a + b <==> x in a || x in b
  {}

  lemma {:induction false} InItemProblems(p: Problem, path: seq<Seg>, was: Json, now: seq<Json>, k: nat)
    requires was.List? && k <= |was.items| <= |now|
    ensures p in ItemProblems(path, was, now, k) <==>
      exists i :: k <= i < |was.items| && p in Problems(path + [Index(i)], was.items[i], now[i])
    decreases |was.items| - k
  {
    if k < |was.items| { InItemProblems(p, path, was, now, k + 1); }
  }

  // ---------------------------------------------------------------------------------------
  // The report
  // ---------------------------------------------------------------------------------------

  lemma LastOfLonger(path: seq<Seg>, seg: Seg)
    ensures (path + [seg])[..|path + [seg]| - 1] == path && (path + [seg])[|path + [seg]| - 1] == seg
  {}

  lemma {:induction false} FieldReport(p: Problem, path: seq<Seg>, was: Json, now: Json)
    requires was.Obj? && now.Obj?
    ensures p in FieldProblems(path, was, now.fields, 0) <==> Wrong(p, path, was, now) || DescribesBelow(p, path, was, now)
    decreases was, 0
  {
    InFieldProblems(p, path, was, now.fields, 0);
    forall i | 0 <= i < |was.fields| && Lookup(now.fields, was.fields[i].name).Some?
      ensures p in FieldProblem(path, was.fields[i], now.fields) <==>
        Describes(p, path + [Key(was.fields[i].name)], was.fields[i].value, Lookup(now.fields, was.fields[i].name).value)
    {
      ReportIsExact(p, path + [Key(was.fields[i].name)], was.fields[i].value, Lookup(now.fields, was.fields[i].name).value);
    }
    if p in FieldProblems(path, was, now.fields, 0) {
      var i :| 0 <= i < |was.fields| && p in FieldProblem(path, was.fields[i], now.fields);
      var seg := Key(was.fields[i].name);
      LastOfLonger(path, seg);
      if Lookup(now.fields, was.fields[i].name).Some? {
        assert StepBoth(was, now, seg, was.fields[i].value, Lookup(now.fields, was.fields[i].name).value);
      } else {
        assert Lacks(was, now, seg);
      }
    }
    if Wrong(p, path, was, now) {
      var seg := p.path[|p.path| - 1];
      var i :| 0 <= i < |was.fields| && was.fields[i].name == seg.name;
      assert p.path == path + [seg];
      assert p in FieldProblem(path, was.fields[i], now.fields);
    }
    if DescribesBelow(p, path, was, now) {
      var seg, x, y :| StepBoth(was, now, seg, x, y) && Describes(p, path + [seg], x, y);
      var i :| 0 <= i < |was.fields| && was.fields[i] == Field(seg.name, x);
      assert p in FieldProblem(path, was.fields[i], now.fields);
    }
  }

  lemma EntryIsDescribed(p: Problem, path: seq<Seg>, was: Json, now: Json, i: nat)
    requires was.List? && now.List? && IsEntryList(was.items) && i < |was.items| && IdOf(was.items[i]).Some?
    requires var id := IdOf(was.items[i]).value; var found := LastWithId(now.items, id);
      if found.Some? then Describes(p, path + [Id(id)], was.items[i], found.value) else p == Removed(path + [Id(id)])
    ensures Wrong(p, path, was, now) || DescribesBelow(p, path, was, now)
  {
    var seg := Id(IdOf(was.items[i]).value);
    LastOfLonger(path, seg);
    if LastWithId(now.items, seg.id).Some? {
      assert StepBoth(was, now, seg, was.items[i], LastWithId(now.items, seg.id).value);
    } else {
      assert Lacks(was, now, seg);
    }
  }

  lemma {:induction false} EntryReport(p: Problem, path: seq<Seg>, was: Json, now: Json)
    requires was.List? && now.List? && ShapeOf(was.items) == Keyed
    ensures p in EntryProblems(path, was, now.items, 0) <==> Wrong(p, path, was, now) || DescribesBelow(p, path, was, now)
    decreases was, 0
  {
    ShapesAreWhatListsHold(was.items);
    InEntryProblems(p, path, was, now.items, 0);
    forall i | 0 <= i < |was.items| && LastWithId(now.items, IdOf(was.items[i]).value).Some?
      ensures p in EntryProblem(path, was.items[i], now.items) <==>
        Describes(p, path + [Id(IdOf(was.items[i]).value)], was.items[i], LastWithId(now.items, IdOf(was.items[i]).value).value)
    {
      var id := IdOf(was.items[i]).value;
      ReportIsExact(p, path + [Id(id)], was.items[i], LastWithId(now.items, id).value);
    }
    if p in EntryProblems(path, was, now.items, 0) {
      var i :| 0 <= i < |was.items| && p in EntryProblem(path, was.items[i], now.items);
      EntryIsDescribed(p, path, was, now, i);
    }
    if Wrong(p, path, was, now) {
      var seg := p.path[|p.path| - 1];
      var i :| 0 <= i < |was.items| && IdOf(was.items[i]) == Some(seg.id);
      assert p.path == path + [seg];
      assert p in EntryProblem(path, was.items[i], now.items);
    }
    if DescribesBelow(p, path, was, now) {
      var seg, x, y :| StepBoth(was, now, seg, x, y) && Describes(p, path + [seg], x, y);
      var i :| 0 <= i < |was.items| && was.items[i] == x;
      assert p in EntryProblem(path, was.items[i], now.items);
    }
  }

  lemma WordReport(p: Problem, path: seq<Seg>, was: Json, now: Json)
    requires was.List? && now.List? && ShapeOf(was.items) == Words
    ensures p in Problems(path, was, now) <==> Wrong(p, path, was, now) || DescribesBelow(p, path, was, now)
  {
    ShapesAreWhatListsHold(was.items);
    NegativeSaysNo(Last(path));
    InWordProblems(p, path, was.items, now.items, 0);
    if Wrong(p, path, was, now) && p.WordGone? {
      var i :| 0 <= i < |was.items| && was.items[i] == Str(p.word);
      assert InWordProblem(p, path, was.items[i], now.items);
    }
  }

  lemma {:induction false} ItemReport(p: Problem, path: seq<Seg>, was: Json, now: Json)
    requires was.List? && now.List? && ShapeOf(was.items) == Plain && |was.items| <= |now.items|
    ensures p in ItemProblems(path, was, now.items, 0) <==> Wrong(p, path, was, now) || DescribesBelow(p, path, was, now)
    decreases was, 0
  {
    ShapesAreWhatListsHold(was.items);
    InItemProblems(p, path, was, now.items, 0);
    forall i | 0 <= i < |was.items|
      ensures p in Problems(path + [Index(i)], was.items[i], now.items[i]) <==>
        Describes(p, path + [Index(i)], was.items[i], now.items[i])
    {
      ReportIsExact(p, path + [Index(i)], was.items[i], now.items[i]);
    }
    if p in ItemProblems(path, was, now.items, 0) {
      var i :| 0 <= i < |was.items| && p in Problems(path + [Index(i)], was.items[i], now.items[i]);
      assert StepBoth(was, now, Index(i), was.items[i], now.items[i]);
    }
    if DescribesBelow(p, path, was, now) {
      var seg, x, y :| StepBoth(was, now, seg, x, y) && Describes(p, path + [seg], x, y);
      assert p in Problems(path + [Index(seg.at)], was.items[seg.at], now.items[seg.at]);
    }
  }

  lemma ScalarReport(p: Problem, path: seq<Seg>, was: Json, now: Json)
    requires !SameConstructor(was, now) || (!was.Obj? && !was.List?)
    ensures p in Problems(path, was, now) <==> Wrong(p, path, was, now) || DescribesBelow(p, path, was, now)
  {
    KindsAreConstructors(was, now);
    PinnedIsVersion(Last(path));
  }

  /**
   For all documents and every problem: the walk reports it if and only if the two documents, walked side by side by
   key, by `id` or by position, get to two values of which it says what is wrong, and where.
   */
  lemma {:induction false} ReportIsExact(p: Problem, path: seq<Seg>, was: Json, now: Json)
    ensures p in Problems(path, was, now) <==> Describes(p, path, was, now)
    decreases was, 1
  {
    DescribesIff(p, path, was, now);
    KindsAreConstructors(was, now);
    if !SameConstructor(was, now) || (!was.Obj? && !was.List?) {
      ScalarReport(p, path, was, now);
    } else if was.Obj? {
      FieldReport(p, path, was, now);
    } else {
      match ShapeOf(was.items)
      case Keyed => EntryReport(p, path, was, now);
      case Words => WordReport(p, path, was, now);
      case Plain =>
        if |was.items| <= |now.items| { ItemReport(p, path, was, now); } else { ShrunkReport(p, path, was, now); }
    }
  }

  lemma ShrunkReport(p: Problem, path: seq<Seg>, was: Json, now: Json)
    requires was.List? && now.List? && ShapeOf(was.items) == Plain && |now.items| < |was.items|
    ensures p in Problems(path, was, now) <==> Wrong(p, path, was, now) || DescribesBelow(p, path, was, now)
  {
    ShapesAreWhatListsHold(was.items);
  }
}

/**
 What a clean comparison means for an app, and on which documents the comparison is an order.

 `Readable` says independently of the walk what an app can rely on: everything it can reach in the old document is
 there in the new one, of the same kind and not downgraded.
 */
module AbiReading {
  import opened Common
  import opened AbiCompat

  // ---------------------------------------------------------------------------------------
  // Kinds, shapes and names, on the documents themselves
  // ---------------------------------------------------------------------------------------

  predicate HasId(v: Json) {
    v.Obj? && exists i :: 0 <= i < |v.fields| && v.fields[i].name.text == "id"
  }

  /** A list of entries that are told apart by their `id`. */
  predicate IsEntryList(items: seq<Json>) {
    items != [] && forall i :: 0 <= i < |items| ==> HasId(items[i])
  }

  predicate IsWordList(items: seq<Json>) {
    forall i :: 0 <= i < |items| ==> items[i].Str?
  }

  lemma IdsAreFields(v: Json)
    ensures IdOf(v).Some? <==> HasId(v)
  {
    if IdOf(v).Some? {
      var i :| 0 <= i < |v.fields| && v.fields[i] == Field(ID, IdOf(v).value);
      assert v.fields[i].name.text == "id";
    }
  }

  /** The three shapes by what the list holds: entries, words, or anything else. */
  lemma ShapesAreWhatListsHold(items: seq<Json>)
    ensures ShapeOf(items) == Keyed <==> IsEntryList(items)
    ensures ShapeOf(items) == Words <==> IsWordList(items)
    ensures ShapeOf(items) == Plain <==> !IsEntryList(items) && !IsWordList(items)
  {
    forall i | 0 <= i < |items| ensures IdOf(items[i]).Some? <==> HasId(items[i]) { IdsAreFields(items[i]); }
    if IsEntryList(items) { assert HasId(items[0]); }
  }

  predicate SameConstructor(v: Json, w: Json) {
    && (v.Null? <==> w.Null?) && (v.Bool? <==> w.Bool?) && (v.Num? <==> w.Num?)
    && (v.Str? <==> w.Str?) && (v.List? <==> w.List?) && (v.Obj? <==> w.Obj?)
  }

  /** The kinds the walk reports are the six kinds of values, each by its name. */
  lemma KindsAreConstructors(v: Json, w: Json)
    ensures KindOf(v) == KindOf(w) <==> SameConstructor(v, w)
    ensures (KindOf(v).KNull? <==> v.Null?) && (KindOf(v).KBool? <==> v.Bool?) && (KindOf(v).KNumber? <==> v.Num?)
    ensures (KindOf(v).KString? <==> v.Str?) && (KindOf(v).KList? <==> v.List?) && (KindOf(v).KObject? <==> v.Obj?)
  {}

  /** The three version fields that may not change at all. */
  predicate NamesAVersion(last: Option<Seg>) {
    && last.Some? && last.value.Key?
    && (last.value.name.text == "capabilities_schema_version" || last.value.name.text == "abi_version"
        || last.value.name.text == "config_schema_version")
  }

  lemma PinnedIsVersion(last: Option<Seg>)
    ensures Pinned(last) <==> NamesAVersion(last)
  {
    if last.Some? && last.value.Key? {
      var name := last.value.name;
      assert name == Word(name.text);
    }
  }

  /** The list says what is not supported. */
  predicate SaysNo(last: Option<Seg>) {
    last.Some? && last.value.Key? && last.value.name.text == "unsupported"
  }

  lemma NegativeSaysNo(last: Option<Seg>)
    ensures Negative(last) <==> SaysNo(last)
  {
    if SaysNo(last) { assert last.value.name == UNSUPPORTED; }
  }

  // ---------------------------------------------------------------------------------------
  // A clean comparison, without the list of problems
  // ---------------------------------------------------------------------------------------

  predicate Compatible(last: Option<Seg>, was: Json, now: Json)
    decreases was
  {
    && SameConstructor(was, now)
    && match was
       case Obj(fields) =>
         forall i :: 0 <= i < |fields| ==>
           (var found := Lookup(now.fields, fields[i].name);
            found.Some? && Compatible(Some(Key(fields[i].name)), fields[i].value, found.value))
       case List(items) =>
         if ShapeOf(items) == Keyed then
           forall i :: 0 <= i < |items| ==>
             (var found := LastWithId(now.items, IdOf(items[i]).value);
              found.Some? && Compatible(Some(Id(IdOf(items[i]).value)), items[i], found.value))
         else if ShapeOf(items) == Words then Negative(last) || forall i :: 0 <= i < |items| ==> items[i] in now.items
         else |items| <= |now.items| && forall i :: 0 <= i < |items| ==> Compatible(Some(Index(i)), items[i], now.items[i])
       case _ => (NamesAVersion(last) ==> was == now) && (was == Bool(true) ==> now == Bool(true))
  }

  predicate FieldKept(field: Field, now: seq<Field>) {
    var found := Lookup(now, field.name);
    found.Some? && Compatible(Some(Key(field.name)), field.value, found.value)
  }

  predicate EntryKept(item: Json, now: seq<Json>)
    requires IdOf(item).Some?
  {
    var found := LastWithId(now, IdOf(item).value);
    found.Some? && Compatible(Some(Id(IdOf(item).value)), item, found.value)
  }

  /** The walk reports nothing exactly when the documents are compatible. */
  lemma {:induction false} CleanIffCompatible(path: seq<Seg>, was: Json, now: Json)
    ensures Problems(path, was, now) == [] <==> Compatible(Last(path), was, now)
    decreases was, 1, 0
  {
    if KindOf(was) == KindOf(now) {
      if was.Obj? {
        CleanFields(path, was, now.fields, 0);
      } else if was.List? {
        CleanList(path, was, now);
      }
    }
  }

  lemma {:induction false} CleanList(path: seq<Seg>, was: Json, now: Json)
    requires was.List? && now.List?
    ensures Problems(path, was, now) == [] <==> Compatible(Last(path), was, now)
    decreases was, 0, |was.items| + 1
  {
    match ShapeOf(was.items)
    case Keyed => CleanEntries(path, was, now.items, 0);
    case Words => CleanWords(path, was.items, now.items, 0);
    case Plain => if |was.items| <= |now.items| { CleanItems(path, was, now.items, 0); }
  }

  lemma {:induction false} CleanFields(path: seq<Seg>, was: Json, now: seq<Field>, k: nat)
    requires was.Obj? && k <= |was.fields|
    ensures FieldProblems(path, was, now, k) == [] <==> forall i :: k <= i < |was.fields| ==> FieldKept(was.fields[i], now)
    decreases was, 0, |was.fields| - k
  {
    if k < |was.fields| {
      var field := was.fields[k];
      var found := Lookup(now, field.name);
      var clean := FieldProblem(path, field, now) == [];
      assert clean <==> FieldKept(was.fields[k], now) by {
        if found.Some? {
          CleanIffCompatible(path + [Key(field.name)], field.value, found.value);
          assert Last(path + [Key(field.name)]) == Some(Key(field.name));
        }
      }
      CleanFields(path, was, now, k + 1);
      EmptySum(FieldProblem(path, field, now), FieldProblems(path, was, now, k + 1));
    }
  }

  lemma {:induction false} CleanEntries(path: seq<Seg>, was: Json, now: seq<Json>, k: nat)
    requires was.List? && AllKeyed(was.items) && k <= |was.items|
    ensures EntryProblems(path, was, now, k) == [] <==> forall i :: k <= i < |was.items| ==> EntryKept(was.items[i], now)
    decreases was, 0, |was.items| - k
  {
    if k < |was.items| {
      var id := IdOf(was.items[k]).value;
      var found := LastWithId(now, id);
      var clean := EntryProblem(path, was.items[k], now) == [];
      assert clean <==> EntryKept(was.items[k], now) by {
        if found.Some? {
          CleanIffCompatible(path + [Id(id)], was.items[k], found.value);
          assert Last(path + [Id(id)]) == Some(Id(id));
        }
      }
      CleanEntries(path, was, now, k + 1);
      EmptySum(EntryProblem(path, was.items[k], now), EntryProblems(path, was, now, k + 1));
    }
  }

  lemma {:induction false} CleanWords(path: seq<Seg>, was: seq<Json>, now: seq<Json>, k: nat)
    requires AllWords(was) && k <= |was|
    ensures WordProblems(path, was, now, k) == [] <==> forall i :: k <= i < |was| ==> was[i] in now
    decreases |was| - k
  {
    if k < |was| {
      CleanWords(path, was, now, k + 1);
      EmptySum(WordProblem(path, was[k], now), WordProblems(path, was, now, k + 1));
    }
  }

  lemma {:induction false} CleanItems(path: seq<Seg>, was: Json, now: seq<Json>, k: nat)
    requires was.List? && k <= |was.items| <= |now|
    ensures ItemProblems(path, was, now, k) == [] <==> forall i :: k <= i < |was.items| ==> Compatible(Some(Index(i)), was.items[i], now[i])
    decreases was, 0, |was.items| - k
  {
    if k < |was.items| {
      var here := Problems(path + [Index(k)], was.items[k], now[k]);
      assert here == [] <==> Compatible(Some(Index(k)), was.items[k], now[k]) by {
        CleanIffCompatible(path + [Index(k)], was.items[k], now[k]);
        assert Last(path + [Index(k)]) == Some(Index(k));
      }
      CleanItems(path, was, now, k + 1);
      EmptySum(here, ItemProblems(path, was, now, k + 1));
    }
  }

  lemma EmptySum<T>(a: seq<T>, b: seq<T>)
    ensures a + b == [] <==> a == [] && b == []
  {
    assert |a + b| == |a| + |b|;
  }

  // ---------------------------------------------------------------------------------------
  // What an app reads
  // ---------------------------------------------------------------------------------------

  datatype Path = Here | Down(seg: Seg, rest: Path)

  /** `part` is what an app written against `doc` finds there: by key, by `id` in a list of such entries, else by position. */
  predicate PartAt(doc: Json, seg: Seg, part: Json) {
    match seg
    case Key(name) => doc.Obj? && Field(name, part) in doc.fields
    case Id(id) => doc.List? && IsEntryList(doc.items) && part in doc.items && IdOf(part) == Some(id)
    case Index(at) =>
      doc.List? && !IsEntryList(doc.items) && !IsWordList(doc.items) && at < |doc.items| && doc.items[at] == part
  }

  ghost predicate Holds(doc: Json, path: Path, v: Json)
    decreases path
  {
    match path
    case Here => v == doc
    case Down(seg, rest) => exists part :: PartAt(doc, seg, part) && Holds(part, rest, v)
  }

  /** What reading `path` gives in `doc`. */
  function Find(doc: Json, path: Path): Option<Json>
    decreases path
  {
    match path
    case Here => Some(doc)
    case Down(seg, rest) =>
      var next := Step(doc, seg);
      if next.None? then None else Find(next.value, rest)
  }

  function Step(doc: Json, seg: Seg): Option<Json> {
    match seg
    case Key(name) => if doc.Obj? then Lookup(doc.fields, name) else None
    case Id(id) => if doc.List? then LastWithId(doc.items, id) else None
    case Index(at) => if doc.List? && at < |doc.items| then Some(doc.items[at]) else None
  }

  function End(last: Option<Seg>, path: Path): Option<Seg>
    decreases path
  {
    match path
    case Here => last
    case Down(seg, rest) => End(Some(seg), rest)
  }

  /** `w` serves an app that expects `v`: same kind, true still true, a pinned version equal, no positive word lost. */
  predicate Serves(last: Option<Seg>, v: Json, w: Json) {
    && SameConstructor(v, w)
    && (v.Bool? && v.on ==> w.on)
    && (NamesAVersion(last) && !v.Obj? && !v.List? ==> v == w)
    && (v.List? && IsWordList(v.items) && !SaysNo(last) ==> forall i :: 0 <= i < |v.items| ==> v.items[i] in w.items)
  }

  /** The same in the terms of the walk. */
  lemma ServesIff(last: Option<Seg>, v: Json, w: Json)
    ensures Serves(last, v, w) <==>
      && KindOf(v) == KindOf(w)
      && (v == Bool(true) ==> w == Bool(true))
      && (Pinned(last) && !v.Obj? && !v.List? ==> v == w)
      && (v.List? && ShapeOf(v.items) == Words && !Negative(last) ==> forall i :: 0 <= i < |v.items| ==> v.items[i] in w.items)
  {
    KindsAreConstructors(v, w);
    PinnedIsVersion(last);
    NegativeSaysNo(last);
    if v.List? { ShapesAreWhatListsHold(v.items); }
  }

  ghost predicate ReadsAs(last: Option<Seg>, now: Json, path: Path, v: Json) {
    Find(now, path).Some? && Serves(End(last, path), v, Find(now, path).value)
  }

  /** Everything that can be read in `was` can be read in `now`. */
  ghost predicate Readable(last: Option<Seg>, was: Json, now: Json) {
    forall path, v :: Holds(was, path, v) ==> ReadsAs(last, now, path, v)
  }

  lemma CompatibleStep(last: Option<Seg>, was: Json, now: Json, seg: Seg, part: Json)
    requires Compatible(last, was, now) && PartAt(was, seg, part)
    ensures Step(now, seg).Some? && Compatible(Some(seg), part, Step(now, seg).value)
  {
    if was.List? { ShapesAreWhatListsHold(was.items); }
    match seg
    case Key(name) =>
      var i :| 0 <= i < |was.fields| && was.fields[i] == Field(name, part);
    case Id(_) =>
      var i :| 0 <= i < |was.items| && was.items[i] == part;
    case Index(_) =>
  }

  lemma {:induction false} CompatibleReads(last: Option<Seg>, was: Json, now: Json, path: Path, v: Json)
    requires Compatible(last, was, now) && Holds(was, path, v)
    ensures ReadsAs(last, now, path, v)
    decreases path
  {
    match path
    case Here => ServesIff(last, was, now);
    case Down(seg, rest) =>
      var part :| PartAt(was, seg, part) && Holds(part, rest, v);
      CompatibleStep(last, was, now, seg, part);
      CompatibleReads(Some(seg), part, Step(now, seg).value, rest, v);
  }

  /** What is below one step of the old document is readable below the same step of the new one. */
  lemma ReadableBelow(last: Option<Seg>, was: Json, now: Json, seg: Seg, part: Json)
    requires Readable(last, was, now) && PartAt(was, seg, part)
    ensures Step(now, seg).Some? && Readable(Some(seg), part, Step(now, seg).value)
  {
    assert Holds(part, Here, part) && Holds(was, Down(seg, Here), part);
    assert ReadsAs(last, now, Down(seg, Here), part);
    forall path, v | Holds(part, path, v) ensures ReadsAs(Some(seg), Step(now, seg).value, path, v) {
      assert Holds(was, Down(seg, path), v);
      assert ReadsAs(last, now, Down(seg, path), v);
    }
  }

  lemma {:induction false} ReadableIsCompatible(last: Option<Seg>, was: Json, now: Json)
    requires Readable(last, was, now)
    ensures Compatible(last, was, now)
    decreases was
  {
    assert Holds(was, Here, was);
    assert ReadsAs(last, now, Here, was);
    ServesIff(last, was, now);
    if was.List? { ShapesAreWhatListsHold(was.items); }
    if was.Obj? {
      forall i | 0 <= i < |was.fields| ensures FieldKept(was.fields[i], now.fields) {
        var seg := Key(was.fields[i].name);
        ReadableBelow(last, was, now, seg, was.fields[i].value);
        ReadableIsCompatible(Some(seg), was.fields[i].value, Step(now, seg).value);
      }
    } else if was.List? && ShapeOf(was.items) == Keyed {
      forall i | 0 <= i < |was.items| ensures EntryKept(was.items[i], now.items) {
        var seg := Id(IdOf(was.items[i]).value);
        ReadableBelow(last, was, now, seg, was.items[i]);
        ReadableIsCompatible(Some(seg), was.items[i], Step(now, seg).value);
      }
    } else if was.List? && ShapeOf(was.items) == Plain {
      ReadableBelow(last, was, now, Index(|was.items| - 1), was.items[|was.items| - 1]);
      forall i | 0 <= i < |was.items| ensures Compatible(Some(Index(i)), was.items[i], now.items[i]) {
        ReadableBelow(last, was, now, Index(i), was.items[i]);
        ReadableIsCompatible(Some(Index(i)), was.items[i], now.items[i]);
      }
    }
  }

  /**
   For all documents: the walk reports no problem if and only if everything an app can read in `was` resolves
   in `now` with the same kind, true values still true, pinned versions equal and positive words present.
   */
  lemma CleanIffReadable(was: Json, now: Json)
    ensures Problems([], was, now) == [] <==> Readable(None, was, now)
  {
    CleanIffCompatible([], was, now);
    if Compatible(None, was, now) {
      forall path, v | Holds(was, path, v) ensures ReadsAs(None, now, path, v) {
        CompatibleReads(None, was, now, path, v);
      }
    }
    if Readable(None, was, now) { ReadableIsCompatible(None, was, now); }
  }

  // ---------------------------------------------------------------------------------------
  // Reflexive and transitive
  // ---------------------------------------------------------------------------------------

  /** Field names are distinct at every level, as they are in every parsed document. */
  predicate DistinctNames(doc: Json)
    decreases doc
  {
    match doc
    case Obj(fields) =>
      && (forall i, j :: 0 <= i < j < |fields| ==> fields[i].name != fields[j].name)
      && forall i :: 0 <= i < |fields| ==> DistinctNames(fields[i].value)
    case List(items) => forall i :: 0 <= i < |items| ==> DistinctNames(items[i])
    case _ => true
  }

  /** Ids are distinct in every list of entries. */
  predicate DistinctIds(doc: Json)
    decreases doc
  {
    match doc
    case Obj(fields) => forall i :: 0 <= i < |fields| ==> DistinctIds(fields[i].value)
    case List(items) =>
      && (ShapeOf(items) == Keyed ==> forall i, j :: 0 <= i < j < |items| ==> IdOf(items[i]) != IdOf(items[j]))
      && forall i :: 0 <= i < |items| ==> DistinctIds(items[i])
    case _ => true
  }

  /** Where an id is repeated, every entry that is not itself the last of its id is compatible with that one. */
  predicate RepeatsAreHarmless(doc: Json)
    decreases doc
  {
    match doc
    case Obj(fields) => forall i :: 0 <= i < |fields| ==> RepeatsAreHarmless(fields[i].value)
    case List(items) =>
      if ShapeOf(items) == Keyed then
        forall i :: 0 <= i < |items| ==>
          (var id := IdOf(items[i]).value;
           var last := LastWithId(items, id).value;
           if last == items[i] then RepeatsAreHarmless(items[i]) else Compatible(Some(Id(id)), items[i], last))
      else ShapeOf(items) == Words || forall i :: 0 <= i < |items| ==> RepeatsAreHarmless(items[i])
    case _ => true
  }

  lemma {:induction false} LookupFinds(fields: seq<Field>, i: nat)
    requires i < |fields| && forall a, b :: 0 <= a < b < |fields| ==> fields[a].name != fields[b].name
    ensures Lookup(fields, fields[i].name) == Some(fields[i].value)
  {
    var v := Lookup(fields, fields[i].name);
    var j :| 0 <= j < |fields| && fields[j] == Field(fields[i].name, v.value);
    assert i == j;
  }

  lemma {:induction false} LastWithIdFinds(items: seq<Json>, i: nat)
    requires i < |items| && IdOf(items[i]).Some?
    requires forall a, b :: 0 <= a < b < |items| ==> IdOf(items[a]) != IdOf(items[b])
    ensures LastWithId(items, IdOf(items[i]).value) == Some(items[i])
  {
    var v := LastWithId(items, IdOf(items[i]).value);
    var j :| 0 <= j < |items| && items[j] == v.value;
    assert i == j;
  }

  lemma {:induction false} CompatibleWithItselfIff(last: Option<Seg>, doc: Json)
    requires DistinctNames(doc)
    ensures Compatible(last, doc, doc) <==> RepeatsAreHarmless(doc)
    decreases doc
  {
    if doc.Obj? {
      forall i | 0 <= i < |doc.fields|
        ensures FieldKept(doc.fields[i], doc.fields) <==> RepeatsAreHarmless(doc.fields[i].value)
      {
        LookupFinds(doc.fields, i);
        CompatibleWithItselfIff(Some(Key(doc.fields[i].name)), doc.fields[i].value);
      }
    } else if doc.List? {
      forall i | 0 <= i < |doc.items| && ShapeOf(doc.items) == Keyed {
        CompatibleWithItselfIff(Some(Id(IdOf(doc.items[i]).value)), doc.items[i]);
      }
      forall i | 0 <= i < |doc.items| && ShapeOf(doc.items) == Plain {
        CompatibleWithItselfIff(Some(Index(i)), doc.items[i]);
      }
    }
  }

  lemma {:induction false} DistinctIdsAreHarmless(doc: Json)
    requires DistinctIds(doc)
    ensures RepeatsAreHarmless(doc)
    decreases doc
  {
    if doc.Obj? {
      forall i | 0 <= i < |doc.fields| ensures RepeatsAreHarmless(doc.fields[i].value) {
        DistinctIdsAreHarmless(doc.fields[i].value);
      }
    } else if doc.List? {
      forall i | 0 <= i < |doc.items| ensures RepeatsAreHarmless(doc.items[i]) { DistinctIdsAreHarmless(doc.items[i]); }
      if ShapeOf(doc.items) == Keyed {
        forall i | 0 <= i < |doc.items| ensures LastWithId(doc.items, IdOf(doc.items[i]).value) == Some(doc.items[i]) {
          LastWithIdFinds(doc.items, i);
        }
      }
    }
  }

  /**
   Lists that correspond keep their shape from `was` to `now`: entries are matched by id in lists of entries and by
   position in mixed lists, as the comparison matches them.  Empty lists and negative lists need not.
   */
  predicate KeepsShapes(last: Option<Seg>, was: Json, now: Json)
    decreases was
  {
    if was.Obj? && now.Obj? then
      forall i :: 0 <= i < |was.fields| ==>
        (var found := Lookup(now.fields, was.fields[i].name);
         found.Some? ==> KeepsShapes(Some(Key(was.fields[i].name)), was.fields[i].value, found.value))
    else if was.List? && now.List? && was.items != [] then
      match ShapeOf(was.items)
      case Keyed =>
        && ShapeOf(now.items) == Keyed
        && forall i :: 0 <= i < |was.items| ==>
             (var found := LastWithId(now.items, IdOf(was.items[i]).value);
              found.Some? ==> KeepsShapes(Some(Id(IdOf(was.items[i]).value)), was.items[i], found.value))
      case Words => Negative(last) || ShapeOf(now.items) == Words
      case Plain =>
        && ShapeOf(now.items) == Plain
        && forall i :: 0 <= i < |was.items| && i < |now.items| ==> KeepsShapes(Some(Index(i)), was.items[i], now.items[i])
    else true
  }

  lemma {:induction false} CompatibleChains(last: Option<Seg>, a: Json, b: Json, c: Json)
    requires Compatible(last, a, b) && Compatible(last, b, c) && KeepsShapes(last, a, b)
    ensures Compatible(last, a, c)
    decreases a
  {
    if a.Obj? {
      forall i | 0 <= i < |a.fields| ensures FieldKept(a.fields[i], c.fields) { FieldChains(a, b, c, i, last); }
    } else if a.List? && a.items != [] {
      match ShapeOf(a.items)
      case Keyed => forall i | 0 <= i < |a.items| ensures EntryKept(a.items[i], c.items) { EntryChains(a, b, c, i, last); }
      case Words => WordsChain(a, b, c, last);
      case Plain =>
        forall i | 0 <= i < |a.items| ensures Compatible(Some(Index(i)), a.items[i], c.items[i]) {
          assert Compatible(Some(Index(i)), a.items[i], b.items[i]) && Compatible(Some(Index(i)), b.items[i], c.items[i]);
          CompatibleChains(Some(Index(i)), a.items[i], b.items[i], c.items[i]);
        }
    }
  }

  lemma {:induction false} FieldChains(a: Json, b: Json, c: Json, i: nat, last: Option<Seg>)
    requires a.Obj? && i < |a.fields| && Compatible(last, a, b) && Compatible(last, b, c) && KeepsShapes(last, a, b)
    ensures FieldKept(a.fields[i], c.fields)
    decreases a, 0
  {
    var field := a.fields[i];
    assert FieldKept(a.fields[i], b.fields);
    var middle := Lookup(b.fields, field.name).value;
    var j :| 0 <= j < |b.fields| && b.fields[j] == Field(field.name, middle);
    assert FieldKept(b.fields[j], c.fields);
    CompatibleChains(Some(Key(field.name)), field.value, middle, Lookup(c.fields, field.name).value);
  }

  lemma {:induction false} EntryChains(a: Json, b: Json, c: Json, i: nat, last: Option<Seg>)
    requires a.List? && i < |a.items| && ShapeOf(a.items) == Keyed
    requires Compatible(last, a, b) && Compatible(last, b, c) && KeepsShapes(last, a, b)
    ensures EntryKept(a.items[i], c.items)
    decreases a, 0
  {
    var id := IdOf(a.items[i]).value;
    assert EntryKept(a.items[i], b.items);
    var middle := LastWithId(b.items, id).value;
    var j :| 0 <= j < |b.items| && b.items[j] == middle;
    assert EntryKept(b.items[j], c.items);
    CompatibleChains(Some(Id(id)), a.items[i], middle, LastWithId(c.items, id).value);
  }

  lemma WordsChain(a: Json, b: Json, c: Json, last: Option<Seg>)
    requires a.List? && b.List? && a.items != [] && ShapeOf(a.items) == Words
    requires Negative(last) || ShapeOf(b.items) == Words
    requires Compatible(last, a, b) && Compatible(last, b, c)
    ensures Compatible(last, a, c)
  {
    if !Negative(last) {
      forall i | 0 <= i < |a.items| ensures a.items[i] in c.items {
        var j :| 0 <= j < |b.items| && b.items[j] == a.items[i];
      }
    }
  }

  /** A document has no problem with itself if and only if its repeated ids are harmless. */
  lemma ComparisonIsReflexiveIff(doc: Json)
    requires DistinctNames(doc)
    ensures Problems([], doc, doc) == [] <==> RepeatsAreHarmless(doc)
  {
    CompatibleWithItselfIff(None, doc);
    CleanIffCompatible([], doc, doc);
  }

  /** So it has none if its ids are distinct. */
  lemma ComparisonIsReflexive(doc: Json)
    requires DistinctNames(doc) && DistinctIds(doc)
    ensures Problems([], doc, doc) == []
  {
    DistinctIdsAreHarmless(doc);
    ComparisonIsReflexiveIff(doc);
  }

  /** Two clean steps make one, when the lists keep their shape over the first. */
  lemma ComparisonIsTransitive(a: Json, b: Json, c: Json)
    requires Problems([], a, b) == [] && Problems([], b, c) == [] && KeepsShapes(None, a, b)
    ensures Problems([], a, c) == []
  {
    CleanIffCompatible([], a, b);
    CleanIffCompatible([], b, c);
    CompatibleChains(None, a, b, c);
    CleanIffCompatible([], a, c);
  }

  /** Without that the steps need not chain: a list of words that becomes mixed is compared by position from then on. */
  lemma MixedListsDoNotChain()
    ensures
      var x, y, one := Str(Word("x")), Str(Word("y")), Num(1.0);
      var a, b, c := List([x]), List([x, one]), List([y, one]);
      Problems([], a, b) == [] && Problems([], b, c) == [] && Problems([], a, c) != []
  {
    var x, y, one := Str(Word("x")), Str(Word("y")), Num(1.0);
    var a, b, c := List([x]), List([x, one]), List([y, one]);
    assert a.items[0] == x && b.items[0] == x && b.items[1] == one;
    assert ShapeOf(a.items) == Words && ShapeOf(b.items) == Plain;
    CleanIffCompatible([], a, b);
    CleanIffCompatible([], b, c);
    CleanIffCompatible([], a, c);
    assert x.word.text[0] != y.word.text[0];
    assert x !in c.items;
  }

  /** Nor is a document with a repeated id compatible with itself: every entry is compared with the last of its id. */
  lemma RepeatedIdsAreNotReflexive()
    ensures
      var id, on := Field(ID, Num(1.0)), Field(Word("on"), Null);
      Problems([], List([Obj([id, on]), Obj([id])]), List([Obj([id, on]), Obj([id])])) != []
  {
    var id, on := Field(ID, Num(1.0)), Field(Word("on"), Null);
    var full, bare := Obj([id, on]), Obj([id]);
    var doc := List([full, bare]);
    assert ID.text[0] != on.name.text[0];
    assert [id, on][..1] == [id] && IdOf(full) == Some(Num(1.0)) == IdOf(bare);
    assert LastWithId(doc.items, Num(1.0)) == Some(bare);
    assert Lookup(bare.fields, on.name) == None;
    assert full.fields[1] == on && !FieldKept(on, bare.fields);
    assert !Compatible(Some(Id(Num(1.0))), full, bare);
    assert doc.items[0] == full && !EntryKept(full, doc.items);
    CleanIffCompatible([], doc, doc);
  }
}

/**
 When a clean step may be followed by any other: exactly when the lists keep their shape over it.  For the other
 half a third document is built that is clean against the second and not against the first.
 */
module AbiChains {
  import opened Common
  import opened AbiCompat
  import opened AbiReading

  /** Every document that is compatible with `b` is compatible with `a`. */
  ghost predicate Chains(last: Option<Seg>, a: Json, b: Json) {
    forall c :: Compatible(last, b, c) ==> Compatible(last, a, c)
  }

  predicate Scalar(v: Json) {
    v.Str? || v.Num?
  }

  /** The ids of list entries are strings or numbers. */
  predicate ScalarIds(doc: Json)
    decreases doc
  {
    match doc
    case Obj(fields) => forall i :: 0 <= i < |fields| ==> ScalarIds(fields[i].value)
    case List(items) =>
      forall i :: 0 <= i < |items| ==> (IdOf(items[i]).Some? ==> Scalar(IdOf(items[i]).value)) && ScalarIds(items[i])
    case _ => true
  }

  /** Names are distinct, and so are ids, which are strings or numbers. */
  predicate Tidy(doc: Json) {
    DistinctNames(doc) && DistinctIds(doc) && ScalarIds(doc)
  }

  lemma TidyIsCompatible(last: Option<Seg>, doc: Json)
    requires Tidy(doc)
    ensures Compatible(last, doc, doc)
  {
    DistinctIdsAreHarmless(doc);
    CompatibleWithItselfIff(last, doc);
  }

  lemma TidyField(doc: Json, j: nat)
    requires Tidy(doc) && doc.Obj? && j < |doc.fields|
    ensures Tidy(doc.fields[j].value)
  {
  }

  lemma TidyItem(doc: Json, j: nat)
    requires Tidy(doc) && doc.List? && j < |doc.items|
    ensures Tidy(doc.items[j])
    ensures IdOf(doc.items[j]).Some? ==> Scalar(IdOf(doc.items[j]).value)
  {
  }

  /** Another value of the same kind. */
  function Other(v: Json): (other: Json)
    requires Scalar(v)
    ensures other != v && KindOf(other) == KindOf(v)
  {
    match v
    case Str(word) =>
      assert |word.text + "'"| != |word.text|;
      Str(Word(word.text + "'"))
    case Num(value) => Num(value + 1.0)
  }

  lemma OtherIsCompatible(last: Option<Seg>, v: Json)
    requires Scalar(v) && !Pinned(last)
    ensures Compatible(last, v, Other(v))
  {
  }

  // ---------------------------------------------------------------------------------------
  // Changing one part of a document
  // ---------------------------------------------------------------------------------------

  /** `c` follows `b` and keeps its id, but does not follow `a`. */
  predicate Breaks(last: Option<Seg>, a: Json, b: Json, c: Json) {
    && Compatible(last, b, c) && !Compatible(last, a, c)
    && (IdOf(b).Some? && Scalar(IdOf(b).value) ==> IdOf(c) == IdOf(b))
  }

  predicate DistinctFields(fields: seq<Field>) {
    forall i, j :: 0 <= i < j < |fields| ==> fields[i].name != fields[j].name
  }

  function WithValue(fields: seq<Field>, j: nat, v: Json): seq<Field>
    requires j < |fields|
  {
    fields[j := Field(fields[j].name, v)]
  }

  lemma LookupWithValue(fields: seq<Field>, j: nat, v: Json, name: Word)
    requires DistinctFields(fields) && j < |fields|
    ensures DistinctFields(WithValue(fields, j, v))
    ensures Lookup(WithValue(fields, j, v), name) == if name == fields[j].name then Some(v) else Lookup(fields, name)
  {
    var changed := WithValue(fields, j, v);
    assert forall i :: 0 <= i < |fields| ==> changed[i].name == fields[i].name;
    assert DistinctFields(changed);
    var found := Lookup(changed, name);
    if found.Some? {
      var m :| 0 <= m < |changed| && changed[m] == Field(name, found.value);
      LookupFinds(changed, m);
      LookupFinds(fields, m);
    } else {
      assert forall i :: 0 <= i < |fields| ==> changed[i].name != name;
    }
  }

  /** A tidy object with one value changed to a compatible one is compatible. */
  lemma ChangedFieldIsCompatible(last: Option<Seg>, b: Json, j: nat, v: Json)
    requires b.Obj? && Tidy(b) && j < |b.fields| && Compatible(Some(Key(b.fields[j].name)), b.fields[j].value, v)
    ensures Compatible(last, b, Obj(WithValue(b.fields, j, v)))
  {
    var changed := WithValue(b.fields, j, v);
    forall m | 0 <= m < |b.fields| ensures FieldKept(b.fields[m], changed) {
      LookupWithValue(b.fields, j, v, b.fields[m].name);
      LookupFinds(b.fields, m);
      if m != j {
        TidyField(b, m);
        TidyIsCompatible(Some(Key(b.fields[m].name)), b.fields[m].value);
      }
    }
  }

  lemma FieldBreaks(last: Option<Seg>, a: Json, b: Json, i: nat, j: nat, v: Json)
    requires a.Obj? && b.Obj? && Tidy(b) && i < |a.fields| && j < |b.fields| && a.fields[i].name == b.fields[j].name
    requires Breaks(Some(Key(b.fields[j].name)), a.fields[i].value, b.fields[j].value, v)
    requires !(b.fields[j].name == ID && Scalar(b.fields[j].value))
    ensures Breaks(last, a, b, Obj(WithValue(b.fields, j, v)))
  {
    var changed := WithValue(b.fields, j, v);
    ChangedFieldIsCompatible(last, b, j, v);
    LookupWithValue(b.fields, j, v, a.fields[i].name);
    assert !FieldKept(a.fields[i], changed);
    LookupWithValue(b.fields, j, v, ID);
    LookupFinds(b.fields, j);
  }

  predicate DistinctEntries(items: seq<Json>) {
    forall i, j :: 0 <= i < j < |items| ==> IdOf(items[i]) != IdOf(items[j])
  }

  /** A tidy list of entries with one entry changed to a compatible one of the same id is compatible. */
  lemma ChangedEntryIsCompatible(last: Option<Seg>, b: Json, j: nat, v: Json)
    requires b.List? && ShapeOf(b.items) == Keyed && Tidy(b) && j < |b.items|
    requires IdOf(v) == IdOf(b.items[j]) && Compatible(Some(Id(IdOf(v).value)), b.items[j], v)
    ensures DistinctEntries(b.items[j := v]) && Compatible(last, b, List(b.items[j := v]))
  {
    var changed := b.items[j := v];
    SameIdsStayDistinct(b.items, changed);
    forall m | 0 <= m < |b.items| ensures EntryKept(b.items[m], changed) {
      ChangedEntryKept(b, j, v, m);
    }
  }

  lemma SameIdsStayDistinct(items: seq<Json>, changed: seq<Json>)
    requires DistinctEntries(items) && |changed| == |items|
    requires forall m :: 0 <= m < |items| ==> IdOf(changed[m]) == IdOf(items[m])
    ensures DistinctEntries(changed)
  {
  }

  lemma ChangedEntryKept(b: Json, j: nat, v: Json, m: nat)
    requires b.List? && ShapeOf(b.items) == Keyed && Tidy(b) && j < |b.items| && m < |b.items|
    requires DistinctEntries(b.items[j := v]) && IdOf(v) == IdOf(b.items[j])
    requires Compatible(Some(Id(IdOf(v).value)), b.items[j], v)
    ensures EntryKept(b.items[m], b.items[j := v])
  {
    var changed := b.items[j := v];
    LastWithIdFinds(changed, m);
    if m != j {
      TidyItem(b, m);
      TidyIsCompatible(Some(Id(IdOf(b.items[m]).value)), b.items[m]);
    }
  }

  lemma EntryBreaks(last: Option<Seg>, a: Json, b: Json, i: nat, j: nat, v: Json)
    requires a.List? && b.List? && ShapeOf(a.items) == Keyed == ShapeOf(b.items) && Tidy(b)
    requires i < |a.items| && j < |b.items| && IdOf(a.items[i]) == IdOf(b.items[j])
    requires Breaks(Some(Id(IdOf(b.items[j]).value)), a.items[i], b.items[j], v)
    ensures Breaks(last, a, b, List(b.items[j := v]))
  {
    TidyItem(b, j);
    ChangedEntryIsCompatible(last, b, j, v);
    var changed := b.items[j := v];
    assert changed[j] == v;
    LastWithIdFinds(changed, j);
    assert !EntryKept(a.items[i], changed);
  }

  lemma ItemBreaks(last: Option<Seg>, a: Json, b: Json, i: nat, v: Json)
    requires a.List? && b.List? && ShapeOf(a.items) == Plain == ShapeOf(b.items) && Tidy(b)
    requires i < |a.items| && i < |b.items| && Breaks(Some(Index(i)), a.items[i], b.items[i], v)
    ensures Breaks(last, a, b, List(b.items[i := v]))
  {
    var changed := b.items[i := v];
    forall m | 0 <= m < |b.items| ensures Compatible(Some(Index(m)), b.items[m], changed[m]) {
      if m != i {
        TidyItem(b, m);
        TidyIsCompatible(Some(Index(m)), b.items[m]);
      }
    }
    if |a.items| <= |changed| { assert !Compatible(Some(Index(i)), a.items[i], changed[i]); }
  }

  // ---------------------------------------------------------------------------------------
  // Lists that change their shape
  // ---------------------------------------------------------------------------------------

  /** Words in a mixed list are compared by position, so the word can go. */
  lemma WordsToPlainBreaks(last: Option<Seg>, a: Json, b: Json) returns (c: Json)
    requires a.List? && b.List? && Tidy(b) && a.items != [] && !Negative(last)
    requires ShapeOf(a.items) == Words && ShapeOf(b.items) == Plain
    ensures Breaks(last, a, b, c)
  {
    var word := a.items[0];
    var changed := seq(|b.items|, i requires 0 <= i < |b.items| => if b.items[i] == word then Other(word) else b.items[i]);
    forall m | 0 <= m < |b.items| ensures Compatible(Some(Index(m)), b.items[m], changed[m]) {
      if b.items[m] == word {
        OtherIsCompatible(Some(Index(m)), word);
      } else {
        TidyItem(b, m);
        TidyIsCompatible(Some(Index(m)), b.items[m]);
      }
    }
    assert word !in changed;
    c := List(changed);
  }

  /** Mixed lists are compared by position, so an entry can get another id. */
  lemma RenamedEntry(last: Option<Seg>, item: Json) returns (renamed: Json)
    requires Tidy(item) && IdOf(item).Some? && Scalar(IdOf(item).value)
    ensures Compatible(last, item, renamed) && IdOf(renamed) == Some(Other(IdOf(item).value))
  {
    var id := IdOf(item).value;
    var j :| 0 <= j < |item.fields| && item.fields[j] == Field(ID, id);
    assert ID.text[0] == 'i' && ID !in PINNED;
    OtherIsCompatible(Some(Key(ID)), id);
    ChangedFieldIsCompatible(last, item, j, Other(id));
    LookupWithValue(item.fields, j, Other(id), ID);
    renamed := Obj(WithValue(item.fields, j, Other(id)));
  }

  /** The first `n` items without an entry of this id. */
  lemma {:induction false} RenameAll(b: Json, id: Json, n: nat) returns (changed: seq<Json>)
    requires b.List? && Tidy(b) && n <= |b.items|
    ensures |changed| == n
    ensures forall m :: 0 <= m < n ==> IdOf(changed[m]) != Some(id) && Compatible(Some(Index(m)), b.items[m], changed[m])
  {
    if n == 0 {
      changed := [];
    } else {
      var rest := RenameAll(b, id, n - 1);
      var item := b.items[n - 1];
      TidyItem(b, n - 1);
      var next := item;
      if IdOf(item) == Some(id) {
        next := RenamedEntry(Some(Index(n - 1)), item);
      } else {
        TidyIsCompatible(Some(Index(n - 1)), item);
      }
      changed := rest + [next];
    }
  }

  lemma KeyedToPlainBreaks(last: Option<Seg>, a: Json, b: Json) returns (c: Json)
    requires a.List? && b.List? && Tidy(b) && ShapeOf(a.items) == Keyed && ShapeOf(b.items) == Plain
    ensures Breaks(last, a, b, c)
  {
    var id := IdOf(a.items[0]).value;
    var changed := RenameAll(b, id, |b.items|);
    assert LastWithId(changed, id).None?;
    assert !EntryKept(a.items[0], changed);
    c := List(changed);
  }

  /** Entries are matched by id, so something else can come before them. */
  lemma StrangerInFront(last: Option<Seg>, b: Json, stranger: Json)
    requires b.List? && ShapeOf(b.items) == Keyed && Tidy(b) && IdOf(stranger).None?
    ensures Compatible(last, b, List([stranger] + b.items))
  {
    var changed := [stranger] + b.items;
    assert DistinctEntries(changed) by {
      forall i, j | 0 <= i < j < |changed| ensures IdOf(changed[i]) != IdOf(changed[j]) {
        assert changed[j] == b.items[j - 1];
        if i > 0 { assert changed[i] == b.items[i - 1]; }
      }
    }
    forall m | 0 <= m < |b.items| ensures EntryKept(b.items[m], changed) {
      assert changed[m + 1] == b.items[m];
      LastWithIdFinds(changed, m + 1);
      TidyItem(b, m);
      TidyIsCompatible(Some(Id(IdOf(b.items[m]).value)), b.items[m]);
    }
  }

  lemma PlainToKeyedBreaks(last: Option<Seg>, a: Json, b: Json) returns (c: Json)
    requires a.List? && b.List? && Tidy(b) && ShapeOf(a.items) == Plain && ShapeOf(b.items) == Keyed
    ensures Breaks(last, a, b, c)
  {
    var stranger := if a.items[0].Null? then Bool(false) else Null;
    StrangerInFront(last, b, stranger);
    var changed := [stranger] + b.items;
    c := List(changed);
    assert changed[0] == stranger && !Compatible(Some(Index(0)), a.items[0], stranger);
  }

  // ---------------------------------------------------------------------------------------
  // The induction
  // ---------------------------------------------------------------------------------------

  /** Wherever in the documents a list changes its shape, some document follows `b` and not `a`. */
  lemma {:induction false} ChangedShapeBreaks(last: Option<Seg>, a: Json, b: Json) returns (c: Json)
    requires Compatible(last, a, b) && Tidy(b) && !KeepsShapes(last, a, b)
    ensures Breaks(last, a, b, c)
    decreases a, 1
  {
    if a.Obj? {
      c := FieldShapeBreaks(last, a, b);
    } else {
      match ShapeOf(a.items)
      case Keyed => c := KeyedShapeBreaks(last, a, b);
      case Words =>
        WordsBecomePlain(last, a, b);
        c := WordsToPlainBreaks(last, a, b);
      case Plain => c := PlainShapeBreaks(last, a, b);
    }
  }

  lemma {:induction false} FieldShapeBreaks(last: Option<Seg>, a: Json, b: Json) returns (c: Json)
    requires a.Obj? && Compatible(last, a, b) && Tidy(b) && !KeepsShapes(last, a, b)
    ensures Breaks(last, a, b, c)
    decreases a, 0
  {
    var i :| 0 <= i < |a.fields| && Lookup(b.fields, a.fields[i].name).Some?
             && !KeepsShapes(Some(Key(a.fields[i].name)), a.fields[i].value, Lookup(b.fields, a.fields[i].name).value);
    var name := a.fields[i].name;
    var part := Lookup(b.fields, name).value;
    assert FieldKept(a.fields[i], b.fields);
    var j :| 0 <= j < |b.fields| && b.fields[j] == Field(name, part);
    TidyField(b, j);
    var v := ChangedShapeBreaks(Some(Key(name)), a.fields[i].value, part);
    FieldBreaks(last, a, b, i, j, v);
    c := Obj(WithValue(b.fields, j, v));
  }

  lemma {:induction false} KeyedShapeBreaks(last: Option<Seg>, a: Json, b: Json) returns (c: Json)
    requires a.List? && ShapeOf(a.items) == Keyed && Compatible(last, a, b) && Tidy(b) && !KeepsShapes(last, a, b)
    ensures Breaks(last, a, b, c)
    decreases a, 0
  {
    assert EntryKept(a.items[0], b.items);
    if ShapeOf(b.items) != Keyed {
      c := KeyedToPlainBreaks(last, a, b);
    } else {
      var i :| 0 <= i < |a.items| && LastWithId(b.items, IdOf(a.items[i]).value).Some?
               && !KeepsShapes(Some(Id(IdOf(a.items[i]).value)), a.items[i], LastWithId(b.items, IdOf(a.items[i]).value).value);
      var id := IdOf(a.items[i]).value;
      var part := LastWithId(b.items, id).value;
      assert EntryKept(a.items[i], b.items);
      var j :| 0 <= j < |b.items| && b.items[j] == part;
      TidyItem(b, j);
      var v := ChangedShapeBreaks(Some(Id(id)), a.items[i], part);
      EntryBreaks(last, a, b, i, j, v);
      c := List(b.items[j := v]);
    }
  }

  /** A list that holds a positive word and is not all words is mixed. */
  lemma WordsBecomePlain(last: Option<Seg>, a: Json, b: Json)
    requires a.List? && a.items != [] && ShapeOf(a.items) == Words && Compatible(last, a, b) && !KeepsShapes(last, a, b)
    ensures !Negative(last) && b.List? && ShapeOf(b.items) == Plain
  {
    assert a.items[0] in b.items;
    var j :| 0 <= j < |b.items| && b.items[j] == a.items[0];
    assert IdOf(b.items[j]).None?;
  }

  lemma {:induction false} PlainShapeBreaks(last: Option<Seg>, a: Json, b: Json) returns (c: Json)
    requires a.List? && ShapeOf(a.items) == Plain && Compatible(last, a, b) && Tidy(b) && !KeepsShapes(last, a, b)
    ensures Breaks(last, a, b, c)
    decreases a, 0
  {
    if ShapeOf(b.items) != Plain {
      PlainBecomesKeyed(last, a, b);
      c := PlainToKeyedBreaks(last, a, b);
    } else {
      var i :| 0 <= i < |a.items| && i < |b.items| && !KeepsShapes(Some(Index(i)), a.items[i], b.items[i]);
      TidyItem(b, i);
      assert Compatible(Some(Index(i)), a.items[i], b.items[i]);
      var v := ChangedShapeBreaks(Some(Index(i)), a.items[i], b.items[i]);
      ItemBreaks(last, a, b, i, v);
      c := List(b.items[i := v]);
    }
  }

  /** A mixed list holds something that is not a word, and so does what follows it. */
  lemma PlainBecomesKeyed(last: Option<Seg>, a: Json, b: Json)
    requires a.List? && ShapeOf(a.items) == Plain && Compatible(last, a, b) && ShapeOf(b.items) != Plain
    ensures ShapeOf(b.items) == Keyed
  {
    var i :| 0 <= i < |a.items| && !a.items[i].Str?;
    assert Compatible(Some(Index(i)), a.items[i], b.items[i]);
  }

  // ---------------------------------------------------------------------------------------
  // Exactly when clean steps chain
  // ---------------------------------------------------------------------------------------

  /** For a clean step to a tidy document: every further step chains if and only if the lists keep their shape. */
  lemma ChainsIff(last: Option<Seg>, a: Json, b: Json)
    requires Compatible(last, a, b) && Tidy(b)
    ensures Chains(last, a, b) <==> KeepsShapes(last, a, b)
  {
    if KeepsShapes(last, a, b) {
      forall c | Compatible(last, b, c) ensures Compatible(last, a, c) { CompatibleChains(last, a, b, c); }
    } else {
      var c := ChangedShapeBreaks(last, a, b);
    }
  }

  /** Every document that the walk finds clean against `b` it finds clean against `a`. */
  ghost predicate WalkChains(a: Json, b: Json) {
    forall c :: Problems([], b, c) == [] ==> Problems([], a, c) == []
  }

  lemma WalkChainsIffChains(a: Json, b: Json)
    ensures WalkChains(a, b) <==> Chains(None, a, b)
  {
    if WalkChains(a, b) {
      forall c | Compatible(None, b, c) ensures Compatible(None, a, c) {
        CleanIffCompatible([], b, c);
        CleanIffCompatible([], a, c);
      }
    }
    if Chains(None, a, b) {
      forall c | Problems([], b, c) == [] ensures Problems([], a, c) == [] {
        CleanIffCompatible([], b, c);
        CleanIffCompatible([], a, c);
      }
    }
  }

  /** The same in terms of what the walk reports. */
  lemma ComparisonChainsIff(a: Json, b: Json)
    requires Problems([], a, b) == [] && Tidy(b)
    ensures WalkChains(a, b) <==> KeepsShapes(None, a, b)
  {
    CleanIffCompatible([], a, b);
    ChainsIff(None, a, b);
    WalkChainsIffChains(a, b);
  }
}

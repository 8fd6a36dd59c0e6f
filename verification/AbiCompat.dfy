/**
 The compatibility check on capability documents: may an app written against `was` read `now`?  `Problems` lists
 what the walk reports.
 */
module AbiCompat {
  import opened Common

  datatype Word = Word(text: string)

  datatype Json =
    | Null
    | Bool(on: bool)
    | Num(value: real)
    | Str(word: Word)
    | List(items: seq<Json>)
    | Obj(fields: seq<Field>)

  datatype Field = Field(name: Word, value: Json)

  datatype Kind = KNull | KBool | KNumber | KString | KList | KObject

  function KindOf(v: Json): Kind {
    match v
    case Null => KNull
    case Bool(_) => KBool
    case Num(_) => KNumber
    case Str(_) => KString
    case List(_) => KList
    case Obj(_) => KObject
  }

  const ID := Word("id")
  const UNSUPPORTED := Word("unsupported")
  const PINNED := {Word("capabilities_schema_version"), Word("abi_version"), Word("config_schema_version")}

  /** One step from a value to a part of it. */
  datatype Seg = Key(name: Word) | Id(id: Json) | Index(at: nat)

  datatype Problem =
    | Retyped(path: seq<Seg>, oldKind: Kind, newKind: Kind)
    | Removed(path: seq<Seg>)
    | WordGone(path: seq<Seg>, word: Word)
    | Shrank(path: seq<Seg>, oldLength: nat, newLength: nat)
    | PinChanged(path: seq<Seg>, oldPin: Json, newPin: Json)
    | TurnedOff(path: seq<Seg>)

  // ---------------------------------------------------------------------------------------
  // Looking things up
  // ---------------------------------------------------------------------------------------

  function Lookup(fields: seq<Field>, name: Word): (v: Option<Json>)
    ensures v.Some? ==> Field(name, v.value) in fields
    ensures v.None? ==> forall i :: 0 <= i < |fields| ==> fields[i].name != name
  {
    if fields == [] then None
    else if fields[|fields| - 1].name == name then Some(fields[|fields| - 1].value)
    else Lookup(fields[..|fields| - 1], name)
  }

  /** The `id` of an object that has one. */
  function IdOf(v: Json): Option<Json> {
    if v.Obj? then Lookup(v.fields, ID) else None
  }

  /** The last entry with this `id`: what an index built from the whole list holds. */
  function LastWithId(items: seq<Json>, id: Json): (v: Option<Json>)
    ensures v.Some? ==> v.value in items && IdOf(v.value) == Some(id)
    ensures v.None? ==> forall i :: 0 <= i < |items| ==> IdOf(items[i]) != Some(id)
  {
    if items == [] then None
    else if IdOf(items[|items| - 1]) == Some(id) then Some(items[|items| - 1])
    else LastWithId(items[..|items| - 1], id)
  }

  datatype Shape = Keyed | Words | Plain

  predicate AllKeyed(items: seq<Json>) {
    forall i :: 0 <= i < |items| ==> IdOf(items[i]).Some?
  }

  predicate AllWords(items: seq<Json>) {
    forall i :: 0 <= i < |items| ==> items[i].Str?
  }

  function ShapeOf(items: seq<Json>): Shape {
    if items != [] && AllKeyed(items) then Keyed else if AllWords(items) then Words else Plain
  }

  /** The last step of a path decides about pinned versions and negative lists. */
  function Last(path: seq<Seg>): Option<Seg> {
    if path == [] then None else Some(path[|path| - 1])
  }

  predicate Pinned(last: Option<Seg>) {
    last.Some? && last.value.Key? && last.value.name in PINNED
  }

  predicate Negative(last: Option<Seg>) {
    last == Some(Key(UNSUPPORTED))
  }

  // ---------------------------------------------------------------------------------------
  // What the walk reports
  // ---------------------------------------------------------------------------------------

  function Problems(path: seq<Seg>, was: Json, now: Json): seq<Problem>
    decreases was, 1, 0
  {
    if KindOf(was) != KindOf(now) then [Retyped(path, KindOf(was), KindOf(now))]
    else if was.Obj? then FieldProblems(path, was, now.fields, 0)
    else if was.List? then
      match ShapeOf(was.items)
      case Keyed => EntryProblems(path, was, now.items, 0)
      case Words => if Negative(Last(path)) then [] else WordProblems(path, was.items, now.items, 0)
      case Plain =>
        if |now.items| < |was.items| then [Shrank(path, |was.items|, |now.items|)]
        else ItemProblems(path, was, now.items, 0)
    else if Pinned(Last(path)) && was != now then [PinChanged(path, was, now)]
    else if was == Bool(true) && now != Bool(true) then [TurnedOff(path)]
    else []
  }

  function FieldProblem(path: seq<Seg>, field: Field, now: seq<Field>): seq<Problem>
    decreases field, 2, 0
  {
    var found := Lookup(now, field.name);
    if found.None? then [Removed(path + [Key(field.name)])]
    else Problems(path + [Key(field.name)], field.value, found.value)
  }

  function FieldProblems(path: seq<Seg>, was: Json, now: seq<Field>, k: nat): seq<Problem>
    requires was.Obj? && k <= |was.fields|
    decreases was, 0, |was.fields| - k
  {
    if k == |was.fields| then []
    else FieldProblem(path, was.fields[k], now) + FieldProblems(path, was, now, k + 1)
  }

  function EntryProblem(path: seq<Seg>, item: Json, now: seq<Json>): seq<Problem>
    requires IdOf(item).Some?
    decreases item, 2, 0
  {
    var id := IdOf(item).value;
    var found := LastWithId(now, id);
    if found.None? then [Removed(path + [Id(id)])]
    else Problems(path + [Id(id)], item, found.value)
  }

  function EntryProblems(path: seq<Seg>, was: Json, now: seq<Json>, k: nat): seq<Problem>
    requires was.List? && AllKeyed(was.items) && k <= |was.items|
    decreases was, 0, |was.items| - k
  {
    if k == |was.items| then []
    else EntryProblem(path, was.items[k], now) + EntryProblems(path, was, now, k + 1)
  }

  function WordProblem(path: seq<Seg>, item: Json, now: seq<Json>): seq<Problem>
    requires item.Str?
  {
    if item in now then [] else [WordGone(path, item.word)]
  }

  function WordProblems(path: seq<Seg>, was: seq<Json>, now: seq<Json>, k: nat): seq<Problem>
    requires AllWords(was) && k <= |was|
    decreases |was| - k
  {
    if k == |was| then []
    else WordProblem(path, was[k], now) + WordProblems(path, was, now, k + 1)
  }

  function ItemProblems(path: seq<Seg>, was: Json, now: seq<Json>, k: nat): seq<Problem>
    requires was.List? && k <= |was.items| <= |now|
    decreases was, 0, |was.items| - k
  {
    if k == |was.items| then []
    else Problems(path + [Index(k)], was.items[k], now[k]) + ItemProblems(path, was, now, k + 1)
  }

  // ---------------------------------------------------------------------------------------
  // The walk
  // ---------------------------------------------------------------------------------------

  class Comparison {
    var problems: seq<Problem>

    constructor ()
      ensures problems == []
    {
      problems := [];
    }

    method Walk(path: seq<Seg>, was: Json, now: Json)
      modifies this
      ensures problems == old(problems) + Problems(path, was, now)
      decreases was, 1
    {
      if KindOf(was) != KindOf(now) {
        problems := problems + [Retyped(path, KindOf(was), KindOf(now))];
        return;
      }
      if was.Obj? {
        WalkFields(path, was, now.fields);
      } else if was.List? {
        if was.items != [] && AllKeyed(was.items) {
          WalkEntries(path, was, now.items);
        } else if AllWords(was.items) {
          if !Negative(Last(path)) { WalkWords(path, was.items, now.items); }
        } else if |now.items| < |was.items| {
          problems := problems + [Shrank(path, |was.items|, |now.items|)];
        } else {
          WalkItems(path, was, now.items);
        }
      } else if Pinned(Last(path)) && was != now {
        problems := problems + [PinChanged(path, was, now)];
      } else if was == Bool(true) && now != Bool(true) {
        problems := problems + [TurnedOff(path)];
      }
    }

    method WalkFields(path: seq<Seg>, was: Json, now: seq<Field>)
      requires was.Obj?
      modifies this
      ensures problems == old(problems) + FieldProblems(path, was, now, 0)
      decreases was, 0
    {
      for k := 0 to |was.fields|
        invariant problems + FieldProblems(path, was, now, k) == old(problems) + FieldProblems(path, was, now, 0)
      {
        var field := was.fields[k];
        var step := path + [Key(field.name)];
        var found := Lookup(now, field.name);
        Regroup(problems, FieldProblem(path, field, now), FieldProblems(path, was, now, k + 1));
        if found.None? {
          problems := problems + [Removed(step)];
        } else {
          Walk(step, field.value, found.value);
        }
      }
    }

    method WalkEntries(path: seq<Seg>, was: Json, now: seq<Json>)
      requires was.List? && AllKeyed(was.items)
      modifies this
      ensures problems == old(problems) + EntryProblems(path, was, now, 0)
      decreases was, 0
    {
      for k := 0 to |was.items|
        invariant problems + EntryProblems(path, was, now, k) == old(problems) + EntryProblems(path, was, now, 0)
      {
        var id := IdOf(was.items[k]).value;
        var found := LastWithId(now, id);
        Regroup(problems, EntryProblem(path, was.items[k], now), EntryProblems(path, was, now, k + 1));
        if found.None? {
          problems := problems + [Removed(path + [Id(id)])];
        } else {
          Walk(path + [Id(id)], was.items[k], found.value);
        }
      }
    }

    method WalkWords(path: seq<Seg>, was: seq<Json>, now: seq<Json>)
      requires AllWords(was)
      modifies this
      ensures problems == old(problems) + WordProblems(path, was, now, 0)
    {
      for k := 0 to |was|
        invariant problems + WordProblems(path, was, now, k) == old(problems) + WordProblems(path, was, now, 0)
      {
        Regroup(problems, WordProblem(path, was[k], now), WordProblems(path, was, now, k + 1));
        if was[k] !in now {
          problems := problems + [WordGone(path, was[k].word)];
        }
      }
    }

    method WalkItems(path: seq<Seg>, was: Json, now: seq<Json>)
      requires was.List? && |was.items| <= |now|
      modifies this
      ensures problems == old(problems) + ItemProblems(path, was, now, 0)
      decreases was, 0
    {
      for k := 0 to |was.items|
        invariant problems + ItemProblems(path, was, now, k) == old(problems) + ItemProblems(path, was, now, 0)
      {
        Regroup(problems, Problems(path + [Index(k)], was.items[k], now[k]), ItemProblems(path, was, now, k + 1));
        Walk(path + [Index(k)], was.items[k], now[k]);
      }
    }
  }
}

/** The order in which resolved addresses are tried: duplicates removed, families interleaved. */
module CandidateOrder {
  import opened Common

  datatype Address = Address(v6: bool, host: nat, port: nat)

  /** The first occurrence of each address, in order. */
  function FirstOccurrences(s: seq<Address>): seq<Address> {
    if s == [] then []
    else
      var before := FirstOccurrences(s[..|s| - 1]);
      if s[|s| - 1] in s[..|s| - 1] then before else before + [s[|s| - 1]]
  }

  /** The addresses of one family, in order. */
  function Family(s: seq<Address>, v6: bool): seq<Address> {
    if s == [] then []
    else Family(s[..|s| - 1], v6) + if s[|s| - 1].v6 == v6 then [s[|s| - 1]] else []
  }

  /** One from each while both last, then the rest of the longer one. */
  function Weave(a: seq<Address>, b: seq<Address>): seq<Address> {
    if a == [] then b
    else if b == [] then a
    else [a[0], b[0]] + Weave(a[1..], b[1..])
  }

  function Shorter(a: seq<Address>, b: seq<Address>): nat {
    if |a| < |b| then |a| else |b|
  }

  predicate NoDuplicates(s: seq<Address>) {
    forall i, j :: 0 <= i < j < |s| ==> s[i] != s[j]
  }

  /** Families alternate while both last; what follows is of one family. */
  ghost predicate AlternatesUntilExhausted(s: seq<Address>) {
    var both := 2 * Shorter(Family(s, true), Family(s, false));
    && both <= |s|
    && (forall k :: 0 <= k < both ==> (s[k].v6 == s[0].v6 <==> k % 2 == 0))
    && (forall k :: both <= k < |s| ==> s[k].v6 == s[|s| - 1].v6)
  }

  // ---------------------------------------------------------------------------------------
  // Lemmas about the pieces
  // ---------------------------------------------------------------------------------------

  lemma {:induction false} FamilyConcat(a: seq<Address>, b: seq<Address>, v6: bool)
    ensures Family(a + b, v6) == Family(a, v6) + Family(b, v6)
    decreases |b|
  {
    if b == [] {
      assert a + b == a;
    } else {
      var b0 := b[..|b| - 1];
      assert (a + b)[..|a + b| - 1] == a + b0;
      FamilyConcat(a, b0, v6);
    }
  }

  lemma {:induction false} FamilyOfUniform(s: seq<Address>, v6: bool)
    requires forall k :: 0 <= k < |s| ==> s[k].v6 == v6
    ensures Family(s, v6) == s && Family(s, !v6) == []
  {
    if s != [] {
      FamilyOfUniform(s[..|s| - 1], v6);
      assert s == s[..|s| - 1] + [s[|s| - 1]];
    }
  }

  lemma {:induction false} FamilyIsUniform(s: seq<Address>, v6: bool)
    ensures forall k :: 0 <= k < |Family(s, v6)| ==> Family(s, v6)[k].v6 == v6
  {
    if s != [] {
      FamilyIsUniform(s[..|s| - 1], v6);
    }
  }

  lemma {:induction false} FamilyMembers(s: seq<Address>, v6: bool, x: Address)
    ensures x in Family(s, v6) <==> x in s && x.v6 == v6
  {
    if s != [] {
      FamilyMembers(s[..|s| - 1], v6, x);
      assert s == s[..|s| - 1] + [s[|s| - 1]];
    }
  }

  lemma {:induction false} FirstOccurrencesMembers(s: seq<Address>)
    ensures forall x :: x in FirstOccurrences(s) <==> x in s
    ensures NoDuplicates(FirstOccurrences(s))
  {
    if s != [] {
      FirstOccurrencesMembers(s[..|s| - 1]);
      assert s == s[..|s| - 1] + [s[|s| - 1]];
    }
  }

  /** Weaving two families gives back both of them, untouched. */
  lemma {:induction false} WeaveKeepsFamilies(a: seq<Address>, b: seq<Address>, v6: bool)
    requires forall k :: 0 <= k < |a| ==> a[k].v6 == v6
    requires forall k :: 0 <= k < |b| ==> b[k].v6 != v6
    ensures Family(Weave(a, b), v6) == a && Family(Weave(a, b), !v6) == b
    decreases |a|
  {
    if a == [] {
      FamilyOfUniform(b, !v6);
    } else if b == [] {
      FamilyOfUniform(a, v6);
    } else {
      WeaveKeepsFamilies(a[1..], b[1..], v6);
      var head := [a[0], b[0]];
      assert head[..1] == [a[0]];
      FamilyOfUniform([a[0]], v6);
      FamilyOfUniform([b[0]], !v6);
      FamilyConcat([a[0]], [b[0]], v6);
      FamilyConcat([a[0]], [b[0]], !v6);
      assert head == [a[0]] + [b[0]];
      FamilyConcat(head, Weave(a[1..], b[1..]), v6);
      FamilyConcat(head, Weave(a[1..], b[1..]), !v6);
    }
  }

  /** The family at each position of a woven sequence. */
  lemma {:induction false} WeaveAlternates(a: seq<Address>, b: seq<Address>, v6: bool, k: nat)
    requires forall i :: 0 <= i < |a| ==> a[i].v6 == v6
    requires forall i :: 0 <= i < |b| ==> b[i].v6 != v6
    requires k < |Weave(a, b)|
    ensures |Weave(a, b)| == |a| + |b|
    ensures k < 2 * Shorter(a, b) ==> (Weave(a, b)[k].v6 == v6 <==> k % 2 == 0)
    ensures k >= 2 * Shorter(a, b) ==> (Weave(a, b)[k].v6 == v6 <==> |a| > |b|)
    decreases |a|
  {
    if a != [] && b != [] {
      if k >= 2 {
        WeaveAlternates(a[1..], b[1..], v6, k - 2);
      } else {
        WeaveLength(a[1..], b[1..]);
      }
    }
  }

  lemma {:induction false} WeaveLength(a: seq<Address>, b: seq<Address>)
    ensures |Weave(a, b)| == |a| + |b|
    decreases |a|
  {
    if a != [] && b != [] {
      WeaveLength(a[1..], b[1..]);
    }
  }

  /** Two sequences with the same families have no duplicates together, and the same members. */
  lemma {:induction false} FamiliesDetermineCounts(s: seq<Address>, x: Address)
    ensures multiset(s)[x] == multiset(Family(s, x.v6))[x]
  {
    if s != [] {
      FamiliesDetermineCounts(s[..|s| - 1], x);
      assert s == s[..|s| - 1] + [s[|s| - 1]];
    }
  }

  // ---------------------------------------------------------------------------------------
  // interleaved_candidates
  // ---------------------------------------------------------------------------------------

  /** Removes duplicates and splits the rest by family, the family of the first address first. */
  method SplitFamilies(addresses: seq<Address>) returns (firstIsV6: bool, first: seq<Address>, second: seq<Address>)
    ensures first == Family(FirstOccurrences(addresses), firstIsV6)
    ensures second == Family(FirstOccurrences(addresses), !firstIsV6)
    ensures addresses != [] ==> first != [] && first[0] == addresses[0]
  {
    firstIsV6 := addresses != [] && addresses[0].v6;
    var seen: set<Address> := {};
    first, second := [], [];
    for i := 0 to |addresses|
      invariant forall x :: x in seen <==> x in addresses[..i]
      invariant first == Family(FirstOccurrences(addresses[..i]), firstIsV6)
      invariant second == Family(FirstOccurrences(addresses[..i]), !firstIsV6)
      invariant i > 0 ==> first != [] && first[0] == addresses[0]
    {
      ghost var known := FirstOccurrences(addresses[..i]);
      var address := addresses[i];
      assert addresses[..i + 1][..i] == addresses[..i];
      if address !in seen {
        assert (known + [address])[..|known|] == known;
        seen := seen + {address};
        if address.v6 == firstIsV6 {
          first := first + [address];
        } else {
          second := second + [address];
        }
      }
    }
    assert addresses[..|addresses|] == addresses;
  }

  method InterleavedCandidates(addresses: seq<Address>) returns (ordered: seq<Address>)
    // every distinct address, exactly once
    ensures multiset(ordered) == multiset(FirstOccurrences(addresses))
    // first-occurrence order inside each family
    ensures forall v6 :: Family(ordered, v6) == Family(FirstOccurrences(addresses), v6)
    // the resolver's first choice stays first
    ensures addresses != [] ==> ordered != [] && ordered[0] == addresses[0]
    ensures AlternatesUntilExhausted(ordered)
  {
    var firstIsV6, first, second := SplitFamilies(addresses);
    ordered := WeaveQueues(first, second);
    WovenCounts(FirstOccurrences(addresses), first, second, firstIsV6);
    WovenAlternates(FirstOccurrences(addresses), first, second, firstIsV6);
  }

  /** The loop that pops one address from each queue in turn. */
  method WeaveQueues(a: seq<Address>, b: seq<Address>) returns (ordered: seq<Address>)
    ensures ordered == Weave(a, b)
  {
    var first, second := a, b;
    ordered := [];
    while first != [] || second != []
      invariant ordered + Weave(first, second) == Weave(a, b)
      decreases |first| + |second|
    {
      WeavePops(first, second);
      ghost var before := ordered;
      RegroupFour(before, Front(first), Front(second), Weave(Tail(first), Tail(second)));
      if first != [] {
        ordered := ordered + [first[0]];
        first := first[1..];
      }
      if second != [] {
        ordered := ordered + [second[0]];
        second := second[1..];
      }
    }
  }

  function Front(s: seq<Address>): seq<Address> {
    if s == [] then [] else [s[0]]
  }

  function Tail(s: seq<Address>): seq<Address> {
    if s == [] then [] else s[1..]
  }

  lemma WeavePops(a: seq<Address>, b: seq<Address>)
    ensures Weave(a, b) == Front(a) + Front(b) + Weave(Tail(a), Tail(b))
  {
    if a != [] && b == [] { assert a == [a[0]] + a[1..]; }
    if a == [] && b != [] { assert b == [b[0]] + b[1..]; }
  }

  lemma WovenCounts(known: seq<Address>, a: seq<Address>, b: seq<Address>, v6: bool)
    requires a == Family(known, v6) && b == Family(known, !v6)
    ensures multiset(Weave(a, b)) == multiset(known)
    ensures forall f :: Family(Weave(a, b), f) == Family(known, f)
  {
    var w := Weave(a, b);
    FamilyIsUniform(known, v6);
    FamilyIsUniform(known, !v6);
    WeaveKeepsFamilies(a, b, v6);
    forall f ensures Family(w, f) == Family(known, f) {
      assert f == v6 || f == !v6;
    }
    forall x ensures multiset(w)[x] == multiset(known)[x] {
      FamiliesDetermineCounts(w, x);
      FamiliesDetermineCounts(known, x);
    }
  }

  lemma WovenAlternates(known: seq<Address>, a: seq<Address>, b: seq<Address>, v6: bool)
    requires a == Family(known, v6) && b == Family(known, !v6)
    ensures AlternatesUntilExhausted(Weave(a, b))
  {
    FamilyIsUniform(known, v6);
    FamilyIsUniform(known, !v6);
    WeaveKeepsFamilies(a, b, v6);
    WeaveLength(a, b);
    var w, both := Weave(a, b), 2 * Shorter(a, b);
    assert both == 2 * Shorter(Family(w, true), Family(w, false)) by {
      assert v6 || !v6;
    }
    forall k | 0 <= k < both ensures w[k].v6 == w[0].v6 <==> k % 2 == 0 {
      AlternatesFromTheFirst(a, b, v6, k);
    }
    forall k | both <= k < |w| ensures w[k].v6 == w[|w| - 1].v6 {
      WeaveAlternates(a, b, v6, k);
      WeaveAlternates(a, b, v6, |w| - 1);
    }
  }

  lemma AlternatesFromTheFirst(a: seq<Address>, b: seq<Address>, v6: bool, k: nat)
    requires forall i :: 0 <= i < |a| ==> a[i].v6 == v6
    requires forall i :: 0 <= i < |b| ==> b[i].v6 != v6
    requires k < 2 * Shorter(a, b) && |Weave(a, b)| == |a| + |b|
    ensures Weave(a, b)[k].v6 == Weave(a, b)[0].v6 <==> k % 2 == 0
  {
    WeaveAlternates(a, b, v6, k);
    WeaveAlternates(a, b, v6, 0);
  }

  /** What the multiset equality means: the members of the input, each exactly once. */
  lemma CandidatesAreDistinct(addresses: seq<Address>, ordered: seq<Address>, x: Address)
    requires multiset(ordered) == multiset(FirstOccurrences(addresses))
    ensures multiset(ordered)[x] == if x in addresses then 1 else 0
  {
    FirstOccurrencesMembers(addresses);
    DistinctCounts(FirstOccurrences(addresses), x);
  }

  lemma {:induction false} DistinctCounts(s: seq<Address>, x: Address)
    requires NoDuplicates(s)
    ensures multiset(s)[x] == if x in s then 1 else 0
  {
    if s != [] {
      DistinctCounts(s[..|s| - 1], x);
      assert s == s[..|s| - 1] + [s[|s| - 1]];
    }
  }
}

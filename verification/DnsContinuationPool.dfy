/**
 The one-slot pool of retained DNS continuations.

 `Pool` is the pool as a value and its functions say what each operation does to it;
 `DnsContinuationPool` is the mutable object, proved to do exactly that.  The hand-over
 protocol in `DnsHandover` is built from the same functions.
 */
module ContinuationPool {
  import opened Common

  datatype Lease<T> = Lease(token: nat, owner: nat, continuation: T)

  datatype Pool<T> = Pool(nextToken: nat, lease: Option<Lease<T>>)

  datatype LeaseError = InvalidOwner | Busy | Exhausted

  function EmptyPool<T>(): Pool<T> {
    Pool(1, None)
  }

  function RetainError<T>(p: Pool<T>, owner: nat): Option<LeaseError> {
    if owner == 0 then Some(InvalidOwner)
    else if p.lease.Some? then Some(Busy)
    else if p.nextToken == 0 || p.nextToken > MAX_I64 then Some(Exhausted)
    else None
  }

  function Retain<T>(p: Pool<T>, owner: nat, continuation: T): Pool<T> {
    if RetainError(p, owner).Some? then p
    else Pool(p.nextToken + 1, Some(Lease(p.nextToken, owner, continuation)))
  }

  predicate Contains<T>(p: Pool<T>, token: nat) {
    p.lease.Some? && p.lease.value.token == token
  }

  predicate OwnedBy<T>(p: Pool<T>, owner: nat) {
    p.lease.Some? && p.lease.value.owner == owner
  }

  function CloneForStart<T>(p: Pool<T>, token: nat): Option<T> {
    if Contains(p, token) then Some(p.lease.value.continuation) else None
  }

  function Release<T>(p: Pool<T>, token: nat): Pool<T> {
    if Contains(p, token) then p.(lease := None) else p
  }

  function RevokeOwner<T>(p: Pool<T>, owner: nat): Pool<T> {
    if OwnedBy(p, owner) then p.(lease := None) else p
  }

  /**
   What a token is good for: from the moment it is issued it alone names the continuation that was retained, until
   it is released or its owner revoked; other tokens and other owners do not take it away.
   */
  lemma TokenNamesItsContinuation<T>(p: Pool<T>, owner: nat, continuation: T, token: nat, other: nat)
    requires RetainError(p, owner).None?
    ensures
      var q := Retain(p, owner, continuation);
      && CloneForStart(q, token) == (if token == p.nextToken then Some(continuation) else None)
      && CloneForStart(Release(q, token), p.nextToken) == (if token == p.nextToken then None else Some(continuation))
      && CloneForStart(RevokeOwner(q, other), p.nextToken) == (if other == owner then None else Some(continuation))
      && RetainError(q, other).Some?
  {
  }

  class DnsContinuationPool<T> {
    var nextToken: nat
    var lease: Option<Lease<T>>

    ghost function View(): Pool<T>
      reads this
    {
      Pool(nextToken, lease)
    }

    constructor ()
      ensures View() == EmptyPool()
    {
      nextToken := 1;
      lease := None;
    }

    /** A refusal hands the continuation back, so the caller can drop it outside the lock. */
    method RetainLease(owner: nat, continuation: T) returns (r: Result<nat, (LeaseError, T)>)
      modifies this
      ensures View() == Retain(old(View()), owner, continuation)
      ensures r.Ok? <==> owner != 0 && old(lease) == None && 0 < old(nextToken) <= 0x7FFF_FFFF_FFFF_FFFF
      ensures r.Err? <==> RetainError(old(View()), owner).Some?
      ensures r.Err? ==> RetainError(old(View()), owner) == Some(r.error.0) && r.error.1 == continuation
      ensures r.Err? ==> r.error.0 == if owner == 0 then InvalidOwner else if old(lease).Some? then Busy else Exhausted
      ensures r.Ok? ==> r.value == old(nextToken) && nextToken == r.value + 1
                        && lease == Some(Lease(r.value, owner, continuation))
                        && 0 < r.value <= MAX_I64
    {
      if owner == 0 {
        return Err((InvalidOwner, continuation));
      }
      if lease.Some? {
        return Err((Busy, continuation));
      }
      var token := nextToken;
      if token == 0 || token > MAX_I64 {
        return Err((Exhausted, continuation));
      }
      nextToken := token + 1;
      lease := Some(Lease(token, owner, continuation));
      r := Ok(token);
    }

    method ContainsToken(token: nat) returns (found: bool)
      ensures found <==> Contains(View(), token)
    {
      found := lease.Some? && lease.value.token == token;
    }

    method CloneLease(token: nat) returns (c: Option<T>)
      ensures c == CloneForStart(View(), token)
    {
      c := if lease.Some? && lease.value.token == token then Some(lease.value.continuation) else None;
    }

    method ReleaseToken(token: nat) returns (c: Option<T>)
      modifies this
      ensures View() == Release(old(View()), token)
      ensures c == CloneForStart(old(View()), token)
      ensures !Contains(View(), token)
    {
      var found := ContainsToken(token);
      if !found {
        return None;
      }
      c := Some(lease.value.continuation);
      lease := None;
    }

    method RevokeLeasesOf(owner: nat) returns (c: Option<T>)
      modifies this
      ensures View() == RevokeOwner(old(View()), owner)
      ensures c == if OwnedBy(old(View()), owner) then Some(old(lease).value.continuation) else None
      ensures !OwnedBy(View(), owner)
    {
      if !(lease.Some? && lease.value.owner == owner) {
        return None;
      }
      c := Some(lease.value.continuation);
      lease := None;
    }
  }
}

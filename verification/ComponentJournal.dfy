/**
 Per-component event queues: a bounded ring with a drop counter, a sequence number per component,
 and an optional recorder that sees every event as it happens.

 `Journal` is the value; `EventJournal` is the mutable object the component manager keeps under its
 state lock.  The theorems are about any sequence of pushes, drains, attaches and detaches.
 */
module ComponentJournal {
  import opened Common

  datatype ComponentId = ComponentId(name: string)

  datatype Purpose = WebNavigation | WebNotification | FileSharing | LanProxy

  datatype EventKind =
    | Registered | Removed | RouteChanged | LeaseAcquired | LeaseReleased
    | NotificationAllowed | NotificationDenied | OperationBlocked
    | LanProxyReady | LanProxyNetworkLost | LanProxyStopped | LanProxyAuthFailed | LanProxyRefused

  datatype Event = Event(component: ComponentId, sequence: nat, channel: Purpose, kind: EventKind)

  const MAX_EVENTS_PER_COMPONENT: nat := 256

  /** What reached a recorder, and which recorder it was. */
  datatype Delivery = Delivery(recorder: nat, event: Event)

  datatype Journal = Journal(
    recorder: Option<nat>,
    delivered: seq<Delivery>,
    next: map<ComponentId, nat>,
    queues: map<ComponentId, seq<Event>>,
    dropped: map<ComponentId, nat>)

  const EmptyJournal := Journal(None, [], map[], map[], map[])

  function NextSequence(j: Journal, c: ComponentId): nat {
    if c in j.next then j.next[c] else 1
  }

  function Queue(j: Journal, c: ComponentId): seq<Event> {
    if c in j.queues then j.queues[c] else []
  }

  function Pending(j: Journal, c: ComponentId): nat {
    if c in j.dropped then j.dropped[c] else 0
  }

  function EventOf(j: Journal, c: ComponentId, channel: Purpose, kind: EventKind): Event {
    Event(c, NextSequence(j, c), channel, kind)
  }

  /** `push_event`. */
  function Push(j: Journal, c: ComponentId, channel: Purpose, kind: EventKind): Journal {
    var event := EventOf(j, c, channel, kind);
    var queue := Queue(j, c);
    var full := |queue| >= MAX_EVENTS_PER_COMPONENT;
    Journal(
      j.recorder,
      if j.recorder.Some? then j.delivered + [Delivery(j.recorder.value, event)] else j.delivered,
      j.next[c := SaturatingNext(event.sequence)],
      j.queues[c := (if full then queue[1..] else queue) + [event]],
      if full then j.dropped[c := SaturatingNext(Pending(j, c))] else j.dropped)
  }

  function Min(a: nat, b: nat): nat {
    if a < b then a else b
  }

  /** How many events a drain hands out. */
  function Taken(j: Journal, c: ComponentId, max: nat): nat {
    Min(Min(max, MAX_EVENTS_PER_COMPONENT), |Queue(j, c)|)
  }

  /** `drain_events`, as far as the journal is concerned. */
  function Drain(j: Journal, c: ComponentId, max: nat): Journal {
    j.(queues := j.queues[c := Queue(j, c)[Taken(j, c, max)..]], dropped := j.dropped - {c})
  }

  // ---------------------------------------------------------------------------------------
  // The mutable journal
  // ---------------------------------------------------------------------------------------

  class EventJournal {
    var recorder: Option<nat>
    var delivered: seq<Delivery>
    var next: map<ComponentId, nat>
    var queues: map<ComponentId, seq<Event>>
    var dropped: map<ComponentId, nat>

    ghost function View(): Journal
      reads this
    {
      Journal(recorder, delivered, next, queues, dropped)
    }

    constructor ()
      ensures View() == EmptyJournal
    {
      recorder, delivered, next, queues, dropped := None, [], map[], map[], map[];
    }

    method PushEvent(c: ComponentId, channel: Purpose, kind: EventKind)
      modifies this
      ensures View() == Push(old(View()), c, channel, kind)
    {
      var sequence := if c in next then next[c] else 1;
      var event := Event(c, sequence, channel, kind);
      next := next[c := SaturatingNext(sequence)];
      var queue := if c in queues then queues[c] else [];
      if |queue| >= MAX_EVENTS_PER_COMPONENT {
        queue := queue[1..];
        var lost := if c in dropped then dropped[c] else 0;
        dropped := dropped[c := SaturatingNext(lost)];
      }
      assert dropped == Push(old(View()), c, channel, kind).dropped;
      if recorder.Some? {
        delivered := delivered + [Delivery(recorder.value, event)];
      }
      assert delivered == Push(old(View()), c, channel, kind).delivered;
      queues := queues[c := queue + [event]];
      assert queues == Push(old(View()), c, channel, kind).queues;
    }

    method DrainEvents(c: ComponentId, max: nat) returns (events: seq<Event>, lost: nat)
      modifies this
      ensures View() == Drain(old(View()), c, max)
      ensures events == Queue(old(View()), c)[..Taken(old(View()), c, max)]
      ensures lost == Pending(old(View()), c)
    {
      var limit := Min(max, MAX_EVENTS_PER_COMPONENT);
      var queue := if c in queues then queues[c] else [];
      ghost var whole := queue;
      events := [];
      while |events| < limit && queue != []
        invariant |events| <= limit && whole == events + queue
        decreases |queue|
      {
        events := events + [queue[0]];
        queue := queue[1..];
      }
      queues := queues[c := queue];
      lost := if c in dropped then dropped[c] else 0;
      dropped := dropped - {c};
    }

    method AttachRecorder(r: nat)
      modifies this`recorder
      ensures recorder == Some(r)
    {
      recorder := Some(r);
    }

    method DetachRecorder()
      modifies this`recorder
      ensures recorder == None
    {
      recorder := None;
    }
  }

  // ---------------------------------------------------------------------------------------
  // Any sequence of operations
  // ---------------------------------------------------------------------------------------

  datatype Op =
    | DoPush(c: ComponentId, channel: Purpose, kind: EventKind)
    | DoDrain(c: ComponentId, max: nat)
    | DoAttach(r: nat)
    | DoDetach

  function Act(j: Journal, op: Op): Journal {
    match op
    case DoPush(c, channel, kind) => Push(j, c, channel, kind)
    case DoDrain(c, max) => Drain(j, c, max)
    case DoAttach(r) => j.(recorder := Some(r))
    case DoDetach => j.(recorder := None)
  }

  /** The journal after `ops`, starting from `j`. */
  function After(j: Journal, ops: seq<Op>): Journal {
    if ops == [] then j else Act(After(j, ops[..|ops| - 1]), ops[|ops| - 1])
  }

  /** Events pushed for `c`. */
  function Pushed(ops: seq<Op>, c: ComponentId): nat {
    if ops == [] then 0
    else Pushed(ops[..|ops| - 1], c) + if ops[|ops| - 1].DoPush? && ops[|ops| - 1].c == c then 1 else 0
  }

  /** Events that drains of `c` have handed out. */
  function Drained(ops: seq<Op>, c: ComponentId): nat {
    if ops == [] then 0
    else
      var before, op := ops[..|ops| - 1], ops[|ops| - 1];
      Drained(before, c) + if op.DoDrain? && op.c == c then Taken(After(EmptyJournal, before), c, op.max) else 0
  }

  /** Drops that drains of `c` have reported. */
  function Reported(ops: seq<Op>, c: ComponentId): nat {
    if ops == [] then 0
    else
      var before, op := ops[..|ops| - 1], ops[|ops| - 1];
      Reported(before, c) + if op.DoDrain? && op.c == c then Pending(After(EmptyJournal, before), c) else 0
  }

  /** A queue holds exactly the newest events, numbered without gaps up to the next sequence number. */
  ghost predicate Consecutive(j: Journal, c: ComponentId) {
    && |Queue(j, c)| <= MAX_EVENTS_PER_COMPONENT
    && |Queue(j, c)| < NextSequence(j, c)
    && forall k :: 0 <= k < |Queue(j, c)| ==>
         Queue(j, c)[k].sequence == NextSequence(j, c) - |Queue(j, c)| + k && Queue(j, c)[k].component == c
  }

  /**
   Conservation, for every sequence of operations short of counter saturation: what was pushed for a
   component is what was drained, plus the drops reported, plus the drops not yet reported, plus what is
   still queued; and the queue is gap-free and bounded.
   */
  lemma {:induction false} EventsAreConserved(ops: seq<Op>, c: ComponentId)
    requires Pushed(ops, c) < MAX_U64
    ensures var j := After(EmptyJournal, ops);
      && Pushed(ops, c) == Drained(ops, c) + Reported(ops, c) + Pending(j, c) + |Queue(j, c)|
      && NextSequence(j, c) == 1 + Pushed(ops, c)
      && Consecutive(j, c)
  {
    if ops != [] {
      var before, op := ops[..|ops| - 1], ops[|ops| - 1];
      EventsAreConserved(before, c);
      var j := After(EmptyJournal, before);
      match op
      case DoPush(d, channel, kind) => PushIsConserved(j, d, channel, kind, c);
      case DoDrain(d, max) => DrainIsConserved(j, d, max, c);
      case DoAttach(_) =>
      case DoDetach =>
    }
  }

  lemma PushIsConserved(j: Journal, d: ComponentId, channel: Purpose, kind: EventKind, c: ComponentId)
    requires Consecutive(j, c) && NextSequence(j, c) <= MAX_U64 && Pending(j, c) + |Queue(j, c)| < NextSequence(j, c)
    ensures var j' := Push(j, d, channel, kind);
      var one := if c == d then 1 else 0;
      && (NextSequence(j, c) < MAX_U64 ==>
            && NextSequence(j', c) == NextSequence(j, c) + one
            && Pending(j', c) + |Queue(j', c)| == Pending(j, c) + |Queue(j, c)| + one
            && Consecutive(j', c))
  {
    var j' := Push(j, d, channel, kind);
    if c == d && NextSequence(j, c) < MAX_U64 {
      var q, q' := Queue(j, c), Queue(j', c);
      var shift := |q| + 1 - |q'|;
      assert q' == q[shift..] + [EventOf(j, c, channel, kind)];
      forall k | 0 <= k < |q'|
        ensures q'[k].sequence == NextSequence(j', c) - |q'| + k && q'[k].component == c
      {
        if k < |q'| - 1 {
          assert q'[k] == q[k + shift];
        }
      }
    }
  }

  lemma DrainIsConserved(j: Journal, d: ComponentId, max: nat, c: ComponentId)
    requires Consecutive(j, c)
    ensures var j' := Drain(j, d, max);
      && NextSequence(j', c) == NextSequence(j, c)
      && Consecutive(j', c)
      && (c != d ==> Pending(j', c) == Pending(j, c) && Queue(j', c) == Queue(j, c))
      && (c == d ==> Pending(j', c) == 0 && |Queue(j, c)| == Taken(j, c, max) + |Queue(j', c)|)
  {}

  /**
   The next drain continues exactly where the earlier ones stopped: the first event it returns carries the
   sequence number 1 + everything drained before + every drop reported so far, this drain's included, and the
   events it returns are numbered without gaps.
   */
  lemma DrainContinuesTheSequence(ops: seq<Op>, c: ComponentId, max: nat, k: nat)
    requires Pushed(ops, c) < MAX_U64
    requires k < Taken(After(EmptyJournal, ops), c, max)
    ensures var j := After(EmptyJournal, ops);
      Queue(j, c)[k].sequence == 1 + Drained(ops, c) + Reported(ops + [DoDrain(c, max)], c) + k
  {
    EventsAreConserved(ops, c);
    var ops' := ops + [DoDrain(c, max)];
    assert ops'[..|ops'| - 1] == ops;
  }

  // ---------------------------------------------------------------------------------------
  // The recorder
  // ---------------------------------------------------------------------------------------

  /** What a journal delivered about one component. */
  function About(ds: seq<Delivery>, c: ComponentId): seq<Delivery> {
    if ds == [] then []
    else About(ds[..|ds| - 1], c) + if ds[|ds| - 1].event.component == c then [ds[|ds| - 1]] else []
  }

  predicate LeavesRecorderAlone(op: Op) {
    op.DoPush? || op.DoDrain?
  }

  /** `news` carries, for component `c`, exactly the sequence numbers `from`, `from + 1`, ..., `to - 1`. */
  ghost predicate Covers(news: seq<Delivery>, r: nat, c: ComponentId, from: nat, to: nat) {
    && from <= to
    && |About(news, c)| == to - from
    && forall k :: 0 <= k < to - from ==> About(news, c)[k].recorder == r && About(news, c)[k].event.sequence == from + k
  }

  lemma NewsGrows(news: seq<Delivery>, last: Delivery, r: nat, c: ComponentId, from: nat, to: nat)
    requires Covers(news, r, c, from, to) && last.recorder == r
    requires last.event.component == c ==> last.event.sequence == to
    ensures Covers(news + [last], r, c, from, if last.event.component == c then to + 1 else to)
  {
    assert (news + [last])[..|news|] == news;
  }

  /**
   A recorder that stays attached while `ops` happen sees each event once and in order, including the ones
   the bounded queue dropped and the ones nobody drained.
   */
  lemma {:induction false} RecorderSeesEveryEvent(j: Journal, ops: seq<Op>, r: nat, c: ComponentId)
      returns (news: seq<Delivery>)
    requires j.recorder == Some(r)
    requires forall k :: 0 <= k < |ops| ==> LeavesRecorderAlone(ops[k])
    requires NextSequence(j, c) + Pushed(ops, c) <= MAX_U64
    ensures After(j, ops).recorder == Some(r)
    ensures After(j, ops).delivered == j.delivered + news
    ensures NextSequence(After(j, ops), c) == NextSequence(j, c) + Pushed(ops, c)
    ensures Covers(news, r, c, NextSequence(j, c), NextSequence(j, c) + Pushed(ops, c))
  {
    if ops == [] {
      news := [];
    } else {
      var before, op := ops[..|ops| - 1], ops[|ops| - 1];
      news := RecorderSeesEveryEvent(j, before, r, c);
      if op.DoPush? {
        var mid := After(j, before);
        var last := Delivery(r, EventOf(mid, op.c, op.channel, op.kind));
        NewsGrows(news, last, r, c, NextSequence(j, c), NextSequence(mid, c));
        news := news + [last];
      }
    }
  }

  // ---------------------------------------------------------------------------------------
  // What the events say
  // ---------------------------------------------------------------------------------------

  /** Everything that was pushed for `c`, numbered from one. */
  function History(ops: seq<Op>, c: ComponentId): seq<Event> {
    if ops == [] then []
    else
      var before, op := History(ops[..|ops| - 1], c), ops[|ops| - 1];
      if op.DoPush? && op.c == c then before + [Event(c, |before| + 1, op.channel, op.kind)] else before
  }

  lemma {:induction false} HistoryLength(ops: seq<Op>, c: ComponentId)
    ensures |History(ops, c)| == Pushed(ops, c)
  {
    if ops != [] { HistoryLength(ops[..|ops| - 1], c); }
  }

  /** The queue is the end of a history. */
  predicate IsEndOf(queue: seq<Event>, history: seq<Event>) {
    |queue| <= |history| && queue == history[|history| - |queue|..]
  }

  lemma PushKeepsTheEnd(queue: seq<Event>, history: seq<Event>, e: Event, full: bool)
    requires IsEndOf(queue, history) && (full ==> queue != [])
    ensures IsEndOf((if full then queue[1..] else queue) + [e], history + [e])
  {
    var kept := if full then queue[1..] else queue;
    var n := |history| - |queue| + (if full then 1 else 0);
    assert kept == history[n..];
    assert (history + [e])[n..] == history[n..] + [e];
  }

  /** The history of `c` after one more operation. */
  function Recorded(history: seq<Event>, op: Op, c: ComponentId): seq<Event> {
    if op.DoPush? && op.c == c then history + [Event(c, |history| + 1, op.channel, op.kind)] else history
  }

  lemma ActKeepsTheEnd(j: Journal, op: Op, c: ComponentId, history: seq<Event>)
    requires IsEndOf(Queue(j, c), history) && NextSequence(j, c) == |history| + 1
    ensures IsEndOf(Queue(Act(j, op), c), Recorded(history, op, c))
  {
    var queue := Queue(j, c);
    if op.DoPush? && op.c == c {
      PushKeepsTheEnd(queue, history, Event(c, |history| + 1, op.channel, op.kind), |queue| >= MAX_EVENTS_PER_COMPONENT);
    } else if op.DoDrain? && op.c == c {
      var n := Taken(j, c, op.max);
      assert queue[n..] == history[|history| - |queue| + n..];
    }
  }

  /** The queue of a component holds the newest of what was pushed for it: same channels, same kinds, same order. */
  lemma {:induction false} QueueIsTheNewest(ops: seq<Op>, c: ComponentId)
    requires Pushed(ops, c) < MAX_U64
    ensures IsEndOf(Queue(After(EmptyJournal, ops), c), History(ops, c)) && |Queue(After(EmptyJournal, ops), c)| <= 256
  {
    EventsAreConserved(ops, c);
    if ops != [] {
      var before, op := ops[..|ops| - 1], ops[|ops| - 1];
      QueueIsTheNewest(before, c);
      EventsAreConserved(before, c);
      HistoryLength(before, c);
      ActKeepsTheEnd(After(EmptyJournal, before), op, c, History(before, c));
      assert History(ops, c) == Recorded(History(before, c), op, c);
    }
  }

  /** A recorder that stays attached is told exactly what is pushed: same channels, same kinds, same order. */
  lemma {:induction false} RecorderSeesWhatWasPushed(before: seq<Op>, ops: seq<Op>, r: nat, c: ComponentId)
      returns (news: seq<Delivery>)
    requires After(EmptyJournal, before).recorder == Some(r) && Pushed(before, c) + Pushed(ops, c) < MAX_U64
    requires forall k :: 0 <= k < |ops| ==> LeavesRecorderAlone(ops[k])
    ensures After(After(EmptyJournal, before), ops).delivered == After(EmptyJournal, before).delivered + news
    ensures After(After(EmptyJournal, before), ops).recorder == Some(r)
    ensures NextSequence(After(After(EmptyJournal, before), ops), c) == 1 + Pushed(before, c) + Pushed(ops, c)
    ensures |About(news, c)| == Pushed(ops, c)
    ensures forall k :: 0 <= k < |About(news, c)| ==>
      About(news, c)[k].recorder == r && SaysSame(About(news, c)[k].event, History(ops, c), k, Pushed(before, c))
    decreases |ops|
  {
    var j := After(EmptyJournal, before);
    if ops == [] {
      news := [];
      EventsAreConserved(before, c);
    } else {
      var earlier, op := ops[..|ops| - 1], ops[|ops| - 1];
      var so := RecorderSeesWhatWasPushed(before, earlier, r, c);
      HistoryLength(earlier, c);
      if op.DoPush? {
        var last := Delivery(r, EventOf(After(j, earlier), op.c, op.channel, op.kind));
        news := so + [last];
        assert news[..|so|] == so;
        assert j.delivered + so + [last] == j.delivered + news;
        TellingGoesOn(About(so, c), About(news, c), History(earlier, c), History(ops, c), r, last, c, Pushed(before, c));
      } else {
        news := so;
      }
    }
  }

  /** The recorder that was attached last and not detached since. */
  function LastRecorder(ops: seq<Op>): Option<nat> {
    if ops == [] then None
    else
      match ops[|ops| - 1]
      case DoAttach(r) => Some(r)
      case DoDetach => None
      case _ => LastRecorder(ops[..|ops| - 1])
  }

  lemma {:induction false} RecorderIsTheLastAttached(ops: seq<Op>)
    ensures After(EmptyJournal, ops).recorder == LastRecorder(ops)
  {
    if ops != [] { RecorderIsTheLastAttached(ops[..|ops| - 1]); }
  }

  /** The event is the `k`-th of the history, which is numbered on from `n`. */
  predicate SaysSame(e: Event, history: seq<Event>, k: nat, n: nat) {
    k < |history| && e == history[k].(sequence := n + 1 + k)
  }

  lemma TellingGoesOn(told: seq<Delivery>, now: seq<Delivery>, history: seq<Event>, longer: seq<Event>, r: nat, last: Delivery,
                      c: ComponentId, n: nat)
    requires |told| == |history| && last.recorder == r
    requires forall k :: 0 <= k < |told| ==> told[k].recorder == r && SaysSame(told[k].event, history, k, n)
    requires if last.event.component == c
             then now == told + [last] && |longer| == |history| + 1 && longer[..|history|] == history
                  && SaysSame(last.event, longer, |history|, n)
             else now == told && longer == history
    ensures |now| == |longer| && forall k :: 0 <= k < |now| ==> now[k].recorder == r && SaysSame(now[k].event, longer, k, n)
  {
    forall k | 0 <= k < |now| ensures now[k].recorder == r && SaysSame(now[k].event, longer, k, n) {
      if k < |told| {
        assert SaysSame(told[k].event, history, k, n);
        assert longer[..|history|][k] == longer[k];
      }
    }
  }
}

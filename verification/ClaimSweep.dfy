/** The claim cursor misses nothing: an entry that stays idle is handed out within a bounded number of dequeues,
    whatever is added, read by other consumers or acknowledged meanwhile. */
module ClaimSweep {
  import opened Basics
  import opened JobCodec
  import opened JobQueue

  ghost predicate Ascending(ids: seq<nat>) {
    forall i, j :: 0 <= i < j < |ids| ==> ids[i] < ids[j]
  }

  /** Entries the sweep still has to pass, up to and including `x`; one more for the wrap to the start. */
  function Distance(pending: seq<nat>, cursor: nat, x: nat): int {
    if cursor <= x then Below(pending, x) - Below(pending, cursor) + 1
    else |pending| - Below(pending, cursor) + Below(pending, x) + 2
  }

  lemma {:induction false} BelowIsMonotone(pending: seq<nat>, a: nat, b: nat)
    requires a <= b
    ensures Below(pending, a) <= Below(pending, b)
    ensures a < b && a in pending ==> Below(pending, a) < Below(pending, b)
    ensures Below(pending, 0) == 0
  {
    if pending != [] {
      BelowIsMonotone(pending[..|pending| - 1], a, b);
    }
  }

  /** The bound in terms of the pending list alone. */
  lemma DistanceBound(pending: seq<nat>, cursor: nat, x: nat)
    requires x in pending
    ensures 1 <= Distance(pending, cursor, x) <= |pending| + 1
  {
    BelowIsMonotone(pending, x, x + 1);
    if cursor <= x {
      BelowIsMonotone(pending, cursor, x);
    } else {
      BelowIsMonotone(pending, x, cursor);
    }
  }

  /** A scan either claims, or looks at as many entries as it may, or reaches the end. */
  lemma {:induction false} ScanProgress(pending: seq<nat>, idle: set<nat>, i: nat, attempts: nat)
    requires i <= |pending|
    ensures var (next, claimed) := ScanPending(pending, idle, i, attempts);
            && (claimed.None? ==> next == |pending| || next == i + attempts)
            && (i < |pending| && attempts > 0 ==> next > i)
            && (claimed.Some? ==> next > i && claimed.value == pending[next - 1])
            && (forall k :: i <= k < (if claimed.Some? then next - 1 else next) ==> pending[k] !in idle)
    decreases attempts
  {
    if i < |pending| && attempts > 0 && pending[i] !in idle {
      ScanProgress(pending, idle, i + 1, attempts - 1);
    }
  }

  lemma BelowAppended(pending: seq<nat>, y: nat, c: nat)
    ensures Below(pending + [y], c) == Below(pending, c) + if y < c then 1 else 0
  {
    assert (pending + [y])[..|pending|] == pending;
  }

  /** Distances in terms of list positions. */
  lemma DistanceAt(pending: seq<nat>, cursor: nat, k: nat)
    requires Ascending(pending) && k < |pending|
    ensures var b := Below(pending, cursor);
            && (cursor <= pending[k] <==> b <= k)
            && Distance(pending, cursor, pending[k]) == if b <= k then k - b + 1 else |pending| - b + k + 2
  {
    BelowSplits(pending, cursor);
    BelowAt(pending, k);
  }

  lemma {:induction false} ScanStops(pending: seq<nat>, idle: set<nat>, i: nat, attempts: nat, k: nat)
    requires i <= k < |pending| && pending[k] in idle
    ensures var (next, claimed) := ScanPending(pending, idle, i, attempts);
            claimed == Some(pending[k]) || next <= k
    decreases attempts
  {
    if attempts > 0 && pending[i] !in idle {
      ScanStops(pending, idle, i + 1, attempts - 1, k);
    }
  }

  /** The cursor an XAUTOCLAIM call returns points at the list position it stopped at, or at the start. */
  lemma NextPosition(s: Stream, idle: set<nat>, cursor: nat)
    requires s.Valid()
    ensures var i := ScanPending(s.pending, idle, Below(s.pending, cursor), CLAIM_ATTEMPTS).0;
            Below(s.pending, XAutoClaim(s, idle, cursor).0) == if i < |s.pending| then i else 0
  {
    var i := ScanPending(s.pending, idle, Below(s.pending, cursor), CLAIM_ATTEMPTS).0;
    BelowIsMonotone(s.pending, 0, 0);
    if i < |s.pending| {
      BelowAt(s.pending, i);
    }
  }

  /** A claim call takes `x` or comes closer, by a whole batch when it claims nothing and does not wrap. */
  lemma ClaimApproaches(s: Stream, cursor: nat, idle: set<nat>, k: nat)
    requires s.Valid() && k < |s.pending| && s.pending[k] in idle
    ensures var (next, claimed) := XAutoClaim(s, idle, cursor);
            var x := s.pending[k];
            || claimed == Some(x)
            || (&& Distance(s.pending, next, x) < Distance(s.pending, cursor, x)
                && (claimed.None? && next != 0 ==>
                      Distance(s.pending, next, x) + CLAIM_ATTEMPTS <= Distance(s.pending, cursor, x)))
  {
    var b := Below(s.pending, cursor);
    ScanProgress(s.pending, idle, b, CLAIM_ATTEMPTS);
    if b <= k {
      ScanStops(s.pending, idle, b, CLAIM_ATTEMPTS, k);
    }
    NextPosition(s, idle, cursor);
    DistanceAt(s.pending, cursor, k);
    DistanceAt(s.pending, XAutoClaim(s, idle, cursor).0, k);
  }

  /** Each dequeue hands out `x` or comes closer to it, even when it reads a new entry. */
  lemma DequeueApproaches(s: Stream, cursor: nat, idle: set<nat>, k: nat)
    requires s.Valid() && k < |s.pending| && s.pending[k] in idle
    ensures var (s', next, id) := Dequeued(s, cursor, idle);
            var x := s.pending[k];
            id == Some(x) || Distance(s'.pending, next, x) < Distance(s.pending, cursor, x)
  {
    ClaimApproaches(s, cursor, idle, k);
    var x, next := s.pending[k], XAutoClaim(s, idle, cursor).0;
    BelowAppended(s.pending, s.delivered + 1, x);
    BelowAppended(s.pending, s.delivered + 1, next);
    assert x in s.pending;
    assert next != 0 ==> next in s.pending;
  }

  lemma RemoveAppended(rest: seq<nat>, last: nat, y: nat)
    ensures Remove(rest + [last], y) == if last == y then Remove(rest, y) else Remove(rest, y) + [last]
  {
    FilterAppend((x: nat) => x != y, rest, [last]);
    assert [last][1..] == [];
  }

  lemma {:induction false} BelowRemoved(pending: seq<nat>, y: nat, c: nat)
    requires Ascending(pending)
    ensures Below(Remove(pending, y), c) == Below(pending, c) - if y in pending && y < c then 1 else 0
    ensures |Remove(pending, y)| == |pending| - if y in pending then 1 else 0
  {
    if pending != [] {
      var rest, last := pending[..|pending| - 1], pending[|pending| - 1];
      assert pending == rest + [last];
      RemoveAppended(rest, last, y);
      BelowRemoved(rest, y, c);
      BelowAppended(Remove(rest, y), last, c);
    }
  }

  /** Acknowledging another entry never takes the sweep further away. */
  lemma AckApproaches(s: Stream, cursor: nat, y: nat, x: nat)
    requires s.Valid() && x in s.pending && x != y
    ensures x in XAck(s, y).pending
    ensures Distance(XAck(s, y).pending, cursor, x) <= Distance(s.pending, cursor, x)
  {
    AckKeepsValid(s, y);
    BelowRemoved(s.pending, y, cursor);
    BelowRemoved(s.pending, y, x);
  }

  /** Another consumer's read takes the sweep at most one entry further away. */
  lemma ReadDelays(s: Stream, cursor: nat, x: nat)
    requires s.Valid() && x in s.pending
    ensures var s' := XReadGroup(s).0;
            && x in s'.pending
            && Distance(s'.pending, cursor, x) <= Distance(s.pending, cursor, x) + 1
  {
    BelowAppended(s.pending, s.delivered + 1, x);
    BelowAppended(s.pending, s.delivered + 1, cursor);
  }

  /** What happens around one consumer: its own dequeues, acknowledgements by anyone, other consumers' reads, and
      new messages. A claim by another consumer changes no list; it only makes its entry not idle. */
  datatype Event = Dequeue(idle: set<nat>) | Ack(id: nat) | OtherRead | Enqueue(payload: Payload)

  function Dequeues(events: seq<Event>): nat {
    if events == [] then 0 else (if events[0].Dequeue? then 1 else 0) + Dequeues(events[1..])
  }

  function OtherReads(events: seq<Event>): nat {
    if events == [] then 0 else (if events[0].OtherRead? then 1 else 0) + OtherReads(events[1..])
  }

  /** Some dequeue of the run hands out `x`. */
  predicate HandsOut(s: Stream, cursor: nat, events: seq<Event>, x: nat)
    decreases events
  {
    events != [] &&
    match events[0]
    case Ack(id) => HandsOut(XAck(s, id), cursor, events[1..], x)
    case OtherRead => HandsOut(XReadGroup(s).0, cursor, events[1..], x)
    case Enqueue(payload) => HandsOut(XAdd(s, payload), cursor, events[1..], x)
    case Dequeue(idle) =>
      var (s', next, id) := Dequeued(s, cursor, idle);
      id == Some(x) || HandsOut(s', next, events[1..], x)
  }

  /** `x` is idle at every dequeue and nobody acknowledges it. */
  predicate StaysIdle(events: seq<Event>, x: nat) {
    forall e <- events :: (e.Dequeue? ==> x in e.idle) && (e.Ack? ==> e.id != x)
  }

  lemma {:induction false} HandedOutInTime(s: Stream, cursor: nat, events: seq<Event>, x: nat)
    requires s.Valid() && x in s.pending && StaysIdle(events, x)
    requires Dequeues(events) >= Distance(s.pending, cursor, x) + OtherReads(events)
    ensures HandsOut(s, cursor, events, x)
    decreases events
  {
    DistanceBound(s.pending, cursor, x);
    assert events[0] in events;
    match events[0]
    case Ack(y) =>
      AckApproaches(s, cursor, y, x);
      AckKeepsValid(s, y);
      HandedOutInTime(XAck(s, y), cursor, events[1..], x);
    case OtherRead =>
      ReadDelays(s, cursor, x);
      ReadKeepsValid(s);
      HandedOutInTime(XReadGroup(s).0, cursor, events[1..], x);
    case Enqueue(payload) =>
      HandedOutInTime(XAdd(s, payload), cursor, events[1..], x);
    case Dequeue(idle) =>
      var k :| 0 <= k < |s.pending| && s.pending[k] == x;
      DequeueApproaches(s, cursor, idle, k);
      DequeuedIsPending(s, cursor, idle);
      var (s', next, id) := Dequeued(s, cursor, idle);
      if id != Some(x) {
        StillPending(s, cursor, idle, x);
        HandedOutInTime(s', next, events[1..], x);
      }
  }

  lemma StillPending(s: Stream, cursor: nat, idle: set<nat>, x: nat)
    requires x in s.pending
    ensures x in Dequeued(s, cursor, idle).0.pending
  {
  }

  /** From any cursor, an entry that stays idle and unacknowledged is handed out within one dequeue more than
      there are pending entries, plus one for each message another consumer reads meanwhile. */
  lemma CursorMissesNothing(s: Stream, cursor: nat, events: seq<Event>, x: nat)
    requires s.Valid() && x in s.pending && StaysIdle(events, x)
    requires Dequeues(events) >= |s.pending| + 1 + OtherReads(events)
    ensures HandsOut(s, cursor, events, x)
  {
    DistanceBound(s.pending, cursor, x);
    HandedOutInTime(s, cursor, events, x);
  }
}

/** The Redis Streams job queue (src/app/jobs.py): consumer group, claim cursor, acknowledgement. */
module JobQueue {
  import opened Basics
  import opened Events
  import opened JobCodec
  import Text

  /** Entries one XAUTOCLAIM call may look at per entry it may claim. */
  const CLAIM_ATTEMPTS := 10

  /** One stream with one consumer group. The entry with id `i` is `entries[i - 1]`; id 0 is "0-0". Ids up to
      `delivered` have been read by the group; `pending` lists, ascending, those not acknowledged yet. */
  datatype Stream = Stream(entries: seq<Payload>, delivered: nat, pending: seq<nat>, acked: set<nat>) {
    /** Every delivered entry is pending or acknowledged, never both. */
    ghost predicate Valid() {
      && delivered <= |entries|
      && (forall i, j :: 0 <= i < j < |pending| ==> pending[i] < pending[j])
      && (forall id :: id in pending || id in acked <==> 1 <= id <= delivered)
      && (forall id :: !(id in pending && id in acked))
    }
  }

  function XAdd(s: Stream, payload: Payload): Stream {
    s.(entries := s.entries + [payload])
  }

  /** XREADGROUP ">" with count 1: the next entry nobody has read. */
  function XReadGroup(s: Stream): (Stream, Option<nat>) {
    if s.delivered >= |s.entries| then (s, None) else
      var id := s.delivered + 1;
      (s.(delivered := id, pending := s.pending + [id]), Some(id))
  }

  function Remove(ids: seq<nat>, id: nat): (r: seq<nat>) {
    Filter((x: nat) => x != id, ids)
  }

  /** XACK works for whoever sends it, and ignores an id that is not pending. */
  function XAck(s: Stream, id: nat): Stream {
    if id in s.pending then s.(pending := Remove(s.pending, id), acked := s.acked + {id}) else s
  }

  /** How many pending ids come before `id`. */
  function Below(pending: seq<nat>, id: nat): (r: nat)
    ensures r <= |pending|
  {
    if pending == [] then 0
    else Below(pending[..|pending| - 1], id) + if pending[|pending| - 1] < id then 1 else 0
  }

  /** Looks at up to `attempts` pending entries from index `i` on and claims the first idle one: the index to
      go on from, and the claim. */
  function ScanPending(pending: seq<nat>, idle: set<nat>, i: nat, attempts: nat): (r: (nat, Option<nat>))
    requires i <= |pending|
    ensures i <= r.0 <= |pending|
    decreases attempts
  {
    if i == |pending| || attempts == 0 then (i, None)
    else if pending[i] in idle then (i + 1, Some(pending[i]))
    else ScanPending(pending, idle, i + 1, attempts - 1)
  }

  /** XAUTOCLAIM with count 1: the next id to start from (0 when the sweep is complete) and the claim. `idle`
      holds the entries idle for the minimum time. */
  function XAutoClaim(s: Stream, idle: set<nat>, start: nat): (nat, Option<nat>) {
    var (next, claimed) := ScanPending(s.pending, idle, Below(s.pending, start), CLAIM_ATTEMPTS);
    (if next < |s.pending| then s.pending[next] else 0, claimed)
  }

  /** `dequeue`: claim first, read when nothing was claimed. */
  function Dequeued(s: Stream, cursor: nat, idle: set<nat>): (Stream, nat, Option<nat>) {
    var (next, claimed) := XAutoClaim(s, idle, cursor);
    if claimed.Some? then (s, next, claimed) else
      var (s', id) := XReadGroup(s);
      (s', next, id)
  }

  lemma {:induction false} BelowSplits(pending: seq<nat>, id: nat)
    requires forall i, j :: 0 <= i < j < |pending| ==> pending[i] < pending[j]
    ensures forall i :: 0 <= i < |pending| ==> (pending[i] < id <==> i < Below(pending, id))
  {
    if pending != [] {
      var rest := pending[..|pending| - 1];
      BelowSplits(rest, id);
      if pending[|pending| - 1] < id {
        assert forall i :: 0 <= i < |rest| ==> rest[i] < id;
      }
    }
  }

  /** Position of a pending id in the list. */
  lemma BelowAt(pending: seq<nat>, k: nat)
    requires k < |pending| && forall i, j :: 0 <= i < j < |pending| ==> pending[i] < pending[j]
    ensures Below(pending, pending[k]) == k
  {
    BelowSplits(pending, pending[k]);
    var b := Below(pending, pending[k]);
    assert pending[if b < k then b else k] <= pending[k];
  }

  // Shape lemmas

  lemma ReadKeepsValid(s: Stream)
    requires s.Valid()
    ensures XReadGroup(s).0.Valid()
  {
    var (s', id) := XReadGroup(s);
    if id.Some? {
      forall i, j | 0 <= i < j < |s'.pending| ensures s'.pending[i] < s'.pending[j] {
        assert s'.pending[i] in s.pending;
      }
    }
  }

  lemma {:induction false} RemoveKeepsOrder(ids: seq<nat>, id: nat)
    requires forall i, j :: 0 <= i < j < |ids| ==> ids[i] < ids[j]
    ensures var r := Remove(ids, id); forall i, j :: 0 <= i < j < |r| ==> r[i] < r[j]
  {
    if ids != [] {
      RemoveKeepsOrder(ids[1..], id);
      var r := Remove(ids[1..], id);
      forall k | 0 <= k < |r| ensures ids[0] < r[k] {
        assert r[k] in ids[1..];
      }
    }
  }

  lemma AckKeepsValid(s: Stream, id: nat)
    requires s.Valid()
    ensures XAck(s, id).Valid()
    ensures forall x :: x in XAck(s, id).pending <==> x in s.pending && x != id
  {
    RemoveKeepsOrder(s.pending, id);
  }

  lemma ClaimIsPending(s: Stream, idle: set<nat>, i: nat, attempts: nat)
    requires i <= |s.pending|
    ensures var c := ScanPending(s.pending, idle, i, attempts).1; c.Some? ==> c.value in s.pending && c.value in idle
    decreases attempts
  {
    if i < |s.pending| && attempts > 0 && s.pending[i] !in idle {
      ClaimIsPending(s, idle, i + 1, attempts - 1);
    }
  }

  /** Whatever `dequeue` hands out is pending afterwards, so a crash cannot lose it. */
  lemma DequeuedIsPending(s: Stream, cursor: nat, idle: set<nat>)
    requires s.Valid()
    ensures var (s', _, id) := Dequeued(s, cursor, idle);
            && s'.Valid() && s'.entries == s.entries && s'.acked == s.acked
            && (id.Some? ==> id.value in s'.pending)
            && (id.None? ==> s' == s && s.delivered == |s.entries|)
  {
    ClaimIsPending(s, idle, Below(s.pending, cursor), CLAIM_ATTEMPTS);
    ReadKeepsValid(s);
  }

  // The queue object

  class Redis {
    var stream: Stream

    constructor (stream: Stream)
      ensures this.stream == stream
    {
      this.stream := stream;
    }
  }

  function DeliveryId(id: nat): string {
    Text.Decimal(id)
  }

  /** The entry a delivery id names. */
  function EntryId(deliveryId: string): (r: Option<nat>)
    ensures r.Some? ==> DeliveryId(r.value) == deliveryId
    ensures r.None? ==> forall id: nat :: DeliveryId(id) != deliveryId
  {
    var parsed := Text.ParseInt(deliveryId);
    assert forall id: nat :: DeliveryId(id) == deliveryId ==> parsed == Some(id) by {
      forall id: nat | DeliveryId(id) == deliveryId ensures parsed == Some(id) {
        Text.ParseDecimal(id);
      }
    }
    if parsed.Some? && parsed.value >= 0 && DeliveryId(parsed.value) == deliveryId then Some(parsed.value) else None
  }

  lemma DeliveryIdsAreDistinct()
    ensures forall id: nat, id': nat :: DeliveryId(id) == DeliveryId(id') ==> id == id'
    ensures forall id: nat :: DeliveryId(id) != ""
  {
    forall id: nat, id': nat | DeliveryId(id) == DeliveryId(id') ensures id == id' {
      Text.DecimalValue(id);
      Text.DecimalValue(id');
    }
  }

  /** The job an entry decodes to. */
  function JobAt(iso: IsoFormat, entries: seq<Payload>, id: nat): QueuedJob {
    JobFromMessage(iso, DeliveryId(id), if 1 <= id <= |entries| then entries[id - 1] else Missing)
  }

  /** Entry number `id` is what enqueuing the event stored. */
  ghost predicate Stored(iso: IsoFormat, entries: seq<Payload>, id: nat, event: Event, correlationId: string) {
    1 <= id <= |entries| && entries[id - 1] == Parsed(EncodeJob(iso, event, correlationId))
  }

  /** The metadata names the event's class. */
  predicate Labelled(event: Event) {
    event.Meta().eventType == event.ClassType()
  }

  lemma JobOfStored(iso: IsoFormat, entries: seq<Payload>, id: nat, event: Event, correlationId: string)
    requires iso.Faithful() && Labelled(event) && Stored(iso, entries, id, event, correlationId)
    ensures JobAt(iso, entries, id) == EventJob(event, correlationId, DeliveryId(id))
  {
    hide EncodeJob, DeliveryId;
    RoundTripIff(iso, event, correlationId, DeliveryId(id));
  }

  class RedisStreamsJobQueue {
    const redis: Redis
    const iso: IsoFormat
    var claimStartId: nat

    constructor (redis: Redis, iso: IsoFormat)
      ensures this.redis == redis && this.iso == iso && claimStartId == 0
    {
      this.redis := redis;
      this.iso := iso;
      this.claimStartId := 0;
    }

    method Enqueue(event: Event, correlationId: string)
      modifies redis
      ensures redis.stream == XAdd(old(redis.stream), Parsed(EncodeJob(iso, event, correlationId)))
      ensures |redis.stream.entries| == |old(redis.stream.entries)| + 1
      ensures Stored(iso, redis.stream.entries, |redis.stream.entries|, event, correlationId)
      ensures old(redis.stream.entries) <= redis.stream.entries
    {
      redis.stream := XAdd(redis.stream, Parsed(EncodeJob(iso, event, correlationId)));
    }

    method ClaimPending(idle: set<nat>) returns (id: Option<nat>)
      modifies this
      ensures (claimStartId, id) == XAutoClaim(redis.stream, idle, old(claimStartId))
    {
      var (next, claimed) := XAutoClaim(redis.stream, idle, claimStartId);
      claimStartId := next;
      return claimed;
    }

    method Dequeue(idle: set<nat>) returns (job: Option<QueuedJob>, ghost id: Option<nat>)
      requires redis.stream.Valid()
      modifies this, redis
      ensures redis.stream.Valid()
      ensures (redis.stream, claimStartId, id) == Dequeued(old(redis.stream), old(claimStartId), idle)
      ensures job == if id.None? then None else Some(JobAt(iso, redis.stream.entries, id.value))
      ensures job.Some? ==> job.value.deliveryId == DeliveryId(id.value) && id.value in redis.stream.pending
      // the message handed out is the event that was enqueued as that entry
      ensures iso.Faithful() && id.Some? ==>
                forall event: Event, correlationId: string ::
                  Labelled(event) && Stored(iso, redis.stream.entries, id.value, event, correlationId) ==>
                    job == Some(EventJob(event, correlationId, DeliveryId(id.value)))
    {
      hide EncodeJob, Labelled, XAutoClaim;
      DequeuedIsPending(redis.stream, claimStartId, idle);
      var found := ClaimPending(idle);
      if found.None? {
        var (s, read) := XReadGroup(redis.stream);
        redis.stream := s;
        found := read;
      }
      id := found;
      job := if found.None? then None else Some(JobAt(iso, redis.stream.entries, found.value));
      if found.Some? && iso.Faithful() {
        forall event: Event, correlationId: string
          | Labelled(event) && Stored(iso, redis.stream.entries, found.value, event, correlationId)
          ensures job == Some(EventJob(event, correlationId, DeliveryId(found.value)))
        {
          JobOfStored(iso, redis.stream.entries, found.value, event, correlationId);
        }
      }
    }

    /** Acknowledges by the delivery id the job carries. A job without one is left alone; text that is no entry id
        makes Redis refuse the call. */
    method Ack(job: QueuedJob) returns (raised: bool)
      requires redis.stream.Valid()
      modifies redis
      ensures redis.stream.Valid()
      ensures forall id: nat :: job.deliveryId == DeliveryId(id) ==>
                !raised && redis.stream == XAck(old(redis.stream), id)
      ensures (forall id: nat :: job.deliveryId != DeliveryId(id)) ==> redis.stream == old(redis.stream)
      ensures raised <==> job.deliveryId != "" && forall id: nat :: job.deliveryId != DeliveryId(id)
    {
      DeliveryIdsAreDistinct();
      if job.deliveryId == "" {
        return false;
      }
      var target := EntryId(job.deliveryId);
      if target.None? {
        return true;
      }
      AckKeepsValid(redis.stream, target.value);
      redis.stream := XAck(redis.stream, target.value);
      return false;
    }
  }
}

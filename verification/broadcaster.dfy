/**
 `ScanBroadcaster`: per job slot, three parallel lists (browser events, bridge envelopes, sizes) that
 are trimmed together. A ghost history of the current run says what they must hold.
 */
module Broadcaster {
  import opened Wrappers
  import opened Retention

  const MAX_BUFFER: nat := 500
  const MAX_BUFFER_BYTES: nat := 8 * 1024 * 1024

  /** One owner's slot for one kind of job. */
  datatype Slot = Slot(jobType: string, owner: string)

  type Payload = string

  datatype SourceJob = SourceJob(id: nat, jobType: string)

  datatype Envelope = Envelope(
    eventId: nat, occurredAt: int, name: string, payload: Payload, source: Option<SourceJob>)

  predicate HasSource(jobType: string) {
    jobType == "scan" || jobType == "report"
  }

  function Browser(e: Envelope): (string, Payload) {
    (e.name, e.payload)
  }

  function Active(sourceJobs: map<Slot, nat>, slot: Slot): Option<nat> {
    if slot in sourceJobs then Some(sourceJobs[slot]) else None
  }

  function Stamp(source: Option<nat>, jobType: string): Option<SourceJob> {
    if source.Some? then Some(SourceJob(source.value, jobType)) else None
  }

  /** The replay lists of one slot: browser events, bridge envelopes, and the envelopes' sizes. */
  datatype Lists = Lists(buffer: seq<(string, Payload)>, bridge: seq<Envelope>, sizes: seq<nat>)

  /** Browser events and sizes are those of the bridge envelopes, in the same order. */
  ghost predicate Aligned(sizeOf: Envelope -> nat, l: Lists) {
    && l.sizes == Sizes(l.bridge, sizeOf)
    && |l.buffer| == |l.bridge|
    && forall i | 0 <= i < |l.buffer| :: l.buffer[i] == Browser(l.bridge[i])
  }

  /** The lists are aligned, and are the longest suffix of the slot's run within the limits. */
  ghost predicate Replays(sizeOf: Envelope -> nat, run: seq<Envelope>, l: Lists) {
    Aligned(sizeOf, l) && l.bridge == Retain(run, sizeOf, MAX_BUFFER, MAX_BUFFER_BYTES)
  }

  ghost predicate AllReplay(sizeOf: Envelope -> nat, runs: map<Slot, seq<Envelope>>, slots: map<Slot, Lists>) {
    && (forall slot :: slot in runs <==> slot in slots)
    && forall slot | slot in runs :: Replays(sizeOf, runs[slot], slots[slot])
  }

  /** Only scans and reports have a source. */
  ghost predicate Sourced(sourceJobs: map<Slot, nat>) {
    forall slot | slot in sourceJobs :: HasSource(slot.jobType)
  }

  lemma EmptyReplays(sizeOf: Envelope -> nat)
    ensures Replays(sizeOf, [], Lists([], [], []))
  {
  }

  /** The trimming loop: drop from the front of all three lists until both limits hold. */
  method Trim(l0: Lists, ghost sizeOf: Envelope -> nat) returns (l: Lists)
    requires Aligned(sizeOf, l0)
    ensures Aligned(sizeOf, l) && l.bridge == Retain(l0.bridge, sizeOf, MAX_BUFFER, MAX_BUFFER_BYTES)
  {
    var buffer, bridge, sizes := l0.buffer, l0.bridge, l0.sizes;
    ghost var dropped := 0;
    while |sizes| > MAX_BUFFER || Sum(sizes) > MAX_BUFFER_BYTES
      invariant dropped <= |l0.sizes|
      invariant sizes == l0.sizes[dropped..] && bridge == l0.bridge[dropped..] && buffer == l0.buffer[dropped..]
      invariant Kept(sizes, MAX_BUFFER, MAX_BUFFER_BYTES) == Kept(l0.sizes, MAX_BUFFER, MAX_BUFFER_BYTES)
      decreases |sizes|
    {
      sizes := sizes[1..];
      bridge := bridge[1..];
      buffer := buffer[1..];
      dropped := dropped + 1;
    }
    return Lists(buffer, bridge, sizes);
  }

  /** Append one event to all three lists, then trim. */
  method AppendTrimmed(l0: Lists, envelope: Envelope, sizeOf: Envelope -> nat, ghost run: seq<Envelope>)
    returns (l: Lists)
    requires Replays(sizeOf, run, l0)
    ensures Replays(sizeOf, run + [envelope], l)
  {
    hide Retain;
    var longer := Lists(
      l0.buffer + [(envelope.name, envelope.payload)], l0.bridge + [envelope], l0.sizes + [sizeOf(envelope)]);
    assert longer.sizes == Sizes(longer.bridge, sizeOf);
    RetainIncrementally(run, envelope, sizeOf, MAX_BUFFER, MAX_BUFFER_BYTES);
    l := Trim(longer, sizeOf);
  }

  class ScanBroadcaster {
    const sizeOf: Envelope -> nat
    var sourceJobs: map<Slot, nat>
    var slots: map<Slot, Lists>
    ghost var history: map<Slot, seq<Envelope>>  // every event of the current run of each slot

    ghost predicate Valid()
      reads this
    {
      AllReplay(sizeOf, history, slots) && Sourced(sourceJobs)
    }

    constructor (sizeOf: Envelope -> nat)
      ensures Valid() && history == map[] && this.sizeOf == sizeOf
    {
      this.sizeOf := sizeOf;
      sourceJobs, slots, history := map[], map[], map[];
    }

    method StartJob(slot: Slot, source: Option<nat>, newId: nat)
      requires Valid()
      modifies this
      ensures Valid()
      ensures history == old(history)[slot := []]
      ensures sourceJobs == if slot.jobType == "scan" || slot.jobType == "report"
        then old(sourceJobs)[slot := if source.Some? then source.value else newId] else old(sourceJobs)
    {
      EmptyReplays(sizeOf);
      hide Replays;
      if HasSource(slot.jobType) {
        sourceJobs := sourceJobs[slot := if source.Some? then source.value else newId];
      }
      slots := slots[slot := Lists([], [], [])];
      history := history[slot := []];
    }

    method EndJob(slot: Slot)
      requires Valid()
      modifies this
      ensures Valid()
      ensures history == old(history) - {slot} && sourceJobs == old(sourceJobs) - {slot}
    {
      hide Replays;
      sourceJobs := sourceJobs - {slot};
      slots := slots - {slot};
      history := history - {slot};
    }

    /** `get_source_job_id` */
    method SourceJobId(slot: Slot) returns (source: Option<nat>)
      requires Valid()
      ensures source == (if slot in sourceJobs then Some(sourceJobs[slot]) else None) && (source.Some? ==> HasSource(slot.jobType))
    {
      return if slot in sourceJobs then Some(sourceJobs[slot]) else None;
    }

    /** Record an event: an event of the current run joins it; an event of an earlier run is only returned. */
    method Record(slot: Slot, name: string, payload: Payload, source: Option<nat>, newId: nat, now: int)
      returns (envelope: Envelope)
      requires Valid()
      modifies this`slots, this`history
      ensures Valid()
      ensures envelope == Envelope(newId, now, name, payload,
        if source.Some? then Some(SourceJob(source.value, slot.jobType))
        else if slot in sourceJobs then Some(SourceJob(sourceJobs[slot], slot.jobType)) else None)
      ensures history ==
        if slot in old(history) && (source.Some? ==> slot in sourceJobs && source.value == sourceJobs[slot])
        then old(history)[slot := old(history)[slot] + [envelope]] else old(history)
    {
      hide Replays;
      var active := Active(sourceJobs, slot);
      var filed := if source.Some? then source else active;
      envelope := Envelope(newId, now, name, payload, Stamp(filed, slot.jobType));
      if filed == active && slot in slots {
        var l := AppendTrimmed(slots[slot], envelope, sizeOf, history[slot]);
        slots := slots[slot := l];
        history := history[slot := history[slot] + [envelope]];
      }
    }

    /** What a tab that joins late is replayed: the retained events of the current run, and no others. */
    method ReplayBuffer(slot: Slot) returns (events: seq<(string, Payload)>)
      requires Valid()
      ensures slot !in history ==> events == []
      ensures slot in history ==>
        var kept := Retain(history[slot], sizeOf, 500, 8_388_608);
        |events| == |kept| && forall i | 0 <= i < |kept| :: events[i] == (kept[i].name, kept[i].payload)
    {
      hide Retain;
      return if slot in slots then slots[slot].buffer else [];
    }

    method BridgeReplayBuffer(slot: Slot) returns (events: seq<Envelope>)
      requires Valid()
      ensures events ==
        if slot in history then Retain(history[slot], sizeOf, 500, 8_388_608) else []
    {
      hide Retain;
      return if slot in slots then slots[slot].bridge else [];
    }
  }
}

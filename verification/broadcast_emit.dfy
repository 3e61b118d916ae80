/**
 `make_broadcast_emit`: the closure through which a job's events reach the broadcaster and the event
 table. It learns the source of its job once, and files every later event under it.
 */
module BroadcastEmit {
  import opened Wrappers
  import opened Broadcaster
  import opened EventStore
  import opened Decimals

  function JobIdOf(source: Option<SourceJob>, slot: Slot): string {
    if source.Some? then "source-job:" + Decimal(source.value.id) else slot.owner + ":" + slot.jobType
  }

  class Emitter {
    const broadcaster: ScanBroadcaster
    const table: RuntimeEventTable
    const slot: Slot
    var source: Option<nat>

    ghost predicate Valid()
      reads this, broadcaster, table
    {
      broadcaster.Valid() && table.Valid() && (source.Some? ==> HasSource(slot.jobType))
    }

    constructor (broadcaster: ScanBroadcaster, table: RuntimeEventTable, slot: Slot)
      requires broadcaster.Valid() && table.Valid()
      ensures Valid() && this.broadcaster == broadcaster && this.table == table && this.slot == slot
    {
      this.broadcaster, this.table, this.slot := broadcaster, table, slot;
      source := if slot in broadcaster.sourceJobs then Some(broadcaster.sourceJobs[slot]) else None;
    }

    /**
     One event: recorded, and stored so that its row is read back as exactly the envelope it was, because
     only scans and reports ever get a source.
     */
    method Emit(name: string, payload: Payload, newId: nat, now: int, maxEvents: nat, maxBytes: nat)
      returns (envelope: Envelope, rowId: nat)
      requires Valid()
      modifies this`source, broadcaster`slots, broadcaster`history, table`rows, table`nextId
      ensures Valid()
      ensures envelope.name == name && envelope.payload == payload
      ensures envelope.source == (if source.Some? then Some(SourceJob(source.value, slot.jobType)) else None) && (old(source).Some? ==> source == old(source))
      ensures
        var jobId := if source.Some? then "source-job:" + Decimal(source.value) else slot.owner + ":" + slot.jobType;
        var row := Row(rowId, jobId, name, Wrap(envelope));
        && Appends(old(table.rows), table.rows, row, table.sizeOf, maxEvents, maxBytes)
        && Unwrap(row) == Some(envelope)
    {
      if source.None? {
        source := broadcaster.SourceJobId(slot);
      }
      hide JobRows, OtherRows, AllReplay;
      envelope := broadcaster.Record(slot, name, payload, source, newId, now);
      rowId := table.AppendJobEvent(JobIdOf(envelope.source, slot), name, Wrap(envelope), maxEvents, maxBytes);
      EnvelopeRoundTrip(envelope, rowId, JobIdOf(envelope.source, slot));
    }
  }
}

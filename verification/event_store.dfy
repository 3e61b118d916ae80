/**
 The `job_events` table: `append_job_event` inserts a row and trims its job by count and by bytes in
 one transaction; `list_job_events` reads a job back, restoring the envelopes it was given.
 */
module EventStore {
  import opened Wrappers
  import opened Retention
  import opened Broadcaster

  /** A stored payload: plain, or wrapped with the identity of the envelope it came from. */
  datatype Stored =
    | Plain(payload: Payload)
    | Wrapped(eventId: nat, occurredAt: int, source: Option<SourceJob>, payload: Payload)

  datatype Row = Row(id: nat, jobId: string, name: string, stored: Stored)

  /** What `append_job_event` stores of an envelope: the source is kept only for scans and reports. */
  function Wrap(e: Envelope): Stored {
    Wrapped(e.eventId, e.occurredAt,
      if e.source.Some? && HasSource(e.source.value.jobType) then e.source else None, e.payload)
  }

  /** What `list_job_events` makes of a row. */
  function Unwrap(r: Row): Option<Envelope> {
    match r.stored
    case Plain(_) => None
    case Wrapped(eventId, occurredAt, source, payload) => Some(Envelope(eventId, occurredAt, r.name, payload, source))
  }

  /** An envelope is replayed exactly, if and only if its source, when it has one, is a scan or a report. */
  lemma EnvelopeRoundTrip(e: Envelope, id: nat, jobId: string)
    ensures Unwrap(Row(id, jobId, e.name, Wrap(e))) == Some(e) <==>
      (e.source.Some? ==> e.source.value.jobType == "scan" || e.source.value.jobType == "report")
  {
  }

  // ---------------------------------------------------------------- the table

  function JobRows(rows: seq<Row>, j: string): seq<Row> {
    if rows == [] then []
    else
      var before, last := rows[..|rows| - 1], rows[|rows| - 1];
      if last.jobId == j then JobRows(before, j) + [last] else JobRows(before, j)
  }

  function OtherRows(rows: seq<Row>, j: string): seq<Row> {
    if rows == [] then []
    else
      var before, last := rows[..|rows| - 1], rows[|rows| - 1];
      if last.jobId == j then OtherRows(before, j) else OtherRows(before, j) + [last]
  }

  /** `DELETE FROM job_events WHERE id IN ids`. */
  function Drop(rows: seq<Row>, ids: set<nat>): seq<Row> {
    if rows == [] then []
    else
      var before, last := rows[..|rows| - 1], rows[|rows| - 1];
      if last.id in ids then Drop(before, ids) else Drop(before, ids) + [last]
  }

  function Ids(rows: seq<Row>): set<nat> {
    set r | r in rows :: r.id
  }

  ghost predicate Ascending(rows: seq<Row>) {
    forall i, k | 0 <= i < k < |rows| :: rows[i].id < rows[k].id
  }

  lemma {:induction false} JobRowsMembers(rows: seq<Row>, j: string)
    ensures forall r :: r in JobRows(rows, j) <==> r in rows && r.jobId == j
  {
    if rows != [] {
      JobRowsMembers(rows[..|rows| - 1], j);
      assert rows == rows[..|rows| - 1] + [rows[|rows| - 1]];
    }
  }

  lemma {:induction false} JobRowsAscending(rows: seq<Row>, j: string)
    requires Ascending(rows)
    ensures Ascending(JobRows(rows, j))
  {
    if rows != [] {
      var before := rows[..|rows| - 1];
      JobRowsAscending(before, j);
      JobRowsMembers(before, j);
    }
  }

  /** The rows of a job are those that carry its id, oldest first; the others are all the rest, in their order. */
  lemma JobRowsAre(rows: seq<Row>, j: string)
    requires Ascending(rows)
    ensures forall r :: r in JobRows(rows, j) <==> r in rows && r.jobId == j
    ensures forall r :: r in OtherRows(rows, j) <==> r in rows && r.jobId != j
    ensures Ascending(JobRows(rows, j)) && Ascending(OtherRows(rows, j))
  {
    JobRowsMembers(rows, j);
    JobRowsAscending(rows, j);
    OtherRowsAre(rows, j);
  }

  lemma {:induction false} OtherRowsAre(rows: seq<Row>, j: string)
    requires Ascending(rows)
    ensures forall r :: r in OtherRows(rows, j) <==> r in rows && r.jobId != j
    ensures Ascending(OtherRows(rows, j))
  {
    if rows != [] {
      var before := rows[..|rows| - 1];
      OtherRowsAre(before, j);
      OthersGrow(OtherRows(before, j), rows[|rows| - 1]);
      assert forall r :: r in rows <==> r in before || r == rows[|rows| - 1];
    }
  }

  lemma OthersGrow(others: seq<Row>, r: Row)
    requires Ascending(others)
    ensures (forall o | o in others :: o.id < r.id) ==> Ascending(others + [r])
  {
  }

  lemma {:induction false} DropMembers(rows: seq<Row>, ids: set<nat>)
    ensures forall r :: r in Drop(rows, ids) <==> r in rows && r.id !in ids
  {
    if rows != [] {
      DropMembers(rows[..|rows| - 1], ids);
      assert rows == rows[..|rows| - 1] + [rows[|rows| - 1]];
    }
  }

  lemma {:induction false} DropAscending(rows: seq<Row>, ids: set<nat>)
    requires Ascending(rows)
    ensures Ascending(Drop(rows, ids))
  {
    if rows != [] {
      DropAscending(rows[..|rows| - 1], ids);
      DropMembers(rows[..|rows| - 1], ids);
    }
  }

  lemma Snoc(rows: seq<Row>, x: Row, j: string, ids: set<nat>)
    ensures JobRows(rows + [x], j) == if x.jobId == j then JobRows(rows, j) + [x] else JobRows(rows, j)
    ensures OtherRows(rows + [x], j) == if x.jobId == j then OtherRows(rows, j) else OtherRows(rows, j) + [x]
    ensures Drop(rows + [x], ids) == if x.id in ids then Drop(rows, ids) else Drop(rows, ids) + [x]
  {
    assert (rows + [x])[..|rows|] == rows;
  }

  /** Deleting rows of one job: what is left of that job, and nothing of the others. */
  lemma {:induction false} DropOfJob(rows: seq<Row>, ids: set<nat>, j: string)
    requires forall r | r in rows && r.id in ids :: r.jobId == j
    ensures JobRows(Drop(rows, ids), j) == Drop(JobRows(rows, j), ids)
    ensures OtherRows(Drop(rows, ids), j) == OtherRows(rows, j)
  {
    if rows != [] {
      var before, last := rows[..|rows| - 1], rows[|rows| - 1];
      DropOfJob(before, ids, j);
      Snoc(Drop(before, ids), last, j, ids);
      Snoc(JobRows(before, j), last, j, ids);
    }
  }

  lemma {:induction false} DropNone(rows: seq<Row>, ids: set<nat>)
    requires forall i | 0 <= i < |rows| :: rows[i].id !in ids
    ensures Drop(rows, ids) == rows
  {
    if rows != [] {
      DropNone(rows[..|rows| - 1], ids);
      assert rows == rows[..|rows| - 1] + [rows[|rows| - 1]];
    }
  }

  lemma {:induction false} DropAppend(a: seq<Row>, b: seq<Row>, ids: set<nat>)
    ensures Drop(a + b, ids) == Drop(a, ids) + Drop(b, ids)
  {
    if b == [] {
      assert a + b == a;
    } else {
      DropAppend(a, b[..|b| - 1], ids);
      assert (a + b)[..|a + b| - 1] == a + b[..|b| - 1];
    }
  }

  lemma {:induction false} DropAll(rows: seq<Row>, ids: set<nat>)
    requires forall i | 0 <= i < |rows| :: rows[i].id in ids
    ensures Drop(rows, ids) == []
  {
    if rows != [] {
      DropAll(rows[..|rows| - 1], ids);
    }
  }

  lemma DropPrefix(rows: seq<Row>, n: nat)
    requires n <= |rows| && Ascending(rows)
    ensures Drop(rows, Ids(rows[..n])) == rows[n..]
  {
    assert rows == rows[..n] + rows[n..];
    DropAppend(rows[..n], rows[n..], Ids(rows[..n]));
    DropAll(rows[..n], Ids(rows[..n]));
    DropNone(rows[n..], Ids(rows[..n]));
  }

  lemma DropMiddle(a: seq<Row>, x: Row, b: seq<Row>)
    requires forall i | 0 <= i < |a| :: a[i].id != x.id
    requires forall i | 0 <= i < |b| :: b[i].id != x.id
    ensures Drop(a + [x] + b, {x.id}) == a + b
  {
    hide Drop;
    DropAppend(a + [x], b, {x.id});
    Snoc(a, x, "", {x.id});
    DropNone(a, {x.id});
    DropNone(b, {x.id});
  }

  lemma DropOne(rows: seq<Row>, m: nat)
    requires m < |rows| && Ascending(rows)
    ensures Drop(rows, {rows[m].id}) == rows[..m] + rows[m + 1..]
  {
    hide Drop;
    var a, x, b := rows[..m], rows[m], rows[m + 1..];
    forall i | 0 <= i < |b|
      ensures b[i].id != x.id
    {
      assert b[i] == rows[m + 1 + i];
    }
    assert forall i | 0 <= i < |a| :: a[i] == rows[i];
    DropMiddle(a, x, b);
    SplitAt(rows, m);
  }

  lemma SplitAt(rows: seq<Row>, m: nat)
    requires m < |rows|
    ensures rows[..m] + [rows[m]] + rows[m + 1..] == rows
  {
  }

  function Latest(rows: seq<Row>, n: nat): seq<Row> {
    Last(rows, Min(n, |rows|))
  }

  /** What appending row `r` makes of the table: its job is retained within the limits, no other job is touched. */
  ghost predicate Appends(before: seq<Row>, after: seq<Row>, r: Row, size: Row -> nat, maxEvents: nat, maxBytes: nat) {
    && JobRows(after, r.jobId) == Retain(JobRows(before, r.jobId) + [r], size, maxEvents, maxBytes)
    && OtherRows(after, r.jobId) == OtherRows(before, r.jobId)
  }

  class RuntimeEventTable {
    const sizeOf: Row -> nat
    var rows: seq<Row>
    var nextId: nat

    ghost predicate Valid()
      reads this
    {
      Ascending(rows) && forall r | r in rows :: r.id < nextId
    }

    constructor (sizeOf: Row -> nat)
      ensures Valid() && rows == [] && this.sizeOf == sizeOf
    {
      this.sizeOf := sizeOf;
      rows, nextId := [], 1;
    }

    /** One transaction: insert, keep the latest `maxEvents` of the job, then cut by bytes from the back. */
    method AppendJobEvent(jobId: string, name: string, stored: Stored, maxEvents: nat, maxBytes: nat)
      returns (rowId: nat)
      requires Valid()
      modifies this`rows, this`nextId
      ensures Valid() && rowId == old(nextId) && nextId == old(nextId) + 1
      ensures Appends(old(rows), rows, Row(rowId, jobId, name, stored), sizeOf, maxEvents, maxBytes)
    {
      hide JobRows, OtherRows, Drop, Retain, Kept, Sum;
      rowId := nextId;
      nextId := nextId + 1;
      var inserted := Row(rowId, jobId, name, stored);
      InsertRow(rows, inserted, jobId);
      rows := rows + [inserted];
      ghost var all := JobRows(rows, jobId);
      KeepLatest(jobId, maxEvents);
      CutBytes(jobId, maxBytes);
      RetainInTwoCuts(all, sizeOf, maxEvents, maxBytes);
    }

    lemma InsertRow(before: seq<Row>, r: Row, j: string)
      requires r.jobId == j
      ensures JobRows(before + [r], j) == JobRows(before, j) + [r]
      ensures OtherRows(before + [r], j) == OtherRows(before, j)
    {
      assert (before + [r])[..|before|] == before;
    }

    /** `DELETE ... WHERE job_id = ? AND id NOT IN (the latest n of the job)`. */
    method KeepLatest(jobId: string, n: nat)
      requires Valid()
      modifies this`rows
      ensures Valid() && JobRows(rows, jobId) == Latest(JobRows(old(rows), jobId), n)
      ensures OtherRows(rows, jobId) == OtherRows(old(rows), jobId)
    {
      hide JobRows, OtherRows, Drop;
      var mine := JobRows(rows, jobId);
      var older := mine[..|mine| - Min(n, |mine|)];
      JobRowsMembers(rows, jobId);
      JobRowsAscending(rows, jobId);
      forall r | r in rows && r.id in Ids(older)
        ensures r.jobId == jobId
      {
        var o :| o in older && o.id == r.id;
        SameRow(rows, r, o);
      }
      DropOfJob(rows, Ids(older), jobId);
      DropPrefix(mine, |older|);
      DropAscending(rows, Ids(older));
      DropMembers(rows, Ids(older));
      rows := Drop(rows, Ids(older));
    }

    lemma SameRow(rs: seq<Row>, a: Row, b: Row)
      requires Ascending(rs) && a in rs && b in rs && a.id == b.id
      ensures a == b
    {
    }

    /** The backward scan with a running byte count. */
    method CutBytes(jobId: string, maxBytes: nat)
      requires Valid()
      modifies this`rows
      ensures Valid()
      ensures var all := JobRows(old(rows), jobId); JobRows(rows, jobId) == Retain(all, sizeOf, |all|, maxBytes)
      ensures OtherRows(rows, jobId) == OtherRows(old(rows), jobId)
    {
      hide JobRows, OtherRows, Drop, Kept, Sum, Unwrap;
      var retained := JobRows(rows, jobId);
      ghost var sizes := Sizes(retained, sizeOf);
      JobRowsMembers(rows, jobId);
      JobRowsAscending(rows, jobId);
      var i, retainedBytes := |retained|, 0;
      ghost var cut := |retained|;
      SumEmpty(sizes);
      assert retained[..i] + retained[cut..] == retained;
      while i > 0
        invariant 0 <= i <= cut <= |retained| && Valid()
        invariant retainedBytes == Sum(sizes[i..])
        invariant Sum(sizes[cut..]) <= maxBytes && (i < cut ==> Sum(sizes[cut - 1..]) > maxBytes)
        invariant JobRows(rows, jobId) == retained[..i] + retained[cut..]
        invariant OtherRows(rows, jobId) == OtherRows(old(rows), jobId)
      {
        i := i - 1;
        SumStep(sizes, i);
        retainedBytes := retainedBytes + sizeOf(retained[i]);
        if retainedBytes > maxBytes {
          DeleteRow(jobId, retained, i, cut);
        } else {
          StillOver(sizes, i, cut);
          assert retained[..i + 1] + retained[i + 1..] == retained[..i] + retained[i..];
          cut := i;
        }
      }
      CutIsKept(sizes, maxBytes, cut);
      assert retained[..i] + retained[cut..] == retained[cut..];
    }

    lemma StillOver(sizes: seq<nat>, i: nat, cut: nat)
      requires i < cut <= |sizes|
      ensures Sum(sizes[cut - 1..]) <= Sum(sizes[i..])
    {
      assert sizes[i..][cut - 1 - i..] == sizes[cut - 1..];
      SumOfSuffix(sizes[i..], cut - 1 - i);
    }

    lemma CutIsKept(sizes: seq<nat>, maxBytes: nat, cut: nat)
      requires cut <= |sizes| && Sum(sizes[cut..]) <= maxBytes
      requires 0 < cut ==> Sum(sizes[cut - 1..]) > maxBytes
      ensures Kept(sizes, |sizes|, maxBytes) == |sizes| - cut
    {
      hide Sum, Kept;
      assert Last(sizes, |sizes| - cut) == sizes[cut..];
      if cut > 0 {
        assert Last(sizes, |sizes| - cut + 1) == sizes[cut - 1..];
      }
      KeptIsUnique(sizes, |sizes|, maxBytes, |sizes| - cut);
    }

    lemma SumEmpty(sizes: seq<nat>)
      ensures Sum(sizes[|sizes|..]) == 0
    {
    }

    lemma SumStep(sizes: seq<nat>, i: nat)
      requires i < |sizes|
      ensures Sum(sizes[i..]) == sizes[i] + Sum(sizes[i + 1..])
    {
      assert sizes[i..][1..] == sizes[i + 1..];
    }

    /** `DELETE FROM job_events WHERE id = ?`, for row `i` of the job when rows `i + 1..cut` are gone. */
    method DeleteRow(jobId: string, retained: seq<Row>, i: nat, ghost cut: nat)
      requires Valid() && i < cut <= |retained|
      requires JobRows(rows, jobId) == retained[..i + 1] + retained[cut..]
      modifies this`rows
      ensures Valid() && JobRows(rows, jobId) == retained[..i] + retained[cut..]
      ensures OtherRows(rows, jobId) == OtherRows(old(rows), jobId)
    {
      hide JobRows, OtherRows, Drop;
      ghost var mine := JobRows(rows, jobId);
      var ids := {retained[i].id};
      JobRowsMembers(rows, jobId);
      JobRowsAscending(rows, jobId);
      assert mine[i] == retained[i];
      forall r | r in rows && r.id in ids
        ensures r.jobId == jobId
      {
        SameRow(rows, r, mine[i]);
      }
      DropOfJob(rows, ids, jobId);
      DropOne(mine, i);
      assert mine[..i] + mine[i + 1..] == retained[..i] + retained[cut..];
      DropAscending(rows, ids);
      DropMembers(rows, ids);
      rows := Drop(rows, ids);
    }

    lemma RetainInTwoCuts(all: seq<Row>, size: Row -> nat, maxEvents: nat, maxBytes: nat)
      ensures
        var latest := Latest(all, maxEvents);
        Retain(latest, size, |latest|, maxBytes) == Retain(all, size, maxEvents, maxBytes)
    {
      hide Kept, Sum;
      var latest := Latest(all, maxEvents);
      var sizes, some := Sizes(all, size), Sizes(latest, size);
      var k := Kept(some, |latest|, maxBytes);
      KeptIsLongest(some, |latest|, maxBytes);
      assert some == Last(sizes, |latest|);
      assert Last(some, k) == Last(sizes, k);
      if k < |some| {
        assert Last(some, k + 1) == Last(sizes, k + 1);
      }
      KeptIsUnique(sizes, maxEvents, maxBytes, k);
      assert Last(latest, k) == Last(all, k);
    }

    /** The latest `limit` rows of a job, oldest first, as envelopes where they were given as such. */
    method ListJobEvents(jobId: string, limit: nat) returns (events: seq<(Row, Option<Envelope>)>)
      ensures
        var mine := JobRows(rows, jobId);
        && |events| == Min(limit, |mine|)
        && forall i | 0 <= i < |events| ::
          && events[i] == (mine[|mine| - |events| + i], Unwrap(events[i].0))
          && (events[i].0.stored.Plain? ==> events[i].1.None?)
    {
      var latest := Latest(JobRows(rows, jobId), limit);
      events := [];
      for i := 0 to |latest|
        invariant |events| == i
        invariant forall k | 0 <= k < i :: events[k] == (latest[k], Unwrap(latest[k]))
      {
        events := events + [(latest[i], Unwrap(latest[i]))];
      }
    }
  }

  // ---------------------------------------------------------------- whole histories

  /** What is left without one job still shows every other. */
  lemma {:induction false} OthersShowJob(rows: seq<Row>, j: string, k: string)
    requires j != k
    ensures JobRows(OtherRows(rows, j), k) == JobRows(rows, k)
  {
    if rows != [] {
      var before, last := rows[..|rows| - 1], rows[|rows| - 1];
      OthersShowJob(before, j, k);
      Snoc(OtherRows(before, j), last, k, {});
    }
  }

  lemma RetainNone(size: Row -> nat, maxEvents: nat, maxBytes: nat)
    ensures Retain([], size, maxEvents, maxBytes) == []
  {
  }

  lemma AppendKeepsRetained(before: seq<Row>, after: seq<Row>, added: seq<Row>, r: Row, size: Row -> nat,
                            maxEvents: nat, maxBytes: nat, j: string)
    requires Appends(before, after, r, size, maxEvents, maxBytes)
    requires JobRows(before, j) == Retain(JobRows(added, j), size, maxEvents, maxBytes)
    ensures JobRows(after, j) == Retain(JobRows(added + [r], j), size, maxEvents, maxBytes)
  {
    hide JobRows, OtherRows, Retain;
    Snoc(added, r, j, {});
    if r.jobId == j {
      RetainIncrementally(JobRows(added, j), r, size, maxEvents, maxBytes);
    } else {
      OthersShowJob(before, r.jobId, j);
      OthersShowJob(after, r.jobId, j);
    }
  }

  /** The tables that appending the rows `added`, one after the other, goes through. */
  ghost predicate Appended(tables: seq<seq<Row>>, added: seq<Row>, size: Row -> nat, maxEvents: nat, maxBytes: nat) {
    && |tables| == |added| + 1 && tables[0] == []
    && forall i | 0 <= i < |added| :: Appends(tables[i], tables[i + 1], added[i], size, maxEvents, maxBytes)
  }

  /**
   Over any appends to any jobs in any order, the table keeps of each job what retaining the whole history
   of that job would keep.
   */
  lemma {:induction false} AppendedIsRetained(tables: seq<seq<Row>>, added: seq<Row>, size: Row -> nat,
                                              maxEvents: nat, maxBytes: nat, j: string)
    requires Appended(tables, added, size, maxEvents, maxBytes)
    ensures JobRows(tables[|added|], j) == Retain(JobRows(added, j), size, maxEvents, maxBytes)
    decreases |added|
  {
    hide JobRows, OtherRows, Retain, Appends;
    if added == [] {
      RetainNone(size, maxEvents, maxBytes);
      NoRows(j);
    } else {
      var n := |added| - 1;
      AppendedIsRetained(tables[..n + 1], added[..n], size, maxEvents, maxBytes, j);
      AppendKeepsRetained(tables[n], tables[n + 1], added[..n], added[n], size, maxEvents, maxBytes, j);
      assert added[..n] + [added[n]] == added;
    }
  }

  lemma NoRows(j: string)
    ensures JobRows([], j) == []
  {
  }
}

/**
 Startup recovery: jobs a previous process left running are marked interrupted, page by page, along a
 keyset cursor over the very rows the walk rewrites. Strings are ordered ranks; rank 0 is the empty string.
 */
module Recovery {
  import opened Sets
  import opened Wrappers

  datatype Status = Running | Cancelling | Interrupted | Ended

  datatype Row = Row(updatedAt: nat, status: Status, paused: bool, owner: nat, sourced: bool)

  type Table = map<nat, Row>

  datatype Job = Job(id: nat, row: Row)

  datatype Key = Key(at: nat, id: nat)

  function KeyOf(job: Job): Key {
    Key(job.row.updatedAt, job.id)
  }

  predicate Below(a: Key, b: Key) {
    a.at < b.at || (a.at == b.at && a.id < b.id)
  }

  predicate Stale(row: Row) {
    row.status.Running? || row.status.Cancelling?
  }

  // ---------------------------------------------------------------- listing

  predicate Selected(t: Table, before: Option<Key>, id: nat) {
    id in t && Stale(t[id]) && (before.Some? ==> Below(KeyOf(Job(id, t[id])), before.value))
  }

  ghost function Selection(t: Table, before: Option<Key>): set<nat> {
    set id | id in t && Selected(t, before, id)
  }

  ghost predicate IsHighest(t: Table, ids: set<nat>, id: nat)
    requires forall k | k in ids :: k in t
  {
    id in ids && forall k | k in ids && k != id :: Below(KeyOf(Job(k, t[k])), KeyOf(Job(id, t[id])))
  }

  lemma {:induction false} HighestExists(t: Table, ids: set<nat>)
    requires ids != {} && forall k | k in ids :: k in t
    ensures exists id :: IsHighest(t, ids, id)
    decreases |ids|
  {
    var id :| id in ids;
    if ids == {id} {
      assert IsHighest(t, ids, id);
    } else {
      HighestExists(t, ids - {id});
      var rest :| IsHighest(t, ids - {id}, rest);
      var top := if Below(KeyOf(Job(id, t[id])), KeyOf(Job(rest, t[rest]))) then rest else id;
      assert IsHighest(t, ids, top);
    }
  }

  ghost function Highest(t: Table, before: Option<Key>): (id: nat)
    requires Selection(t, before) != {}
    ensures IsHighest(t, Selection(t, before), id)
  {
    HighestExists(t, Selection(t, before));
    var id :| IsHighest(t, Selection(t, before), id);
    id
  }

  /** The selected rows in the order of the query: latest first, ties by id. */
  ghost function Descending(t: Table, before: Option<Key>): seq<Job>
    decreases |Selection(t, before)|
  {
    if Selection(t, before) == {} then []
    else
      var id := Highest(t, before);
      var job := Job(id, t[id]);
      assert Selection(t, Some(KeyOf(job))) == Selection(t, before) - {id};
      [job] + Descending(t, Some(KeyOf(job)))
  }

  /** What `list_jobs` returns: the first rows of that order. */
  ghost function Page(t: Table, before: Option<Key>, limit: nat): seq<Job> {
    Descending(t, before)[..Min(limit, |Descending(t, before)|)]
  }

  lemma DescendingStep(t: Table, before: Option<Key>)
    requires Selection(t, before) != {}
    ensures
      var id := Highest(t, before);
      var job := Job(id, t[id]);
      && Selected(t, before, id)
      && Descending(t, before) == [job] + Descending(t, Some(KeyOf(job)))
      && Selection(t, Some(KeyOf(job))) == Selection(t, before) - {id}
      && |Selection(t, Some(KeyOf(job)))| < |Selection(t, before)|
  {
    var id := Highest(t, before);
    assert id in Selection(t, before);
    assert Selection(t, Some(KeyOf(Job(id, t[id])))) == Selection(t, before) - {id};
  }

  /** The order lists each selected row, as it stands in the table, strictly downwards. */
  lemma {:induction false} DescendingIsOrdered(t: Table, before: Option<Key>)
    ensures forall i | 0 <= i < |Descending(t, before)| ::
      Selected(t, before, Descending(t, before)[i].id) && t[Descending(t, before)[i].id] == Descending(t, before)[i].row
    ensures forall i, j | 0 <= i < j < |Descending(t, before)| ::
      Below(KeyOf(Descending(t, before)[j]), KeyOf(Descending(t, before)[i]))
    decreases |Selection(t, before)|
  {
    if Selection(t, before) != {} {
      DescendingStep(t, before);
      hide Descending, Highest;
      DescendingIsOrdered(t, Some(KeyOf(Job(Highest(t, before), t[Highest(t, before)]))));
    }
  }

  lemma {:induction false} DescendingListsAll(t: Table, before: Option<Key>, id: nat)
    requires Selected(t, before, id)
    ensures Job(id, t[id]) in Descending(t, before)
    decreases |Selection(t, before)|
  {
    assert id in Selection(t, before);
    DescendingStep(t, before);
    var top := Highest(t, before);
    hide Descending;
    if top != id {
      DescendingListsAll(t, Some(KeyOf(Job(top, t[top]))), id);
    }
  }

  /** Below the k-th row of the order lies exactly the rest of it. */
  lemma {:induction false} DescendingAfter(t: Table, before: Option<Key>, k: nat)
    requires k < |Descending(t, before)|
    ensures Descending(t, Some(KeyOf(Descending(t, before)[k]))) == Descending(t, before)[k + 1..]
    decreases k
  {
    if k > 0 {
      DescendingAfter(t, Some(KeyOf(Descending(t, before)[0])), k - 1);
    }
  }

  lemma {:induction false} DescendingDependsOnSelection(t: Table, u: Table, before: Option<Key>)
    requires forall id :: id in Selection(t, before) <==> id in Selection(u, before)
    requires forall id | id in Selection(t, before) :: t[id] == u[id]
    ensures Descending(t, before) == Descending(u, before)
    decreases |Selection(t, before)|
  {
    assert Selection(t, before) == Selection(u, before);
    if Selection(t, before) != {} {
      var id := Highest(t, before);
      var other := Highest(u, before);
      assert id == other;
      var below := Some(KeyOf(Job(id, t[id])));
      assert Selection(t, below) == Selection(t, before) - {id};
      assert Selection(u, below) == Selection(u, before) - {id};
      DescendingDependsOnSelection(t, u, below);
    }
  }

  /** A running or cancelling job, older than the cursor, or as old and with a lower id. */
  predicate Waiting(t: Table, before: Option<Key>, id: nat) {
    && id in t && (t[id].status == Running || t[id].status == Cancelling)
    && (before.Some? ==>
          t[id].updatedAt < before.value.at || (t[id].updatedAt == before.value.at && id < before.value.id))
  }

  /**
   A page holds waiting jobs as they stand, latest first and ties by falling id, none twice; it is as full
   as the limit allows, and what it leaves out comes after all it holds.
   */
  lemma PageMeans(t: Table, before: Option<Key>, limit: nat, id: nat)
    ensures
      var page := Page(t, before, limit);
      && |page| <= limit
      && (forall i | 0 <= i < |page| :: Waiting(t, before, page[i].id) && page[i].row == t[page[i].id])
      && (forall i, j | 0 <= i < j < |page| ::
            page[j].row.updatedAt < page[i].row.updatedAt
            || (page[j].row.updatedAt == page[i].row.updatedAt && page[j].id < page[i].id))
      && (Waiting(t, before, id) ==>
            || (exists i :: 0 <= i < |page| && page[i].id == id)
            || (|page| == limit && forall i | 0 <= i < |page| ::
                  t[id].updatedAt < page[i].row.updatedAt
                  || (t[id].updatedAt == page[i].row.updatedAt && id < page[i].id)))
  {
    DescendingIsOrdered(t, before);
    if Waiting(t, before, id) {
      DescendingListsAll(t, before, id);
      hide Descending;
      var all := Descending(t, before);
      var k :| 0 <= k < |all| && all[k] == Job(id, t[id]);
      if k < limit {
        assert Page(t, before, limit)[k].id == id;
      }
    }
  }

  // ---------------------------------------------------------------- the walk

  datatype Write = Refused | EventLost | Written

  /** What the store answers: whether the n-th listing fails, how the n-th write ends, the clock at it. */
  datatype Store = Store(listingFails: nat -> bool, write: nat -> Write, clock: nat -> nat)

  datatype Progress = Progress(table: Table, attempted: seq<nat>, interrupted: seq<nat>, failed: nat)

  datatype Ending = Complete | ListingFailed | CannotAdvance

  function InterruptedRow(row: Row, now: nat): Row {
    row.(updatedAt := now, status := Interrupted, paused := false)
  }

  /** One job: a refused write changes nothing; a row whose event is lost is written, but counted as failed. */
  function MarkJob(p: Progress, job: Job, store: Store): Progress {
    var n := |p.attempted|;
    var q := p.(attempted := p.attempted + [job.id]);
    if job.id == 0 then p
    else if store.write(n).Refused? then q.(failed := p.failed + 1)
    else
      var r := q.(table := p.table[job.id := InterruptedRow(job.row, store.clock(n))]);
      if store.write(n).EventLost? && job.row.sourced then r.(failed := p.failed + 1)
      else r.(interrupted := p.interrupted + [job.id])
  }

  function MarkJobs(p: Progress, jobs: seq<Job>, store: Store): Progress {
    if jobs == [] then p
    else MarkJob(MarkJobs(p, jobs[..|jobs| - 1], store), jobs[|jobs| - 1], store)
  }

  predicate Listed(t: Table, jobs: seq<Job>) {
    forall i | 0 <= i < |jobs| :: jobs[i].id in t && t[jobs[i].id] == jobs[i].row
  }

  /** Marking touches no other row, and a row it writes is no longer stale. */
  lemma {:induction false} MarkingIsLocal(p: Progress, jobs: seq<Job>, store: Store)
    requires forall i | 0 <= i < |jobs| :: jobs[i].id in p.table
    ensures
      var q := MarkJobs(p, jobs, store);
      && (forall id :: id in p.table <==> id in q.table)
      && (forall id | id in p.table && q.table[id] != p.table[id] ::
            !Stale(q.table[id]) && exists i :: 0 <= i < |jobs| && jobs[i].id == id)
  {
    if jobs != [] {
      var n := |jobs| - 1;
      MarkingIsLocal(p, jobs[..n], store);
      var q, r := MarkJobs(p, jobs[..n], store), MarkJobs(p, jobs, store);
      forall id | id in p.table && r.table[id] != p.table[id]
        ensures !Stale(r.table[id]) && exists i :: 0 <= i < |jobs| && jobs[i].id == id
      {
        if r.table[id] == q.table[id] {
          var i :| 0 <= i < n && jobs[..n][i].id == id;
          assert jobs[i].id == id;
        } else {
          assert jobs[n].id == id;
        }
      }
    }
  }

  lemma PageIsListed(t: Table, before: Option<Key>, limit: nat)
    ensures
      var page := Page(t, before, limit);
      && Listed(t, page)
      && (forall i | 0 <= i < |page| :: Selected(t, before, page[i].id) && !Below(KeyOf(page[i]), KeyOf(page[|page| - 1])))
  {
    DescendingIsOrdered(t, before);
    hide Descending;
  }

  /** Marking a page does not change what the query finds below its last row. */
  lemma PageIsDone(p: Progress, before: Option<Key>, limit: nat, store: Store)
    requires limit > 0 && Page(p.table, before, limit) != []
    ensures
      var page := Page(p.table, before, limit);
      var last := Some(KeyOf(page[|page| - 1]));
      var q := MarkJobs(p, page, store);
      && (forall id :: id in Selection(p.table, last) <==> id in Selection(q.table, last))
      && (forall id | id in Selection(p.table, last) :: p.table[id] == q.table[id])
      && |Selection(q.table, last)| < |Selection(p.table, before)|
      && last != before
  {
    var page := Page(p.table, before, limit);
    PageIsListed(p.table, before, limit);
    MarkingIsLocal(p, page, store);
    hide Page, MarkJobs;
    var last := Some(KeyOf(page[|page| - 1]));
    var q := MarkJobs(p, page, store);
    var top := page[|page| - 1].id;
    forall id
      ensures id in Selection(p.table, last) <==> id in Selection(q.table, last)
      ensures id in Selection(p.table, last) ==> p.table[id] == q.table[id]
    {
      if id in p.table && q.table[id] != p.table[id] {
        var i :| 0 <= i < |page| && page[i].id == id;
      }
    }
    assert top in Selection(p.table, before);
    assert forall id | id in Selection(p.table, last) :: id in Selection(p.table, before) && id != top;
    SubsetIsSmaller(Selection(q.table, last), Selection(p.table, before) - {top});
  }

  /** After a page, the query below its last row finds the rest of the order. */
  lemma PageIsFollowed(p: Progress, before: Option<Key>, limit: nat, store: Store)
    requires limit > 0 && Page(p.table, before, limit) != []
    ensures
      var page := Page(p.table, before, limit);
      var q := MarkJobs(p, page, store);
      && |page| <= |Descending(p.table, before)|
      && page == Descending(p.table, before)[..|page|]
      && Descending(q.table, Some(KeyOf(page[|page| - 1]))) == Descending(p.table, before)[|page|..]
  {
    var page := Page(p.table, before, limit);
    PageIsDone(p, before, limit, store);
    DescendingAfter(p.table, before, |page| - 1);
    hide Descending, MarkJobs, Selection;
    DescendingDependsOnSelection(p.table, MarkJobs(p, page, store).table, Some(KeyOf(page[|page| - 1])));
  }

  /** The loop of `reconcile_interrupted_jobs`, listing by listing. */
  ghost function Walk(p: Progress, before: Option<Key>, round: nat, limit: nat, store: Store): (Progress, Ending)
    requires limit > 0
    decreases |Selection(p.table, before)|
  {
    var page := Page(p.table, before, limit);
    if store.listingFails(round) then (p, ListingFailed)
    else if page == [] then (p, Complete)
    else
      var last := KeyOf(page[|page| - 1]);
      if last.at == 0 || last.id == 0 || before == Some(last) then (p, CannotAdvance)
      else
        PageIsDone(p, before, limit, store);
        Walk(MarkJobs(p, page, store), Some(last), round + 1, limit, store)
  }

  ghost function Recovered(t: Table, limit: nat, store: Store): (Progress, Ending)
    requires limit > 0
  {
    Walk(Progress(t, [], [], 0), None, 0, limit, store)
  }

  lemma MarkNone(p: Progress, store: Store)
    ensures MarkJobs(p, [], store) == p
  {
  }

  lemma {:induction false} MarkConcat(p: Progress, a: seq<Job>, b: seq<Job>, store: Store)
    ensures MarkJobs(p, a + b, store) == MarkJobs(MarkJobs(p, a, store), b, store)
    decreases |b|
  {
    if b == [] {
      assert a + b == a;
    } else {
      assert (a + b)[..|a + b| - 1] == a + b[..|b| - 1];
      MarkConcat(p, a, b[..|b| - 1], store);
    }
  }

  /** No stale row has an empty id or an empty time stamp. */
  predicate WellKeyed(jobs: seq<Job>) {
    forall i | 0 <= i < |jobs| :: jobs[i].id != 0 && jobs[i].row.updatedAt != 0
  }

  ghost predicate AllListed(store: Store) {
    forall k :: !store.listingFails(k)
  }

  predicate GoesOn(page: seq<Job>, round: nat, store: Store) {
    && !store.listingFails(round) && page != []
    && page[|page| - 1].row.updatedAt != 0 && page[|page| - 1].id != 0
  }

  lemma PageGoesOn(page: seq<Job>, round: nat, store: Store)
    requires GoesOn(page, round, store)
    ensures page != []
  {
  }

  lemma WalkStep(p: Progress, before: Option<Key>, round: nat, limit: nat, store: Store)
    requires limit > 0
    ensures
      var page := Page(p.table, before, limit);
      var walk := Walk(p, before, round, limit, store);
      if GoesOn(page, round, store)
      then walk == Walk(MarkJobs(p, page, store), Some(KeyOf(page[|page| - 1])), round + 1, limit, store)
      else
        && walk.0 == p && walk.1.ListingFailed? == store.listingFails(round)
        && (walk.1.Complete? <==> !store.listingFails(round) && page == [])
  {
    if Page(p.table, before, limit) != [] {
      PageIsDone(p, before, limit, store);
    }
  }

  /** `n` rows of the order `all` were marked before the walk ended. */
  predicate EndsAfter(all: seq<Job>, n: nat, ending: Ending) {
    && n <= |all|
    && (ending.Complete? ==> n == |all|)
    && (n == |all| > 0 ==> all[n - 1].row.updatedAt != 0)
    && (WellKeyed(all) ==> !ending.CannotAdvance?)
  }

  lemma EndsAfterPage(all: seq<Job>, page: seq<Job>, m: nat, ending: Ending)
    requires page != [] && |page| <= |all| && page == all[..|page|] && page[|page| - 1].row.updatedAt != 0
    requires EndsAfter(all[|page|..], m, ending)
    ensures EndsAfter(all, |page| + m, ending)
  {
    var rest := all[|page|..];
    assert WellKeyed(all) ==> WellKeyed(rest);
    assert m > 0 ==> rest[m - 1] == all[|page| + m - 1];
  }

  lemma MarkSplit(p: Progress, all: seq<Job>, k: nat, m: nat, store: Store)
    requires k + m <= |all|
    ensures MarkJobs(p, all[..k + m], store) == MarkJobs(MarkJobs(p, all[..k], store), all[k..][..m], store)
  {
    MarkConcat(p, all[..k], all[k..][..m], store);
    assert all[k..][..m] == all[k..k + m];
    assert all[..k] + all[k..k + m] == all[..k + m];
  }

  lemma MarkedAfterPage(p: Progress, all: seq<Job>, page: seq<Job>, m: nat, walk: (Progress, Ending), store: Store)
    requires page != [] && |page| <= |all| && page == all[..|page|] && page[|page| - 1].row.updatedAt != 0
    requires EndsAfter(all[|page|..], m, walk.1)
    requires walk.0 == MarkJobs(MarkJobs(p, page, store), all[|page|..][..m], store)
    ensures EndsAfter(all, |page| + m, walk.1) && walk.0 == MarkJobs(p, all[..|page| + m], store)
  {
    hide MarkJobs;
    EndsAfterPage(all, page, m, walk.1);
    MarkSplit(p, all, |page|, m, store);
  }

  /** The walk marks the first `n` rows of the order, and stops only for a reason. */
  ghost predicate Follows(p: Progress, before: Option<Key>, round: nat, limit: nat, store: Store, n: nat)
    requires limit > 0
  {
    var walk, all := Walk(p, before, round, limit, store), Descending(p.table, before);
    && EndsAfter(all, n, walk.1)
    && walk.0 == MarkJobs(p, all[..n], store)
    && (AllListed(store) ==> !walk.1.ListingFailed?)
  }

  lemma StopsAtOnce(p: Progress, before: Option<Key>, round: nat, limit: nat, store: Store)
    requires limit > 0 && !GoesOn(Page(p.table, before, limit), round, store)
    ensures Follows(p, before, round, limit, store, 0)
  {
    var all, page := Descending(p.table, before), Page(p.table, before, limit);
    WalkStep(p, before, round, limit, store);
    assert page == [] ==> all == [];
    assert page != [] ==> page[|page| - 1] == all[|page| - 1];
    hide Descending, Selection, Walk, Page;
    MarkNone(p, store);
    assert all[..0] == [];
  }

  lemma ContinuesAfter(p: Progress, before: Option<Key>, round: nat, limit: nat, store: Store, m: nat)
    requires limit > 0
    requires
      var page := Page(p.table, before, limit);
      GoesOn(page, round, store) &&
      Follows(MarkJobs(p, page, store), Some(KeyOf(page[|page| - 1])), round + 1, limit, store, m)
    ensures Follows(p, before, round, limit, store, |Page(p.table, before, limit)| + m)
  {
    hide Descending, MarkJobs, Selection, Walk, Page, EndsAfter, AllListed;
    WalkStep(p, before, round, limit, store);
    PageIsFollowed(p, before, limit, store);
    MarkedAfterPage(p, Descending(p.table, before), Page(p.table, before, limit), m,
                    Walk(p, before, round, limit, store), store);
  }

  /** However the pages fall, the rows are marked in the order they had when the walk began. */
  lemma {:induction false} WalkFollowsOrder(p: Progress, before: Option<Key>, round: nat, limit: nat, store: Store)
    returns (n: nat)
    requires limit > 0
    ensures Follows(p, before, round, limit, store, n)
    decreases |Selection(p.table, before)|
  {
    hide Follows, MarkJobs, Selection, Page, GoesOn;
    var page := Page(p.table, before, limit);
    if GoesOn(page, round, store) {
      assert page != [] by { PageGoesOn(page, round, store); }
      PageIsDone(p, before, limit, store);
      n := WalkFollowsOrder(MarkJobs(p, page, store), Some(KeyOf(page[|page| - 1])), round + 1, limit, store);
      ContinuesAfter(p, before, round, limit, store, n);
      n := |page| + n;
    } else {
      n := 0;
      StopsAtOnce(p, before, round, limit, store);
    }
  }

  // ---------------------------------------------------------------- what recovery achieves

  predicate Distinct(jobs: seq<Job>) {
    forall i, j | 0 <= i < j < |jobs| :: jobs[i].id != jobs[j].id
  }

  /** The row after the k-th attempt. */
  function Outcome(t: Table, id: nat, k: nat, store: Store): Row
    requires id in t
  {
    if store.write(k).Refused? then t[id] else InterruptedRow(t[id], store.clock(k))
  }

  predicate Confirmed(row: Row, write: Write) {
    write.Written? || (write.EventLost? && !row.sourced)
  }

  /** Each job is attempted once; its row is as that write left it, every other row as it was. */
  ghost predicate RowsFollow(t: Table, q: Progress, store: Store) {
    && (forall i, j | 0 <= i < j < |q.attempted| :: q.attempted[i] != q.attempted[j])
    && (forall id :: id in q.table <==> id in t)
    && (forall k | 0 <= k < |q.attempted| ::
          q.attempted[k] in t && q.table[q.attempted[k]] == Outcome(t, q.attempted[k], k, store))
    && (forall id | id in t && id !in q.attempted :: q.table[id] == t[id])
  }

  /** Every attempt is reported: confirmed writes by name, all others in the count of failures. */
  ghost predicate ReportFollows(t: Table, q: Progress, store: Store) {
    && |q.interrupted| + q.failed == |q.attempted|
    && (forall k | 0 <= k < |q.attempted| :: q.attempted[k] in t &&
          (q.attempted[k] in q.interrupted <==> Confirmed(t[q.attempted[k]], store.write(k))))
    && (forall id | id in q.interrupted :: id in q.attempted)
  }

  ghost predicate Attempted(t: Table, q: Progress, store: Store) {
    RowsFollow(t, q, store) && ReportFollows(t, q, store)
  }

  lemma MarkKeepsRows(t: Table, q: Progress, job: Job, store: Store)
    requires RowsFollow(t, q, store) && job.id in t && t[job.id] == job.row && job.id !in q.attempted
    ensures RowsFollow(t, MarkJob(q, job, store), store)
  {
    var n, r := |q.attempted|, MarkJob(q, job, store);
    if job.id != 0 {
      assert r.attempted == q.attempted + [job.id];
      assert r.table[job.id] == Outcome(t, job.id, n, store);
      assert forall id | id in t && id != job.id :: r.table[id] == q.table[id];
      hide MarkJob, Outcome;
      forall k | 0 <= k < |r.attempted|
        ensures r.attempted[k] in t && r.table[r.attempted[k]] == Outcome(t, r.attempted[k], k, store)
      {
        if k < n {
          assert r.attempted[k] == q.attempted[k] && q.attempted[k] in q.attempted;
        }
      }
    }
  }

  lemma MarkKeepsReport(t: Table, q: Progress, job: Job, store: Store)
    requires ReportFollows(t, q, store) && job.id in t && t[job.id] == job.row && job.id !in q.attempted
    ensures ReportFollows(t, MarkJob(q, job, store), store)
  {
    var r := MarkJob(q, job, store);
    assert forall k | 0 <= k < |q.attempted| :: r.attempted[k] == q.attempted[k] && q.attempted[k] in q.attempted;
    assert job.id !in q.interrupted;
  }

  function Ids(jobs: seq<Job>): seq<nat> {
    if jobs == [] then []
    else if jobs[|jobs| - 1].id == 0 then Ids(jobs[..|jobs| - 1])
    else Ids(jobs[..|jobs| - 1]) + [jobs[|jobs| - 1].id]
  }

  lemma {:induction false} IdsOf(jobs: seq<Job>, id: nat)
    ensures id in Ids(jobs) <==> id != 0 && exists i :: 0 <= i < |jobs| && jobs[i].id == id
    decreases |jobs|
  {
    if jobs != [] {
      var n := |jobs| - 1;
      IdsOf(jobs[..n], id);
      if id in Ids(jobs[..n]) {
        var i :| 0 <= i < n && jobs[..n][i].id == id;
        assert jobs[i].id == id;
      }
      if jobs[n].id != id && id in Ids(jobs) {
        assert id in Ids(jobs[..n]);
      }
      if i :| 0 <= i < n && jobs[i].id == id {
        assert jobs[..n][i].id == id;
      }
    }
  }

  lemma {:induction false} MarkingAttempts(t: Table, jobs: seq<Job>, store: Store)
    requires Listed(t, jobs) && Distinct(jobs)
    ensures
      var q := MarkJobs(Progress(t, [], [], 0), jobs, store);
      Attempted(t, q, store) && q.attempted == Ids(jobs)
    decreases |jobs|
  {
    if jobs != [] {
      hide RowsFollow, ReportFollows, Ids, MarkJobs, MarkJob;
      var n := |jobs| - 1;
      var front := jobs[..n];
      assert Listed(t, front) && Distinct(front);
      MarkingAttempts(t, front, store);
      NotAmong(jobs);
      var q := MarkJobs(Progress(t, [], [], 0), front, store);
      MarkKeepsRows(t, q, jobs[n], store);
      MarkKeepsReport(t, q, jobs[n], store);
      MarkLast(t, jobs, store);
    }
  }

  lemma NotAmong(jobs: seq<Job>)
    requires jobs != [] && Distinct(jobs)
    ensures jobs[|jobs| - 1].id !in Ids(jobs[..|jobs| - 1])
  {
    hide Ids;
    IdsOf(jobs[..|jobs| - 1], jobs[|jobs| - 1].id);
  }

  lemma MarkLast(t: Table, jobs: seq<Job>, store: Store)
    requires jobs != []
    ensures
      var p, n := Progress(t, [], [], 0), |jobs| - 1;
      var q := MarkJobs(p, jobs[..n], store);
      && MarkJobs(p, jobs, store) == MarkJob(q, jobs[n], store)
      && (q.attempted == Ids(jobs[..n]) ==> MarkJob(q, jobs[n], store).attempted == Ids(jobs))
  {
  }

  predicate Ordered(t: Table, ids: seq<nat>) {
    && (forall k | 0 <= k < |ids| :: ids[k] in t)
    && (forall i, j | 0 <= i < j < |ids| :: Below(KeyOf(Job(ids[j], t[ids[j]])), KeyOf(Job(ids[i], t[ids[i]]))))
  }

  lemma {:induction false} IdsInOrder(t: Table, jobs: seq<Job>)
    requires Listed(t, jobs)
    requires forall i, j | 0 <= i < j < |jobs| :: Below(KeyOf(jobs[j]), KeyOf(jobs[i]))
    ensures Ordered(t, Ids(jobs))
    decreases |jobs|
  {
    if jobs != [] {
      var n := |jobs| - 1;
      var ids := Ids(jobs[..n]);
      IdsInOrder(t, jobs[..n]);
      forall i | 0 <= i < |ids|
        ensures Below(KeyOf(jobs[n]), KeyOf(Job(ids[i], t[ids[i]])))
      {
        IdsOf(jobs[..n], ids[i]);
        var k :| 0 <= k < n && jobs[..n][k].id == ids[i];
        assert jobs[k] == Job(ids[i], t[ids[i]]);
      }
    }
  }

  lemma OrderIsDistinct(t: Table, n: nat)
    requires n <= |Descending(t, None)|
    ensures Listed(t, Descending(t, None)[..n]) && Distinct(Descending(t, None)[..n])
    ensures Distinct(Descending(t, None))
  {
    DescendingIsOrdered(t, None);
    hide Descending;
  }

  /**
   Whatever fails, in any table and for any page size: each stale job is attempted at most once, in the
   order of the table as it was at the start; only attempted rows change, each as its own write ended.
   */
  lemma EachAttemptedAtMostOnce(t: Table, limit: nat, store: Store)
    requires limit > 0
    ensures
      var q := Recovered(t, limit, store).0;
      && Attempted(t, q, store) && Ordered(t, q.attempted)
      && (forall id | id in q.attempted :: Stale(t[id]) && id != 0)
  {
    var n := WalkFollowsOrder(Progress(t, [], [], 0), None, 0, limit, store);
    var jobs := Descending(t, None)[..n];
    OrderIsDistinct(t, n);
    MarkingAttempts(t, jobs, store);
    DescendingIsOrdered(t, None);
    hide Descending, MarkJobs, Walk, RowsFollow, ReportFollows;
    IdsInOrder(t, jobs);
    forall id | id in Ids(jobs)
      ensures Stale(t[id]) && id != 0
    {
      IdsOf(jobs, id);
    }
  }

  /**
   The k-th attempt, whatever fails: a refused write leaves its row and is not reported as recovered; any
   other leaves the row interrupted and not paused, and is reported unless the status event of a job with a
   source was lost. All that is not reported as recovered counts as a failure.
   */
  lemma AttemptMeans(t: Table, limit: nat, store: Store, k: nat)
    requires limit > 0
    ensures
      var q := Recovered(t, limit, store).0;
      && |q.interrupted| + q.failed == |q.attempted|
      && (k < |q.attempted| ==>
            var id := q.attempted[k];
            && id in t && id in q.table && (t[id].status == Running || t[id].status == Cancelling)
            && (store.write(k) == Refused ==> q.table[id] == t[id] && id !in q.interrupted)
            && (store.write(k) != Refused ==>
                  q.table[id] == t[id].(updatedAt := store.clock(k), status := Interrupted, paused := false))
            && (store.write(k) == EventLost ==> (id in q.interrupted <==> !t[id].sourced))
            && (store.write(k) == Written ==> id in q.interrupted))
  {
    hide Recovered, Ordered;
    EachAttemptedAtMostOnce(t, limit, store);
    var q := Recovered(t, limit, store).0;
    if k < |q.attempted| {
      assert q.attempted[k] in q.attempted;
    }
  }

  predicate WellKeyedRows(t: Table) {
    forall id | id in t && Stale(t[id]) :: id != 0 && t[id].updatedAt != 0
  }

  lemma RowsAreWellKeyed(t: Table)
    ensures WellKeyedRows(t) <==> WellKeyed(Descending(t, None))
  {
    DescendingIsOrdered(t, None);
    forall id | id in t && Stale(t[id])
      ensures Job(id, t[id]) in Descending(t, None)
    {
      DescendingListsAll(t, None, id);
    }
    hide Descending;
    if WellKeyed(Descending(t, None)) {
      forall id | id in t && Stale(t[id])
        ensures id != 0 && t[id].updatedAt != 0
      {
        var i :| 0 <= i < |Descending(t, None)| && Descending(t, None)[i] == Job(id, t[id]);
      }
    }
  }

  /** With every listing answered and no empty key, the walk marks the whole order, whatever the page size. */
  lemma PageSizeDoesNotMatter(t: Table, limit: nat, store: Store)
    requires limit > 0 && WellKeyedRows(t) && AllListed(store)
    ensures Recovered(t, limit, store) == (MarkJobs(Progress(t, [], [], 0), Descending(t, None), store), Complete)
  {
    RowsAreWellKeyed(t);
    var n := WalkFollowsOrder(Progress(t, [], [], 0), None, 0, limit, store);
    assert Descending(t, None)[..|Descending(t, None)|] == Descending(t, None);
  }

  lemma CoveredMeansWellKeyed(all: seq<Job>, n: nat)
    requires n <= |all| && Distinct(all)
    requires forall i, j | 0 <= i < j < |all| :: Below(KeyOf(all[j]), KeyOf(all[i]))
    requires n == |all| > 0 ==> all[n - 1].row.updatedAt != 0
    requires forall i | 0 <= i < |all| :: all[i].id in Ids(all[..n])
    ensures WellKeyed(all)
  {
    hide Ids, Below, KeyOf;
    if all != [] {
      LastIsCovered(all, n);
      forall i | 0 <= i < |all|
        ensures all[i].id != 0 && all[i].row.updatedAt != 0
      {
        IdsOf(all[..n], all[i].id);
        NotBelowEmpty(all[|all| - 1], all[i]);
      }
    }
  }

  lemma LastIsCovered(all: seq<Job>, n: nat)
    requires 0 < |all| && n <= |all| && Distinct(all) && all[|all| - 1].id in Ids(all[..n])
    ensures n == |all|
  {
    hide Ids;
    var last := |all| - 1;
    IdsOf(all[..n], all[last].id);
    var k :| 0 <= k < n && all[..n][k].id == all[last].id;
    assert k == last;
  }

  lemma NotBelowEmpty(a: Job, b: Job)
    requires a == b || Below(KeyOf(a), KeyOf(b))
    ensures a.row.updatedAt != 0 ==> b.row.updatedAt != 0
  {
  }

  lemma StaleAreListed(t: Table, ids: seq<nat>)
    ensures (forall id | id in t && Stale(t[id]) :: id in ids) <==>
      (forall i | 0 <= i < |Descending(t, None)| :: Descending(t, None)[i].id in ids)
  {
    var all := Descending(t, None);
    DescendingIsOrdered(t, None);
    forall id | id in t && Stale(t[id])
      ensures exists i :: 0 <= i < |all| && all[i].id == id
    {
      DescendingListsAll(t, None, id);
      var i :| 0 <= i < |all| && all[i] == Job(id, t[id]);
    }
  }

  lemma RecoveryAttempts(t: Table, limit: nat, store: Store) returns (n: nat)
    requires limit > 0
    ensures EndsAfter(Descending(t, None), n, Recovered(t, limit, store).1)
    ensures Recovered(t, limit, store).0.attempted == Ids(Descending(t, None)[..n])
    ensures AllListed(store) ==> !Recovered(t, limit, store).1.ListingFailed?
  {
    n := WalkFollowsOrder(Progress(t, [], [], 0), None, 0, limit, store);
    OrderIsDistinct(t, n);
    MarkingAttempts(t, Descending(t, None)[..n], store);
  }

  /** When every listing is answered: all stale jobs are attempted exactly when none has an empty id or time stamp. */
  lemma AllAttemptedIff(t: Table, limit: nat, store: Store)
    requires limit > 0 && AllListed(store)
    ensures
      (forall id | id in t && Stale(t[id]) :: id in Recovered(t, limit, store).0.attempted) <==> WellKeyedRows(t)
  {
    var all := Descending(t, None);
    var n := RecoveryAttempts(t, limit, store);
    OrderIsDistinct(t, n);
    DescendingIsOrdered(t, None);
    RowsAreWellKeyed(t);
    StaleAreListed(t, Ids(all[..n]));
    hide Descending, MarkJobs, Walk, Ids, Stale, Recovered, Selection, Highest, Below, RowsFollow, ReportFollows, WellKeyedRows;
    if WellKeyed(all) {
      assert n == |all| && all[..n] == all;
      forall i | 0 <= i < |all|
        ensures all[i].id in Ids(all)
      {
        IdsOf(all, all[i].id);
      }
    }
    if forall i | 0 <= i < |all| :: all[i].id in Ids(all[..n]) {
      CoveredMeansWellKeyed(all, n);
    }
  }

  // ---------------------------------------------------------------- what a badly keyed row costs

  predicate Keyed(job: Job) {
    job.id != 0 && job.row.updatedAt != 0
  }

  /** How many rows of the order lie in the pages before the first that ends in a badly keyed row. */
  function Processed(all: seq<Job>, limit: nat): (n: nat)
    requires limit > 0
    ensures n <= |all|
  {
    if all == [] then 0
    else
      var k := Min(limit, |all|);
      if Keyed(all[k - 1]) then k + Processed(all[k..], limit) else 0
  }

  /** Every page up to the one of row `i` ends in a row with an id and a time stamp. */
  predicate PagesEndWell(all: seq<Job>, limit: nat, i: nat)
    requires limit > 0 && i < |all|
  {
    var k := Min(limit, |all|);
    Keyed(all[k - 1]) && (i < k || PagesEndWell(all[k..], limit, i - k))
  }

  lemma {:induction false} ProcessedIff(all: seq<Job>, limit: nat, i: nat)
    requires limit > 0 && i < |all|
    ensures i < Processed(all, limit) <==> PagesEndWell(all, limit, i)
    decreases |all|
  {
    var k := Min(limit, |all|);
    if i >= k {
      ProcessedIff(all[k..], limit, i - k);
    }
  }

  lemma ProcessedStep(t: Table, before: Option<Key>, round: nat, limit: nat, store: Store)
    requires limit > 0 && AllListed(store)
    ensures
      var all, page := Descending(t, before), Page(t, before, limit);
      && |page| <= |all|
      && Processed(all, limit) == if GoesOn(page, round, store) then |page| + Processed(all[|page|..], limit) else 0
  {
    hide Descending;
    var all, page := Descending(t, before), Page(t, before, limit);
    assert all != [] ==> page[|page| - 1] == all[|page| - 1];
  }

  ghost predicate MarksProcessed(p: Progress, before: Option<Key>, round: nat, limit: nat, store: Store)
    requires limit > 0
  {
    var all := Descending(p.table, before);
    Walk(p, before, round, limit, store).0 == MarkJobs(p, all[..Processed(all, limit)], store)
  }

  lemma MarksNothing(p: Progress, before: Option<Key>, round: nat, limit: nat, store: Store)
    requires limit > 0 && AllListed(store) && !GoesOn(Page(p.table, before, limit), round, store)
    ensures MarksProcessed(p, before, round, limit, store)
  {
    hide Descending, MarkJobs, Selection, Walk, Page, Processed, GoesOn;
    ProcessedStep(p.table, before, round, limit, store);
    WalkStep(p, before, round, limit, store);
    MarkNone(p, store);
    assert Descending(p.table, before)[..0] == [];
  }

  lemma MarksPage(p: Progress, before: Option<Key>, round: nat, limit: nat, store: Store)
    requires limit > 0 && AllListed(store)
    requires
      var page := Page(p.table, before, limit);
      GoesOn(page, round, store) &&
      MarksProcessed(MarkJobs(p, page, store), Some(KeyOf(page[|page| - 1])), round + 1, limit, store)
    ensures MarksProcessed(p, before, round, limit, store)
  {
    hide Descending, MarkJobs, Selection, Walk, Page, Processed;
    var all, page := Descending(p.table, before), Page(p.table, before, limit);
    ProcessedStep(p.table, before, round, limit, store);
    WalkStep(p, before, round, limit, store);
    PageIsFollowed(p, before, limit, store);
    MarkSplit(p, all, |page|, Processed(all[|page|..], limit), store);
  }

  lemma {:induction false} WalkMarks(p: Progress, before: Option<Key>, round: nat, limit: nat, store: Store)
    requires limit > 0 && AllListed(store)
    ensures MarksProcessed(p, before, round, limit, store)
    decreases |Selection(p.table, before)|
  {
    hide MarksProcessed, MarkJobs, Selection, Page, GoesOn;
    var page := Page(p.table, before, limit);
    if GoesOn(page, round, store) {
      PageGoesOn(page, round, store);
      PageIsDone(p, before, limit, store);
      WalkMarks(MarkJobs(p, page, store), Some(KeyOf(page[|page| - 1])), round + 1, limit, store);
      MarksPage(p, before, round, limit, store);
    } else {
      MarksNothing(p, before, round, limit, store);
    }
  }

  /**
   When every listing is answered: a stale job is attempted exactly when it has an id, and every page up to
   its own, in the order of the table at the start, ends in a row that has an id and a time stamp.
   */
  lemma AttemptedByPages(t: Table, limit: nat, store: Store, i: nat)
    requires limit > 0 && AllListed(store) && i < |Descending(t, None)|
    ensures
      var all := Descending(t, None);
      all[i].id in Recovered(t, limit, store).0.attempted <==> all[i].id != 0 && PagesEndWell(all, limit, i)
  {
    var all := Descending(t, None);
    var n := Processed(all, limit);
    WalkMarks(Progress(t, [], [], 0), None, 0, limit, store);
    OrderIsDistinct(t, n);
    MarkingAttempts(t, all[..n], store);
    ProcessedIff(all, limit, i);
    hide Descending, MarkJobs, Walk, Processed, PagesEndWell, Ids, RowsFollow, ReportFollows;
    AmongFirst(all, n, i);
  }

  lemma AmongFirst(all: seq<Job>, n: nat, i: nat)
    requires n <= |all| && i < |all| && Distinct(all)
    ensures all[i].id in Ids(all[..n]) <==> all[i].id != 0 && i < n
  {
    IdsOf(all[..n], all[i].id);
    hide Ids;
    if k :| 0 <= k < n && all[..n][k].id == all[i].id {
      assert k == i;
    }
    if i < n {
      assert all[..n][i].id == all[i].id;
    }
  }

  /** One stale job with an empty time stamp keeps all others from recovery, as long as they fit a page. */
  lemma EmptyStampLosesAll(t: Table, limit: nat, store: Store, id: nat, other: nat)
    requires limit > 0 && AllListed(store) && |Descending(t, None)| <= limit
    requires id in t && Stale(t[id]) && t[id].updatedAt == 0 && other in t && Stale(t[other])
    ensures other !in Recovered(t, limit, store).0.attempted
  {
    var all := Descending(t, None);
    DescendingIsOrdered(t, None);
    DescendingListsAll(t, None, id);
    DescendingListsAll(t, None, other);
    hide Descending, Recovered;
    var last := |all| - 1;
    var k :| 0 <= k < |all| && all[k] == Job(id, t[id]);
    var i :| 0 <= i < |all| && all[i] == Job(other, t[other]);
    assert k == last || Below(KeyOf(all[last]), KeyOf(all[k]));
    AttemptedByPages(t, limit, store, i);
  }

  /** Recovery's purpose: with no failure and no empty key, no job is left running or cancelling, and each is reported. */
  lemma NoneLeftRunning(t: Table, limit: nat, store: Store)
    requires limit > 0 && WellKeyedRows(t)
    requires AllListed(store) && forall k :: store.write(k).Written?
    ensures
      var (q, ending) := Recovered(t, limit, store);
      && ending.Complete? && q.failed == 0
      && (forall id :: id in q.table <==> id in t)
      && (forall id | id in t && (t[id].status == Running || t[id].status == Cancelling) ::
            q.table[id].status == Interrupted && !q.table[id].paused && q.table[id].owner == t[id].owner)
      && (forall id | id in t && t[id].status != Running && t[id].status != Cancelling :: q.table[id] == t[id])
      && (forall id :: id in q.interrupted <==> id in t && (t[id].status == Running || t[id].status == Cancelling))
  {
    hide Descending, MarkJobs, Walk, Recovered, ReportFollows, Ordered;
    AllAttemptedIff(t, limit, store);
    EachAttemptedAtMostOnce(t, limit, store);
    PageSizeDoesNotMatter(t, limit, store);
    NoFailureCounted(Progress(t, [], [], 0), Descending(t, None), store);
    WrittenAreInterrupted(t, Recovered(t, limit, store).0, store);
  }

  lemma WrittenAreInterrupted(t: Table, q: Progress, store: Store)
    requires Attempted(t, q, store) && forall k :: store.write(k).Written?
    ensures forall id :: id in q.interrupted <==> id in q.attempted
    ensures forall id :: id in q.table <==> id in t
    ensures forall id | id in t ::
      if id in q.attempted
      then q.table[id].status.Interrupted? && !q.table[id].paused && q.table[id].owner == t[id].owner
      else q.table[id] == t[id]
  {
    forall id | id in q.attempted
      ensures id in q.interrupted && id in t
      ensures q.table[id].status.Interrupted? && !q.table[id].paused && q.table[id].owner == t[id].owner
    {
      var k :| 0 <= k < |q.attempted| && q.attempted[k] == id;
    }
  }

  lemma {:induction false} NoFailureCounted(p: Progress, jobs: seq<Job>, store: Store)
    requires forall k :: store.write(k).Written?
    ensures MarkJobs(p, jobs, store).failed == p.failed
    decreases |jobs|
  {
    if jobs != [] {
      NoFailureCounted(p, jobs[..|jobs| - 1], store);
    }
  }

  // ---------------------------------------------------------------- the loop over the store

  lemma HighestIsHighest(t: Table, before: Option<Key>, id: nat)
    requires IsHighest(t, Selection(t, before), id)
    ensures Selection(t, before) != {} && Highest(t, before) == id
  {
    OneHighest(t, Selection(t, before), id, Highest(t, before));
  }

  lemma OneHighest(t: Table, ids: set<nat>, a: nat, b: nat)
    requires (forall k | k in ids :: k in t) && IsHighest(t, ids, a) && IsHighest(t, ids, b)
    ensures a == b
  {
    var x, y := KeyOf(Job(a, t[a])), KeyOf(Job(b, t[b]));
    assert Below(x, y) || a == b;
  }

  lemma DescendingStartsAt(t: Table, before: Option<Key>, id: nat)
    requires IsHighest(t, Selection(t, before), id)
    ensures
      var job := Job(id, t[id]);
      Descending(t, before) == [job] + Descending(t, Some(KeyOf(job)))
  {
    HighestIsHighest(t, before, id);
    DescendingStep(t, before);
  }

  lemma Regroup(all: seq<Job>, jobs: seq<Job>, job: Job, rest: seq<Job>)
    requires all == jobs + ([job] + rest)
    ensures all == jobs + [job] + rest
  {
  }

  lemma PageIsFirst(t: Table, before: Option<Key>, limit: nat, jobs: seq<Job>, rest: seq<Job>)
    requires Descending(t, before) == jobs + rest && |jobs| <= limit && (|jobs| == limit || rest == [])
    ensures Page(t, before, limit) == jobs
  {
    hide Descending;
    assert (jobs + rest)[..|jobs|] == jobs;
  }

  lemma DescendingEnds(t: Table, before: Option<Key>)
    requires Selection(t, before) == {}
    ensures Descending(t, before) == []
  {
  }

  lemma MarkNext(p: Progress, jobs: seq<Job>, k: nat, store: Store)
    requires k < |jobs|
    ensures MarkJobs(p, jobs[..k + 1], store) == MarkJob(MarkJobs(p, jobs[..k], store), jobs[k], store)
  {
    assert jobs[..k + 1][..k] == jobs[..k];
  }

  class RuntimeStateStore {
    var rows: Table
    const answers: Store

    constructor (rows: Table, answers: Store)
      ensures this.rows == rows && this.answers == answers
    {
      this.rows := rows;
      this.answers := answers;
    }

    method HighestBelow(before: Option<Key>) returns (top: Option<Job>)
      ensures top.None? <==> Selection(rows, before) == {}
      ensures top.Some? ==> IsHighest(rows, Selection(rows, before), top.value.id) && top.value.row == rows[top.value.id]
    {
      top := None;
      var ids := rows.Keys;
      while ids != {}
        invariant ids <= rows.Keys
        invariant top.None? ==> forall id | id in rows && id !in ids :: !Selected(rows, before, id)
        invariant top.Some? ==>
          && top.value.id in rows && top.value.id !in ids && Selected(rows, before, top.value.id)
          && top.value.row == rows[top.value.id]
          && forall id | id in rows && id !in ids && Selected(rows, before, id) && id != top.value.id ::
               Below(KeyOf(Job(id, rows[id])), KeyOf(top.value))
        decreases |ids|
      {
        var id :| id in ids;
        ids := ids - {id};
        if Selected(rows, before, id) && (top.None? || Below(KeyOf(top.value), KeyOf(Job(id, rows[id])))) {
          top := Some(Job(id, rows[id]));
        }
      }
      if top.Some? {
        assert top.value.id in Selection(rows, before);
      }
    }

    /** `list_jobs` for the stale statuses; the n-th listing may fail. */
    method ListJobs(before: Option<Key>, limit: nat, round: nat) returns (page: Option<seq<Job>>)
      ensures page == if answers.listingFails(round) then None else Some(Page(rows, before, limit))
    {
      if answers.listingFails(round) {
        return None;
      }
      var jobs: seq<Job> := [];
      var cursor := before;
      ghost var rest := Descending(rows, before);
      hide Descending, Selection, Selected, IsHighest, Page;
      assert [] + rest == rest;
      while |jobs| < limit
        invariant |jobs| <= limit && rest == Descending(rows, cursor)
        invariant Descending(rows, before) == jobs + rest
      {
        var top := HighestBelow(cursor);
        if top.None? {
          DescendingEnds(rows, cursor);
          break;
        }
        DescendingStartsAt(rows, cursor, top.value.id);
        cursor := Some(KeyOf(top.value));
        rest := Descending(rows, cursor);
        Regroup(Descending(rows, before), jobs, top.value, rest);
        jobs := jobs + [top.value];
      }
      PageIsFirst(rows, before, limit, jobs, rest);
      page := Some(jobs);
    }

    /** `upsert_job` to interrupted, and the status event of a job that has a source. */
    method MarkInterrupted(job: Job, n: nat) returns (ok: bool)
      modifies this
      ensures ok <==> Confirmed(job.row, answers.write(n))
      ensures rows ==
        if answers.write(n).Refused? then old(rows) else old(rows)[job.id := InterruptedRow(job.row, answers.clock(n))]
    {
      if answers.write(n).Refused? {
        return false;
      }
      rows := rows[job.id := InterruptedRow(job.row, answers.clock(n))];
      ok := !(job.row.sourced && answers.write(n).EventLost?);
    }
  }

  method ReconcilePage(store: RuntimeStateStore, page: seq<Job>, attempts: nat, ghost p: Progress)
    returns (marked: seq<nat>, failures: nat, tries: nat, ghost q: Progress)
    requires p.table == store.rows && |p.attempted| == attempts
    modifies store
    ensures q == MarkJobs(p, page, store.answers)
    ensures q.table == store.rows && |q.attempted| == tries
    ensures q.interrupted == p.interrupted + marked && q.failed == p.failed + failures
  {
    marked, failures, tries, q := [], 0, attempts, p;
    MarkNone(p, store.answers);
    assert page[..0] == [];
    for k := 0 to |page|
      invariant q == MarkJobs(p, page[..k], store.answers)
      invariant q.table == store.rows && |q.attempted| == tries
      invariant q.interrupted == p.interrupted + marked && q.failed == p.failed + failures
    {
      MarkNext(p, page, k, store.answers);
      hide MarkJobs;
      var job := page[k];
      q := MarkJob(q, job, store.answers);
      if job.id == 0 {
        continue;
      }
      var ok := store.MarkInterrupted(job, tries);
      tries := tries + 1;
      if ok {
        marked := marked + [job.id];
      } else {
        failures := failures + 1;
      }
    }
    assert page[..|page|] == page;
  }

  datatype Report = Report(ok: bool, failedJobs: nat, listingError: bool)

  /** `reconcile_interrupted_jobs`: it ends on every table, and does what `Recovered` says. */
  method ReconcileInterruptedJobs(store: RuntimeStateStore, limit: nat) returns (interrupted: seq<nat>, report: Report)
    requires limit > 0
    modifies store
    ensures
      var (q, ending) := Recovered(old(store.rows), limit, store.answers);
      && store.rows == q.table && interrupted == q.interrupted
      && report == Report(ending.Complete? && q.failed == 0, q.failed, !ending.Complete?)
  {
    interrupted, report := [], Report(true, 0, false);
    var before: Option<Key> := None;
    var round, attempts := 0, 0;
    ghost var p := Progress(store.rows, [], [], 0);
    ghost var goal := Recovered(store.rows, limit, store.answers);
    while true
      invariant p.table == store.rows && |p.attempted| == attempts && p.interrupted == interrupted
      invariant report == Report(p.failed == 0, p.failed, false)
      invariant Walk(p, before, round, limit, store.answers) == goal
      decreases |Selection(store.rows, before)|
    {
      var listed := store.ListJobs(before, limit, round);
      if listed.None? {
        report := report.(ok := false, listingError := true);
        break;
      }
      var page := listed.value;
      if page == [] {
        break;
      }
      var last := KeyOf(page[|page| - 1]);
      if last.at == 0 || last.id == 0 || before == Some(last) {
        report := report.(ok := false, listingError := true);
        break;
      }
      PageIsDone(p, before, limit, store.answers);
      hide MarkJobs, Page;
      var marked, failures, tries;
      marked, failures, tries, p := ReconcilePage(store, page, attempts, p);
      interrupted, attempts, round := interrupted + marked, tries, round + 1;
      report := Report(report.ok && failures == 0, report.failedJobs + failures, false);
      before := Some(last);
    }
  }
}

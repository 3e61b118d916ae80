/**
 The diff summaries kept in the scan index: refreshing only the newest scan of a target, save after save,
 against rebuilding them all. Strings are numbers, 0 the empty one; scan files and their comparison are
 inputs, fixed while scans are saved.
 */
module DiffRefresh {
  import opened Wrappers

  datatype Comparison = Unreadable | Same | Changed(differences: nat)

  /** Which scans have an XML file, and what comparing the files of two scans gives. */
  datatype Scans = Scans(xml: nat -> bool, compare: (nat, nat) -> Comparison)

  datatype Summary = Summary(differences: nat, baselinePath: nat, baselineTime: int)

  datatype Entry = Entry(path: nat, customer: nat, target: nat, time: int, summary: Option<Summary>, computed: bool)

  type Index = seq<Entry>

  /** A scan against the one before it: the first has nothing to compare, an unreadable file leaves it uncomputed. */
  function Assessed(e: Entry, previous: Option<Entry>, scans: Scans): (a: Entry)
    ensures a.(summary := e.summary, computed := e.computed) == e
    ensures a.summary.Some? ==> a.computed && previous.Some? && a.summary.value.baselinePath == previous.value.path
    ensures !a.computed && scans.xml(e.path) ==>
      previous.Some? && (scans.xml(previous.value.path) ==> scans.compare(e.path, previous.value.path).Unreadable?)
  {
    if previous.None? then e.(summary := None, computed := true)
    else if !scans.xml(e.path) || !scans.xml(previous.value.path) then e.(summary := None, computed := false)
    else match scans.compare(e.path, previous.value.path)
      case Unreadable => e.(summary := None, computed := false)
      case Same => e.(summary := None, computed := true)
      case Changed(d) => e.(summary := Some(Summary(d, previous.value.path, previous.value.time)), computed := true)
  }

  // ---------------------------------------------------------------- the scans of one customer and target

  predicate Matches(e: Entry, customer: nat, target: nat) {
    e.customer == customer && e.target == target
  }

  function Relevant(entries: Index, customer: nat, target: nat): Index {
    if entries == [] then []
    else if Matches(entries[0], customer, target) then [entries[0]] + Relevant(entries[1..], customer, target)
    else Relevant(entries[1..], customer, target)
  }

  /** Before all entries that are not earlier. */
  function InsertByTime(sorted: Index, e: Entry): Index {
    if sorted != [] && sorted[0].time < e.time then [sorted[0]] + InsertByTime(sorted[1..], e) else [e] + sorted
  }

  /** Python's stable sort by time stamp. */
  function ByTime(entries: Index): Index {
    if entries == [] then [] else InsertByTime(ByTime(entries[1..]), entries[0])
  }

  function Group(entries: Index, customer: nat, target: nat): Index {
    ByTime(Relevant(entries, customer, target))
  }

  // ---------------------------------------------------------------- refreshing

  function Before(group: Index, k: nat): Option<Entry>
    requires k < |group|
  {
    if k == 0 then None else Some(group[k - 1])
  }

  /** The entries of a group from `first` to before `n`, assessed, by path. */
  function Updates(group: Index, first: nat, n: nat, scans: Scans): map<nat, Entry>
    requires n <= |group|
  {
    if n <= first then map[]
    else Updates(group, first, n - 1, scans)[group[n - 1].path := Assessed(group[n - 1], Before(group, n - 1), scans)]
  }

  function Merged(entries: Index, updates: map<nat, Entry>): (merged: Index)
    ensures |merged| == |entries|
    ensures forall i | 0 <= i < |entries| ::
      merged[i] == if entries[i].path in updates then updates[entries[i].path] else entries[i]
  {
    seq(|entries|, i requires 0 <= i < |entries| =>
      if entries[i].path in updates then updates[entries[i].path] else entries[i])
  }

  function Refreshed(entries: Index, customer: nat, target: nat, full: bool, scans: Scans): Index {
    if customer == 0 || target == 0 then entries
    else
      var group := Group(entries, customer, target);
      var first := if full || group == [] then 0 else |group| - 1;
      Merged(entries, Updates(group, first, |group|, scans))
  }

  // ---------------------------------------------------------------- saving a scan

  function Without(entries: Index, path: nat): Index {
    if entries == [] then []
    else if entries[0].path == path then Without(entries[1..], path)
    else [entries[0]] + Without(entries[1..], path)
  }

  /** The place of a new entry in the index, which is kept latest first, and stable. */
  function InsertLatestFirst(entries: Index, e: Entry): Index {
    if entries != [] && entries[0].time >= e.time then [entries[0]] + InsertLatestFirst(entries[1..], e)
    else [e] + entries
  }

  /** `upsert_scan_metadata_index_entry` */
  function Upserted(entries: Index, e: Entry): Index {
    InsertLatestFirst(Without(entries, e.path), e)
  }

  function Saved(entries: Index, e: Entry, full: bool, scans: Scans): Index {
    Refreshed(Upserted(entries, e), e.customer, e.target, full, scans)
  }

  class ScanIndex {
    var entries: Index
    const scans: Scans

    constructor (scans: Scans)
      ensures entries == [] && this.scans == scans
    {
      entries := [];
      this.scans := scans;
    }

    method Upsert(e: Entry)
      modifies this`entries
      ensures entries == Upserted(old(entries), e)
    {
      var kept: Index := [];
      for i := 0 to |entries|
        invariant Without(entries, e.path) == kept + Without(entries[i..], e.path)
      {
        assert entries[i..][1..] == entries[i + 1..];
        if entries[i].path != e.path {
          kept := kept + [entries[i]];
        }
      }
      assert kept + [] == kept;
      entries := InsertLatestFirst(kept, e);
    }

    /** Saving a finished scan: its entry, then the refresh of its group. */
    method SaveScan(e: Entry)
      modifies this`entries
      ensures entries == Saved(old(entries), e, false, scans)
    {
      Upsert(e);
      RefreshPersistedDiffSummaries(e.customer, e.target, false);
    }

    method RelevantEntries(customer: nat, target: nat) returns (group: Index)
      ensures group == Group(entries, customer, target)
    {
      var relevant: Index := [];
      for i := 0 to |entries|
        invariant Relevant(entries, customer, target) == relevant + Relevant(entries[i..], customer, target)
      {
        assert entries[i..][1..] == entries[i + 1..];
        if Matches(entries[i], customer, target) {
          relevant := relevant + [entries[i]];
        }
      }
      assert relevant + [] == relevant;
      group := ByTime(relevant);
    }

    /** `refresh_persisted_diff_summaries` */
    method RefreshPersistedDiffSummaries(customer: nat, target: nat, full: bool)
      modifies this`entries
      ensures entries == Refreshed(old(entries), customer, target, full, scans)
    {
      if customer == 0 || target == 0 {
        return;
      }
      var group := RelevantEntries(customer, target);
      var first := 0;
      var previous: Option<Entry> := None;
      if !full && group != [] {
        first := |group| - 1;
        if |group| > 1 {
          previous := Some(group[|group| - 2]);
        }
      }
      var updated: map<nat, Entry> := map[];
      for k := first to |group|
        invariant updated == Updates(group, first, k, scans)
        invariant k == 0 <==> previous.None?
        invariant k > 0 ==> previous.value.path == group[k - 1].path && previous.value.time == group[k - 1].time
      {
        var entry := Assessed(group[k], previous, scans);
        assert entry == Assessed(group[k], Before(group, k), scans);
        updated := updated[group[k].path := entry];
        previous := Some(entry);
      }
      if updated == map[] {
        assert Merged(entries, updated) == entries;
        return;
      }
      var merged: Index := [];
      for i := 0 to |entries|
        invariant merged == Merged(entries, updated)[..i]
      {
        merged := merged + [if entries[i].path in updated then updated[entries[i].path] else entries[i]];
      }
      entries := merged;
    }
  }

  // ---------------------------------------------------------------- refreshing the newest is enough

  /** Scans in the index are strictly latest first, and no path occurs twice. */
  ghost predicate Chronological(entries: Index) {
    && (forall i, j | 0 <= i < j < |entries| :: entries[j].time < entries[i].time)
    && (forall i, j | 0 <= i < j < |entries| :: entries[i].path != entries[j].path)
  }

  /** Every scan of the group carries its comparison with the scan before it. */
  ghost predicate UpToDate(group: Index, scans: Scans) {
    forall k | 0 <= k < |group| :: group[k] == Assessed(group[k], Before(group, k), scans)
  }

  lemma {:induction false} InsertAtEnd(sorted: Index, e: Entry)
    requires forall i | 0 <= i < |sorted| :: sorted[i].time < e.time
    ensures InsertByTime(sorted, e) == sorted + [e]
  {
    if sorted != [] {
      InsertAtEnd(sorted[1..], e);
    }
  }

  lemma {:induction false} InsertMembers(sorted: Index, e: Entry, x: Entry)
    ensures x in InsertByTime(sorted, e) <==> x == e || x in sorted
  {
    if sorted != [] && sorted[0].time < e.time {
      InsertMembers(sorted[1..], e, x);
    }
  }

  lemma {:induction false} GroupMembers(entries: Index, customer: nat, target: nat, x: Entry)
    ensures x in Group(entries, customer, target) <==> x in entries && Matches(x, customer, target)
  {
    if entries != [] {
      GroupMembers(entries[1..], customer, target, x);
      if Matches(entries[0], customer, target) {
        GroupHead(entries, customer, target);
        InsertMembers(Group(entries[1..], customer, target), entries[0], x);
      }
    }
  }

  lemma GroupHead(entries: Index, customer: nat, target: nat)
    requires entries != []
    ensures Group(entries, customer, target) ==
      if Matches(entries[0], customer, target) then InsertByTime(Group(entries[1..], customer, target), entries[0])
      else Group(entries[1..], customer, target)
  {
    if Matches(entries[0], customer, target) {
      var rest := Relevant(entries[1..], customer, target);
      assert ([entries[0]] + rest)[1..] == rest;
    }
  }

  /** The newest scan of an index comes last in its group. */
  lemma NewestIsLast(entries: Index, e: Entry, customer: nat, target: nat)
    requires forall i | 0 <= i < |entries| :: entries[i].time < e.time
    ensures Group([e] + entries, customer, target) ==
      if Matches(e, customer, target) then Group(entries, customer, target) + [e] else Group(entries, customer, target)
  {
    var all := [e] + entries;
    assert all[1..] == entries;
    GroupHead(all, customer, target);
    var group := Group(entries, customer, target);
    forall i | 0 <= i < |group|
      ensures group[i].time < e.time
    {
      GroupMembers(entries, customer, target, group[i]);
      assert group[i] in group;
    }
    InsertAtEnd(group, e);
  }

  lemma {:induction false} UpdatesByPath(group: Index, first: nat, n: nat, scans: Scans, path: nat)
    requires n <= |group|
    requires forall i, j | 0 <= i < j < |group| :: group[i].path != group[j].path
    ensures path in Updates(group, first, n, scans) <==> exists k :: first <= k < n && group[k].path == path
    ensures forall k | first <= k < n && group[k].path == path ::
      Updates(group, first, n, scans)[path] == Assessed(group[k], Before(group, k), scans)
    decreases n
  {
    if n > first {
      UpdatesByPath(group, first, n - 1, scans, path);
    }
  }

  lemma {:induction false} GroupIsOrdered(entries: Index, customer: nat, target: nat)
    requires Chronological(entries)
    ensures
      var group := Group(entries, customer, target);
      forall i, j | 0 <= i < j < |group| :: group[i].path != group[j].path && group[i].time < group[j].time
  {
    if entries != [] {
      var e, rest := entries[0], entries[1..];
      assert entries == [e] + rest;
      GroupIsOrdered(rest, customer, target);
      NewestIsLast(rest, e, customer, target);
      var group := Group(rest, customer, target);
      hide Group;
      forall i | 0 <= i < |group|
        ensures group[i].path != e.path && group[i].time < e.time
      {
        assert group[i] in group;
        GroupMembers(rest, customer, target, group[i]);
      }
    }
  }

  /** A scan that is newer than all others, under a new path. */
  ghost predicate Newest(entries: Index, e: Entry) {
    forall i | 0 <= i < |entries| :: entries[i].time < e.time && entries[i].path != e.path
  }

  lemma {:induction false} WithoutNothing(entries: Index, path: nat)
    requires forall i | 0 <= i < |entries| :: entries[i].path != path
    ensures Without(entries, path) == entries
  {
    if entries != [] {
      WithoutNothing(entries[1..], path);
    }
  }

  lemma NewestGoesFirst(entries: Index, e: Entry)
    requires Newest(entries, e)
    ensures Upserted(entries, e) == [e] + entries
  {
    WithoutNothing(entries, e.path);
  }

  function Previous(group: Index): Option<Entry> {
    if group == [] then None else Some(group[|group| - 1])
  }

  /** What the merge does to an entry of a chronological index: its assessment in the group, if it is refreshed. */
  lemma MergedAt(entries: Index, customer: nat, target: nat, first: nat, scans: Scans, i: nat, k: nat)
    requires Chronological(entries) && i < |entries|
    requires first <= k < |Group(entries, customer, target)| && Group(entries, customer, target)[k] == entries[i]
    ensures
      var group := Group(entries, customer, target);
      Merged(entries, Updates(group, first, |group|, scans))[i] == Assessed(entries[i], Before(group, k), scans)
  {
    hide Group;
    var group := Group(entries, customer, target);
    GroupIsOrdered(entries, customer, target);
    UpdatesByPath(group, first, |group|, scans, entries[i].path);
    hide Updates;
    assert group[k].path == entries[i].path;
  }

  lemma MergedElse(entries: Index, customer: nat, target: nat, first: nat, scans: Scans, i: nat)
    requires Chronological(entries) && i < |entries|
    requires forall k | first <= k < |Group(entries, customer, target)| :: Group(entries, customer, target)[k] != entries[i]
    ensures
      var group := Group(entries, customer, target);
      Merged(entries, Updates(group, first, |group|, scans))[i] == entries[i]
  {
    hide Group;
    var group := Group(entries, customer, target);
    GroupIsOrdered(entries, customer, target);
    UpdatesByPath(group, first, |group|, scans, entries[i].path);
    hide Updates;
    if k :| first <= k < |group| && group[k].path == entries[i].path {
      assert group[k] in group;
      GroupMembers(entries, customer, target, group[k]);
      var m :| 0 <= m < |entries| && entries[m] == group[k];
    }
  }

  /** A full rebuild of a group that is up to date changes nothing. */
  lemma RebuildIsIdle(entries: Index, customer: nat, target: nat, scans: Scans)
    requires Chronological(entries) && UpToDate(Group(entries, customer, target), scans)
    ensures Refreshed(entries, customer, target, true, scans) == entries
  {
    hide Group, Updates;
    var group := Group(entries, customer, target);
    if customer != 0 && target != 0 {
      forall i | 0 <= i < |entries|
        ensures Merged(entries, Updates(group, 0, |group|, scans))[i] == entries[i]
      {
        if k :| 0 <= k < |group| && group[k] == entries[i] {
          MergedAt(entries, customer, target, 0, scans, i, k);
        } else {
          MergedElse(entries, customer, target, 0, scans, i);
        }
      }
    }
  }

  lemma NewestAssessed(entries: Index, e: Entry, first: nat, scans: Scans)
    requires Chronological(entries) && Newest(entries, e) && e.customer != 0 && e.target != 0
    requires UpToDate(Group(entries, e.customer, e.target), scans)
    requires first <= |Group(entries, e.customer, e.target)|
    ensures
      var group := Group([e] + entries, e.customer, e.target);
      Merged([e] + entries, Updates(group, first, |group|, scans)) ==
      [Assessed(e, Previous(Group(entries, e.customer, e.target)), scans)] + entries
  {
    hide Group, Updates;
    var all, earlier := [e] + entries, Group(entries, e.customer, e.target);
    var group := Group(all, e.customer, e.target);
    NewestIsLast(entries, e, e.customer, e.target);
    assert Chronological(all);
    var merged := Merged(all, Updates(group, first, |group|, scans));
    MergedAt(all, e.customer, e.target, first, scans, 0, |earlier|);
    forall i | 1 <= i < |all|
      ensures merged[i] == all[i]
    {
      if k :| first <= k < |group| && group[k] == all[i] {
        MergedAt(all, e.customer, e.target, first, scans, i, k);
        assert k < |earlier| && earlier[k] == group[k];
        assert earlier[k] == Assessed(earlier[k], Before(earlier, k), scans);
      } else {
        MergedElse(all, e.customer, e.target, first, scans, i);
      }
    }
  }

  /** Saving the newest scan: the incremental refresh gives what a full rebuild gives, and only that scan changes. */
  lemma IncrementalIsFull(entries: Index, e: Entry, scans: Scans)
    requires Chronological(entries) && Newest(entries, e)
    requires UpToDate(Group(entries, e.customer, e.target), scans)
    ensures Saved(entries, e, false, scans) == Saved(entries, e, true, scans)
    ensures e.customer != 0 && e.target != 0 ==>
      Saved(entries, e, false, scans) == [Assessed(e, Previous(Group(entries, e.customer, e.target)), scans)] + entries
  {
    hide Group, Updates, Upserted, Assessed, Merged, UpToDate;
    NewestGoesFirst(entries, e);
    if e.customer != 0 && e.target != 0 {
      var group := Group(entries, e.customer, e.target);
      NewestIsLast(entries, e, e.customer, e.target);
      NewestAssessed(entries, e, 0, scans);
      NewestAssessed(entries, e, |group|, scans);
    }
  }

  // ---------------------------------------------------------------- save after save

  function SaveAll(es: seq<Entry>, full: bool, scans: Scans): Index {
    if es == [] then [] else Saved(SaveAll(es[..|es| - 1], full, scans), es[|es| - 1], full, scans)
  }

  /** Scans are saved in the order of their time stamps, each under a path of its own. */
  ghost predicate InOrder(es: seq<Entry>) {
    forall i, j | 0 <= i < j < |es| :: es[i].time < es[j].time && es[i].path != es[j].path
  }

  ghost predicate AllUpToDate(entries: Index, scans: Scans) {
    forall c, t | c != 0 && t != 0 :: UpToDate(Group(entries, c, t), scans)
  }

  /** One saved scan: what the save makes of it, in front of the index as it was. */
  function SavedEntry(entries: Index, e: Entry, scans: Scans): Entry {
    if e.customer == 0 || e.target == 0 then e
    else Assessed(e, Previous(Group(entries, e.customer, e.target)), scans)
  }

  lemma SaveAddsOne(entries: Index, e: Entry, scans: Scans)
    requires Chronological(entries) && Newest(entries, e) && AllUpToDate(entries, scans)
    ensures Saved(entries, e, false, scans) == Saved(entries, e, true, scans) == [SavedEntry(entries, e, scans)] + entries
  {
    NewestGoesFirst(entries, e);
    hide Group, Updates, Upserted;
    if e.customer != 0 && e.target != 0 {
      IncrementalIsFull(entries, e, scans);
    }
  }

  lemma AssessedTwice(e: Entry, previous: Option<Entry>, scans: Scans)
    ensures Assessed(Assessed(e, previous, scans), previous, scans) == Assessed(e, previous, scans)
  {
  }

  lemma UpToDateExtends(group: Index, x: Entry, scans: Scans)
    requires UpToDate(group, scans) && x == Assessed(x, Previous(group), scans)
    ensures UpToDate(group + [x], scans)
  {
    hide Assessed;
    var all := group + [x];
    forall k | 0 <= k < |all|
      ensures all[k] == Assessed(all[k], Before(all, k), scans)
    {
      if k < |group| {
        assert Before(all, k) == Before(group, k) && group[k] == all[k];
      }
    }
  }

  lemma GroupStaysUpToDate(entries: Index, e: Entry, scans: Scans, c: nat, t: nat)
    requires Newest(entries, e) && c != 0 && t != 0 && UpToDate(Group(entries, c, t), scans)
    ensures UpToDate(Group([SavedEntry(entries, e, scans)] + entries, c, t), scans)
  {
    var x, group := SavedEntry(entries, e, scans), Group(entries, c, t);
    assert x.customer == e.customer && x.target == e.target && x.time == e.time;
    hide Group, UpToDate, Previous;
    NewestIsLast(entries, x, c, t);
    AssessedTwice(e, Previous(group), scans);
    hide Assessed;
    if Matches(e, c, t) {
      UpToDateExtends(group, x, scans);
    }
  }

  lemma SaveKeepsUpToDate(entries: Index, e: Entry, scans: Scans)
    requires Chronological(entries) && Newest(entries, e) && AllUpToDate(entries, scans)
    ensures Chronological([SavedEntry(entries, e, scans)] + entries)
    ensures AllUpToDate([SavedEntry(entries, e, scans)] + entries, scans)
  {
    hide Group, UpToDate;
    forall c, t | c != 0 && t != 0
      ensures UpToDate(Group([SavedEntry(entries, e, scans)] + entries, c, t), scans)
    {
      GroupStaysUpToDate(entries, e, scans, c, t);
    }
  }

  lemma SaveAllLast(es: seq<Entry>, full: bool, scans: Scans)
    requires es != []
    ensures SaveAll(es, full, scans) == Saved(SaveAll(es[..|es| - 1], full, scans), es[|es| - 1], full, scans)
  {
  }

  lemma NothingIsUpToDate(scans: Scans)
    ensures SaveAll([], false, scans) == SaveAll([], true, scans) == [] && AllUpToDate([], scans)
  {
    assert forall c, t :: Group([], c, t) == [];
  }

  lemma {:induction false} SavesStayUpToDate(es: seq<Entry>, scans: Scans)
    requires InOrder(es)
    ensures SaveAll(es, false, scans) == SaveAll(es, true, scans)
    ensures
      var s := SaveAll(es, false, scans);
      && Chronological(s) && AllUpToDate(s, scans) && |s| == |es|
      && forall i | 0 <= i < |es| :: s[i].path == es[|es| - 1 - i].path && s[i].time == es[|es| - 1 - i].time
    decreases |es|
  {
    hide SaveAll, Saved, AllUpToDate;
    if es == [] {
      NothingIsUpToDate(scans);
    } else {
      var n := |es| - 1;
      SavesStayUpToDate(es[..n], scans);
      var before := SaveAll(es[..n], false, scans);
      assert Newest(before, es[n]);
      hide Chronological;
      SaveAllLast(es, false, scans);
      SaveAllLast(es, true, scans);
      SaveAddsOne(before, es[n], scans);
      SaveKeepsUpToDate(before, es[n], scans);
    }
  }

  /**
   Scans saved in order: refreshing only the newest after each save gives the same index as rebuilding in
   full after each, and a full rebuild of any group at the end changes nothing.
   */
  lemma IncrementalEqualsRebuild(es: seq<Entry>, scans: Scans, customer: nat, target: nat)
    requires InOrder(es)
    ensures SaveAll(es, false, scans) == SaveAll(es, true, scans)
    ensures Refreshed(SaveAll(es, false, scans), customer, target, true, scans) == SaveAll(es, false, scans)
  {
    SavesStayUpToDate(es, scans);
    if customer != 0 && target != 0 {
      RebuildIsIdle(SaveAll(es, false, scans), customer, target, scans);
    }
  }

  /** A refresh touches no entry of another customer or target, and changes only the comparison of the others. */
  lemma RefreshIsLocal(entries: Index, customer: nat, target: nat, full: bool, scans: Scans, i: nat)
    requires Chronological(entries) && i < |entries|
    ensures
      var r := Refreshed(entries, customer, target, full, scans);
      && |r| == |entries|
      && (!Matches(entries[i], customer, target) ==> r[i] == entries[i])
      && r[i].(summary := None, computed := true) == entries[i].(summary := None, computed := true)
  {
    hide Group, Updates;
    var group := Group(entries, customer, target);
    if customer != 0 && target != 0 {
      var first := if full || group == [] then 0 else |group| - 1;
      if k :| first <= k < |group| && group[k] == entries[i] {
        MergedAt(entries, customer, target, first, scans, i, k);
        GroupMembers(entries, customer, target, group[k]);
      } else {
        MergedElse(entries, customer, target, first, scans, i);
      }
    }
  }

  /**
   On any chronological index the two refreshes agree exactly when every scan of the group but the newest
   already carries its comparison with the one before it.
   */
  lemma RefreshesAgreeIff(entries: Index, customer: nat, target: nat, scans: Scans)
    requires Chronological(entries) && customer != 0 && target != 0
    ensures
      var group := Group(entries, customer, target);
      Refreshed(entries, customer, target, false, scans) == Refreshed(entries, customer, target, true, scans) <==>
      forall k | 0 <= k < |group| - 1 :: group[k] == Assessed(group[k], Before(group, k), scans)
  {
    hide Group, Updates, Assessed;
    var group := Group(entries, customer, target);
    var some, all := Refreshed(entries, customer, target, false, scans), Refreshed(entries, customer, target, true, scans);
    forall i | 0 <= i < |entries| && (forall k | 0 <= k < |group| - 1 :: group[k] == Assessed(group[k], Before(group, k), scans))
      ensures some[i] == all[i]
    {
      if k :| 0 <= k < |group| && group[k] == entries[i] {
        MergedInBoth(entries, customer, target, scans, i, k);
      } else {
        MergedElse(entries, customer, target, 0, scans, i);
        MergedElse(entries, customer, target, if group == [] then 0 else |group| - 1, scans, i);
      }
    }
    if some == all {
      forall k | 0 <= k < |group| - 1
        ensures group[k] == Assessed(group[k], Before(group, k), scans)
      {
        assert group[k] in group;
        GroupMembers(entries, customer, target, group[k]);
        var i :| 0 <= i < |entries| && entries[i] == group[k];
        MergedInBoth(entries, customer, target, scans, i, k);
      }
    }
  }

  lemma MergedInBoth(entries: Index, customer: nat, target: nat, scans: Scans, i: nat, k: nat)
    requires Chronological(entries) && customer != 0 && target != 0 && i < |entries|
    requires k < |Group(entries, customer, target)| && Group(entries, customer, target)[k] == entries[i]
    ensures
      var group := Group(entries, customer, target);
      && Refreshed(entries, customer, target, true, scans)[i] == Assessed(group[k], Before(group, k), scans)
      && Refreshed(entries, customer, target, false, scans)[i] ==
         if k == |group| - 1 then Assessed(group[k], Before(group, k), scans) else group[k]
  {
    hide Updates, Assessed;
    var group := Group(entries, customer, target);
    GroupIsOrdered(entries, customer, target);
    hide Group;
    MergedAt(entries, customer, target, 0, scans, i, k);
    if k == |group| - 1 {
      MergedAt(entries, customer, target, k, scans, i, k);
    } else {
      MergedElse(entries, customer, target, |group| - 1, scans, i);
    }
  }

  // ---------------------------------------------------------------- a scan saved behind the newest

  lemma {:induction false} InsertBeforeLast(group: Index, last: Entry, e: Entry)
    requires e.time < last.time
    ensures InsertByTime(group + [last], e) == InsertByTime(group, e) + [last]
  {
    if group == [] {
      assert group + [last] == [last];
    } else {
      assert (group + [last])[1..] == group[1..] + [last];
      InsertBeforeLast(group[1..], last, e);
    }
  }

  lemma {:induction false} InsertAt(group: Index, e: Entry, p: nat)
    requires p <= |group|
    requires forall k | 0 <= k < p :: group[k].time < e.time
    requires p < |group| ==> e.time <= group[p].time
    ensures InsertByTime(group, e) == group[..p] + [e] + group[p..]
  {
    if p > 0 {
      InsertAt(group[1..], e, p - 1);
      assert group[..p] == [group[0]] + group[1..][..p - 1];
    }
  }

  lemma {:induction false} InsertedMembers(entries: Index, e: Entry, x: Entry)
    ensures x in InsertLatestFirst(entries, e) <==> x == e || x in entries
  {
    if entries != [] && entries[0].time >= e.time {
      InsertedMembers(entries[1..], e, x);
    }
  }

  lemma {:induction false} InsertedIsChronological(entries: Index, e: Entry)
    requires Chronological(entries)
    requires forall i | 0 <= i < |entries| :: entries[i].time != e.time && entries[i].path != e.path
    ensures Chronological(InsertLatestFirst(entries, e))
  {
    if entries != [] && entries[0].time >= e.time {
      var inserted := InsertLatestFirst(entries[1..], e);
      InsertedIsChronological(entries[1..], e);
      forall i | 0 <= i < |inserted|
        ensures inserted[i].time < entries[0].time && inserted[i].path != entries[0].path
      {
        InsertedMembers(entries[1..], e, inserted[i]);
        assert inserted[i] in inserted;
      }
    }
  }

  lemma NewestInGroup(entries: Index, e: Entry)
    requires forall i | 0 <= i < |entries| :: entries[i].time < e.time
    ensures Group([e] + entries, e.customer, e.target) == InsertByTime(Group(entries, e.customer, e.target), e)
  {
    hide Group, InsertByTime;
    NewestIsLast(entries, e, e.customer, e.target);
    var group := Group(entries, e.customer, e.target);
    forall i | 0 <= i < |group|
      ensures group[i].time < e.time
    {
      assert group[i] in group;
      GroupMembers(entries, e.customer, e.target, group[i]);
    }
    InsertAtEnd(group, e);
  }

  /** A new scan takes its place in its group by its time stamp. */
  lemma {:induction false} InsertIntoGroup(entries: Index, e: Entry)
    requires Chronological(entries)
    requires forall i | 0 <= i < |entries| :: entries[i].time != e.time && entries[i].path != e.path
    ensures Group(InsertLatestFirst(entries, e), e.customer, e.target) ==
      InsertByTime(Group(entries, e.customer, e.target), e)
  {
    hide Group, InsertByTime;
    if entries == [] || entries[0].time < e.time {
      NewestInGroup(entries, e);
    } else {
      var h, rest := entries[0], entries[1..];
      InsertIntoGroup(rest, e);
      var inserted := InsertLatestFirst(rest, e);
      forall i | 0 <= i < |inserted|
        ensures inserted[i].time < h.time
      {
        InsertedMembers(rest, e, inserted[i]);
        assert inserted[i] in inserted;
      }
      assert [h] + rest == entries;
      NewestIsLast(rest, h, e.customer, e.target);
      NewestIsLast(inserted, h, e.customer, e.target);
      if Matches(h, e.customer, e.target) {
        InsertBeforeLast(Group(rest, e.customer, e.target), h, e);
      }
    }
  }

  /** Only the new scan and the one after it can be out of date in a group that was up to date. */
  lemma UpToDateButTwo(group: Index, e: Entry, p: nat, scans: Scans)
    requires p < |group| && UpToDate(group, scans)
    ensures
      var all := group[..p] + [e] + group[p..];
      (forall k | 0 <= k < |all| - 1 :: all[k] == Assessed(all[k], Before(all, k), scans)) <==>
      && e == Assessed(e, if p == 0 then None else Some(group[p - 1]), scans)
      && (p + 1 < |group| ==> group[p] == Assessed(group[p], Some(e), scans))
  {
    hide Assessed;
    var all := group[..p] + [e] + group[p..];
    assert all[p] == e && Before(all, p) == if p == 0 then None else Some(group[p - 1]);
    assert all[p + 1] == group[p] && Before(all, p + 1) == Some(e);
    forall k | 0 <= k < |all| - 1 && k != p && k != p + 1
      ensures all[k] == Assessed(all[k], Before(all, k), scans)
    {
      var was := if k < p then k else k - 1;
      assert all[k] == group[was] && Before(all, k) == Before(group, was);
    }
  }

  /**
   Saving a scan behind `|group| - p` newer ones of an up-to-date group: the incremental refresh gives what
   a full rebuild gives exactly when the scan already carries its comparison, and the scan after it, unless
   that is the newest, keeps its own although it now follows this one.
   */
  lemma OlderSaveAgreesIff(entries: Index, e: Entry, p: nat, scans: Scans)
    requires Chronological(entries) && e.customer != 0 && e.target != 0
    requires forall i | 0 <= i < |entries| :: entries[i].time != e.time && entries[i].path != e.path
    requires UpToDate(Group(entries, e.customer, e.target), scans)
    requires
      var group := Group(entries, e.customer, e.target);
      p < |group| && e.time < group[p].time && forall k | 0 <= k < p :: group[k].time < e.time
    ensures
      var group := Group(entries, e.customer, e.target);
      Saved(entries, e, false, scans) == Saved(entries, e, true, scans) <==>
      && e == Assessed(e, if p == 0 then None else Some(group[p - 1]), scans)
      && (p + 1 < |group| ==> group[p] == Assessed(group[p], Some(e), scans))
  {
    WithoutNothing(entries, e.path);
    hide Group, Assessed, UpToDate, InsertByTime, InsertLatestFirst, Refreshed;
    var group := Group(entries, e.customer, e.target);
    var inserted := InsertLatestFirst(entries, e);
    InsertIntoGroup(entries, e);
    InsertedIsChronological(entries, e);
    InsertAt(group, e, p);
    UpToDateButTwo(group, e, p, scans);
    RefreshesAgreeIff(inserted, e.customer, e.target, scans);
  }

  /** As it is saved, with nothing compared yet, such a scan is missed whenever it could have been compared. */
  lemma OlderSaveIsMissed(entries: Index, e: Entry, p: nat, scans: Scans)
    requires Chronological(entries) && e.customer != 0 && e.target != 0 && !e.computed
    requires forall i | 0 <= i < |entries| :: entries[i].time != e.time && entries[i].path != e.path
    requires UpToDate(Group(entries, e.customer, e.target), scans)
    requires
      var group := Group(entries, e.customer, e.target);
      && p < |group| && e.time < group[p].time && (forall k | 0 <= k < p :: group[k].time < e.time)
      && (p > 0 ==> scans.xml(e.path) && scans.xml(group[p - 1].path)
                    && !scans.compare(e.path, group[p - 1].path).Unreadable?)
    ensures Saved(entries, e, false, scans) != Saved(entries, e, true, scans)
  {
    hide Group, UpToDate;
    OlderSaveAgreesIff(entries, e, p, scans);
  }

  // ---------------------------------------------------------------- what a refresh and an upsert do to each entry

  /** A scan is compared with the one before it when both have readable files, and the first needs no comparison. */
  lemma AssessedMeans(e: Entry, previous: Option<Entry>, scans: Scans)
    ensures
      var a := Assessed(e, previous, scans);
      var both := previous.Some? && scans.xml(e.path) && scans.xml(previous.value.path);
      && (a.computed <==> previous.None? || (both && scans.compare(e.path, previous.value.path) != Unreadable))
      && (a.summary.Some? <==> both && scans.compare(e.path, previous.value.path).Changed?)
      && (a.summary.Some? ==>
            && a.summary.value.differences == scans.compare(e.path, previous.value.path).differences
            && a.summary.value.baselinePath == previous.value.path
            && a.summary.value.baselineTime == previous.value.time)
      && a.path == e.path && a.customer == e.customer && a.target == e.target && a.time == e.time
  {
  }

  /** The latest scan of the same customer and target before `e`, if there is one. */
  ghost predicate IsPrior(entries: Index, e: Entry, p: Option<Entry>) {
    match p
    case None => forall x | x in entries && x.customer == e.customer && x.target == e.target :: e.time <= x.time
    case Some(y) =>
      && y in entries && y.customer == e.customer && y.target == e.target && y.time < e.time
      && forall x | x in entries && x.customer == e.customer && x.target == e.target && x.time < e.time :: x.time <= y.time
  }

  lemma SameTimeSameEntry(entries: Index, x: Entry, y: Entry)
    requires Chronological(entries) && x in entries && y in entries && x.time == y.time
    ensures x == y
  {
    var i :| 0 <= i < |entries| && entries[i] == x;
    var j :| 0 <= j < |entries| && entries[j] == y;
    assert i == j;
  }

  lemma PriorIsBefore(entries: Index, customer: nat, target: nat, k: nat, p: Option<Entry>)
    requires Chronological(entries) && k < |Group(entries, customer, target)|
    requires IsPrior(entries, Group(entries, customer, target)[k], p)
    ensures p == Before(Group(entries, customer, target), k)
  {
    var group := Group(entries, customer, target);
    GroupIsOrdered(entries, customer, target);
    hide Group, Chronological;
    assert group[k] in group;
    GroupMembers(entries, customer, target, group[k]);
    if p.Some? {
      GroupMembers(entries, customer, target, p.value);
      var m :| 0 <= m < |group| && group[m] == p.value;
      assert m < k;
      assert group[k - 1] in group;
      GroupMembers(entries, customer, target, group[k - 1]);
      SameTimeSameEntry(entries, p.value, group[k - 1]);
    } else if k > 0 {
      assert group[k - 1] in group;
      GroupMembers(entries, customer, target, group[k - 1]);
    }
  }

  /** No scan of the group is newer. */
  ghost predicate IsNewest(entries: Index, e: Entry) {
    forall x | x in entries && x.customer == e.customer && x.target == e.target :: x.time <= e.time
  }

  lemma NewestIffLast(entries: Index, customer: nat, target: nat, k: nat)
    requires Chronological(entries) && k < |Group(entries, customer, target)|
    ensures IsNewest(entries, Group(entries, customer, target)[k]) <==> k == |Group(entries, customer, target)| - 1
  {
    var group := Group(entries, customer, target);
    GroupIsOrdered(entries, customer, target);
    hide Group, Chronological;
    assert group[k] in group;
    GroupMembers(entries, customer, target, group[k]);
    if k < |group| - 1 {
      assert group[|group| - 1] in group;
      GroupMembers(entries, customer, target, group[|group| - 1]);
    } else {
      forall x | x in entries && x.customer == customer && x.target == target
        ensures x.time <= group[k].time
      {
        GroupMembers(entries, customer, target, x);
        var m :| 0 <= m < |group| && group[m] == x;
      }
    }
  }

  /**
   A full refresh assesses every scan of the customer and target, an incremental one only the newest, each
   against the latest scan before it; every other entry stays as it is.
   */
  lemma RefreshMeans(entries: Index, customer: nat, target: nat, full: bool, scans: Scans, i: nat, p: Option<Entry>)
    requires Chronological(entries) && customer != 0 && target != 0 && i < |entries| && IsPrior(entries, entries[i], p)
    ensures
      var e := entries[i];
      Refreshed(entries, customer, target, full, scans)[i] ==
      if e.customer == customer && e.target == target && (full || IsNewest(entries, e)) then Assessed(e, p, scans) else e
  {
    hide Group, Updates, Assessed, Chronological, IsPrior, IsNewest;
    var e, group := entries[i], Group(entries, customer, target);
    GroupMembers(entries, customer, target, e);
    if e.customer == customer && e.target == target {
      assert e in entries;
      var k :| 0 <= k < |group| && group[k] == e;
      MergedInBoth(entries, customer, target, scans, i, k);
      PriorIsBefore(entries, customer, target, k, p);
      NewestIffLast(entries, customer, target, k);
    } else {
      RefreshIsLocal(entries, customer, target, full, scans, i);
    }
  }

  lemma {:induction false} WithoutMeans(entries: Index, path: nat, x: Entry)
    ensures multiset(Without(entries, path))[x] == if x.path == path then 0 else multiset(entries)[x]
    ensures forall y | y in Without(entries, path) :: y in entries
  {
    if entries != [] {
      WithoutMeans(entries[1..], path, x);
      assert entries == [entries[0]] + entries[1..];
      assert multiset(entries) == multiset{entries[0]} + multiset(entries[1..]);
    }
  }

  ghost predicate LatestFirst(entries: Index) {
    forall i, j | 0 <= i < j < |entries| :: entries[j].time <= entries[i].time
  }

  lemma {:induction false} InsertKeepsOrder(entries: Index, e: Entry)
    requires LatestFirst(entries)
    ensures LatestFirst(InsertLatestFirst(entries, e))
  {
    if entries != [] && entries[0].time >= e.time {
      var inserted := InsertLatestFirst(entries[1..], e);
      InsertKeepsOrder(entries[1..], e);
      forall i | 0 <= i < |inserted|
        ensures inserted[i].time <= entries[0].time
      {
        InsertedMembers(entries[1..], e, inserted[i]);
        assert inserted[i] in inserted;
      }
    }
  }

  lemma {:induction false} WithoutKeepsOrder(entries: Index, path: nat)
    requires LatestFirst(entries)
    ensures LatestFirst(Without(entries, path))
  {
    if entries != [] {
      var kept := Without(entries[1..], path);
      WithoutKeepsOrder(entries[1..], path);
      WithoutMeans(entries[1..], path, entries[0]);
      forall i | 0 <= i < |kept|
        ensures kept[i].time <= entries[0].time
      {
        assert kept[i] in kept;
        var j :| 0 <= j < |entries[1..]| && entries[1..][j] == kept[i];
        assert entries[j + 1] == kept[i];
      }
    }
  }

  /** An upsert leaves the entry as the only one of its path, all others as they are, and the index latest first. */
  lemma UpsertMeans(entries: Index, e: Entry, x: Entry)
    ensures x in Upserted(entries, e) <==> x == e || (x in entries && x.path != e.path)
    ensures LatestFirst(entries) ==> LatestFirst(Upserted(entries, e))
  {
    InsertedMembers(Without(entries, e.path), e, x);
    WithoutMeans(entries, e.path, x);
    if LatestFirst(entries) {
      WithoutKeepsOrder(entries, e.path);
      InsertKeepsOrder(Without(entries, e.path), e);
    }
  }
}

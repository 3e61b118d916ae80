/**
 Catch-up: which rules are due, how a finished run is marked, and how a whole-document save keeps the
 server's own markers. One timeline of instants; a rule's occurrences are given by `previous`, the last
 occurrence up to an instant. `DueSlots` proves both searches of the scheduler `Faithful`.
 */
module CatchUp {
  import opened Wrappers

  /** `customer`: the rule names a customer; `schedule` stands for all schedule fields. */
  datatype Rule = Rule(
    id: string, customer: bool, enabled: bool, schedule: nat,
    lastRun: Option<int>, created: Option<int>, anchor: Option<int>)

  type Previous = (nat, int) -> Option<int>

  /** Occurrences are looked up to an instant, and looking later never finds an earlier one. */
  ghost predicate Faithful(previous: Previous) {
    && (forall s: nat, t: int :: previous(s, t).Some? ==> previous(s, t).value <= t)
    && (forall s: nat, t: int, u: int :: t <= u && previous(s, t).Some? ==>
          previous(s, u).Some? && previous(s, t).value <= previous(s, u).value)
  }

  // ---------------------------------------------------------------- due rules

  /** The slot a rule is due for, if any: the last occurrence, not before its creation, not yet run. */
  function DueSlot(previous: Previous, r: Rule, now: int): Option<int> {
    var created := if r.created.Some? then r.created.value else if r.anchor.Some? then r.anchor.value else now;
    var slot := previous(r.schedule, now);
    if !r.enabled || slot.None? || slot.value < created then None
    else if r.lastRun.Some? && r.lastRun.value >= slot.value then None
    else slot
  }

  /** `get_previous_auto_monitor_run`: the last occurrence, unless it predates the rule's creation. */
  function PreviousRun(previous: Previous, r: Rule, now: int): Option<int> {
    if !r.enabled then None else
    var slot := previous(r.schedule, now);
    var created := if r.created.Some? then r.created.value else if r.anchor.Some? then r.anchor.value else now;
    if slot.Some? && slot.value >= created then slot else None
  }

  /** `get_due_auto_monitor_rules`: the due rules in order, and none within the startup grace. */
  method DueRules(previous: Previous, rules: seq<Rule>, now: int, startupAt: int, grace: int) returns (due: seq<Rule>)
    ensures now - startupAt < grace ==> due == []
    ensures now - startupAt >= grace ==> due == Due(previous, rules, now)
  {
    due := [];
    if now - startupAt < grace {
      return;
    }
    for i := 0 to |rules|
      invariant due == Due(previous, rules[..i], now)
    {
      DueStep(previous, rules, i, now);
      var rule := rules[i];
      if !rule.enabled {
        continue;
      }
      var slot := PreviousRun(previous, rule, now);
      if slot.None? {
        continue;
      }
      if rule.lastRun.None? || rule.lastRun.value < slot.value {
        due := due + [rule];
      }
    }
    assert rules[..|rules|] == rules;
  }

  function Due(previous: Previous, rules: seq<Rule>, now: int): seq<Rule> {
    if rules == [] then []
    else
      var before, last := rules[..|rules| - 1], rules[|rules| - 1];
      if DueSlot(previous, last, now).Some? then Due(previous, before, now) + [last] else Due(previous, before, now)
  }

  lemma DueStep(previous: Previous, rules: seq<Rule>, i: nat, now: int)
    requires i < |rules|
    ensures Due(previous, rules[..i + 1], now) ==
      if DueSlot(previous, rules[i], now).Some? then Due(previous, rules[..i], now) + [rules[i]]
      else Due(previous, rules[..i], now)
  {
    assert rules[..i + 1][..i] == rules[..i];
  }

  /** When a rule began: as recorded, or else with its anchor, or else now. */
  function Since(r: Rule, now: int): int {
    if r.created.Some? then r.created.value else if r.anchor.Some? then r.anchor.value else now
  }

  /** An enabled rule whose last occurrence is not before it began, and which has not run since, or never. */
  predicate Missed(previous: Previous, r: Rule, now: int) {
    && r.enabled && previous(r.schedule, now).Some?
    && Since(r, now) <= previous(r.schedule, now).value
    && (r.lastRun.None? || r.lastRun.value < previous(r.schedule, now).value)
  }

  /** Due are exactly the rules that missed their last occurrence, each as often as it is there. */
  lemma {:induction false} DueMeans(previous: Previous, rules: seq<Rule>, now: int, r: Rule)
    ensures multiset(Due(previous, rules, now))[r] == if Missed(previous, r, now) then multiset(rules)[r] else 0
    decreases |rules|
  {
    if rules != [] {
      var n := |rules| - 1;
      DueMeans(previous, rules[..n], now, r);
      assert rules == rules[..n] + [rules[n]];
    }
  }

  /** They come in the order of the rules. */
  lemma {:induction false} DueInOrder(previous: Previous, a: seq<Rule>, b: seq<Rule>, now: int)
    ensures Due(previous, a + b, now) == Due(previous, a, now) + Due(previous, b, now)
    decreases |b|
  {
    if b == [] {
      assert a + b == a;
    } else {
      DueInOrder(previous, a, b[..|b| - 1], now);
      assert (a + b)[..|a + b| - 1] == a + b[..|b| - 1];
    }
  }

  // ---------------------------------------------------------------- marking a run

  function Find(rules: seq<Rule>, id: string): Option<Rule> {
    if rules == [] then None
    else if rules[0].id == id then Some(rules[0]) else Find(rules[1..], id)
  }

  /** The end of `execute_auto_monitor_rule`: the first rule with the id gets the time of completion. */
  function Marked(rules: seq<Rule>, id: string, now: int): seq<Rule> {
    if rules == [] then []
    else if rules[0].id == id then [rules[0].(lastRun := Some(now))] + rules[1..]
    else [rules[0]] + Marked(rules[1..], id, now)
  }

  lemma {:induction false} MarkedAt(rules: seq<Rule>, i: nat, id: string, now: int)
    requires i <= |rules| && forall k | 0 <= k < i :: rules[k].id != id
    ensures i == |rules| ==> Marked(rules, id, now) == rules
    ensures i < |rules| && rules[i].id == id ==> Marked(rules, id, now) == rules[i := rules[i].(lastRun := Some(now))]
  {
    if i > 0 {
      MarkedAt(rules[1..], i - 1, id, now);
      assert [rules[0]] + rules[1..] == rules;
    }
  }

  method MarkRun(rules: array<Rule>, id: string, now: int)
    modifies rules
    ensures rules[..] == Marked(old(rules[..]), id, now)
  {
    ghost var before := rules[..];
    for i := 0 to rules.Length
      invariant rules[..] == before
      invariant forall k | 0 <= k < i :: before[k].id != id
    {
      if rules[i].id == id {
        MarkedAt(before, i, id, now);
        rules[i] := rules[i].(lastRun := Some(now));
        return;
      }
    }
    MarkedAt(before, rules.Length, id, now);
  }

  /** Exactly the first rule with the id is stamped. */
  lemma {:induction false} MarkedMeans(rules: seq<Rule>, id: string, now: int, i: nat)
    requires i < |rules|
    ensures |Marked(rules, id, now)| == |rules|
    ensures Marked(rules, id, now)[i] ==
      if rules[i].id == id && (forall k | 0 <= k < i :: rules[k].id != id) then rules[i].(lastRun := Some(now)) else rules[i]
  {
    if rules[0].id != id && i > 0 {
      MarkedMeans(rules[1..], id, now, i - 1);
      assert forall k | 0 < k < i :: rules[k] == rules[1..][k - 1];
      assert forall k | 0 <= k < i - 1 :: rules[1..][k] == rules[k + 1];
    } else if rules[0].id != id {
      MarkedLength(rules[1..], id, now);
    }
  }

  lemma {:induction false} MarkedLength(rules: seq<Rule>, id: string, now: int)
    ensures |Marked(rules, id, now)| == |rules|
  {
    if rules != [] && rules[0].id != id {
      MarkedLength(rules[1..], id, now);
    }
  }

  lemma {:induction false} FindMarked(rules: seq<Rule>, id: string, now: int, other: string)
    ensures Find(Marked(rules, id, now), other) ==
      var r := Find(rules, other);
      if other == id && r.Some? then Some(r.value.(lastRun := Some(now))) else r
  {
    if rules != [] && rules[0].id != id {
      FindMarked(rules[1..], id, now, other);
    }
  }

  // ---------------------------------------------------------------- whole-document saves

  /** The current rules by id; a later one with the same id wins, and an empty id is no id. */
  function ById(rules: seq<Rule>): map<string, Rule> {
    if rules == [] then map[]
    else
      var before, last := ById(rules[..|rules| - 1]), rules[|rules| - 1];
      if last.id == "" then before else before[last.id := last]
  }

  function Preserved(r: Rule, byId: map<string, Rule>, now: int): Rule {
    if r.id !in byId then r.(lastRun := None, created := Some(now))
    else
      var p := byId[r.id];
      r.(lastRun := p.lastRun,
         created := if p.created.Some? then p.created else if p.anchor.Some? then p.anchor else r.created)
  }

  /** `preserve_auto_monitor_progress` on the rules of a document. */
  method PreserveProgress(incoming: seq<Rule>, current: seq<Rule>, now: int) returns (rules: seq<Rule>)
    ensures |rules| == |incoming|
    ensures forall i | 0 <= i < |incoming| :: rules[i] == Preserved(incoming[i], ById(current), now)
  {
    var byId: map<string, Rule> := map[];
    for i := 0 to |current|
      invariant byId == ById(current[..i])
    {
      assert current[..i + 1][..i] == current[..i];
      if current[i].id != "" {
        byId := byId[current[i].id := current[i]];
      }
    }
    assert current[..|current|] == current;
    rules := incoming;
    for i := 0 to |incoming|
      invariant |rules| == |incoming|
      invariant forall k | 0 <= k < i :: rules[k] == Preserved(incoming[k], byId, now)
      invariant forall k | i <= k < |incoming| :: rules[k] == incoming[k]
    {
      if rules[i].id !in byId {
        rules := rules[i := rules[i].(lastRun := None, created := Some(now))];
      } else {
        var previous := byId[rules[i].id];
        var rule := rules[i].(lastRun := previous.lastRun);
        var createdAt := if previous.created.Some? then previous.created else previous.anchor;
        if createdAt.Some? {
          rule := rule.(created := createdAt);
        }
        rules := rules[i := rule];
      }
    }
  }

  function PreservedAll(incoming: seq<Rule>, current: seq<Rule>, now: int): seq<Rule> {
    seq(|incoming|, i requires 0 <= i < |incoming| => Preserved(incoming[i], ById(current), now))
  }

  /** `normalize_auto_monitor_settings`: rules without a customer, and repeated ids, are dropped; dates are filled in. */
  function Normalized(rules: seq<Rule>, seen: set<string>, now: int): seq<Rule> {
    if rules == [] then []
    else
      var r := rules[0];
      if !r.customer || r.id in seen then Normalized(rules[1..], seen, now)
      else
        var created := if r.created.Some? then r.created else if r.anchor.Some? then r.anchor else Some(now);
        var anchor := if r.anchor.Some? then r.anchor else if r.created.Some? then r.created else Some(now);
        [r.(created := created, anchor := anchor)] + Normalized(rules[1..], seen + {r.id}, now)
  }

  function Saved(incoming: seq<Rule>, current: seq<Rule>, now: int): seq<Rule> {
    Normalized(PreservedAll(incoming, current, now), {}, now)
  }

  /** A document as it is kept: ids are distinct and not empty, and creation dates are there. */
  ghost predicate Kept(rules: seq<Rule>) {
    && (forall i | 0 <= i < |rules| :: rules[i].created.Some? && rules[i].id != "")
    && (forall i, j | 0 <= i < j < |rules| :: rules[i].id != rules[j].id)
  }

  lemma {:induction false} FindInById(rules: seq<Rule>, id: string)
    requires Kept(rules) && id != ""
    ensures id in ById(rules) <==> Find(rules, id).Some?
    ensures id in ById(rules) ==> Find(rules, id) == Some(ById(rules)[id])
  {
    if rules != [] {
      var n := |rules| - 1;
      var before := rules[..n];
      FindInById(before, id);
      FindAppend(before, rules[n], id);
      assert before + [rules[n]] == rules;
      FoundIsMember(before, id);
      if rules[n].id == id {
        assert forall r | r in before :: r.id != id;
      }
    }
  }

  lemma {:induction false} FindAppend(rules: seq<Rule>, x: Rule, id: string)
    ensures Find(rules + [x], id) ==
      if Find(rules, id).Some? then Find(rules, id) else if x.id == id then Some(x) else None
  {
    if rules != [] {
      FindAppend(rules[1..], x, id);
      assert (rules + [x])[1..] == rules[1..] + [x];
    }
  }

  lemma {:induction false} FoundIsMember(rules: seq<Rule>, id: string)
    ensures Find(rules, id).Some? ==> Find(rules, id).value in rules && Find(rules, id).value.id == id
    ensures Find(rules, id).None? ==> forall r | r in rules :: r.id != id
  {
    if rules != [] && rules[0].id != id {
      FoundIsMember(rules[1..], id);
    }
  }

  lemma FoundIsCreated(rules: seq<Rule>, id: string)
    requires Kept(rules)
    ensures Find(rules, id).Some? ==> Find(rules, id).value.created.Some?
  {
    FoundIsMember(rules, id);
  }

  lemma {:induction false} NormalizedMembers(rules: seq<Rule>, seen: set<string>, now: int)
    requires forall r | r in rules :: r.id != ""
    ensures forall n | n in Normalized(rules, seen, now) ::
      && n.id !in seen && n.created.Some? && n.id != ""
      && (exists r :: r in rules && r.id == n.id && n.lastRun == r.lastRun && (r.created.Some? ==> n.created == r.created))
    ensures Kept(Normalized(rules, seen, now))
  {
    if rules != [] {
      hide Kept;
      var r := rules[0];
      if !r.customer || r.id in seen {
        NormalizedMembers(rules[1..], seen, now);
      } else {
        NormalizedMembers(rules[1..], seen + {r.id}, now);
        KeptInFront(Normalized(rules, seen, now)[0], Normalized(rules[1..], seen + {r.id}, now));
      }
    } else {
      NothingIsKept();
    }
  }

  lemma NothingIsKept()
    ensures Kept([])
  {
  }

  lemma KeptInFront(first: Rule, rest: seq<Rule>)
    requires first.created.Some? && first.id != "" && Kept(rest) && forall r | r in rest :: r.id != first.id
    ensures Kept([first] + rest)
  {
  }

  /** A save, however stale the document: a rule the server knows keeps its markers, any other starts now. */
  lemma SaveKeepsMarkers(incoming: seq<Rule>, current: seq<Rule>, now: int, id: string)
    requires Kept(current) && forall r | r in incoming :: r.id != ""
    ensures Kept(Saved(incoming, current, now))
    ensures
      var before, after := Find(current, id), Find(Saved(incoming, current, now), id);
      after.Some? ==>
        if before.Some? then after.value.lastRun == before.value.lastRun && after.value.created == before.value.created
        else after.value.lastRun.None? && after.value.created == Some(now)
  {
    hide Find, ById, Normalized, Kept;
    var preserved := PreservedAll(incoming, current, now);
    NormalizedMembers(preserved, {}, now);
    var after := Find(Saved(incoming, current, now), id);
    FoundIsMember(Saved(incoming, current, now), id);
    FoundIsCreated(current, id);
    if after.Some? {
      FindInById(current, id);
      var r :| r in preserved && r.id == id && after.value.lastRun == r.lastRun
        && (r.created.Some? ==> after.value.created == r.created);
      var i :| 0 <= i < |incoming| && r == Preserved(incoming[i], ById(current), now);
    }
  }

  /** The first rule of a customer with the id. */
  function Named(rules: seq<Rule>, id: string): Option<Rule> {
    if rules == [] then None
    else if rules[0].customer && rules[0].id == id then Some(rules[0]) else Named(rules[1..], id)
  }

  lemma {:induction false} FindNormalized(rules: seq<Rule>, seen: set<string>, now: int, id: string)
    ensures
      var n, r := Find(Normalized(rules, seen, now), id), Named(rules, id);
      && (n.Some? <==> id !in seen && r.Some?)
      && (n.Some? ==>
            && n.value.id == id && n.value.customer && n.value.enabled == r.value.enabled
            && n.value.schedule == r.value.schedule && n.value.lastRun == r.value.lastRun
            && (r.value.anchor.Some? ==> n.value.anchor == r.value.anchor)
            && (r.value.anchor.None? && r.value.created.Some? ==> n.value.anchor == r.value.created))
  {
    if rules != [] {
      var r := rules[0];
      FindNormalized(rules[1..], if !r.customer || r.id in seen then seen else seen + {r.id}, now, id);
    }
  }

  lemma {:induction false} NamedPreserved(incoming: seq<Rule>, byId: map<string, Rule>, now: int, rules: seq<Rule>, id: string)
    requires |rules| == |incoming| && forall i | 0 <= i < |incoming| :: rules[i] == Preserved(incoming[i], byId, now)
    ensures Named(rules, id) ==
      if Named(incoming, id).Some? then Some(Preserved(Named(incoming, id).value, byId, now)) else None
  {
    if incoming != [] {
      assert rules[0] == Preserved(incoming[0], byId, now);
      NamedPreserved(incoming[1..], byId, now, rules[1..], id);
    }
  }

  /**
   After a save a rule is there exactly if the document has it for a customer: the first such, as the
   document has it but for its markers; one without an anchor is anchored at its creation.
   */
  lemma SaveKeepsRules(incoming: seq<Rule>, current: seq<Rule>, now: int, id: string)
    requires Kept(current) && forall r | r in incoming :: r.id != ""
    ensures
      var after, given := Find(Saved(incoming, current, now), id), Named(incoming, id);
      && (after.Some? <==> given.Some?)
      && (after.Some? ==>
            && after.value.enabled == given.value.enabled && after.value.schedule == given.value.schedule
            && after.value.anchor == if given.value.anchor.Some? then given.value.anchor else after.value.created)
  {
    hide Find, Normalized;
    var preserved := PreservedAll(incoming, current, now);
    NamedPreserved(incoming, ById(current), now, preserved, id);
    FindNormalized(preserved, {}, now, id);
    SaveKeepsMarkers(incoming, current, now, id);
    if Named(incoming, id).Some? {
      NamedHas(incoming, id);
      FindInById(current, id);
      FoundIsCreated(current, id);
    }
  }

  lemma {:induction false} NamedHas(rules: seq<Rule>, id: string)
    requires Named(rules, id).Some?
    ensures Named(rules, id).value in rules && Named(rules, id).value.id == id
  {
    if !(rules[0].customer && rules[0].id == id) {
      NamedHas(rules[1..], id);
    }
  }

  // ---------------------------------------------------------------- every run of the scheduler

  /** The run in progress, and the slot it was started for. */
  datatype Job = Job(id: string, slot: int, startedAt: int)

  /** A run that completed: whether its marker could be saved, and in which life of the process it ran. */
  datatype Success = Success(id: string, slot: int, at: int, saved: bool, life: nat)

  datatype System = System(
    memory: seq<Rule>, disk: seq<Rule>, job: Option<Job>, log: seq<Success>, clock: int, life: nat)

  datatype Event =
    | Attempt(id: string)                              // a tick finds the rule due and tries to start it
    | Finish(ok: bool, saved: bool)                    // the run in progress ends; its marker is saved or not
    | UserSave(incoming: seq<Rule>, saved: bool)       // a whole-document save from the browser
    | Restart

  function Apply(previous: Previous, s: System, e: Event, now: int): System {
    var t := s.(clock := now);
    match e
    case Attempt(id) =>
      var r := Find(s.memory, id);
      if s.job.None? && r.Some? && DueSlot(previous, r.value, now).Some?
      then t.(job := Some(Job(id, DueSlot(previous, r.value, now).value, now))) else t
    case Finish(ok, saved) =>
      if s.job.None? then t
      else if !ok then t.(job := None)
      else
        var memory := Marked(s.memory, s.job.value.id, now);
        t.(memory := memory, disk := if saved then memory else s.disk, job := None,
           log := s.log + [Success(s.job.value.id, s.job.value.slot, now, saved, s.life)])
    case UserSave(incoming, saved) =>
      if saved then t.(memory := Saved(incoming, s.memory, now), disk := Saved(incoming, s.memory, now)) else t
    case Restart => t.(memory := s.disk, job := None, life := s.life + 1)
  }

  /** The clock does not run back, a run takes time, and documents name their rules. */
  predicate Proper(s: System, e: Event, now: int) {
    && s.clock <= now
    && (e.Finish? && s.job.Some? ==> s.job.value.startedAt < now)
    && (e.UserSave? ==> forall r | r in e.incoming :: r.id != "")
  }

  /** A success is remembered by a rule of the same id: it has run since, or was created since. */
  predicate Remembered(rules: seq<Rule>, x: Success) {
    var r := Find(rules, x.id);
    r.Some? && r.value.created.Some? ==>
      r.value.created.value >= x.at || (r.value.lastRun.Some? && r.value.lastRun.value >= x.at)
  }

  /** The marker of a success outlives a restart only if it was saved. */
  predicate Lasting(x: Success, life: nat) {
    x.saved || x.life == life
  }

  predicate LogInv(s: System, x: Success) {
    && x.slot < x.at <= s.clock && x.life <= s.life
    && (Lasting(x, s.life) ==> Remembered(s.memory, x))
    && (x.saved ==> Remembered(s.disk, x))
  }

  ghost predicate Inv(s: System) {
    && Kept(s.memory) && Kept(s.disk)
    && (forall i | 0 <= i < |s.log| :: LogInv(s, s.log[i]))
    && (s.job.Some? ==>
          && s.job.value.slot <= s.job.value.startedAt <= s.clock
          && forall i | 0 <= i < |s.log| && s.log[i].id == s.job.value.id && Lasting(s.log[i], s.life) ::
               s.log[i].slot < s.job.value.slot)
    && (forall i, j | 0 <= i < j < |s.log| && s.log[i].id == s.log[j].id && Lasting(s.log[i], s.log[j].life) ::
          s.log[i].slot < s.log[j].slot)
  }

  lemma {:induction false} KeptMarked(rules: seq<Rule>, id: string, now: int)
    ensures |Marked(rules, id, now)| == |rules|
    ensures forall i | 0 <= i < |rules| ::
      Marked(rules, id, now)[i].id == rules[i].id && Marked(rules, id, now)[i].created == rules[i].created
  {
    if rules != [] && rules[0].id != id {
      KeptMarked(rules[1..], id, now);
    }
  }

  lemma AttemptKeepsInv(previous: Previous, s: System, id: string, now: int)
    requires Faithful(previous) && Inv(s) && Proper(s, Attempt(id), now)
    ensures Inv(Apply(previous, s, Attempt(id), now))
  {
    FoundIsCreated(s.memory, id);
    var r := Find(s.memory, id);
    if s.job.None? && r.Some? && DueSlot(previous, r.value, now).Some? {
      var slot := DueSlot(previous, r.value, now).value;
      forall i | 0 <= i < |s.log| && s.log[i].id == id && Lasting(s.log[i], s.life)
        ensures s.log[i].slot < slot
      {
        assert LogInv(s, s.log[i]);
      }
    }
  }

  lemma FinishKeepsInv(previous: Previous, s: System, ok: bool, saved: bool, now: int)
    requires Inv(s) && Proper(s, Finish(ok, saved), now)
    ensures Inv(Apply(previous, s, Finish(ok, saved), now))
  {
    if s.job.Some? && ok {
      var id := s.job.value.id;
      var memory := Marked(s.memory, id, now);
      KeptMarked(s.memory, id, now);
      assert Kept(memory);
      forall x: Success | x.at <= now && (Remembered(s.memory, x) || x.id == id)
        ensures Remembered(memory, x)
      {
        FindMarked(s.memory, id, now, x.id);
      }
    }
  }

  lemma SaveKeepsInv(previous: Previous, s: System, incoming: seq<Rule>, saved: bool, now: int)
    requires Inv(s) && Proper(s, UserSave(incoming, saved), now)
    ensures Inv(Apply(previous, s, UserSave(incoming, saved), now))
  {
    if saved {
      hide Saved, Find;
      var memory := Saved(incoming, s.memory, now);
      SaveKeepsMarkers(incoming, s.memory, now, "");
      forall x | Remembered(s.memory, x) && x.at <= now
        ensures Remembered(memory, x)
      {
        SaveKeepsMarkers(incoming, s.memory, now, x.id);
      }
    }
  }

  lemma StepKeepsInv(previous: Previous, s: System, e: Event, now: int)
    requires Faithful(previous) && Inv(s) && Proper(s, e, now)
    ensures Inv(Apply(previous, s, e, now))
  {
    match e {
      case Attempt(id) => AttemptKeepsInv(previous, s, id, now);
      case Finish(ok, saved) => FinishKeepsInv(previous, s, ok, saved, now);
      case UserSave(incoming, saved) => SaveKeepsInv(previous, s, incoming, saved, now);
      case Restart =>
    }
  }

  function Run(previous: Previous, s: System, es: seq<(Event, int)>): System
    decreases |es|
  {
    if es == [] then s else Run(previous, Apply(previous, s, es[0].0, es[0].1), es[1..])
  }

  predicate ProperRun(previous: Previous, s: System, es: seq<(Event, int)>)
    decreases |es|
  {
    es == [] || (Proper(s, es[0].0, es[0].1) && ProperRun(previous, Apply(previous, s, es[0].0, es[0].1), es[1..]))
  }

  lemma {:induction false} RunKeepsInv(previous: Previous, s: System, es: seq<(Event, int)>)
    requires Faithful(previous) && Inv(s) && ProperRun(previous, s, es)
    ensures Inv(Run(previous, s, es))
    decreases |es|
  {
    hide Inv, Apply, Proper;
    if es != [] {
      StepKeepsInv(previous, s, es[0].0, es[0].1);
      RunKeepsInv(previous, Apply(previous, s, es[0].0, es[0].1), es[1..]);
    }
  }

  /** A scheduler that starts on a saved document, with nothing run yet. */
  ghost predicate Initial(s: System) {
    Kept(s.memory) && s.disk == s.memory && s.job.None? && s.log == []
  }

  /**
   Over any ticks, successes, failures, restarts and saves of documents however stale, each slot of a
   rule gets at most one successful run: the slots that succeed only ever move forward. The one way to
   run a slot again is to restart after a success whose marker could not be saved.
   */
  lemma EachSlotRunsOnce(previous: Previous, s: System, es: seq<(Event, int)>, i: nat, j: nat)
    requires Faithful(previous) && Initial(s) && ProperRun(previous, s, es)
    requires i < j < |Run(previous, s, es).log|
    ensures
      var log := Run(previous, s, es).log;
      log[i].id == log[j].id && (log[i].saved || log[i].life == log[j].life) ==> log[i].slot < log[j].slot
  {
    RunKeepsInv(previous, s, es);
  }

  /** Whatever starts, starts for the last occurrence, which is not before the rule's creation and not yet run. */
  lemma OnlyDueSlotsStart(previous: Previous, s: System, e: Event, now: int)
    requires Faithful(previous) && s.job.None? && Kept(s.memory)
    ensures
      var t := Apply(previous, s, e, now);
      t.job.Some? ==>
        && e == Attempt(t.job.value.id) && Find(s.memory, e.id).Some?
        && var r := Find(s.memory, e.id).value;
           previous(r.schedule, now) == Some(t.job.value.slot)
           && r.enabled && r.created.Some? && r.created.value <= t.job.value.slot <= now
           && (r.lastRun.Some? ==> r.lastRun.value < t.job.value.slot)
  {
    if e.Attempt? {
      FoundIsCreated(s.memory, e.id);
    }
  }

  /** And it does start: in an idle scheduler, every attempt of a rule that missed its last occurrence. */
  lemma MissedSlotsStart(previous: Previous, s: System, id: string, now: int)
    requires s.job.None? && Find(s.memory, id).Some?
    ensures
      var r := Find(s.memory, id).value;
      var t := Apply(previous, s, Attempt(id), now);
      && t == s.(job := t.job, clock := now)
      && (t.job.Some? <==> Missed(previous, r, now))
      && (t.job.Some? ==> t.job.value == Job(id, previous(r.schedule, now).value, now))
  {
  }

  /** A run that fails leaves its slot due: at any later instant that slot, or a later one, is still due. */
  lemma FailedRunStaysDue(previous: Previous, s: System, finished: int, later: int)
    requires Faithful(previous) && Inv(s) && s.job.Some?
    requires
      var r := Find(s.memory, s.job.value.id);
      r.Some? && DueSlot(previous, r.value, s.job.value.startedAt) == Some(s.job.value.slot)
    requires s.job.value.startedAt <= finished <= later
    ensures
      var t := Apply(previous, s, Finish(false, false), finished);
      var r := Find(t.memory, s.job.value.id);
      r.Some? && DueSlot(previous, r.value, later).Some? && DueSlot(previous, r.value, later).value >= s.job.value.slot
  {
    FoundIsCreated(s.memory, s.job.value.id);
  }

  /** A run that succeeds is not repeated: what is due afterwards came after its completion. */
  lemma SucceededRunIsNotDue(previous: Previous, s: System, saved: bool, finished: int, later: int)
    requires Faithful(previous) && Inv(s) && s.job.Some?
    ensures
      var t := Apply(previous, s, Finish(true, saved), finished);
      var r := Find(t.memory, s.job.value.id);
      r.Some? && DueSlot(previous, r.value, later).Some? ==> DueSlot(previous, r.value, later).value > finished
  {
    FindMarked(s.memory, s.job.value.id, finished, s.job.value.id);
  }
}

/** The two searches of the scheduler are occurrences as the catch-up rule asks for them. */
module DueSlots {
  import opened Wrappers
  import opened Calendar
  import opened Schedule
  import opened Aware
  import CatchUp

  /** The searches begin on the first day of the calendar; from `start` on, every zone has reached it. */
  ghost predicate Reached(zones: nat -> Zone, start: int) {
    forall s: nat, t: int | start <= t :: WallNow(zones(s), t).day >= 1
  }

  /** `previous` is what the zoned search finds, for the rule and zone of each schedule. */
  ghost predicate IsZonedSearch(previous: CatchUp.Previous, rules: nat -> Rule, zones: nat -> Zone, start: int)
    requires Reached(zones, start) && forall s :: Normal(rules(s))
  {
    forall s: nat, t: int ::
      if start <= t then IsLast(rules(s), zones(s), Listed(rules(s), zones(s), t), t, previous(s, t))
      else previous(s, t).None?
  }

  /** In any zones whose offsets differ by at most 24 hours, the zoned search is faithful. */
  lemma ZonedSearchIsFaithful(previous: CatchUp.Previous, rules: nat -> Rule, zones: nat -> Zone, start: int)
    requires Reached(zones, start) && (forall s :: Normal(rules(s)) && Bounded(zones(s)))
    requires IsZonedSearch(previous, rules, zones, start)
    ensures CatchUp.Faithful(previous)
  {
    forall s: nat, t: int, u: int | t <= u && previous(s, t).Some?
      ensures previous(s, t).value <= t
      ensures previous(s, u).Some? && previous(s, t).value <= previous(s, u).value
    {
      PreviousRunMovesForward(rules(s), zones(s), t, u, previous(s, t), previous(s, u));
    }
  }

  /** `found` is what the naive search finds on the wall clock `wall`. */
  ghost predicate IsNaiveSearch(found: (nat, int) -> Option<Wall>, rules: nat -> Rule, wall: int -> Wall)
    requires forall s :: Normal(rules(s))
  {
    && (forall t :: wall(t).Proper() && wall(t).Micros() == t)
    && (forall s: nat, t: int ::
          var floor := if rules(s).recurrence.Biweekly? then Some(rules(s).anchor) else None;
          if wall(t).day >= 1 then IsPrevious(rules(s), floor, wall(t), found(s, t)) else found(s, t).None?)
  }

  /** The same time as an instant. */
  function InMicros(t: Option<Wall>): Option<int> {
    if t.None? then None else Some(t.value.Micros())
  }

  /** The naive search, its times read as instants, is faithful. */
  lemma NaiveSearchIsFaithful(previous: CatchUp.Previous, found: (nat, int) -> Option<Wall>, rules: nat -> Rule, wall: int -> Wall)
    requires forall s :: Normal(rules(s))
    requires IsNaiveSearch(found, rules, wall)
    requires forall s: nat, t: int :: previous(s, t) == InMicros(found(s, t))
    ensures CatchUp.Faithful(previous)
  {
    hide IsSlot;
    forall s: nat, t: int, u: int | t <= u && previous(s, t).Some?
      ensures previous(s, t).value <= t
      ensures previous(s, u).Some? && previous(s, t).value <= previous(s, u).value
    {
      var floor := if rules(s).recurrence.Biweekly? then Some(rules(s).anchor) else None;
      MicrosOrder(wall(u), wall(t));
      PreviousMovesForward(rules(s), floor, wall(t), wall(u), found(s, t), found(s, u));
      SlotClock(rules(s), found(s, t).value);
      SlotClock(rules(s), found(s, u).value);
      MicrosOrder(wall(t), found(s, t).value);
      MicrosOrder(found(s, u).value, found(s, t).value);
    }
  }

  /** So under the program's own zoned search no slot of a rule succeeds twice. */
  lemma ZonedSlotsRunOnce(previous: CatchUp.Previous, rules: nat -> Rule, zones: nat -> Zone, start: int,
                              s: CatchUp.System, es: seq<(CatchUp.Event, int)>, i: nat, j: nat)
    requires Reached(zones, start) && (forall k :: Normal(rules(k)) && Bounded(zones(k)))
    requires IsZonedSearch(previous, rules, zones, start)
    requires CatchUp.Initial(s) && CatchUp.ProperRun(previous, s, es) && i < j < |CatchUp.Run(previous, s, es).log|
    ensures
      var log := CatchUp.Run(previous, s, es).log;
      log[i].id == log[j].id && (log[i].saved || log[i].life == log[j].life) ==> log[i].slot < log[j].slot
  {
    ZonedSearchIsFaithful(previous, rules, zones, start);
    CatchUp.EachSlotRunsOnce(previous, s, es, i, j);
  }
}

/**
 Durable command receipts: `begin_command` and `emit_command_result` over the runtime store.

 Both run under one lock, so each is one step on the ledger. The class is proved to take exactly the
 steps `Begin` and `Emit`; the theorems are about every sequence of steps, including the recovery at a
 restart that marks unfinished commands as interrupted.
 */
module Receipts {
  import opened Decimals
  import opened Wrappers

  datatype Status = Accepted | Succeeded | Unsuccessful

  /** The status column of a command's row. */
  datatype Saved = Running | Interrupted | Completed | Failed

  datatype Receipt = Receipt(commandId: nat, namespace: string, status: Status, result: string)

  datatype Envelope = Envelope(eventId: nat, occurredAt: int, name: string, payload: Receipt)

  datatype Command = Command(status: Saved, action: Option<string>)

  /** A stored event: the identity of the envelope beside its payload, as `record_daedalus_command_receipt` writes it. */
  datatype Stored = Stored(eventId: nat, occurredAt: int, payload: Receipt)

  datatype Ledger = Ledger(jobs: map<string, Command>, events: map<string, seq<Stored>>)

  const EVENT_NAME := "daedalus_command_result"
  const RESULT_LIMIT: nat := 1000
  const LIST_LIMIT: nat := 200

  predicate HexDigit(c: char) {
    'a' <= c <= 'f' || '0' <= c <= '9'
  }

  predicate ValidNamespace(n: Option<string>) {
    n.Some? && |n.value| == 24 && forall i | 0 <= i < 24 :: HexDigit(n.value[i])
  }

  function JobId(id: nat, namespace: string): string {
    "daedalus-command:" + namespace + ":" + Decimal(id)
  }

  function Local(s: Status): Saved {
    match s
    case Accepted => Running
    case Succeeded => Completed
    case Unsuccessful => Failed
  }

  predicate Terminal(s: Saved) {
    s.Completed? || s.Failed?
  }

  function Clip(result: string): string {
    result[..Min(|result|, RESULT_LIMIT)]
  }

  function ToStored(e: Envelope): Stored {
    Stored(e.eventId, e.occurredAt, e.payload)
  }

  function FromStored(s: Stored): Envelope {
    Envelope(s.eventId, s.occurredAt, EVENT_NAME, s.payload)
  }

  function EventsOf(l: Ledger, k: string): seq<Stored> {
    if k in l.events then l.events[k] else []
  }

  /** `list_job_events`: the latest 200, oldest first. */
  function Replay(l: Ledger, k: string): seq<Envelope> {
    var stored := EventsOf(l, k);
    var latest := stored[|stored| - Min(|stored|, LIST_LIMIT)..];
    seq(|latest|, i requires 0 <= i < |latest| => FromStored(latest[i]))
  }

  /** One call's own values: the command, where it came from, and the identity of a new envelope. */
  datatype Call = Call(id: nat, namespace: Option<string>, action: Option<string>, newId: nat, now: int)

  function NewEnvelope(c: Call, status: Status, result: string): Envelope
    requires c.namespace.Some?
  {
    Envelope(c.newId, c.now, EVENT_NAME, Receipt(c.id, c.namespace.value, status, Clip(result)))
  }

  /** `emit_command_result`: the ledger after it, and the envelope it sends, if any. */
  function Emit(l: Ledger, c: Call, status: Status, result: string): (Ledger, seq<Envelope>) {
    if !ValidNamespace(c.namespace) then (l, []) else
    var k := JobId(c.id, c.namespace.value);
    if k in l.jobs && Terminal(l.jobs[k].status) then (l, []) else
    var envelope := NewEnvelope(c, status, result);
    var action := if c.action.Some? then c.action else if k in l.jobs then l.jobs[k].action else None;
    (Ledger(l.jobs[k := Command(Local(status), action)],
            l.events[k := EventsOf(l, k) + [ToStored(envelope)]]), [envelope])
  }

  const RECEIVED := "Command received by the local NmapUI service."

  /** `begin_command`: the ledger after it, whether the command is admitted, and what is sent. */
  function Begin(l: Ledger, c: Call): (Ledger, bool, seq<Envelope>) {
    if c.namespace.Some? && JobId(c.id, c.namespace.value) in l.jobs then
      (l, false, Replay(l, JobId(c.id, c.namespace.value)))
    else
      var (after, sent) := Emit(l, c, Accepted, RECEIVED);
      (after, true, sent)
  }

  // ---------------------------------------------------------------- the program's own form

  class CommandLedger {
    var jobs: map<string, Command>
    var events: map<string, seq<Stored>>

    ghost function Abstract(): Ledger
      reads this
    {
      Ledger(jobs, events)
    }

    constructor ()
      ensures Abstract() == Ledger(map[], map[])
    {
      jobs, events := map[], map[];
    }

    /** `record_daedalus_command_receipt`: the row and its event in one transaction. */
    method RecordReceipt(k: string, command: Command, envelope: Envelope)
      modifies this
      ensures jobs == old(jobs)[k := command]
      ensures events == old(events)[k := EventsOf(old(Abstract()), k) + [ToStored(envelope)]]
    {
      jobs := jobs[k := command];
      var stored := Stored(envelope.eventId, envelope.occurredAt, envelope.payload);
      events := events[k := (if k in events then events[k] else []) + [stored]];
    }

    method EmitCommandResult(c: Call, status: Status, result: string) returns (sent: seq<Envelope>)
      modifies this
      ensures (Abstract(), sent) == Emit(old(Abstract()), c, status, result)
    {
      if !ValidNamespace(c.namespace) {
        return [];
      }
      var k := JobId(c.id, c.namespace.value);
      if k in jobs && Terminal(jobs[k].status) {
        return [];
      }
      var envelope := NewEnvelope(c, status, result);
      var action := c.action;
      if action.None? && k in jobs {
        action := jobs[k].action;
      }
      RecordReceipt(k, Command(Local(status), action), envelope);
      return [envelope];
    }

    /** The loop over `list_job_events` that re-emits each stored envelope. */
    method ReplayEvents(k: string) returns (sent: seq<Envelope>)
      ensures sent == Replay(Abstract(), k)
    {
      var stored := if k in events then events[k] else [];
      sent := [];
      var first := |stored| - Min(|stored|, LIST_LIMIT);
      for i := first to |stored|
        invariant |sent| == i - first
        invariant forall n | 0 <= n < |sent| :: sent[n] == FromStored(stored[first + n])
      {
        sent := sent + [FromStored(stored[i])];
      }
    }

    method BeginCommand(c: Call) returns (admitted: bool, sent: seq<Envelope>)
      modifies this
      ensures (Abstract(), admitted, sent) == Begin(old(Abstract()), c)
    {
      hide Replay, Emit, JobId;
      if c.namespace.Some? {
        var k := JobId(c.id, c.namespace.value);
        if k in jobs {
          sent := ReplayEvents(k);
          return false, sent;
        }
      }
      sent := EmitCommandResult(c, Accepted, RECEIVED);
      return true, sent;
    }
  }

  // ---------------------------------------------------------------- job identifiers

  /** The last colon of an identifier stands before the number. */
  lemma LastColon(id: nat, namespace: string)
    ensures
      var k, at := JobId(id, namespace), |"daedalus-command:"| + |namespace|;
      at < |k| && k[at] == ':' && forall i | at < i < |k| :: '0' <= k[i] <= '9'
  {
    var k, at := JobId(id, namespace), |"daedalus-command:"| + |namespace|;
    assert k[at + 1..] == Decimal(id);
    forall i | at < i < |k|
      ensures '0' <= k[i] <= '9'
    {
      assert k[i] == k[at + 1..][i - at - 1];
    }
  }

  lemma SameColon(a: nat, m: string, b: nat, n: string)
    requires JobId(a, m) == JobId(b, n)
    ensures |m| == |n|
  {
    hide JobId;
    LastColon(a, m);
    LastColon(b, n);
  }

  /** Different commands never share a receipt, whatever their namespaces. */
  lemma JobIdInjective(a: nat, m: string, b: nat, n: string)
    requires JobId(a, m) == JobId(b, n)
    ensures a == b && m == n
  {
    var prefix := "daedalus-command:";
    var x, y := JobId(a, m), JobId(b, n);
    SameColon(a, m, b, n);
    assert x[|prefix|..|prefix| + |m|] == m && y[|prefix|..|prefix| + |n|] == n;
    assert x[|prefix| + |m| + 1..] == Decimal(a) && y[|prefix| + |n| + 1..] == Decimal(b);
    DecimalInjective(a, b);
  }

  // ---------------------------------------------------------------- one call

  /** 24 lower-case hexadecimal digits, and no result of this command is final yet. */
  predicate Recordable(l: Ledger, c: Call) {
    && c.namespace.Some? && |c.namespace.value| == 24
    && (forall i | 0 <= i < 24 :: c.namespace.value[i] in "0123456789abcdef")
    && var k := "daedalus-command:" + c.namespace.value + ":" + Decimal(c.id);
       k in l.jobs ==> l.jobs[k].status != Completed && l.jobs[k].status != Failed
  }

  lemma ValidNamespaceIff(n: string)
    ensures ValidNamespace(Some(n)) <==> |n| == 24 && forall i | 0 <= i < 24 :: n[i] in "0123456789abcdef"
  {
    forall c: char
      ensures HexDigit(c) <==> c in "0123456789abcdef"
    {
      var s := "0123456789abcdef";
      if HexDigit(c) {
        assert c == s[if c <= '9' then c as int - 48 else c as int - 87];
      }
    }
  }

  /**
   A result is recorded and sent exactly while none is final: the row says running, completed or failed as
   the result does, the text is cut at 1000 characters, and no other command changes.
   */
  lemma ResultMeans(l: Ledger, c: Call, status: Status, result: string)
    ensures
      var (t, sent) := Emit(l, c, status, result);
      if Recordable(l, c) then
        var k := "daedalus-command:" + c.namespace.value + ":" + Decimal(c.id);
        var text := if |result| <= 1000 then result else result[..1000];
        var envelope := Envelope(c.newId, c.now, "daedalus_command_result", Receipt(c.id, c.namespace.value, status, text));
        && sent == [envelope]
        && k in t.jobs && t.jobs == l.jobs[k := t.jobs[k]]
        && (t.jobs[k].status == Running <==> status == Accepted)
        && (t.jobs[k].status == Completed <==> status == Succeeded)
        && (t.jobs[k].status == Failed <==> status == Unsuccessful)
        && (c.action.Some? ==> t.jobs[k].action == c.action)
        && (c.action.None? && k in l.jobs ==> t.jobs[k].action == l.jobs[k].action)
        && k in t.events && t.events == l.events[k := t.events[k]]
        && t.events[k] == (if k in l.events then l.events[k] else []) + [Stored(c.newId, c.now, envelope.payload)]
      else t == l && sent == []
  {
    if c.namespace.Some? {
      ValidNamespaceIff(c.namespace.value);
    }
    assert result[..|result|] == result;
  }

  /** A command is refused exactly when there is a row for it; then nothing changes. A new one is recorded as accepted. */
  lemma BeginMeans(l: Ledger, c: Call)
    ensures
      var (t, admitted, sent) := Begin(l, c);
      var known := c.namespace.Some? && "daedalus-command:" + c.namespace.value + ":" + Decimal(c.id) in l.jobs;
      && (admitted <==> !known)
      && (!admitted ==> t == l)
      && (admitted && Recordable(l, c) ==>
            && |sent| == 1 && sent[0].payload.status == Accepted && sent[0].payload.commandId == c.id
            && t.jobs["daedalus-command:" + c.namespace.value + ":" + Decimal(c.id)].status == Running)
      && (admitted && !Recordable(l, c) ==> t == l && sent == [])
  {
    ResultMeans(l, c, Accepted, RECEIVED);
    hide Emit, Replay, Recordable;
    if c.namespace.Some? {
      assert JobId(c.id, c.namespace.value) == "daedalus-command:" + c.namespace.value + ":" + Decimal(c.id);
    }
  }

  // ---------------------------------------------------------------- every sequence of calls

  /** A begin, a terminal result, or the restart recovery of one unfinished command. */
  datatype Event =
    | BeginCall(c: Call)
    | ResultCall(c: Call, ok: bool, result: string)
    | Recovered(k: string)

  function Interrupt(l: Ledger, k: string): Ledger {
    if k in l.jobs && l.jobs[k].status.Running?
    then l.(jobs := l.jobs[k := l.jobs[k].(status := Interrupted)]) else l
  }

  function Apply(l: Ledger, e: Event): Ledger {
    match e
    case BeginCall(c) => Begin(l, c).0
    case ResultCall(c, ok, result) => Emit(l, c, if ok then Succeeded else Unsuccessful, result).0
    case Recovered(k) => Interrupt(l, k)
  }

  function Run(l: Ledger, es: seq<Event>): Ledger
    decreases |es|
  {
    if es == [] then l else Run(Apply(l, es[0]), es[1..])
  }

  predicate IsFinal(s: Stored) {
    !s.payload.status.Accepted?
  }

  /** What each status says about the stored events of a command. */
  predicate Consistent(l: Ledger, k: string) {
    var ev := EventsOf(l, k);
    if k !in l.jobs then ev == []
    else if !Terminal(l.jobs[k].status) then |ev| == 1 && !IsFinal(ev[0])
    else
      && 1 <= |ev| <= 2
      && Local(ev[|ev| - 1].payload.status) == l.jobs[k].status
      && (|ev| == 2 ==> !IsFinal(ev[0]))
  }

  function Rank(l: Ledger, k: string): nat {
    if k !in l.jobs then 0
    else if l.jobs[k].status.Running? then 1
    else if l.jobs[k].status.Interrupted? then 2 else 3
  }

  /** One step: the status only moves forward, a terminal row is never touched, events are only added. */
  lemma StepForward(l: Ledger, e: Event, k: string)
    requires Consistent(l, k)
    ensures
      var t := Apply(l, e);
      && Consistent(t, k)
      && Rank(l, k) <= Rank(t, k)
      && EventsOf(l, k) <= EventsOf(t, k)
      && (k in l.jobs && Terminal(l.jobs[k].status) ==> t.jobs[k] == l.jobs[k] && EventsOf(t, k) == EventsOf(l, k))
  {
    hide JobId, Replay, Clip;
  }

  lemma {:induction false} RunForward(l: Ledger, es: seq<Event>, k: string)
    requires Consistent(l, k)
    ensures
      var t := Run(l, es);
      && Consistent(t, k)
      && Rank(l, k) <= Rank(t, k)
      && EventsOf(l, k) <= EventsOf(t, k)
      && (k in l.jobs && Terminal(l.jobs[k].status) ==> t.jobs[k] == l.jobs[k] && EventsOf(t, k) == EventsOf(l, k))
    decreases |es|
  {
    hide Apply, Consistent, EventsOf;
    if es != [] {
      StepForward(l, es[0], k);
      RunForward(Apply(l, es[0]), es[1..], k);
    }
  }

  const EMPTY := Ledger(map[], map[])

  /** At every moment a command has at most one terminal event, and a terminal status is for ever. */
  lemma OneTerminalResult(es: seq<Event>, later: seq<Event>, k: string)
    ensures
      var l := Run(EMPTY, es);
      && |EventsOf(l, k)| <= 2
      && (forall i | 0 <= i < |EventsOf(l, k)| - 1 :: !IsFinal(EventsOf(l, k)[i]))
      && (k in l.jobs && Terminal(l.jobs[k].status) ==>
            k in Run(l, later).jobs && Run(l, later).jobs[k] == l.jobs[k]
            && EventsOf(Run(l, later), k) == EventsOf(l, k))
  {
    RunForward(EMPTY, es, k);
    RunForward(Run(EMPTY, es), later, k);
  }

  /** After any calls, the row of a command says what the last of its stored results says. */
  lemma RowTellsResult(es: seq<Event>, k: string)
    ensures
      var l := Run(EMPTY, es);
      k in l.jobs ==>
        var ev := EventsOf(l, k);
        && ev != []
        && (l.jobs[k].status == Completed <==> ev[|ev| - 1].payload.status == Succeeded)
        && (l.jobs[k].status == Failed <==> ev[|ev| - 1].payload.status == Unsuccessful)
        && (l.jobs[k].status == Running || l.jobs[k].status == Interrupted <==> ev[|ev| - 1].payload.status == Accepted)
  {
    RunForward(EMPTY, es, k);
  }

  /** Once a command with a valid namespace was admitted, it is never admitted again. */
  lemma AdmittedAtMostOnce(es: seq<Event>, c: Call, later: seq<Event>, again: Call)
    requires ValidNamespace(c.namespace) && again.id == c.id && again.namespace == c.namespace
    ensures
      var first := Begin(Run(EMPTY, es), c);
      first.1 ==> !Begin(Run(first.0, later), again).1
  {
    var k := JobId(c.id, c.namespace.value);
    var l := Run(EMPTY, es);
    var t := Begin(l, c).0;
    RunForward(EMPTY, es, k);
    StepForward(l, BeginCall(c), k);
    RunForward(t, later, k);
    if Begin(l, c).1 {
      assert k in t.jobs;
    }
  }

  /** Every recorded command has a valid namespace. */
  ghost predicate OnlyValid(l: Ledger) {
    forall k | k in l.jobs :: exists id, ns :: ValidNamespace(Some(ns)) && k == JobId(id, ns)
  }

  lemma {:induction false} RunKeepsOnlyValid(l: Ledger, es: seq<Event>)
    requires OnlyValid(l)
    ensures OnlyValid(Run(l, es))
    decreases |es|
  {
    if es != [] {
      StepKeepsOnlyValid(l, es[0]);
      RunKeepsOnlyValid(Apply(l, es[0]), es[1..]);
    }
  }

  lemma StepKeepsOnlyValid(l: Ledger, e: Event)
    requires OnlyValid(l)
    ensures OnlyValid(Apply(l, e))
  {
    hide JobId, HexDigit, Clip, Replay;
    var t := Apply(l, e);
    forall k | k in t.jobs
      ensures exists id, ns :: ValidNamespace(Some(ns)) && k == JobId(id, ns)
    {
      if k !in l.jobs {
        assert ValidNamespace(Some(e.c.namespace.value)) && k == JobId(e.c.id, e.c.namespace.value);
      }
    }
  }

  /**
   However the ledger was reached and whatever follows, a command that was admitted is refused from then
   on if and only if its namespace is a valid one: for any other nothing is recorded.
   */
  lemma AgainRefusedIff(es: seq<Event>, c: Call, later: seq<Event>, again: Call)
    requires Begin(Run(EMPTY, es), c).1 && again.id == c.id && again.namespace == c.namespace
    ensures !Begin(Run(Begin(Run(EMPTY, es), c).0, later), again).1 <==> ValidNamespace(c.namespace)
  {
    if ValidNamespace(c.namespace) {
      AdmittedAtMostOnce(es, c, later, again);
    } else if c.namespace.Some? {
      var l := Run(EMPTY, es);
      var t := Run(Begin(l, c).0, later);
      RunKeepsOnlyValid(EMPTY, es);
      RunKeepsOnlyValid(Begin(l, c).0, later);
      InvalidIsUnknown(t, c.id, c.namespace.value);
    }
  }

  lemma InvalidIsUnknown(l: Ledger, id: nat, ns: string)
    requires OnlyValid(l) && !ValidNamespace(Some(ns))
    ensures JobId(id, ns) !in l.jobs
  {
    if JobId(id, ns) in l.jobs {
      var i, n :| ValidNamespace(Some(n)) && JobId(id, ns) == JobId(i, n);
      JobIdInjective(id, ns, i, n);
    }
  }

  /** The new envelopes one step sends for command `k`; a replay sends none. */
  function NewlySent(l: Ledger, e: Event, k: string): seq<Envelope> {
    match e
    case BeginCall(c) =>
      if c.namespace.Some? && JobId(c.id, c.namespace.value) == k && Begin(l, c).1 then Begin(l, c).2 else []
    case ResultCall(c, ok, result) =>
      if c.namespace.Some? && JobId(c.id, c.namespace.value) == k
      then Emit(l, c, if ok then Succeeded else Unsuccessful, result).1 else []
    case Recovered(_) => []
  }

  function SentBy(l: Ledger, es: seq<Event>, k: string): seq<Envelope>
    decreases |es|
  {
    if es == [] then [] else NewlySent(l, es[0], k) + SentBy(Apply(l, es[0]), es[1..], k)
  }

  function Restored(stored: seq<Stored>): (r: seq<Envelope>)
    ensures |r| == |stored|
  {
    seq(|stored|, i requires 0 <= i < |stored| => FromStored(stored[i]))
  }

  lemma StepStoresWhatItSends(l: Ledger, e: Event, k: string)
    ensures Restored(EventsOf(Apply(l, e), k)) == Restored(EventsOf(l, k)) + NewlySent(l, e, k)
  {
    hide JobId, Replay, Clip, Terminal;
  }

  lemma {:induction false} RunStoresWhatItSends(l: Ledger, es: seq<Event>, k: string)
    ensures Restored(EventsOf(Run(l, es), k)) == Restored(EventsOf(l, k)) + SentBy(l, es, k)
    decreases |es|
  {
    hide Apply, EventsOf, NewlySent;
    if es != [] {
      StepStoresWhatItSends(l, es[0], k);
      RunStoresWhatItSends(Apply(l, es[0]), es[1..], k);
    }
  }

  /** After any calls, a replay sends exactly the envelopes that were sent for the command, in order. */
  lemma ReplayIsExact(es: seq<Event>, k: string)
    ensures Replay(Run(EMPTY, es), k) == SentBy(EMPTY, es, k)
  {
    RunForward(EMPTY, es, k);
    RunStoresWhatItSends(EMPTY, es, k);
    var stored := EventsOf(Run(EMPTY, es), k);
    assert stored[0..] == stored;
    assert Replay(Run(EMPTY, es), k) == Restored(stored);
  }
}

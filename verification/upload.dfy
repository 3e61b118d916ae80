/**
 The resumable Drive upload: one loop over `offset`, `failures`, `probing` and `sentThrough`, run
 against a server and a file that may do anything at every instant.

 `Round` and `Run` specify what the loop computes. `Drive` and `UploadFile` are the program's own
 form, a loop that updates its variables, and are proved to compute exactly `Run`. What the upload
 promises is then proved about `Run`, for every world.
 */
module Upload {
  import opened Wrappers

  const CHUNK_BYTES: nat := 8 * 1024 * 1024
  const MAX_FAILURES: nat := 4

  type Bytes = seq<char>

  /** What the open descriptor shows at one instant: its bytes and its modification time. */
  datatype FileImage = FileImage(content: Bytes, stamp: int)

  datatype RangeHeader = Missing | Malformed | Through(last: nat)

  /** The parts of an HTTP response the client looks at; `size` is -1 when it is not a number. */
  datatype Reply = Reply(status: nat, throttled: bool, location: bool, range: RangeHeader,
                         id: Option<string>, size: Option<int>)

  /**
   Everything the client does not control, as functions of a clock that ticks at each look at the
   file and at each network attempt: the file, how much of a request body the server keeps, the
   answer (`None` is an exception; it may depend on how many bytes the server then holds), and
   whether a new access token can be had.
   */
  datatype World = World(
    file: nat -> FileImage,
    taken: nat -> nat,
    answer: (nat, nat) -> Option<Reply>,
    refresh: nat -> bool)

  datatype Reason =
    | Interrupted | FileChanged | NotStarted | BadSession | EarlyCompletion | NoId | WrongSize
    | BadRange | InconsistentRange | HttpError

  datatype Outcome = Uploaded(id: string) | Failed(reason: Reason)

  /** What goes over the wire, in order: data ranges, status queries, and confirmations believed. */
  datatype Wire = Data(start: nat, length: nat) | Query | Confirmed(upto: nat)

  datatype Transfer = Transfer(
    offset: nat, failures: nat, probing: bool, sentThrough: nat,
    held: Bytes, clock: nat, wire: seq<Wire>)

  datatype Step = Again(next: Transfer) | Done(outcome: Outcome, final: Transfer)

  function Size(w: World): nat {
    |w.file(0).content|
  }

  predicate Retryable(r: Reply) {
    r.status == 429 || 500 <= r.status <= 599 || (r.status == 403 && r.throttled)
  }

  /** The size and the modification time are those first seen. */
  predicate Unchanged(w: World, now: FileImage) {
    |now.content| == Size(w) && now.stamp == w.file(0).stamp
  }

  function ReadAt(content: Bytes, offset: nat, limit: nat): Bytes {
    if |content| <= offset then []
    else content[offset..Min(offset + limit, |content|)]
  }

  /** The server holds a contiguous prefix; a body that starts inside it may extend it. */
  function Receive(held: Bytes, start: nat, body: Bytes, taken: nat): (r: Bytes)
    ensures held <= r
    ensures |r| == |held| || |r| <= start + |body|
  {
    var upto := Min(taken, |body|);
    if start <= |held| < start + upto then held + body[|held| - start..upto] else held
  }

  datatype Sent = Sent(answer: Option<Reply>, held: Bytes, clock: nat)

  /** One request: a 401 is answered by one more attempt under a new token. */
  function Send(w: World, held: Bytes, clock: nat, start: nat, body: Bytes): Sent {
    var held1 := Receive(held, start, body, w.taken(clock));
    var first := w.answer(clock, |held1|);
    if first.None? || first.value.status != 401 then Sent(first, held1, clock + 1)
    else if !w.refresh(clock) then Sent(None, held1, clock + 1)
    else
      var held2 := Receive(held1, start, body, w.taken(clock + 1));
      Sent(w.answer(clock + 1, |held2|), held2, clock + 2)
  }

  // ---------------------------------------------------------------- the specification

  ghost predicate Shape(w: World, s: Transfer) {
    && s.failures < MAX_FAILURES
    && (s.offset < Size(w) || (s.offset == 0 && Size(w) == 0))
  }

  function Chunk(w: World, s: Transfer): Bytes
    requires s.offset <= Size(w)
  {
    if s.probing then []
    else ReadAt(w.file(s.clock + 1).content, s.offset, Min(CHUNK_BYTES, Size(w) - s.offset))
  }

  function Fail(s: Transfer, reason: Reason): Step {
    Done(Failed(reason), s)
  }

  /** Count a failure; the fourth in a row gives up. */
  function Retry(s: Transfer, probing: bool): Step {
    if s.failures + 1 >= MAX_FAILURES then Fail(s.(failures := s.failures + 1), Interrupted)
    else Again(s.(failures := s.failures + 1, probing := probing))
  }

  function Complete(w: World, s: Transfer, r: Reply): Step {
    var looked := s.(clock := s.clock + 1);
    if !Unchanged(w, w.file(s.clock)) then Fail(looked, FileChanged)
    else if s.sentThrough < Size(w) then Fail(looked, EarlyCompletion)
    else if r.id.None? || r.id.value == "" then Fail(looked, NoId)
    else if r.size.Some? && r.size.value != Size(w) then Fail(looked, WrongSize)
    else Done(Uploaded(r.id.value), looked)
  }

  function Resume(w: World, s: Transfer, sent: nat, range: RangeHeader): Step {
    if range.Malformed? then Fail(s, BadRange) else
    var confirmed := if range.Through? then range.last + 1 else 0;
    var maximum := if s.probing then Size(w) else s.offset + sent;
    if !(s.offset <= confirmed <= maximum) || confirmed >= Size(w) then Fail(s, InconsistentRange) else
    var believed := s.(wire := s.wire + [Confirmed(confirmed)]);
    if confirmed == s.offset then Retry(believed, false)
    else Again(believed.(failures := 0, offset := confirmed, probing := false))
  }

  /** What the client makes of the answer to a request that carried `sent` bytes. */
  function Settle(w: World, s: Transfer, sent: nat, answer: Option<Reply>): Step {
    if answer.None? then Retry(s, true)
    else if answer.value.status == 200 || answer.value.status == 201 then Complete(w, s, answer.value)
    else if answer.value.status == 308 then Resume(w, s, sent, answer.value.range)
    else if Retryable(answer.value) then Retry(s, true)
    else Fail(s, HttpError)
  }

  /** Send this turn's chunk, or a status query. */
  datatype Exchange = Exchange(s: Transfer, sent: nat, answer: Option<Reply>)

  function Transmit(w: World, s: Transfer, chunk: Bytes): Exchange {
    var x := Send(w, s.held, s.clock + 2, s.offset, chunk);
    var request := if s.probing || Size(w) == 0 then Query else Data(s.offset, |chunk|);
    var through := if s.probing then s.sentThrough else Max(s.sentThrough, s.offset + |chunk|);
    Exchange(
      Transfer(s.offset, s.failures, s.probing, through, x.held, x.clock, s.wire + [request]),
      |chunk|, x.answer)
  }

  /** The file is not what it was, or has nothing left to read: where the turn stops. */
  function SourceLost(w: World, s: Transfer): Option<Transfer>
    requires s.offset <= Size(w)
  {
    if !Unchanged(w, w.file(s.clock)) then Some(s.(clock := s.clock + 1))
    else if !s.probing && Chunk(w, s) == [] && s.offset < Size(w) then Some(s.(clock := s.clock + 2))
    else None
  }

  /** One turn of the transfer loop. */
  function Round(w: World, s: Transfer): Step
    requires s.offset <= Size(w)
  {
    if SourceLost(w, s).Some? then Fail(SourceLost(w, s).value, FileChanged)
    else
      var x := Transmit(w, s, Chunk(w, s));
      Settle(w, x.s, x.sent, x.answer)
  }

  lemma SettleDescends(w: World, s: Transfer, sent: nat, answer: Option<Reply>)
    requires Shape(w, s)
    ensures Settle(w, s, sent, answer).Again? ==>
      var t := Settle(w, s, sent, answer).next;
      && Shape(w, t)
      && s.offset <= t.offset
      && (s.offset < t.offset || s.failures < t.failures)
  {
  }

  /** Whatever the server and the file do, a turn that does not end the upload gets closer to an end. */
  lemma RoundDescends(w: World, s: Transfer)
    requires Shape(w, s)
    ensures Round(w, s).Again? ==>
      var t := Round(w, s).next;
      && Shape(w, t)
      && s.offset <= t.offset
      && (s.offset < t.offset || s.failures < t.failures)
  {
    var x := Transmit(w, s, Chunk(w, s));
    SettleDescends(w, x.s, x.sent, x.answer);
  }

  datatype Report = Report(outcome: Outcome, final: Transfer)

  function Run(w: World, s: Transfer): Report
    requires Shape(w, s)
    decreases Size(w) - s.offset, MAX_FAILURES - s.failures
  {
    match Round(w, s)
    case Done(outcome, final) => Report(outcome, final)
    case Again(t) => RoundDescends(w, s); Run(w, t)
  }

  /** The opening POST, retried like any other request. */
  datatype Opening = Opened(clock: nat) | NotOpened(reason: Reason, clock: nat)

  function Open(w: World, clock: nat, failures: nat): Opening
    requires failures < MAX_FAILURES
    decreases MAX_FAILURES - failures
  {
    var x := Send(w, [], clock, 0, []);
    if x.answer.None? || Retryable(x.answer.value) then
      if failures + 1 >= MAX_FAILURES then NotOpened(Interrupted, x.clock) else Open(w, x.clock, failures + 1)
    else if x.answer.value.status != 200 && x.answer.value.status != 201 then NotOpened(NotStarted, x.clock)
    else if !x.answer.value.location then NotOpened(BadSession, x.clock)
    else Opened(x.clock)
  }

  function Begin(clock: nat): Transfer {
    Transfer(0, 0, false, 0, [], clock, [])
  }

  function UploadResult(w: World): (Outcome, Bytes)
  {
    match Open(w, 1, 0)
    case NotOpened(reason, _) => (Failed(reason), [])
    case Opened(clock) => var r := Run(w, Begin(clock)); (r.outcome, r.final.held)
  }

  // ---------------------------------------------------------------- the program's own form

  /** The far end: the file system and the Drive server, one tick at a time. */
  class Drive {
    const world: World
    var held: Bytes
    var clock: nat
    var wire: seq<Wire>

    constructor (world: World)
      ensures this.world == world && held == [] && clock == 0 && wire == []
    {
      this.world := world;
      held, clock, wire := [], 0, [];
    }

    method Look() returns (image: FileImage)
      modifies this`clock
      ensures image == world.file(old(clock)) && clock == old(clock) + 1
    {
      image := world.file(clock);
      clock := clock + 1;
    }

    method Attempt(start: nat, body: Bytes) returns (answer: Option<Reply>)
      modifies this`held, this`clock
      ensures held == Receive(old(held), start, body, world.taken(old(clock)))
      ensures answer == world.answer(old(clock), |held|) && clock == old(clock) + 1
    {
      held := Receive(held, start, body, world.taken(clock));
      answer := world.answer(clock, |held|);
      clock := clock + 1;
    }

    /** The closure `send`: at most two attempts, the second under a new token. */
    method SendRequest(start: nat, body: Bytes) returns (answer: Option<Reply>)
      modifies this`held, this`clock
      ensures Sent(answer, held, clock) == Send(world, old(held), old(clock), start, body)
    {
      for attempt := 0 to 2
        invariant attempt == 0 ==> held == old(held) && clock == old(clock)
        invariant attempt == 1 ==>
          && held == Receive(old(held), start, body, world.taken(old(clock)))
          && clock == old(clock) + 1
          && world.answer(old(clock), |held|).Some?
          && world.answer(old(clock), |held|).value.status == 401
          && world.refresh(old(clock))
        invariant attempt < 2
      {
        answer := Attempt(start, body);
        if answer.None? || answer.value.status != 401 || attempt > 0 {
          return;
        }
        if !world.refresh(clock - 1) {
          return None;
        }
      }
      answer := None;
    }
  }

  method UploadFile(drive: Drive) returns (outcome: Outcome)
    requires drive.clock == 0 && drive.held == [] && drive.wire == []
    modifies drive
    ensures (outcome, drive.held) == UploadResult(drive.world)
    ensures Open(drive.world, 1, 0).Opened? ==>
      drive.wire == Run(drive.world, Begin(Open(drive.world, 1, 0).clock)).final.wire
  {
    var original := drive.Look();
    var size := |original.content|;
    var failures: nat := 0;
    var response: Option<Reply>;
    while true
      invariant failures < MAX_FAILURES && drive.held == [] && drive.wire == []
      invariant Open(drive.world, 1, 0) == Open(drive.world, drive.clock, failures)
      decreases MAX_FAILURES - failures
    {
      response := drive.SendRequest(0, []);
      if response.Some? && !Retryable(response.value) {
        break;
      }
      failures := failures + 1;
      if failures >= MAX_FAILURES {
        return Failed(Interrupted);
      }
    }
    if response.value.status !in [200, 201] {
      return Failed(NotStarted);
    }
    if !response.value.location {
      return Failed(BadSession);
    }
    outcome := TransferLoop(drive, original);
  }

  /** The first half of a turn: check the file, read the chunk, send it. */
  method PutChunk(drive: Drive, original: FileImage, offset: nat, probing: bool, sentThrough: nat, ghost failures: nat)
    returns (changed: bool, sent: nat, through: nat, response: Option<Reply>)
    requires original == drive.world.file(0) && offset <= |original.content|
    modifies drive
    ensures
      var s := Transfer(offset, failures, probing, sentThrough, old(drive.held), old(drive.clock), old(drive.wire));
      var now := Transfer(offset, failures, probing, through, drive.held, drive.clock, drive.wire);
      if changed then SourceLost(drive.world, s) == Some(now)
      else SourceLost(drive.world, s).None? && Transmit(drive.world, s, Chunk(drive.world, s)) == Exchange(now, sent, response)
  {
    hide Send, ReadAt;
    var size := |original.content|;
    sent, through, response := 0, sentThrough, None;
    var current := drive.Look();
    if |current.content| != size || current.stamp != original.stamp {
      return true, sent, through, response;
    }
    var source := drive.Look();
    var chunk := if probing then [] else ReadAt(source.content, offset, Min(CHUNK_BYTES, size - offset));
    if !probing && chunk == [] && offset < size {
      return true, sent, through, response;
    }
    if !probing {
      through := Max(through, offset + |chunk|);
    }
    response := drive.SendRequest(offset, chunk);
    drive.wire := drive.wire + [if probing || size == 0 then Query else Data(offset, |chunk|)];
    return false, |chunk|, through, response;
  }

  /** The end of the upload: a second look at the file, then the checks on the answer. */
  method Finish(drive: Drive, original: FileImage, sentThrough: nat, reply: Reply, ghost s: Transfer)
    returns (outcome: Outcome)
    requires original == drive.world.file(0) && s.clock == drive.clock && s.sentThrough == sentThrough
    modifies drive`clock
    ensures Complete(drive.world, s, reply) == Done(outcome, s.(clock := drive.clock))
  {
    var size := |original.content|;
    var current := drive.Look();
    if |current.content| != size || current.stamp != original.stamp {
      return Failed(FileChanged);
    }
    if sentThrough < size {
      return Failed(EarlyCompletion);
    }
    if reply.id.None? || reply.id.value == "" {
      return Failed(NoId);
    }
    if reply.size.Some? && reply.size.value != size {
      return Failed(WrongSize);
    }
    return Uploaded(reply.id.value);
  }

  /** The second half of a turn: what the answer does to the loop's variables. */
  method TakeAnswer(drive: Drive, original: FileImage, s: Transfer, sent: nat, response: Option<Reply>)
    returns (outcome: Option<Outcome>, offset: nat, failures: nat, probing: bool)
    requires original == drive.world.file(0) && s.failures < MAX_FAILURES
    requires s.clock == drive.clock && s.wire == drive.wire && s.held == drive.held
    modifies drive`clock, drive`wire
    ensures
      var t := Transfer(offset, failures, probing, s.sentThrough, drive.held, drive.clock, drive.wire);
      Settle(drive.world, s, sent, response) == if outcome.Some? then Done(outcome.value, t) else Again(t)
  {
    var size := |original.content|;
    outcome, offset, failures, probing := None, s.offset, s.failures, s.probing;
    if response.None? {
      failures := failures + 1;
      if failures >= MAX_FAILURES {
        return Some(Failed(Interrupted)), offset, failures, probing;
      }
      probing := true;
    } else if response.value.status == 200 || response.value.status == 201 {
      var last := Finish(drive, original, s.sentThrough, response.value, s);
      outcome := Some(last);
    } else if response.value.status == 308 {
      if response.value.range.Malformed? {
        return Some(Failed(BadRange)), offset, failures, probing;
      }
      var confirmed := if response.value.range.Through? then response.value.range.last + 1 else 0;
      var maximum := if probing then size else offset + sent;
      if !(offset <= confirmed <= maximum) || confirmed >= size {
        return Some(Failed(InconsistentRange)), offset, failures, probing;
      }
      drive.wire := drive.wire + [Confirmed(confirmed)];
      if confirmed == offset {
        failures := failures + 1;
        if failures >= MAX_FAILURES {
          return Some(Failed(Interrupted)), offset, failures, probing;
        }
      } else {
        failures := 0;
      }
      offset, probing := confirmed, false;
    } else if Retryable(response.value) {
      failures := failures + 1;
      if failures >= MAX_FAILURES {
        return Some(Failed(Interrupted)), offset, failures, probing;
      }
      probing := true;
    } else {
      outcome := Some(Failed(HttpError));
    }
  }

  method TransferLoop(drive: Drive, original: FileImage) returns (outcome: Outcome)
    requires original == drive.world.file(0) && drive.held == [] && drive.wire == []
    modifies drive
    ensures
      var r := Run(drive.world, Begin(old(drive.clock)));
      outcome == r.outcome && drive.held == r.final.held && drive.wire == r.final.wire
  {
    var size := |original.content|;
    var offset: nat, failures: nat, probing, sentThrough: nat := 0, 0, false, 0;
    ghost var goal := Run(drive.world, Begin(drive.clock));
    while true
      invariant offset < size || (offset == 0 && size == 0)
      invariant failures < MAX_FAILURES
      invariant goal
        == Run(drive.world, Transfer(offset, failures, probing, sentThrough, drive.held, drive.clock, drive.wire))
      decreases size - offset, MAX_FAILURES - failures
    {
      ghost var s := Transfer(offset, failures, probing, sentThrough, drive.held, drive.clock, drive.wire);
      RoundDescends(drive.world, s);
      var changed, sent, through, response := PutChunk(drive, original, offset, probing, sentThrough, failures);
      sentThrough := through;
      if changed {
        return Failed(FileChanged);
      }
      var now := Transfer(offset, failures, probing, sentThrough, drive.held, drive.clock, drive.wire);
      var last;
      last, offset, failures, probing := TakeAnswer(drive, original, now, sent, response);
      if last.Some? {
        return last.value;
      }
    }
  }
}

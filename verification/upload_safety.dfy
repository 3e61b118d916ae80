/** What `Upload.Run` promises, for every world: safety, coverage, bounds and progress. */
module UploadSafety {
  import opened Wrappers
  import opened Upload

  // ---------------------------------------------------------------- assumptions on the world

  /** A file that shows its first size and time again has not been changed in between. */
  ghost predicate TrueStamps(w: World) {
    forall t: nat, u: nat | u <= t && Unchanged(w, w.file(t)) :: w.file(u).content == w.file(0).content
  }

  /** Only bytes the server holds are confirmed, and only a whole file is accepted. */
  predicate HonestReply(answer: Option<Reply>, held: nat, size: nat) {
    answer.Some? ==>
      && (answer.value.status == 200 || answer.value.status == 201 ==> held >= size)
      && (answer.value.status == 308 && answer.value.range.Through? ==> answer.value.range.last < held)
  }

  ghost predicate HonestServer(w: World, since: nat) {
    forall t: nat, n: nat | since <= t :: HonestReply(w.answer(t, n), n, Size(w))
  }

  // ---------------------------------------------------------------- safety

  ghost predicate Intact(w: World, clock: nat) {
    forall u: nat | u < clock :: w.file(u).content == w.file(0).content
  }

  /** What every turn keeps: the server holds a prefix of the file, between `offset` and `sentThrough`. */
  ghost predicate Safe(w: World, s: Transfer) {
    && s.offset <= |s.held| <= s.sentThrough <= Size(w)
    && (Intact(w, s.clock) ==> s.held == w.file(0).content[..|s.held|])
  }

  lemma ReceiveSafe(content: Bytes, held: Bytes, start: nat, body: Bytes, taken: nat)
    requires |held| <= |content| && held == content[..|held|]
    requires start + |body| <= |content| && body == content[start..start + |body|]
    ensures var r := Receive(held, start, body, taken); |r| <= |content| && r == content[..|r|]
  {
    var upto := Min(taken, |body|);
    if start <= |held| < start + upto {
      assert held + body[|held| - start..upto] == content[..start + upto];
    }
  }

  lemma SendSafe(w: World, held: Bytes, clock: nat, start: nat, body: Bytes)
    ensures
      var x := Send(w, held, clock, start, body);
      && held <= x.held && (|x.held| == |held| || |x.held| <= start + |body|)
      && clock < x.clock
  {
  }

  lemma SendKeepsSource(w: World, held: Bytes, clock: nat, start: nat, body: Bytes, content: Bytes)
    requires |held| <= |content| && held == content[..|held|]
    requires start + |body| <= |content| && body == content[start..start + |body|]
    ensures var x := Send(w, held, clock, start, body); |x.held| <= |content| && x.held == content[..|x.held|]
  {
    ReceiveSafe(content, held, start, body, w.taken(clock));
    ReceiveSafe(content, Receive(held, start, body, w.taken(clock)), start, body, w.taken(clock + 1));
  }

  lemma ChunkIsSource(w: World, s: Transfer)
    requires s.offset <= Size(w) && w.file(s.clock + 1).content == w.file(0).content && !s.probing
    ensures
      var c := Chunk(w, s);
      && |c| == Min(CHUNK_BYTES, Size(w) - s.offset)
      && c == w.file(0).content[s.offset..s.offset + |c|]
  {
  }

  lemma TransmitBounds(w: World, s: Transfer)
    requires s.offset <= |s.held| <= s.sentThrough <= Size(w)
    ensures
      var x := Transmit(w, s, Chunk(w, s));
      && x.s.offset <= |x.s.held| <= x.s.sentThrough <= Size(w)
      && s.held <= x.s.held && s.sentThrough <= x.s.sentThrough
      && s.clock + 3 <= x.s.clock
  {
    SendSafe(w, s.held, s.clock + 2, s.offset, Chunk(w, s));
  }

  lemma TransmitContent(w: World, s: Transfer)
    requires s.offset <= |s.held| <= Size(w) && s.held == w.file(0).content[..|s.held|]
    requires w.file(s.clock + 1).content == w.file(0).content
    ensures var x := Transmit(w, s, Chunk(w, s)); |x.s.held| <= Size(w) && x.s.held == w.file(0).content[..|x.s.held|]
  {
    if !s.probing {
      ChunkIsSource(w, s);
    }
    SendKeepsSource(w, s.held, s.clock + 2, s.offset, Chunk(w, s), w.file(0).content);
  }

  lemma TransmitSafe(w: World, s: Transfer)
    requires Safe(w, s)
    ensures
      var x := Transmit(w, s, Chunk(w, s));
      && Safe(w, x.s)
      && s.held <= x.s.held && s.sentThrough <= x.s.sentThrough
      && s.clock + 3 <= x.s.clock
  {
    var clock := Transmit(w, s, Chunk(w, s)).s.clock;
    TransmitBounds(w, s);
    if Intact(w, clock) {
      assert w.file(s.clock + 1).content == w.file(0).content;
      assert Intact(w, s.clock);
      TransmitContent(w, s);
    }
  }

  lemma TransmitHonest(w: World, s: Transfer, chunk: Bytes)
    requires HonestServer(w, s.clock)
    ensures var x := Transmit(w, s, chunk); HonestReply(x.answer, |x.s.held|, Size(w))
  {
    var x := Send(w, s.held, s.clock + 2, s.offset, chunk);
    assert x.answer.None? || HonestReply(w.answer(x.clock - 1, |x.held|), |x.held|, Size(w));
  }

  /** One turn against an honest server: nothing is lost, and `offset` stays within what was sent. */
  lemma RoundSafe(w: World, s: Transfer)
    requires Shape(w, s) && Safe(w, s) && HonestServer(w, s.clock)
    ensures Round(w, s).Again? ==>
      var t := Round(w, s).next;
      && Safe(w, t) && s.offset <= t.offset <= t.sentThrough
      && s.held <= t.held && s.sentThrough <= t.sentThrough && s.clock <= t.clock
    ensures Round(w, s).Done? && Round(w, s).outcome.Uploaded? ==>
      var t := Round(w, s).final;
      && Safe(w, t) && |t.held| == Size(w)
      && t.clock > 0 && Unchanged(w, w.file(t.clock - 1))
  {
    var x := Transmit(w, s, Chunk(w, s));
    TransmitSafe(w, s);
    TransmitHonest(w, s, Chunk(w, s));
    SettleSafe(w, x.s, x.sent, x.answer);
  }

  lemma SettleSafe(w: World, s: Transfer, sent: nat, answer: Option<Reply>)
    requires Safe(w, s) && HonestReply(answer, |s.held|, Size(w))
    ensures Settle(w, s, sent, answer).Again? ==>
      var t := Settle(w, s, sent, answer).next;
      && Safe(w, t) && s.offset <= t.offset
      && t.held == s.held && t.sentThrough == s.sentThrough && t.clock == s.clock
    ensures Settle(w, s, sent, answer).Done? && Settle(w, s, sent, answer).outcome.Uploaded? ==>
      var t := Settle(w, s, sent, answer).final;
      && Safe(w, t) && |t.held| == Size(w)
      && t.clock == s.clock + 1 && Unchanged(w, w.file(s.clock))
  {
  }

  lemma {:induction false} RunSafe(w: World, s: Transfer)
    requires Shape(w, s) && Safe(w, s) && HonestServer(w, s.clock) && TrueStamps(w)
    ensures Run(w, s).outcome.Uploaded? ==> Run(w, s).final.held == w.file(0).content
    decreases Size(w) - s.offset, MAX_FAILURES - s.failures
  {
    RoundSafe(w, s);
    RoundDescends(w, s);
    if Round(w, s).Again? {
      RunSafe(w, Round(w, s).next);
    } else if Round(w, s).outcome.Uploaded? {
      var t := Round(w, s).final;
      assert Intact(w, t.clock);
      assert t.held == w.file(0).content[..Size(w)];
    }
  }

  /**
   The main result: a returned upload means the server holds exactly the bytes of the file, although
   replies may be lost, chunks kept in part, and the file replaced halfway.
   */
  lemma UploadedMeansStored(w: World)
    requires Open(w, 1, 0).Opened? ==> HonestServer(w, Open(w, 1, 0).clock)
    requires TrueStamps(w)
    ensures UploadResult(w).0.Uploaded? ==> UploadResult(w).1 == w.file(0).content
  {
    if Open(w, 1, 0).Opened? {
      RunSafe(w, Begin(Open(w, 1, 0).clock));
    }
  }

  // ---------------------------------------------------------------- what went over the wire

  function Reach(wire: seq<Wire>): nat {
    if wire == [] then 0
    else
      var last := wire[|wire| - 1];
      var before := Reach(wire[..|wire| - 1]);
      if last.Data? then Max(before, last.start + last.length) else before
  }

  predicate Covers(wire: seq<Wire>, i: nat) {
    wire != [] && (
      || (wire[|wire| - 1].Data? && wire[|wire| - 1].start <= i < wire[|wire| - 1].start + wire[|wire| - 1].length)
      || Covers(wire[..|wire| - 1], i))
  }

  /** No answer was believed that confirmed more than had been sent. */
  predicate Modest(wire: seq<Wire>) {
    wire == [] || (
      && (wire[|wire| - 1].Confirmed? ==> wire[|wire| - 1].upto <= Reach(wire[..|wire| - 1]))
      && Modest(wire[..|wire| - 1]))
  }

  function Requests(wire: seq<Wire>): nat {
    if wire == [] then 0
    else Requests(wire[..|wire| - 1]) + if wire[|wire| - 1].Confirmed? then 0 else 1
  }

  lemma WireGrows(wire: seq<Wire>, x: Wire)
    ensures Reach(wire + [x]) == if x.Data? then Max(Reach(wire), x.start + x.length) else Reach(wire)
    ensures forall i: nat :: Covers(wire + [x], i) <==>
      Covers(wire, i) || (x.Data? && x.start <= i < x.start + x.length)
    ensures Modest(wire + [x]) <==> Modest(wire) && (x.Confirmed? ==> x.upto <= Reach(wire))
    ensures Requests(wire + [x]) == Requests(wire) + if x.Confirmed? then 0 else 1
  {
    assert (wire + [x])[..|wire|] == wire;
  }

  lemma {:induction false} CoveredIsReached(wire: seq<Wire>, i: nat)
    requires Covers(wire, i)
    ensures i < Reach(wire)
  {
    if Covers(wire[..|wire| - 1], i) {
      CoveredIsReached(wire[..|wire| - 1], i);
    }
  }

  /** Every data range is non-empty, lies inside the file and is at most one chunk long. */
  predicate RangeInside(x: Wire, size: nat) {
    x.Data? ==> 0 < x.length <= 8_388_608 && x.start + x.length <= size
  }

  /** Every data range that does not end the file is a multiple of 256 KiB. */
  predicate RangeAligned(x: Wire, size: nat) {
    x.Data? ==> x.length % 262_144 == 0 || x.start + x.length == size
  }

  /** What every turn keeps about coverage, against any server at all. */
  ghost predicate Covered(wire: seq<Wire>, offset: nat, sentThrough: nat) {
    && sentThrough == Reach(wire)
    && (Modest(wire) ==> offset <= sentThrough && forall i: nat | i < sentThrough :: Covers(wire, i))
    && (!Modest(wire) ==> exists i: nat :: i < offset && !Covers(wire, i))
  }

  /** What every turn keeps about the shape of the requests. */
  ghost predicate Formed(w: World, wire: seq<Wire>, clock: nat) {
    && (forall x | x in wire :: RangeInside(x, Size(w)))
    && (Intact(w, clock) ==> forall x | x in wire :: RangeAligned(x, Size(w)))
  }

  /** What every turn keeps about their number. */
  predicate Paid(s: Transfer) {
    Requests(s.wire) <= MAX_FAILURES * s.offset + s.failures
  }

  lemma DataCovers(wire: seq<Wire>, offset: nat, sentThrough: nat, length: nat)
    requires Covered(wire, offset, sentThrough)
    ensures Covered(wire + [Data(offset, length)], offset, Max(sentThrough, offset + length))
  {
    WireGrows(wire, Data(offset, length));
    var wire' := wire + [Data(offset, length)];
    if !Modest(wire) {
      var i: nat :| i < offset && !Covers(wire, i);
      assert !Covers(wire', i);
    }
  }

  lemma ConfirmCovers(wire: seq<Wire>, offset: nat, sentThrough: nat, confirmed: nat)
    requires Covered(wire, offset, sentThrough) && offset <= confirmed
    ensures Covered(wire + [Confirmed(confirmed)], confirmed, sentThrough)
  {
    WireGrows(wire, Confirmed(confirmed));
    var wire' := wire + [Confirmed(confirmed)];
    if !Modest(wire) {
      var i: nat :| i < offset && !Covers(wire, i);
      assert !Covers(wire', i);
    } else if confirmed > sentThrough {
      if Covers(wire, sentThrough) {
        CoveredIsReached(wire, sentThrough);
      }
      assert !Covers(wire', sentThrough);
    }
  }

  lemma QueryCovers(wire: seq<Wire>, offset: nat, sentThrough: nat)
    requires Covered(wire, offset, sentThrough)
    ensures Covered(wire + [Query], offset, sentThrough)
  {
    WireGrows(wire, Query);
    if !Modest(wire) {
      var i: nat :| i < offset && !Covers(wire, i);
      assert !Covers(wire + [Query], i);
    }
  }

  lemma TransmitCovered(w: World, s: Transfer)
    requires Shape(w, s) && Covered(s.wire, s.offset, s.sentThrough)
    ensures var t := Transmit(w, s, Chunk(w, s)).s; Covered(t.wire, t.offset, t.sentThrough)
  {
    if s.probing || Size(w) == 0 {
      QueryCovers(s.wire, s.offset, s.sentThrough);
    } else {
      DataCovers(s.wire, s.offset, s.sentThrough, |Chunk(w, s)|);
    }
  }

  lemma RequestFormed(w: World, s: Transfer)
    requires Shape(w, s) && SourceLost(w, s).None? && !s.probing && Size(w) > 0
    ensures RangeInside(Data(s.offset, |Chunk(w, s)|), Size(w))
    ensures w.file(s.clock + 1).content == w.file(0).content ==> RangeAligned(Data(s.offset, |Chunk(w, s)|), Size(w))
  {
    if w.file(s.clock + 1).content == w.file(0).content {
      ChunkIsSource(w, s);
    }
  }

  lemma TransmitFormed(w: World, s: Transfer)
    requires Shape(w, s) && Formed(w, s.wire, s.clock) && SourceLost(w, s).None?
    ensures var t := Transmit(w, s, Chunk(w, s)).s; Formed(w, t.wire, t.clock)
  {
    hide Send, Chunk, SourceLost;
    var clock := Transmit(w, s, Chunk(w, s)).s.clock;
    SendSafe(w, s.held, s.clock + 2, s.offset, Chunk(w, s));
    if !s.probing && Size(w) > 0 {
      RequestFormed(w, s);
    }
    if Intact(w, clock) {
      assert w.file(s.clock + 1).content == w.file(0).content;
      assert Intact(w, s.clock);
    }
  }

  lemma TransmitPaid(w: World, s: Transfer)
    requires Shape(w, s) && Paid(s)
    ensures Requests(Transmit(w, s, Chunk(w, s)).s.wire) <= MAX_FAILURES * s.offset + s.failures + 1
  {
    WireGrows(s.wire, if s.probing || Size(w) == 0 then Query else Data(s.offset, |Chunk(w, s)|));
  }

  lemma SettleCovered(w: World, s: Transfer, sent: nat, answer: Option<Reply>)
    requires Covered(s.wire, s.offset, s.sentThrough)
    ensures
      var r := Settle(w, s, sent, answer);
      && (r.Again? ==> Covered(r.next.wire, r.next.offset, r.next.sentThrough))
      && (r.Done? && r.outcome.Uploaded? ==> r.final.wire == s.wire && s.sentThrough >= Size(w))
  {
    hide Covered, Unchanged, Retryable;
    if answer.Some? && answer.value.status == 308 && !answer.value.range.Malformed? {
      var confirmed := if answer.value.range.Through? then answer.value.range.last + 1 else 0;
      if s.offset <= confirmed {
        ConfirmCovers(s.wire, s.offset, s.sentThrough, confirmed);
      }
    }
  }

  lemma SettleFormed(w: World, s: Transfer, sent: nat, answer: Option<Reply>)
    requires Formed(w, s.wire, s.clock)
    ensures
      var r := Settle(w, s, sent, answer);
      && (r.Again? ==> Formed(w, r.next.wire, r.next.clock))
      && (r.Done? ==> Formed(w, r.final.wire, r.final.clock))
  {
  }

  lemma SettlePaid(w: World, s: Transfer, sent: nat, answer: Option<Reply>)
    requires s.failures < MAX_FAILURES && s.offset <= Size(w)
    requires Requests(s.wire) <= MAX_FAILURES * s.offset + s.failures + 1
    ensures
      var r := Settle(w, s, sent, answer);
      && (r.Again? ==> Paid(r.next))
      && (r.Done? ==> Requests(r.final.wire) <= MAX_FAILURES * (Size(w) + 1))
  {
    hide Requests;
    if answer.Some? && answer.value.status == 308 && !answer.value.range.Malformed? {
      WireGrows(s.wire, Confirmed(if answer.value.range.Through? then answer.value.range.last + 1 else 0));
    }
  }

  lemma {:induction false} RunTraced(w: World, s: Transfer)
    requires Shape(w, s) && Formed(w, s.wire, s.clock) && Paid(s) && Covered(s.wire, s.offset, s.sentThrough)
    ensures
      var r := Run(w, s);
      && Requests(r.final.wire) <= MAX_FAILURES * (Size(w) + 1)
      && Formed(w, r.final.wire, r.final.clock)
      && (r.outcome.Uploaded? ==> (SendsAll(r.final.wire, Size(w)) <==> Modest(r.final.wire)))
    decreases Size(w) - s.offset, MAX_FAILURES - s.failures
  {
    RoundDescends(w, s);
    if SourceLost(w, s).None? {
      var x := Transmit(w, s, Chunk(w, s));
      TransmitCovered(w, s);
      TransmitFormed(w, s);
      SettleCovered(w, x.s, x.sent, x.answer);
      SettleFormed(w, x.s, x.sent, x.answer);
      TransmitPaid(w, s);
      SettlePaid(w, x.s, x.sent, x.answer);
      if Round(w, s).Again? {
        RunTraced(w, Round(w, s).next);
      } else if Round(w, s).outcome.Uploaded? && !Modest(x.s.wire) {
        var i: nat :| i < x.s.offset && !Covers(x.s.wire, i);
      }
    }
  }

  ghost predicate SendsAll(wire: seq<Wire>, size: nat) {
    forall i: nat | i < size :: Covers(wire, i)
  }

  /**
   Whatever the server answers: a returned upload has sent every byte of the file if and only if no
   confirmation beyond the bytes already sent was believed. The check of `sentThrough` alone does not
   give this, because the answer to a status query is bounded by the size of the file.
   */
  lemma ReturnedMeansAllSent(w: World, clock: nat)
    ensures
      var r := Run(w, Begin(clock));
      r.outcome.Uploaded? ==> (SendsAll(r.final.wire, Size(w)) <==> Modest(r.final.wire))
  {
    RunTraced(w, Begin(clock));
  }

  /**
   A server that loses the first answer, then claims one byte more than was sent: the file has one chunk
   and two bytes, and the byte after the chunk is never sent.
   */
  ghost function Overclaiming(): World {
    World(
      t => FileImage(seq(CHUNK_BYTES + 2, i => 'a'), 0),
      t => 0,
      (t, n) =>
        if t == 1 || t == 10 then Some(Reply(200, false, true, Missing, Some("id"), None))
        else if t == 7 then Some(Reply(308, false, false, Through(CHUNK_BYTES), None, None))
        else None,
      t => false)
  }

  lemma OverclaimedTurns()
    ensures
      var w := Overclaiming();
      var asked := Transfer(0, 1, true, CHUNK_BYTES, [], 5, [] + [Data(0, CHUNK_BYTES)]);
      var believed := Transfer(CHUNK_BYTES + 1, 0, false, CHUNK_BYTES, [], 8,
                               [] + [Data(0, CHUNK_BYTES)] + [Query] + [Confirmed(CHUNK_BYTES + 1)]);
      && Shape(w, Begin(2)) && Shape(w, asked) && Shape(w, believed)
      && Round(w, Begin(2)) == Again(asked) && Round(w, asked) == Again(believed)
      && Round(w, believed).Done? && Round(w, believed).outcome == Uploaded("id")
      && Round(w, believed).final.wire == believed.wire + [Data(CHUNK_BYTES + 1, 1)]
  {
    var w := Overclaiming();
    assert Size(w) == CHUNK_BYTES + 2;
    assert |Chunk(w, Begin(2))| == CHUNK_BYTES;
  }

  lemma OverclaimedOpening()
    ensures Open(Overclaiming(), 1, 0) == Opened(2) && Size(Overclaiming()) == CHUNK_BYTES + 2
  {
  }

  /** So the check of `sentThrough` does not make up for a server that confirms what it was never sent. */
  lemma ReturnedWithByteUnsent()
    ensures
      var w := Overclaiming();
      && Open(w, 1, 0) == Opened(2) && UploadResult(w).0 == Uploaded("id")
      && !SendsAll(Run(w, Begin(2)).final.wire, Size(w)) && !Covers(Run(w, Begin(2)).final.wire, CHUNK_BYTES)
  {
    hide Overclaiming, Round, Covers, Reach, Modest, Requests, Open;
    var w := Overclaiming();
    OverclaimedTurns();
    OverclaimedOpening();
    var first, last := Data(0, CHUNK_BYTES), Data(CHUNK_BYTES + 1, 1);
    var wire := [] + [first] + [Query] + [Confirmed(CHUNK_BYTES + 1)] + [last];
    assert Run(w, Begin(2)).final.wire == wire;
    NothingCovered(CHUNK_BYTES);
    WireGrows([], first);
    WireGrows([] + [first], Query);
    WireGrows([] + [first] + [Query], Confirmed(CHUNK_BYTES + 1));
    WireGrows([] + [first] + [Query] + [Confirmed(CHUNK_BYTES + 1)], last);
  }

  lemma NothingCovered(i: nat)
    ensures !Covers([], i)
  {
  }

  /**
   Whatever the server answers, the transfer ends within four requests a byte; every data range lies
   inside the file, and all but the last are multiples of 256 KiB while the file stays as it was.
   */
  lemma TransferBounded(w: World, clock: nat)
    ensures
      var r := Run(w, Begin(clock));
      && Requests(r.final.wire) <= 4 * (Size(w) + 1)
      && (forall x | x in r.final.wire :: RangeInside(x, Size(w)))
      && (Intact(w, r.final.clock) ==> forall x | x in r.final.wire :: RangeAligned(x, Size(w)))
  {
    RunTraced(w, Begin(clock));
  }

  /** How far the confirmations on the wire have got, and how many requests were made since they last moved. */
  datatype Stall = Stall(confirmed: nat, requests: nat)

  function Stalled(wire: seq<Wire>): Stall {
    if wire == [] then Stall(0, 0)
    else
      var last, before := wire[|wire| - 1], Stalled(wire[..|wire| - 1]);
      if !last.Confirmed? then before.(requests := before.requests + 1)
      else if last.upto > before.confirmed then Stall(last.upto, 0)
      else before
  }

  lemma StalledGrows(wire: seq<Wire>, x: Wire)
    ensures Stalled(wire + [x]) ==
      if !x.Confirmed? then Stall(Stalled(wire).confirmed, Stalled(wire).requests + 1)
      else if x.upto > Stalled(wire).confirmed then Stall(x.upto, 0)
      else Stalled(wire)
  {
    assert (wire + [x])[..|wire|] == wire;
  }

  lemma SettleStalls(w: World, s: Transfer, sent: nat, answer: Option<Reply>)
    requires s.failures < MAX_FAILURES && Stalled(s.wire) == Stall(s.offset, s.failures + 1)
    ensures
      var r := Settle(w, s, sent, answer);
      && (r.Again? ==> Stalled(r.next.wire) == Stall(r.next.offset, r.next.failures))
      && (r.Done? && r.outcome == Failed(Interrupted) ==>
            Stalled(r.final.wire).requests == MAX_FAILURES && Stalled(r.final.wire).confirmed == r.final.offset)
  {
    hide Stalled;
    if answer.Some? && answer.value.status == 308 && !answer.value.range.Malformed? {
      StalledGrows(s.wire, Confirmed(if answer.value.range.Through? then answer.value.range.last + 1 else 0));
    }
  }

  lemma {:induction false} RunStalls(w: World, s: Transfer)
    requires Shape(w, s) && Stalled(s.wire) == Stall(s.offset, s.failures)
    ensures
      var r := Run(w, s);
      r.outcome == Failed(Interrupted) ==>
        Stalled(r.final.wire).requests == MAX_FAILURES && Stalled(r.final.wire).confirmed == r.final.offset
    decreases Size(w) - s.offset, MAX_FAILURES - s.failures
  {
    hide Stalled, Send, Settle, Chunk;
    RoundDescends(w, s);
    if SourceLost(w, s).None? {
      var x := Transmit(w, s, Chunk(w, s));
      StalledGrows(s.wire, if s.probing || Size(w) == 0 then Query else Data(s.offset, |Chunk(w, s)|));
      SettleStalls(w, x.s, x.sent, x.answer);
      if Round(w, s).Again? {
        RunStalls(w, Round(w, s).next);
      }
    }
  }

  /**
   Over any run: when the upload gives up, exactly four requests were made since a confirmation last got
   further, and that confirmation is where it stands.
   */
  lemma GivesUpAfterFour(w: World, clock: nat)
    ensures
      var r := Run(w, Begin(clock));
      r.outcome == Failed(Interrupted) ==>
        Stalled(r.final.wire).requests == 4 && Stalled(r.final.wire).confirmed == r.final.offset
  {
    RunStalls(w, Begin(clock));
  }

  /** One turn: a failure is counted exactly when nothing was confirmed, and any confirmed byte resets the count. */
  lemma FailuresAreCounted(w: World, s: Transfer)
    requires Shape(w, s)
    ensures Round(w, s).Done? && Round(w, s).outcome == Failed(Interrupted) ==>
      s.failures == MAX_FAILURES - 1 && Round(w, s).final.offset == s.offset
    ensures Round(w, s).Again? ==>
      Round(w, s).next.failures == if Round(w, s).next.offset == s.offset then s.failures + 1 else 0
  {
    if SourceLost(w, s).None? {
      var x := Transmit(w, s, Chunk(w, s));
      SettleCounts(w, x.s, x.sent, x.answer);
    }
  }

  lemma SettleCounts(w: World, s: Transfer, sent: nat, answer: Option<Reply>)
    requires s.failures < MAX_FAILURES
    ensures
      var r := Settle(w, s, sent, answer);
      && (r.Done? && r.outcome == Failed(Interrupted) ==> s.failures == MAX_FAILURES - 1 && r.final.offset == s.offset)
      && (r.Again? ==> r.next.failures == if r.next.offset == s.offset then s.failures + 1 else 0)
  {
  }

  // ---------------------------------------------------------------- progress

  /** A file that stays put and a server that keeps every byte and says so. */
  ghost predicate Cooperative(w: World, since: nat, id: string) {
    && id != ""
    && (forall t: nat :: w.file(t) == w.file(0))
    && (forall t: nat | since <= t :: w.taken(t) >= CHUNK_BYTES)
    && (forall t: nat, n: nat | since <= t :: w.answer(t, n).Some?
          && w.answer(t, n).value.id == Some(id) && w.answer(t, n).value.size.None?
          && if n < Size(w) then
               w.answer(t, n).value.status == 308 && w.answer(t, n).value.range == (if n == 0 then Missing else Through(n - 1))
             else w.answer(t, n).value.status == 200)
  }

  function Chunks(bytes: nat): nat {
    if bytes <= 8_388_608 then 1 else 1 + Chunks(bytes - 8_388_608)
  }

  /** One turn against such a server: the next chunk, confirmed, or the end. */
  lemma CooperativeTurn(w: World, s: Transfer, id: string)
    requires Shape(w, s) && !s.probing && Cooperative(w, s.clock, id)
    requires |s.held| == s.offset <= s.sentThrough
    ensures
      var x := Transmit(w, s, Chunk(w, s));
      && SourceLost(w, s).None?
      && x.s.offset == s.offset && x.s.failures == s.failures && !x.s.probing
      && x.sent == Min(CHUNK_BYTES, Size(w) - s.offset)
      && |x.s.held| == s.offset + x.sent <= x.s.sentThrough
      && x.s.clock == s.clock + 3
      && x.answer == w.answer(s.clock + 2, |x.s.held|)
      && Requests(x.s.wire) == Requests(s.wire) + 1
  {
    hide Cooperative, Send, Chunk, SourceLost, Requests, Reach, Covers, Modest;
    CooperativeSource(w, s, id);
    CooperativeSend(w, s.held, s.clock, s.clock + 2, Chunk(w, s), id);
    WireGrows(s.wire, if Size(w) == 0 then Query else Data(s.offset, |Chunk(w, s)|));
  }

  lemma CooperativeSource(w: World, s: Transfer, id: string)
    requires Shape(w, s) && !s.probing && Cooperative(w, s.clock, id)
    ensures SourceLost(w, s).None? && |Chunk(w, s)| == Min(CHUNK_BYTES, Size(w) - s.offset)
  {
    assert w.file(s.clock) == w.file(0) && w.file(s.clock + 1) == w.file(0);
    ChunkIsSource(w, s);
  }

  /** A chunk sent to such a server is kept whole, and answered at once. */
  lemma CooperativeSend(w: World, held: Bytes, since: nat, clock: nat, body: Bytes, id: string)
    requires Cooperative(w, since, id) && since <= clock && |body| <= CHUNK_BYTES
    ensures Send(w, held, clock, |held|, body) == Sent(w.answer(clock, |held| + |body|), held + body, clock + 1)
  {
    assert w.answer(clock, |held| + |body|).Some?;
    assert Receive(held, |held|, body, w.taken(clock)) == held + body;
  }

  /** Against such a server the transfer completes, with one request for each chunk of the file. */
  lemma {:induction false} CooperativeRunUploads(w: World, s: Transfer, id: string)
    requires Shape(w, s) && !s.probing && Cooperative(w, s.clock, id)
    requires |s.held| == s.offset <= s.sentThrough
    ensures Run(w, s).outcome == Uploaded(id)
    ensures Requests(Run(w, s).final.wire) == Requests(s.wire) + Chunks(Size(w) - s.offset)
    decreases Size(w) - s.offset, MAX_FAILURES - s.failures
  {
    hide Send, Chunk, Transmit, SourceLost, Requests, Reach, Covers, Modest, Settle;
    RoundDescends(w, s);
    CooperativeTurn(w, s, id);
    var x := Transmit(w, s, Chunk(w, s));
    CooperativeAnswer(w, s.clock, x.s, x.sent, id);
    if |x.s.held| < Size(w) {
      CooperativeRunUploads(w, Round(w, s).next, id);
    }
  }

  /** What the answer of such a server does: the next chunk's turn, or the end. */
  lemma CooperativeAnswer(w: World, since: nat, s: Transfer, sent: nat, id: string)
    requires Cooperative(w, since, id) && since + 3 == s.clock && !s.probing && s.failures < MAX_FAILURES
    requires |s.held| == s.offset + sent <= Size(w) && |s.held| <= s.sentThrough
    requires sent > 0 || Size(w) == 0
    ensures
      var r := Settle(w, s, sent, w.answer(since + 2, |s.held|));
      if |s.held| < Size(w) then
        && r.Again? && Requests(r.next.wire) == Requests(s.wire) && !r.next.probing
        && r.next.held == s.held && r.next.offset == |s.held| && r.next.failures == 0
        && r.next.sentThrough == s.sentThrough && r.next.clock == s.clock && Cooperative(w, r.next.clock, id)
      else r.Done? && r.outcome == Uploaded(id) && r.final.wire == s.wire
  {
    hide Requests, Reach, Covers, Modest;
    assert w.file(s.clock) == w.file(0);
    WireGrows(s.wire, Confirmed(|s.held|));
  }
}

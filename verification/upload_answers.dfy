/**
 What each answer of the server does to an upload: why a run ends as it ends, in what order requests and
 confirmations follow each other, and which trouble a run survives.
 */
module UploadAnswers {
  import opened Wrappers
  import opened Upload
  import opened UploadSafety

  /** Answers that say "try again": too many requests, a failing server, a throttled account. */
  predicate Transient(r: Reply) {
    r.status == 429 || 500 <= r.status < 600 || (r.status == 403 && r.throttled)
  }

  // ---------------------------------------------------------------- why a run ends

  /** How far a 308 says the server has got; no range means not at all. */
  function Confirms(r: Reply): nat {
    if r.range.Through? then r.range.last + 1 else 0
  }

  /** The file of tick `t` has another size or time stamp than the one first seen. */
  predicate Differs(w: World, t: nat) {
    |w.file(t).content| != |w.file(0).content| || w.file(t).stamp != w.file(0).stamp
  }

  /** The attempt of tick `t` got no answer that could be used: none at all, or a 401 and no new token. */
  predicate Unanswered(w: World, t: nat, held: nat) {
    w.answer(t, held).None? || (TokenRefused(w, t, held) && !w.refresh(t))
  }

  /** The attempt of tick `t` was refused for its token, when the server held `n` bytes. */
  predicate TokenRefused(w: World, t: nat, n: nat) {
    w.answer(t, n).Some? && w.answer(t, n).value.status == 401
  }

  /** The attempt of tick `t` was refused for its token, and a new one was had. */
  ghost predicate TokenRenewed(w: World, t: nat) {
    w.refresh(t) && exists n: nat :: TokenRefused(w, t, n)
  }

  /** What the last look and the last answer were, for each way to fail. */
  ghost predicate Fails(w: World, reason: Reason, t: Transfer)
    requires t.clock > 0
  {
    var size, last := |w.file(0).content|, w.answer(t.clock - 1, |t.held|);
    match reason
    case FileChanged => Differs(w, t.clock - 1) || |w.file(t.clock - 1).content| <= t.offset < size
    case Interrupted =>
      || Unanswered(w, t.clock - 1, |t.held|) || Transient(last.value)
      || (last.value.status == 308 && !last.value.range.Malformed? && Confirms(last.value) == t.offset)
    case BadRange => last.Some? && last.value.status == 308 && last.value.range.Malformed?
    case InconsistentRange =>
      && last.Some? && last.value.status == 308 && !last.value.range.Malformed? && t.wire != []
      && var c, sent := Confirms(last.value), t.wire[|t.wire| - 1];
         c < t.offset || c >= size || (sent.Data? && sent.start + sent.length < c)
    case HttpError =>
      && last.Some? && last.value.status != 200 && last.value.status != 201 && last.value.status != 308 && !Transient(last.value)
      && (last.value.status == 401 ==> t.clock > 1 && TokenRenewed(w, t.clock - 2))
    case EarlyCompletion => Accepts(w, t) && Reach(t.wire) < size
    case NoId => Accepts(w, t) && (w.answer(t.clock - 2, |t.held|).value.id.None? || w.answer(t.clock - 2, |t.held|).value.id == Some(""))
    case WrongSize => Accepts(w, t) && w.answer(t.clock - 2, |t.held|).value.size.Some?
                      && w.answer(t.clock - 2, |t.held|).value.size != Some(size)
    case _ => false
  }

  /** The answer before the last look at the file was a 200 or 201. */
  predicate Accepts(w: World, t: Transfer) {
    t.clock > 1 && w.answer(t.clock - 2, |t.held|).Some? && (w.answer(t.clock - 2, |t.held|).value.status == 200 || w.answer(t.clock - 2, |t.held|).value.status == 201)
  }

  /** What a returned upload rests on. */
  predicate Succeeds(w: World, id: string, t: Transfer) {
    && Accepts(w, t) && !Differs(w, t.clock - 1) && Reach(t.wire) >= |w.file(0).content|
    && var r := w.answer(t.clock - 2, |t.held|).value;
       r.id == Some(id) && id != "" && (r.size.Some? ==> r.size.value == |w.file(0).content|)
  }

  ghost predicate Explained(w: World, r: Report) {
    match r.outcome
    case Uploaded(id) => Succeeds(w, id, r.final)
    case Failed(reason) => r.final.clock > 0 && Fails(w, reason, r.final)
  }

  /** The answer, or that there is none, is that of the last attempt; a 401 is that of the second. */
  ghost predicate IsAnswer(w: World, answer: Option<Reply>, clock: nat, held: nat) {
    clock > 0 &&
    if answer.None? then Unanswered(w, clock - 1, held)
    else answer == w.answer(clock - 1, held) && (answer.value.status == 401 ==> clock > 1 && TokenRenewed(w, clock - 2))
  }

  lemma SendExplained(w: World, held: Bytes, clock: nat, start: nat, body: Bytes)
    ensures var x := Send(w, held, clock, start, body); IsAnswer(w, x.answer, x.clock, |x.held|)
  {
    var held1 := Receive(held, start, body, w.taken(clock));
    assert w.answer(clock, |held1|).Some? && w.answer(clock, |held1|).value.status == 401 ==>
      TokenRefused(w, clock, |held1|);
  }

  lemma CompleteExplained(w: World, s: Transfer, r: Reply)
    requires s.sentThrough == Reach(s.wire) && s.clock > 0 && w.answer(s.clock - 1, |s.held|) == Some(r)
    requires r.status == 200 || r.status == 201
    ensures Complete(w, s, r).Done? && Explained(w, Report(Complete(w, s, r).outcome, Complete(w, s, r).final))
  {
    hide Reach;
  }

  lemma ResumeExplained(w: World, s: Transfer, sent: nat, r: Reply)
    requires s.sentThrough == Reach(s.wire) && s.clock > 0 && s.wire != []
    requires
      var last := s.wire[|s.wire| - 1];
      && (last.Data? ==> last == Data(s.offset, sent)) && (last.Data? <==> !s.probing && Size(w) > 0)
    requires w.answer(s.clock - 1, |s.held|) == Some(r) && r.status == 308
    ensures
      var x := Resume(w, s, sent, r.range);
      && (x.Done? ==> Explained(w, Report(x.outcome, x.final)))
      && (x.Again? ==> x.next.sentThrough == Reach(x.next.wire))
  {
    hide Reach, Unanswered, Transient, Differs;
    if !r.range.Malformed? {
      WireGrows(s.wire, Confirmed(Confirms(r)));
    }
  }

  lemma SettleExplained(w: World, s: Transfer, sent: nat, answer: Option<Reply>)
    requires s.sentThrough == Reach(s.wire) && s.wire != []
    requires
      var last := s.wire[|s.wire| - 1];
      && (last.Data? ==> last == Data(s.offset, sent)) && (last.Data? <==> !s.probing && Size(w) > 0)
    requires IsAnswer(w, answer, s.clock, |s.held|)
    ensures
      var r := Settle(w, s, sent, answer);
      && (r.Done? ==> Explained(w, Report(r.outcome, r.final)))
      && (r.Again? ==> r.next.sentThrough == Reach(r.next.wire))
  {
    hide Reach, Complete, Resume, Unanswered, TokenRenewed, Differs, Accepts;
    if answer.Some? {
      if answer.value.status == 200 || answer.value.status == 201 {
        CompleteExplained(w, s, answer.value);
      } else if answer.value.status == 308 {
        ResumeExplained(w, s, sent, answer.value);
      }
    }
  }

  lemma {:induction false} RunExplained(w: World, s: Transfer)
    requires Shape(w, s) && s.sentThrough == Reach(s.wire)
    ensures Explained(w, Run(w, s))
    decreases Size(w) - s.offset, MAX_FAILURES - s.failures
  {
    hide Reach, Settle, Send, Explained;
    RoundDescends(w, s);
    if SourceLost(w, s).Some? {
      LossExplained(w, s);
    } else {
      var x := Transmit(w, s, Chunk(w, s));
      WireGrows(s.wire, if s.probing || Size(w) == 0 then Query else Data(s.offset, |Chunk(w, s)|));
      SendExplained(w, s.held, s.clock + 2, s.offset, Chunk(w, s));
      SettleExplained(w, x.s, x.sent, x.answer);
      if Round(w, s).Again? {
        RunExplained(w, Round(w, s).next);
      }
    }
  }

  lemma LossExplained(w: World, s: Transfer)
    requires Shape(w, s) && SourceLost(w, s).Some?
    ensures Explained(w, Report(Failed(FileChanged), SourceLost(w, s).value))
  {
  }

  /** For any server and file: how a transfer ends is what its last look at the file and its last answer say. */
  lemma WhyItEnded(w: World, clock: nat)
    ensures Explained(w, Run(w, Begin(clock)))
  {
    RunExplained(w, Begin(clock));
  }

  lemma SendHoldsNothing(w: World, clock: nat)
    ensures Send(w, [], clock, 0, []).held == []
  {
  }

  /** How the opening request ends: what its last answer was, and that it was made four times before giving up. */
  lemma {:induction false} WhyItOpened(w: World, clock: nat, failures: nat)
    requires failures < 4
    ensures
      var o := Open(w, clock, failures);
      && clock < o.clock <= clock + 2 * (4 - failures)
      && var last := w.answer(o.clock - 1, 0);
         match o
         case Opened(_) => last.Some? && (last.value.status == 200 || last.value.status == 201) && last.value.location
         case NotOpened(reason, c) =>
           match reason
           case Interrupted =>
             clock + (4 - failures) <= c && (Unanswered(w, c - 1, 0) || Transient(last.value))
           case NotStarted =>
             && last.Some? && last.value.status != 200 && last.value.status != 201 && !Transient(last.value)
             && (last.value.status == 401 ==> c > 1 && TokenRenewed(w, c - 2))
           case BadSession =>
             last.Some? && (last.value.status == 200 || last.value.status == 201) && !last.value.location
           case _ => false
    decreases 4 - failures
  {
    hide Send, TokenRenewed, Unanswered, Receive;
    var x := Send(w, [], clock, 0, []);
    SendExplained(w, [], clock, 0, []);
    SendHoldsNothing(w, clock);
    SendTakesTwo(w, [], clock, 0, []);
    if (x.answer.None? || Retryable(x.answer.value)) && failures < 3 {
      WhyItOpened(w, x.clock, failures + 1);
    }
  }

  lemma SendTakesTwo(w: World, held: Bytes, clock: nat, start: nat, body: Bytes)
    ensures clock + 1 <= Send(w, held, clock, start, body).clock <= clock + 2
  {
  }

  // ---------------------------------------------------------------- the order on the wire

  /** The last confirmation believed. */
  function ConfirmedThrough(wire: seq<Wire>): nat {
    if wire == [] then 0
    else if wire[|wire| - 1].Confirmed? then wire[|wire| - 1].upto else ConfirmedThrough(wire[..|wire| - 1])
  }

  /** What may follow `wire`. */
  predicate MayFollow(wire: seq<Wire>, x: Wire, size: nat) {
    match x
    case Data(start, _) =>
      start == ConfirmedThrough(wire) && size > 0 && (wire == [] || wire[|wire| - 1].Confirmed?)
    case Query => size == 0 || (wire != [] && !wire[|wire| - 1].Confirmed?)
    case Confirmed(upto) =>
      && wire != [] && !wire[|wire| - 1].Confirmed? && ConfirmedThrough(wire) <= upto < size
      && (wire[|wire| - 1].Data? ==> upto <= wire[|wire| - 1].start + wire[|wire| - 1].length)
  }

  predicate Sequenced(wire: seq<Wire>, size: nat) {
    wire == [] || (
      && MayFollow(wire[..|wire| - 1], wire[|wire| - 1], size) && Sequenced(wire[..|wire| - 1], size))
  }

  lemma SequenceGrows(wire: seq<Wire>, x: Wire, size: nat)
    ensures Sequenced(wire + [x], size) <==> Sequenced(wire, size) && MayFollow(wire, x, size)
    ensures ConfirmedThrough(wire + [x]) == if x.Confirmed? then x.upto else ConfirmedThrough(wire)
  {
    assert (wire + [x])[..|wire|] == wire;
  }

  /** Between turns: a chunk is next after a confirmation, and a status query after a request without one. */
  predicate InSequence(s: Transfer, size: nat) {
    && Sequenced(s.wire, size) && s.offset == ConfirmedThrough(s.wire)
    && (if s.probing then s.wire != [] && !s.wire[|s.wire| - 1].Confirmed? else s.wire == [] || s.wire[|s.wire| - 1].Confirmed?)
  }

  lemma SettleInSequence(w: World, s: Transfer, sent: nat, answer: Option<Reply>)
    requires Sequenced(s.wire, Size(w)) && s.offset == ConfirmedThrough(s.wire)
    requires s.wire != [] && !s.wire[|s.wire| - 1].Confirmed?
    requires
      var last := s.wire[|s.wire| - 1];
      && (last.Data? ==> last == Data(s.offset, sent)) && (last.Data? <==> !s.probing && Size(w) > 0)
    ensures
      var r := Settle(w, s, sent, answer);
      && (r.Again? ==> InSequence(r.next, Size(w)))
      && (r.Done? ==> Sequenced(r.final.wire, Size(w)))
  {
    hide Sequenced, ConfirmedThrough;
    if answer.Some? && answer.value.status == 308 && !answer.value.range.Malformed? {
      SequenceGrows(s.wire, Confirmed(Confirms(answer.value)), Size(w));
    }
  }

  lemma {:induction false} RunInSequence(w: World, s: Transfer)
    requires Shape(w, s) && InSequence(s, Size(w))
    ensures Sequenced(Run(w, s).final.wire, Size(w))
    decreases Size(w) - s.offset, MAX_FAILURES - s.failures
  {
    hide Settle, Send, Chunk, Sequenced, ConfirmedThrough;
    RoundDescends(w, s);
    if SourceLost(w, s).None? {
      var x := Transmit(w, s, Chunk(w, s));
      SequenceGrows(s.wire, if s.probing || Size(w) == 0 then Query else Data(s.offset, |Chunk(w, s)|), Size(w));
      SettleInSequence(w, x.s, x.sent, x.answer);
      if Round(w, s).Again? {
        RunInSequence(w, Round(w, s).next);
      }
    }
  }

  /**
   For any server: a chunk always starts where the last confirmation ended, and is never repeated before
   the server was asked how far it got; confirmations do not go back, and one that answers a chunk does not
   go beyond it.
   */
  lemma WireInSequence(w: World, clock: nat)
    ensures Sequenced(Run(w, Begin(clock)).final.wire, Size(w))
  {
    RunInSequence(w, Begin(clock));
  }

  // ---------------------------------------------------------------- trouble that is survived

  /** The answer to a request after which the server holds `n` bytes, and says so. */
  predicate Truthful(answer: Option<Reply>, n: nat, size: nat, id: string) {
    && answer.Some? && answer.value.id == Some(id) && answer.value.size.None?
    && if n < size then answer.value.status == 308 && answer.value.range == (if n == 0 then Missing else Through(n - 1))
       else answer.value.status == 200
  }

  /** At tick `t` the server keeps what it is sent, and says how much it has. */
  ghost predicate Good(w: World, t: nat, id: string) {
    w.taken(t) >= 8_388_608 && forall n: nat :: Truthful(w.answer(t, n), n, Size(w), id)
  }

  /** At tick `t` the answer is lost, or says to try again; of what was sent, any part may have been kept. */
  ghost predicate Troubled(w: World, t: nat) {
    forall n: nat :: w.answer(t, n).None? || Transient(w.answer(t, n).value)
  }

  ghost predicate GoodTry(w: World, first: nat, k: nat, id: string) {
    Good(w, first + 3 * k, id)
  }

  /** The file stays, and each try (they are three ticks apart from `first` on) is good or troubled. */
  ghost predicate Trying(w: World, first: nat, id: string) {
    && id != "" && (forall t: nat :: w.file(t) == w.file(0))
    && forall k: nat :: GoodTry(w, first, k, id) || Troubled(w, first + 3 * k)
  }

  /**
   After a good try, or at the start, trouble is over soon: two good tries in a row are among the next
   three, or one is, if the first troubled try left something with the server.
   */
  ghost predicate Tolerable(w: World, first: nat, id: string) {
    && Trying(w, first, id)
    && (forall k: nat | Fresh(w, first, k, id) :: GoodTry(w, first, k, id) || Passes(w, first, k, id))
  }

  ghost predicate Fresh(w: World, first: nat, k: nat, id: string) {
    k == 0 || GoodTry(w, first, k - 1, id)
  }

  ghost predicate Passes(w: World, first: nat, k: nat, id: string) {
    var (a, b, c) := (GoodTry(w, first, k + 1, id), GoodTry(w, first, k + 2, id), GoodTry(w, first, k + 3, id));
    (a && b) || (b && c) || (w.taken(first + 3 * k) > 0 && (a || b || c))
  }

  /** From try `k` on, with `failures` counted, progress comes before the fourth failure. */
  ghost predicate Hope(w: World, first: nat, k: nat, id: string, probing: bool, ahead: bool, failures: nat)
    decreases 4 - failures
  {
    failures < 4 &&
    if GoodTry(w, first, k, id) then !probing || ahead || Hope(w, first, k + 1, id, false, false, failures + 1)
    else Hope(w, first, k + 1, id, true, ahead || (!probing && w.taken(first + 3 * k) > 0), failures + 1)
  }

  lemma PassesAt(w: World, first: nat, k: nat, id: string)
    requires Tolerable(w, first, id) && Fresh(w, first, k, id)
    ensures GoodTry(w, first, k, id) || Passes(w, first, k, id)
  {
    hide Good, GoodTry, Passes, Fresh, Troubled;
  }

  lemma HopeAtFirst(w: World, first: nat, k: nat, id: string)
    requires Tolerable(w, first, id) && Fresh(w, first, k, id)
    ensures Hope(w, first, k, id, false, false, 0)
  {
    hide GoodTry, Tolerable, Fresh;
    PassesAt(w, first, k, id);
    if !GoodTry(w, first, k, id) {
      HopeUnfolds(w, first, k + 1, id, w.taken(first + 3 * k) > 0);
    }
  }

  lemma HopeUnfolds(w: World, first: nat, k: nat, id: string, kept: bool)
    requires
      var (a, b, c) := (GoodTry(w, first, k, id), GoodTry(w, first, k + 1, id), GoodTry(w, first, k + 2, id));
      (a && b) || (b && c) || (kept && (a || b || c))
    ensures Hope(w, first, k, id, true, kept, 1)
  {
    hide Good, GoodTry;
    if GoodTry(w, first, k, id) {
      assert GoodTry(w, first, k + 1, id) ==> Hope(w, first, k + 1, id, false, false, 2);
    } else if GoodTry(w, first, k + 1, id) {
      assert GoodTry(w, first, k + 2, id) ==> Hope(w, first, k + 2, id, false, false, 3);
      assert Hope(w, first, k + 1, id, true, kept, 2);
    } else {
      assert Hope(w, first, k + 2, id, true, kept, 3);
      assert Hope(w, first, k + 1, id, true, kept, 2);
    }
  }

  /** Between turns: at most one chunk is ahead of `offset`, and only while the client asks. */
  ghost predicate Steady(w: World, s: Transfer) {
    && Shape(w, s) && s.offset <= |s.held| <= s.sentThrough && |s.held| <= Size(w)
    && (!s.probing ==> |s.held| == s.offset) && s.held == w.file(0).content[..|s.held|]
  }

  lemma SourceStays(w: World, s: Transfer)
    requires Shape(w, s) && (forall t: nat :: w.file(t) == w.file(0))
    ensures SourceLost(w, s).None? && |Chunk(w, s)| == if s.probing then 0 else Min(8_388_608, Size(w) - s.offset)
  {
    assert w.file(s.clock) == w.file(0) && w.file(s.clock + 1) == w.file(0);
    if !s.probing {
      ChunkIsSource(w, s);
    }
  }

  /** One request, good or troubled: a single attempt, and what the server then holds. */
  lemma TrySends(w: World, s: Transfer, id: string)
    requires Steady(w, s) && |Chunk(w, s)| == if s.probing then 0 else Min(8_388_608, Size(w) - s.offset)
    requires Good(w, s.clock + 2, id) || Troubled(w, s.clock + 2)
    ensures
      var x := Transmit(w, s, Chunk(w, s));
      && x.s.clock == s.clock + 3 && x.answer == w.answer(s.clock + 2, |x.s.held|) && x.sent == |Chunk(w, s)|
      && x.s.offset == s.offset && x.s.failures == s.failures && x.s.probing == s.probing
      && |s.held| <= |x.s.held| <= x.s.sentThrough && |x.s.held| <= Size(w) && s.sentThrough <= x.s.sentThrough
      && (s.probing ==> |x.s.held| == |s.held|)
      && (!s.probing && w.taken(s.clock + 2) >= x.sent ==> |x.s.held| == s.offset + x.sent)
      && (!s.probing && w.taken(s.clock + 2) > 0 && x.sent > 0 ==> |x.s.held| > s.offset)
      && (!s.probing && w.taken(s.clock + 2) == 0 ==> |x.s.held| == |s.held|)
  {
    hide Chunk, Size, Transient;
    var held := Receive(s.held, s.offset, Chunk(w, s), w.taken(s.clock + 2));
    assert Good(w, s.clock + 2, id) ==> Truthful(w.answer(s.clock + 2, |held|), |held|, Size(w), id);
    TransientIsNot401(w, s.clock + 2, |held|);
  }

  lemma GoodAnswers(w: World, t: nat, n: nat, id: string)
    requires Good(w, t, id)
    ensures Truthful(w.answer(t, n), n, Size(w), id)
  {
  }

  lemma TroubledAnswers(w: World, t: nat, n: nat)
    requires Troubled(w, t)
    ensures w.answer(t, n).None? || Transient(w.answer(t, n).value)
  {
  }

  lemma TransientIsNot401(w: World, t: nat, n: nat)
    ensures Troubled(w, t) ==> w.answer(t, n).None? || w.answer(t, n).value.status != 401
  {
  }

  /** What a good try does: the upload is over, or the server's word is taken. */
  lemma GoodSettles(w: World, s: Transfer, sent: nat, id: string)
    requires s.failures < 4 && s.offset <= |s.held| <= s.sentThrough && |s.held| <= Size(w)
    requires id != "" && (forall t: nat :: w.file(t) == w.file(0)) && (!s.probing ==> |s.held| == s.offset + sent)
    ensures
      forall a | Truthful(a, |s.held|, Size(w), id) ::
        var r := Settle(w, s, sent, a);
        if |s.held| == Size(w) then r.Done? && r.outcome == Uploaded(id) && r.final.held == s.held
        else if s.offset < |s.held| then
          r.Again? && !r.next.probing && r.next.failures == 0 && r.next.offset == |s.held|
          && r.next.held == s.held && r.next.sentThrough == s.sentThrough && r.next.clock == s.clock
        else if s.failures < 3 then
          r.Again? && !r.next.probing && r.next.failures == s.failures + 1 && r.next.offset == s.offset
          && r.next.held == s.held && r.next.sentThrough == s.sentThrough && r.next.clock == s.clock
        else r.Done? && r.outcome == Failed(Interrupted)
  {
    assert w.file(s.clock) == w.file(0);
  }

  lemma TroubleSettles(w: World, s: Transfer, sent: nat, a: Option<Reply>)
    requires s.failures < 4 && (a.None? || Transient(a.value))
    ensures s.failures < 3 ==> Settle(w, s, sent, a) == Again(s.(failures := s.failures + 1, probing := true))
    ensures s.failures == 3 ==> Settle(w, s, sent, a).Done? && Settle(w, s, sent, a).outcome == Failed(Interrupted)
  {
  }

  lemma {:induction false} TolerableRunUploads(w: World, s: Transfer, first: nat, k: nat, id: string, ahead: bool)
    requires Tolerable(w, first, id) && s.clock + 2 == first + 3 * k && Steady(w, s)
    requires Hope(w, first, k, id, s.probing, ahead, s.failures) && (ahead ==> s.offset < |s.held| || Size(w) == 0)
    ensures Run(w, s).outcome == Uploaded(id) && Run(w, s).final.held == w.file(0).content
    decreases Size(w) - s.offset, MAX_FAILURES - s.failures
  {
    hide Settle, Chunk, Transmit, SourceLost, Truthful, Troubled, Good, Hope, Passes, Fresh;
    RoundDescends(w, s);
    HopeStep(w, first, k, id, s.probing, ahead, s.failures);
    if GoodTry(w, first, k, id) {
      GoodTurn(w, s, first, k, id);
      if Round(w, s).Again? {
        var t := Round(w, s).next;
        if t.offset > s.offset {
          assert Fresh(w, first, k + 1, id) by { FreshAfterGood(w, first, k, id); }
          HopeAtFirst(w, first, k + 1, id);
        }
        TolerableRunUploads(w, t, first, k + 1, id, false);
      }
    } else {
      TroubledTurn(w, s, first, k, id);
      TolerableRunUploads(w, Round(w, s).next, first, k + 1, id, ahead || (!s.probing && w.taken(first + 3 * k) > 0));
    }
  }

  lemma FreshAfterGood(w: World, first: nat, k: nat, id: string)
    requires GoodTry(w, first, k, id)
    ensures Fresh(w, first, k + 1, id)
  {
  }

  lemma HopeStep(w: World, first: nat, k: nat, id: string, probing: bool, ahead: bool, failures: nat)
    requires Hope(w, first, k, id, probing, ahead, failures)
    ensures failures < 4
    ensures
      if GoodTry(w, first, k, id)
      then !probing || ahead || (failures < 3 && Hope(w, first, k + 1, id, false, false, failures + 1))
      else
        && failures < 3
        && Hope(w, first, k + 1, id, true, ahead || (!probing && w.taken(first + 3 * k) > 0), failures + 1)
  {
  }

  lemma GoodTurn(w: World, s: Transfer, first: nat, k: nat, id: string)
    requires Trying(w, first, id) && s.clock + 2 == first + 3 * k && Steady(w, s) && GoodTry(w, first, k, id)
    ensures
      var r := Round(w, s);
      var stuck := s.probing && s.offset == |s.held| && Size(w) > 0;
      if r.Done? && stuck then s.failures == 3 && r.outcome == Failed(Interrupted)
      else if r.Done? then r.outcome == Uploaded(id) && r.final.held == w.file(0).content
      else
        && r.next.clock + 2 == first + 3 * (k + 1) && Steady(w, r.next) && !r.next.probing
        && (if s.offset < r.next.offset then r.next.failures == 0
            else stuck && s.failures < 3 && r.next.failures == s.failures + 1)
        && (stuck ==> r.next.offset == s.offset)
  {
    hide Settle, Chunk, Transmit, Truthful, Passes, Fresh;
    SourceStays(w, s);
    TrySends(w, s, id);
    TransmitContent(w, s);
    var x := Transmit(w, s, Chunk(w, s));
    GoodSettles(w, x.s, x.sent, id);
    GoodAnswers(w, s.clock + 2, |x.s.held|, id);
  }

  lemma TroubledTurn(w: World, s: Transfer, first: nat, k: nat, id: string)
    requires Trying(w, first, id) && s.clock + 2 == first + 3 * k && Steady(w, s) && !GoodTry(w, first, k, id)
    ensures s.failures == 3 ==> Round(w, s).Done? && Round(w, s).outcome == Failed(Interrupted)
    ensures s.failures < 3 ==>
      var r := Round(w, s);
      && r.Again? && r.next.clock + 2 == first + 3 * (k + 1) && Steady(w, r.next) && r.next.probing
      && r.next.offset == s.offset && r.next.failures == s.failures + 1 && |s.held| <= |r.next.held|
      && (!s.probing && w.taken(first + 3 * k) > 0 && Size(w) > 0 ==> s.offset < |r.next.held|)
      && (s.probing || w.taken(first + 3 * k) == 0 ==> |r.next.held| == |s.held|)
  {
    hide Settle, Chunk, Transmit, Troubled, Passes, Fresh;
    SourceStays(w, s);
    TrySends(w, s, id);
    TransmitContent(w, s);
    var x := Transmit(w, s, Chunk(w, s));
    TroubledAnswers(w, s.clock + 2, |x.s.held|);
    TroubleSettles(w, x.s, x.sent, w.answer(s.clock + 2, |x.s.held|));
  }

  lemma {:induction false} OpensAfter(w: World, clock: nat, granted: nat, failures: nat)
    requires failures + (granted - clock) <= 3 && clock <= granted
    requires forall t: nat | clock <= t < granted :: Troubled(w, t)
    requires w.answer(granted, 0).Some? && w.answer(granted, 0).value.location
    requires w.answer(granted, 0).value.status == 200 || w.answer(granted, 0).value.status == 201
    ensures Open(w, clock, failures) == Opened(granted + 1)
    decreases granted - clock
  {
    if clock < granted {
      TroubledAnswers(w, clock, 0);
      assert Receive([], 0, [], w.taken(clock)) == [];
      OpensAfter(w, clock + 1, granted, failures + 1);
    }
  }

  /**
   An upload gets through, and stores the file, when its session opens within four requests and later
   trouble passes in time, be it lost answers, 429, 5xx or a throttled account: two lost tries in a row,
   each time, or three, when the server kept something of the first.
   */
  lemma TroubleIsSurvived(w: World, granted: nat, id: string)
    requires 1 <= granted <= 4 && forall t: nat | 1 <= t < granted :: Troubled(w, t)
    requires w.answer(granted, 0).Some? && w.answer(granted, 0).value.location
    requires w.answer(granted, 0).value.status == 200 || w.answer(granted, 0).value.status == 201
    requires Tolerable(w, granted + 3, id)
    ensures UploadResult(w) == (Uploaded(id), w.file(0).content)
  {
    OpensAfter(w, 1, granted, 0);
    HopeAtFirst(w, granted + 3, 0, id);
    TolerableRunUploads(w, Begin(granted + 1), granted + 3, 0, id, false);
  }

  /** Without that hope the upload of a file that is not empty gives up: the condition is exact. */
  lemma {:induction false} NoHopeGivesUp(w: World, s: Transfer, first: nat, k: nat, id: string)
    requires Trying(w, first, id) && s.clock + 2 == first + 3 * k && Steady(w, s) && Size(w) > 0
    requires !Hope(w, first, k, id, s.probing, s.offset < |s.held|, s.failures)
    ensures Run(w, s).outcome == Failed(Interrupted)
    decreases Size(w) - s.offset, MAX_FAILURES - s.failures
  {
    hide Settle, Chunk, Transmit, SourceLost, Truthful, Troubled, Good, Hope, Trying;
    RoundDescends(w, s);
    NoHopeStep(w, first, k, id, s.probing, s.offset < |s.held|, s.failures);
    if GoodTry(w, first, k, id) {
      GoodTurn(w, s, first, k, id);
    } else {
      TroubledTurn(w, s, first, k, id);
    }
    if Round(w, s).Again? {
      NoHopeGivesUp(w, Round(w, s).next, first, k + 1, id);
    }
  }

  lemma NoHopeStep(w: World, first: nat, k: nat, id: string, probing: bool, ahead: bool, failures: nat)
    requires !Hope(w, first, k, id, probing, ahead, failures) && failures < 4
    ensures
      if GoodTry(w, first, k, id) then probing && !ahead && !Hope(w, first, k + 1, id, false, false, failures + 1)
      else !Hope(w, first, k + 1, id, true, ahead || (!probing && w.taken(first + 3 * k) > 0), failures + 1)
  {
  }

  /** So three tries in a row, of which the server kept nothing, are one too many: the query that follows is the fourth failure. */
  lemma ThreeLostGiveUp(w: World, s: Transfer, first: nat, k: nat, id: string)
    requires Trying(w, first, id) && s.clock + 2 == first + 3 * k && Steady(w, s) && Size(w) > 0
    requires !s.probing && s.failures == 0 && w.taken(first + 3 * k) == 0
    requires !GoodTry(w, first, k, id) && !GoodTry(w, first, k + 1, id) && !GoodTry(w, first, k + 2, id)
    ensures Run(w, s).outcome == Failed(Interrupted)
  {
    hide Trying, GoodTry;
    assert !Hope(w, first, k + 3, id, true, false, 3);
    assert !Hope(w, first, k + 2, id, true, false, 2);
    assert !Hope(w, first, k + 1, id, true, false, 1);
    NoHopeGivesUp(w, s, first, k, id);
  }
}

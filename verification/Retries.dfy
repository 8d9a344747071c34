// What becomes of a failed attempt: a split that failed before anything was
// delivered is sent again, whole, and the whole body gets through.

module Retries {
  import opened Results
  import opened Blocks
  import opened Session
  import opened Link
  import opened Runs
  import Repairs
  import Resolve

  // The failures a whole body may get past.
  predicate Recoverable(e: SessionError) {
    || e == SendWhole || e == Rejected || e.Unrebuildable? || e == DigestMismatch
    || e == LinkClosed || e == Io || e == Proto
  }

  // The connection on which the sender makes a move, and what fails by it.
  ghost predicate Fails(s: System, m: Move, cid: nat, e: SessionError) {
    match m
    case SenderReads(c, src, there) =>
      c == cid && Enabled(s, m) && LocalDoes(s.conns[c], src, there).result == Some(Err(e))
    case SenderFails(c, f) => c == cid && Enabled(s, m) && f == e
    case _ => false
  }

  // The first attempt of a turn, split, of which the agent has got nothing.
  ghost predicate FreshSplit(s: System, cid: nat)
    requires Busy(s, cid)
  {
    var j := s.conns[cid].job.value;
    j.attempt == 1 && j.payload.SplitPayload? && s.turns[j.turn].got == []
  }

  lemma FailsAre(s: System, m: Move, cid: nat, e: SessionError)
    requires Fails(s, m, cid, e)
    ensures Enabled(s, m) && Busy(s, cid) && (m.SenderReads? ==> s.conns[cid].down != [])
  {
    hide HonestSource, LocalStep;
  }

  lemma BusyIs(s: System, cid: nat)
    requires Busy(s, cid)
    ensures cid in s.conns && s.conns[cid].job.Some? && s.conns[cid].job.value.turn in s.turns
  {
  }

  // A frame that fails the request delivers nothing.
  lemma NothingDelivered(c: Conn, got: seq<AgentEvent>, src: Resolve.Source, there: bool, e: SessionError)
    requires c.down != [] && LocalDoes(c, src, there).result == Some(Err(e))
    ensures GotAfter(c, got, there) == got
    ensures LocalDoes(c, src, there).local.headSent == c.local.headSent
  {
    hide Answer, Received;
    assert got + [] == got;
  }

  // What the invariant says of a turn at work.
  lemma AtWork(s: System, cid: nat)
    requires Inv(s) && Busy(s, cid)
    ensures var c, j := s.conns[cid], s.conns[cid].job.value;
            var u := s.turns[j.turn];
            && j.attempt == u.drive.attempts && (c.local.headSent <==> u.got != [])
            && (j.attempt == 1 ==> j.payload == u.first == u.drive.payload)
            && |u.body| < ALLOC_LIMIT
  {
    hide JobOk, RemoteSide, EndsLast, NoMismatch, Lockstep, HonestStore, CallFine, PayloadOk, Heard, HeardAll, HeadFor;
    var c, j := s.conns[cid], s.conns[cid].job.value;
    assert ConnFine(s, cid) && TurnFine(s, j.turn);
    assert JobFine(s, j.id);
  }

  // The turn after the failure, said of the attempt alone.
  ghost predicate Answered(u: Turn, v: Turn, first: bool, e: SessionError) {
    if first && Recoverable(e) then
      && Waiting(v) && v.got == [] && v.drive == Drive(WholePayload, 1)
      && v.meta == u.meta && v.body == u.body && v.first == u.first
    else v == u.(running := None, done := Some(Err(e)))
  }

  lemma EndedAnswers(u: Turn, e: SessionError, headSent: bool)
    requires headSent <==> u.got != []
    ensures Answered(u, Ended(u, Err(e), headSent),
                     u.drive.attempts == 1 && u.drive.payload.SplitPayload? && u.got == [], e)
  {
  }

  // On every run: a first attempt that was a split, of which nothing had been
  // delivered, and that fails with a failure a whole body may get past, leaves
  // its turn waiting with the whole body to send; after any other failure the
  // turn is done, with that error.
  lemma EveryFailureIsAnswered(ss: seq<System>, ms: seq<Move>, n: nat, cid: nat, e: SessionError)
    requires Run(ss, ms) && n < |ms| && Fails(ss[n], ms[n], cid, e)
    ensures Busy(ss[n], cid)
    ensures var t := ss[n].conns[cid].job.value.turn;
            t in ss[n + 1].turns && Answered(ss[n].turns[t], ss[n + 1].turns[t], FreshSplit(ss[n], cid), e)
  {
    hide *;
    RunStep(ss, ms, n);
    FailsAre(ss[n], ms[n], cid, e);
    RunsAreSafe(ss, ms, n);
    AtWork(ss[n], cid);
    FailureStep(ss[n], ms[n], cid, e);
  }

  lemma RunStep(ss: seq<System>, ms: seq<Move>, n: nat)
    requires Run(ss, ms) && n < |ms|
    ensures |ss| == |ms| + 1 && Enabled(ss[n], ms[n]) && ss[n + 1] == Applied(ss[n], ms[n])
  {
    hide Enabled, Applied;
  }

  lemma FailureStep(s: System, m: Move, cid: nat, e: SessionError)
    requires Fails(s, m, cid, e) && Enabled(s, m) && Busy(s, cid)
    requires var c, j := s.conns[cid], s.conns[cid].job.value;
             var u := s.turns[j.turn];
             && j.attempt == u.drive.attempts && (c.local.headSent <==> u.got != [])
             && (j.attempt == 1 ==> j.payload == u.first == u.drive.payload)
    ensures var t, s' := s.conns[cid].job.value.turn, Applied(s, m);
            t in s'.turns && Answered(s.turns[t], s'.turns[t], FreshSplit(s, cid), e)
  {
    hide HonestSource, LocalStep, Answered, Ended, GotAfter;
    var c := s.conns[cid];
    var u := s.turns[c.job.value.turn];
    EndedAnswers(u, e, c.local.headSent);
    if m.SenderReads? {
      NothingDelivered(c, u.got, m.src, m.there, e);
      assert u.(got := u.got) == u;
    }
  }

  // What the peer refuses or gives up on, and what the link loses, is such a
  // failure: a refused greeting, a plea for the whole body, a reset.
  lemma RefusalIsRetried(ss: seq<System>, ms: seq<Move>, n: nat, cid: nat)
    requires Run(ss, ms) && n < |ms| && ms[n].SenderReads? && ms[n].cid == cid
    requires Busy(ss[n], cid) && ss[n].conns[cid].down != [] && FreshSplit(ss[n], cid)
    requires var f := ss[n].conns[cid].down[0]; f.Fail? || f.PeerReset? || (f.HelloAck? && !f.ok)
    ensures var t := ss[n].conns[cid].job.value.turn;
            && t in ss[n + 1].turns && Waiting(ss[n + 1].turns[t])
            && ss[n + 1].turns[t].drive == Drive(WholePayload, 1)
  {
    RunStep(ss, ms, n);
    hide Run, Enabled, Applied;
    var e := if ss[n].conns[cid].down[0].HelloAck? then Rejected else SendWhole;
    assert Fails(ss[n], ms[n], cid, e) by { RefusalFails(ss[n], ms[n], cid, e); }
    EveryFailureIsAnswered(ss, ms, n, cid, e);
  }

  lemma RefusalFails(s: System, m: Move, cid: nat, e: SessionError)
    requires m.SenderReads? && m.cid == cid && Enabled(s, m) && s.conns[cid].down != []
    requires var f := s.conns[cid].down[0];
             if f.HelloAck? then !f.ok && e == Rejected else (f.Fail? || f.PeerReset?) && e == SendWhole
    ensures Fails(s, m, cid, e)
  {
    hide HonestSource;
  }

  // And the second attempt gets through: on any new connection whose peer
  // accepts the greeting, exactly the body goes upstream, with nothing asked
  // for and nothing refused, if it is within the peer's size limit.
  lemma RetryIsForwarded(ss: seq<System>, ms: seq<Move>, n: nat, cid: nat, e: SessionError, next: nat,
                         greeting: Greeting, ws: nat -> World)
    requires Run(ss, ms) && n < |ms| && Fails(ss[n], ms[n], cid, e) && Recoverable(e)
    requires Busy(ss[n], cid) && FreshSplit(ss[n], cid) && next !in ss[n + 1].conns
    requires greeting.current && (greeting.proof || forall k :: !ws(k).paired)
    ensures var t, s := ss[n].conns[cid].job.value.turn, ss[n + 1];
            && Enabled(s, Move.Start(t, next, greeting))
            && var u, c := s.turns[t], Applied(s, Move.Start(t, next, greeting)).conns[next];
               var fed := Repairs.Fed(c.remote, c.up, ws, 0);
               && |u.body| < ALLOC_LIMIT && Repairs.Quiet(fed.sent)
               && fed.calls == if |u.body| <= MAX_BODY_BYTES then [Call(HeadFor(u.meta, u.body, WholePayload), u.body)]
                               else []
  {
    hide *;
    EveryFailureIsAnswered(ss, ms, n, cid, e);
    RunStep(ss, ms, n);
    BusyIs(ss[n], cid);
    RunsAreSafe(ss, ms, n);
    AtWork(ss[n], cid);
    var t, s := ss[n].conns[cid].job.value.turn, ss[n + 1];
    SecondJob(s, ss[n].turns[t], t, e, next, greeting);
    var job := NextJob(s, t);
    Repairs.WholeBodyIsForwarded(FRESH, true, greeting, job, ws);
    StartedUp(s, t, next, greeting);
  }

  lemma SecondJob(s: System, u: Turn, t: nat, e: SessionError, next: nat, greeting: Greeting)
    requires t in s.turns && Answered(u, s.turns[t], true, e) && Recoverable(e) && |u.body| < ALLOC_LIMIT
    requires next !in s.conns
    ensures |s.turns[t].body| < ALLOC_LIMIT && Enabled(s, Move.Start(t, next, greeting))
    ensures FRESH.open && AtRest(FRESH)
    ensures var job, v := NextJob(s, t), s.turns[t];
            && job.payload.WholePayload? && job.attempt == 2 && JobOk(job)
            && job.head == HeadFor(v.meta, v.body, WholePayload) && job.body == v.body
  {
  }

  lemma StartedUp(s: System, t: nat, next: nat, greeting: Greeting)
    requires t in s.turns && |s.turns[t].body| < ALLOC_LIMIT && next !in s.conns
    requires Enabled(s, Move.Start(t, next, greeting))
    ensures var c, job := Applied(s, Move.Start(t, next, greeting)).conns, NextJob(s, t);
            && next in c && c[next].remote == FRESH
            && c[next].up == Upload(true, greeting, job.head, job.payload, job.body)
  {
    hide Upload;
    var job := NextJob(s, t);
    var up := Upload(true, greeting, job.head, job.payload, job.body);
    assert [] + up == up;
  }
}

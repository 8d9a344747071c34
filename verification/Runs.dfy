// Whole runs: any number of agent turns over any number of connections, in any
// interleaving, with stores that gain honest blocks and lose any blocks at any
// time, links that break, and wrong guesses about what the peer holds.

module Runs {
  import opened Results
  import opened Blocks
  import opened Session
  import opened Link
  import Programs
  import Resolve
  import Splitter

  type Store = Programs.Store

  // One agent request. `first` is the payload its first attempt sends.
  datatype Turn = Turn(meta: nat, body: Bytes, first: Payload, drive: Drive, running: Option<nat>,
                       got: seq<AgentEvent>, done: Option<Result<(), SessionError>>)

  datatype Logged = Logged(job: nat, call: Call, reply: Option<Reply>)

  datatype System = System(conns: map<nat, Conn>, turns: map<nat, Turn>, jobs: seq<Job>, calls: seq<Logged>,
                           local: Store, remote: Store)

  const INIT := System(map[], map[], [], [], map[], map[])

  // What a turn may carry: the body itself, or any split of it into blocks of
  // two levels, whatever the presence answers it was based on.
  ghost predicate PayloadOk(payload: Payload, body: Bytes) {
    && |body| < ALLOC_LIMIT
    && (payload.SplitPayload? ==>
          && (forall b :: b in payload.out.toPush ==> Honest(b))
          && exists claimed :: Splitter.GoodSplit(body, payload.out, claimed))
  }

  // ---------- Moves ----------

  datatype Move =
    | Arrive(t: nat, meta: nat, body: Bytes, payload: Payload)
    | Start(t: nat, cid: nat, greeting: Greeting)
    | DialFails(t: nat)
    | PeerReads(cid: nat, w: World, after: Store)
    | SenderReads(cid: nat, src: Resolve.Source, there: bool)
    | SenderFails(cid: nat, e: SessionError)
    | LinkBreaks(cid: nat, k: nat)
    | PoolDrops(cid: nat)
    | PoolResets(cid: nat)
    | StoresChange(local: Store, remote: Store)

  function ConnAt(s: System, cid: nat): Conn {
    if cid in s.conns then s.conns[cid] else NEW_CONN
  }

  function NextJob(s: System, t: nat): Job
    requires t in s.turns && |s.turns[t].body| < ALLOC_LIMIT
  {
    var u := s.turns[t];
    Job(|s.jobs|, t, u.drive.attempts + 1, HeadFor(u.meta, u.body, u.drive.payload), u.body, u.drive.payload)
  }

  // What a turn makes of the end of an attempt.
  function Ended(u: Turn, r: Result<(), SessionError>, headSent: bool): Turn {
    match r
    case Ok(_) => u.(running := None, done := Some(r))
    case Err(e) =>
      var (d, retry) := AfterFailure(u.drive, e, headSent);
      u.(running := None, drive := d, done := if retry then None else Some(r))
  }

  function AfterRead(u: Turn, got: seq<AgentEvent>, o: LocalOutcome): Turn {
    if o.result.None? then u.(got := got) else Ended(u.(got := got), o.result.value, o.local.headSent)
  }

  predicate Waiting(u: Turn) { u.running.None? && u.done.None? }

  // The store after a frame: what it held, or less, and the block offered.
  ghost predicate StoredAfter(before: Store, o: RemoteOutcome, after: Store) {
    && (o.cleared ==> after == map[])
    && forall d :: d in after ==>
         || (d in before && after[d] == before[d])
         || (o.offered.Some? && o.offered.value.digest == d && after[d] == o.offered.value && Verifies(after[d]))
  }

  predicate Busy(s: System, cid: nat) {
    && cid in s.conns && s.conns[cid].busy && s.conns[cid].job.Some? && s.conns[cid].job.value.turn in s.turns
  }

  predicate Pooled(s: System, cid: nat) {
    cid in s.conns && !s.conns[cid].busy && !s.conns[cid].lost
  }

  ghost predicate Enabled(s: System, m: Move) {
    match m
    case Arrive(t, _, body, payload) => t !in s.turns && PayloadOk(payload, body)
    case Start(t, cid, _) =>
      && t in s.turns && Waiting(s.turns[t]) && |s.turns[t].body| < ALLOC_LIMIT
      && (cid !in s.conns || Pooled(s, cid))
    case DialFails(t) => t in s.turns && Waiting(s.turns[t])
    case PeerReads(cid, w, after) =>
      && cid in s.conns && s.conns[cid].up != []
      && w.eyes.store == s.remote && HonestSource(w.eyes.src)
      && StoredAfter(s.remote, RemoteDoes(s.conns[cid], w), after)
    case SenderReads(cid, src, there) => Busy(s, cid) && s.conns[cid].down != [] && HonestSource(src)
    case SenderFails(cid, e) => Busy(s, cid) && (e.LinkClosed? || e.Io? || e.Proto? || e.BadPayload? || e.Compress?)
    case LinkBreaks(cid, k) => cid in s.conns && k <= |s.conns[cid].down|
    case PoolDrops(cid) => Pooled(s, cid)
    case PoolResets(cid) => Pooled(s, cid)
    case StoresChange(local, remote) =>
      && (forall d :: d in local ==>
            (d in s.local && local[d] == s.local[d]) || (local[d].digest == d && Honest(local[d])))
      && (forall d :: d in remote ==> d in s.remote && remote[d] == s.remote[d])
  }

  ghost function Applied(s: System, m: Move): System
    requires Enabled(s, m)
  {
    match m
    case Arrive(t, meta, body, payload) =>
      s.(turns := s.turns[t := Turn(meta, body, payload, Drive(payload, 0), None, [], None)])
    case Start(t, cid, greeting) => StartApplied(s, t, cid, greeting)
    case DialFails(t) => DialFailed(s, t)
    case PeerReads(cid, w, after) => PeerRead(s, cid, w, after)
    case SenderReads(cid, src, there) => SenderRead(s, cid, src, there)
    case SenderFails(cid, e) => SenderFailed(s, cid, e)
    case LinkBreaks(cid, k) => Moved(s, cid, Cut(s.conns[cid], k))
    case PoolDrops(cid) => Moved(s, cid, Dropped(s.conns[cid]))
    case PoolResets(cid) => Moved(s, cid, ResetSent(s.conns[cid]))
    case StoresChange(local, remote) => s.(local := local, remote := remote)
  }

  function Moved(s: System, cid: nat, c: Conn): System { s.(conns := s.conns[cid := c]) }

  function DialFailed(s: System, t: nat): System
    requires t in s.turns
  {
    var u := s.turns[t];
    s.(turns := s.turns[t := u.(drive := u.drive.(attempts := u.drive.attempts + 1), done := Some(Err(Io)))])
  }

  function PeerRead(s: System, cid: nat, w: World, after: Store): System
    requires cid in s.conns && s.conns[cid].up != []
  {
    var c := s.conns[cid];
    var call := RemoteDoes(c, w).call;
    s.(conns := s.conns[cid := RemoteReads(c, w)], remote := after,
       calls := if call.Some? && c.job.Some? then s.calls + [Logged(c.job.value.id, call.value, w.upstream)]
                else s.calls)
  }

  function SenderRead(s: System, cid: nat, src: Resolve.Source, there: bool): System
    requires Busy(s, cid) && s.conns[cid].down != []
  {
    var c := s.conns[cid];
    var t := c.job.value.turn;
    var u := s.turns[t];
    s.(conns := s.conns[cid := LocalReads(c, src, there)],
       turns := s.turns[t := AfterRead(u, GotAfter(c, u.got, there), LocalDoes(c, src, there))])
  }

  function SenderFailed(s: System, cid: nat, e: SessionError): System
    requires Busy(s, cid)
  {
    var c := s.conns[cid];
    var t := c.job.value.turn;
    s.(conns := s.conns[cid := Dropped(c)], turns := s.turns[t := Ended(s.turns[t], Err(e), c.local.headSent)])
  }

  ghost function StartApplied(s: System, t: nat, cid: nat, greeting: Greeting): System
    requires t in s.turns && |s.turns[t].body| < ALLOC_LIMIT
  {
    var u := s.turns[t];
    var job := NextJob(s, t);
    s.(conns := s.conns[cid := Started(ConnAt(s, cid), job, greeting)], jobs := s.jobs + [job],
       turns := s.turns[t := u.(drive := u.drive.(attempts := u.drive.attempts + 1), running := Some(cid))])
  }

  // A run: from nothing, one enabled move after the other.
  ghost predicate Run(ss: seq<System>, ms: seq<Move>) {
    && |ss| == |ms| + 1 && ss[0] == INIT
    && forall i :: 0 <= i < |ms| ==> Enabled(ss[i], ms[i]) && ss[i + 1] == Applied(ss[i], ms[i])
  }

  // ---------- The invariant of the system ----------

  function GotOf(s: System, c: Conn): seq<AgentEvent> {
    if c.busy && c.job.Some? && c.job.value.turn in s.turns then s.turns[c.job.value.turn].got else []
  }

  // A connection, its job and the turn it works for.
  ghost predicate ConnFine(s: System, cid: nat)
    requires cid in s.conns
  {
    var c := s.conns[cid];
    && ConnInv(c, GotOf(s, c))
    && (c.job.Some? ==> JobOf(s, c.job.value) && CalledOnce(s, c, c.job.value))
    && (c.busy ==> c.job.Some? && c.job.value.turn in s.turns && s.turns[c.job.value.turn].running == Some(cid)
                   && c.job.value.attempt == s.turns[c.job.value.turn].drive.attempts)
  }

  ghost predicate JobOf(s: System, j: Job) {
    j.id < |s.jobs| && s.jobs[j.id] == j
  }

  ghost predicate CalledOnce(s: System, c: Conn, j: Job) {
    && (!c.called ==> c.reply.None? && forall k :: 0 <= k < |s.calls| ==> s.calls[k].job != j.id)
    && (c.reply.Some? ==> exists k :: 0 <= k < |s.calls| && s.calls[k].job == j.id && s.calls[k].reply == c.reply)
  }

  ghost predicate JobFine(s: System, i: nat)
    requires i < |s.jobs|
  {
    var j := s.jobs[i];
    && j.id == i && JobOk(j) && j.turn in s.turns
    && var u := s.turns[j.turn];
    && j.body == u.body && |u.body| < ALLOC_LIMIT && j.head == HeadFor(u.meta, u.body, j.payload)
    && 1 <= j.attempt <= u.drive.attempts
    && (if j.attempt == 1 then j.payload == u.first
        else j.attempt == 2 && j.payload.WholePayload? && u.first.SplitPayload?)
  }

  ghost predicate JobsDiffer(s: System) {
    forall i, j :: 0 <= i < j < |s.jobs| && s.jobs[i].turn == s.jobs[j].turn ==> s.jobs[i].attempt != s.jobs[j].attempt
  }

  ghost predicate ConnsDiffer(s: System) {
    forall a, b :: a in s.conns && b in s.conns && a != b && s.conns[a].job.Some? && s.conns[b].job.Some? ==>
      s.conns[a].job.value.id != s.conns[b].job.value.id
  }

  ghost predicate CallFine(s: System, k: nat)
    requires k < |s.calls|
  {
    var l := s.calls[k];
    l.job < |s.jobs| && l.call == Call(s.jobs[l.job].head, s.jobs[l.job].body)
  }

  ghost predicate CallsDiffer(s: System) {
    forall i, j :: 0 <= i < j < |s.calls| ==> s.calls[i].job != s.calls[j].job
  }

  // The k-th call was made for turn t.
  ghost predicate CallFor(s: System, k: nat, t: nat) {
    k < |s.calls| && s.calls[k].job < |s.jobs| && s.jobs[s.calls[k].job].turn == t
  }

  ghost predicate Drives(u: Turn) {
    && u.drive.attempts <= 2
    && (u.drive.attempts == 2 ==> u.first.SplitPayload? && u.drive.payload.WholePayload?)
    && (u.running.Some? ==> u.drive.attempts >= 1 && u.done.None?)
    && (u.running.Some? && u.drive.attempts == 1 ==> u.drive.payload == u.first)
    && (Waiting(u) ==> u.got == []
                       && if u.drive.attempts == 0 then u.drive.payload == u.first
                          else u.drive.attempts == 1 && u.first.SplitPayload? && u.drive.payload.WholePayload?)
  }

  ghost predicate TurnFine(s: System, t: nat)
    requires t in s.turns
  {
    var u := s.turns[t];
    && PayloadOk(u.first, u.body) && Drives(u)
    && (u.got != [] ==> exists k: nat :: Heard(s, k, t, u.got))
    && (u.done.Some? && u.done.value.Ok? ==> exists k: nat :: HeardAll(s, k, t, u.got))
    && (u.running.Some? ==> u.running.value in s.conns && s.conns[u.running.value].busy
                            && s.conns[u.running.value].job.Some? && s.conns[u.running.value].job.value.turn == t)
  }

  // What an agent got is the start of what the k-th call, its own, answered.
  ghost predicate Heard(s: System, k: nat, t: nat, got: seq<AgentEvent>) {
    CallFor(s, k, t) && s.calls[k].reply.Some? && got <= ReplyEvents(s.calls[k].reply.value)
  }

  ghost predicate HeardAll(s: System, k: nat, t: nat, got: seq<AgentEvent>) {
    && CallFor(s, k, t) && s.calls[k].reply.Some? && s.calls[k].reply.value.complete
    && got == ReplyEvents(s.calls[k].reply.value)
  }

  ghost predicate Inv(s: System) {
    && HonestStore(s.local) && HonestStore(s.remote)
    && (forall cid :: cid in s.conns ==> ConnFine(s, cid))
    && (forall t :: t in s.turns ==> TurnFine(s, t))
    && (forall i: nat :: i < |s.jobs| ==> JobFine(s, i))
    && (forall k: nat :: k < |s.calls| ==> CallFine(s, k))
    && JobsDiffer(s) && ConnsDiffer(s) && CallsDiffer(s)
  }

  lemma InitHolds()
    ensures Inv(INIT)
  {
  }

  // ---------- Changes that leave most of it alone ----------

  // Turns go on, jobs and calls are only added to.
  ghost predicate Onward(s: System, s': System) {
    && s.jobs <= s'.jobs && s.calls <= s'.calls
    && forall t :: t in s.turns ==> t in s'.turns && Later(s.turns[t], s'.turns[t])
  }

  predicate Later(u: Turn, v: Turn) {
    u.meta == v.meta && u.body == v.body && u.first == v.first && u.drive.attempts <= v.drive.attempts
  }

  lemma JobsStay(s: System, s': System, i: nat)
    requires Onward(s, s') && i < |s.jobs| && JobFine(s, i)
    ensures JobFine(s', i)
  {
    hide JobOk, HeadFor;
  }

  lemma CallsStay(s: System, s': System, k: nat)
    requires Onward(s, s') && k < |s.calls| && CallFine(s, k)
    ensures CallFine(s', k)
  {
  }

  lemma HeardStays(s: System, s': System, t: nat, got: seq<AgentEvent>)
    requires Onward(s, s')
    ensures (exists k: nat :: Heard(s, k, t, got)) ==> exists k: nat :: Heard(s', k, t, got)
    ensures (exists k: nat :: HeardAll(s, k, t, got)) ==> exists k: nat :: HeardAll(s', k, t, got)
  {
    if k: nat :| Heard(s, k, t, got) {
      assert Heard(s', k, t, got);
    }
    if k: nat :| HeardAll(s, k, t, got) {
      assert HeardAll(s', k, t, got);
    }
  }

  // A turn whose connection is not the one that moved.
  lemma TurnStays(s: System, s': System, t: nat)
    requires Onward(s, s') && t in s.turns && TurnFine(s, t) && s'.turns[t] == s.turns[t]
    requires s.turns[t].running.Some? ==>
               var c := s.turns[t].running.value;
               c in s'.conns && s'.conns[c].busy && s'.conns[c].job == s.conns[c].job
    ensures TurnFine(s', t)
  {
    hide PayloadOk, Drives, Heard, HeardAll;
    HeardStays(s, s', t, s.turns[t].got);
  }

  // A connection that did not move, working for a turn that did not change.
  lemma ConnStays(s: System, s': System, cid: nat)
    requires Onward(s, s') && cid in s.conns && ConnFine(s, cid) && cid in s'.conns && s'.conns[cid] == s.conns[cid]
    requires var c := s.conns[cid]; c.busy && c.job.Some? && c.job.value.turn in s.turns ==>
               s'.turns[c.job.value.turn] == s.turns[c.job.value.turn]
    requires var c := s.conns[cid]; c.job.Some? ==>
               forall k :: |s.calls| <= k < |s'.calls| ==> s'.calls[k].job != c.job.value.id
    ensures ConnFine(s', cid)
  {
    hide ConnInv;
    var c := s.conns[cid];
    if c.job.Some? && c.reply.Some? {
      var k :| 0 <= k < |s.calls| && s.calls[k].job == c.job.value.id && s.calls[k].reply == c.reply;
      assert s'.calls[k] == s.calls[k];
    }
  }

  // What a move leaves alone: every connection outside `cs`, every turn outside `ts`.
  ghost predicate Apart(s: System, s': System, cs: set<nat>, ts: set<nat>) {
    && s'.conns.Keys == s.conns.Keys + cs && s'.turns.Keys == s.turns.Keys + ts
    && (forall b :: b in s.conns && b !in cs ==> s'.conns[b] == s.conns[b])
    && (forall t :: t in s.turns && t !in ts ==> s'.turns[t] == s.turns[t])
  }

  // The connections that stay do not work for the turns that change, and the
  // calls that are new were not made for them.
  ghost predicate Unrelated(s: System, s': System, cs: set<nat>, ts: set<nat>) {
    && (forall b :: b in s.conns && b !in cs && s.conns[b].job.Some? ==>
          && (s.conns[b].busy ==> s.conns[b].job.value.turn !in ts)
          && forall k :: |s.calls| <= k < |s'.calls| ==> s'.calls[k].job != s.conns[b].job.value.id)
    && (forall t :: t in s.turns && t !in ts && s.turns[t].running.Some? && s.turns[t].running.value in cs ==>
          var c := s.turns[t].running.value;
          c in s'.conns && c in s.conns && s'.conns[c].busy && s'.conns[c].job == s.conns[c].job)
  }

  ghost predicate NewFine(s: System, s': System, cs: set<nat>, ts: set<nat>)
    requires cs <= s'.conns.Keys && ts <= s'.turns.Keys
  {
    && (forall b :: b in cs ==> ConnFine(s', b))
    && (forall t :: t in ts ==> TurnFine(s', t))
    && (forall i: nat :: |s.jobs| <= i < |s'.jobs| ==> JobFine(s', i))
    && (forall k: nat :: |s.calls| <= k < |s'.calls| ==> CallFine(s', k))
    && JobsDiffer(s') && ConnsDiffer(s') && CallsDiffer(s')
  }

  lemma Reassemble(s: System, s': System, cs: set<nat>, ts: set<nat>)
    requires Inv(s) && Onward(s, s') && HonestStore(s'.local) && HonestStore(s'.remote)
    requires Apart(s, s', cs, ts) && Unrelated(s, s', cs, ts) && NewFine(s, s', cs, ts)
    ensures Inv(s')
  {
    hide ConnFine, TurnFine, JobFine, CallFine, JobsDiffer, ConnsDiffer, CallsDiffer, HonestStore, Later, Onward;
    forall b | b in s'.conns ensures ConnFine(s', b) {
      if b !in cs {
        OtherConn(s, s', cs, ts, b);
      }
    }
    forall t | t in s'.turns ensures TurnFine(s', t) {
      if t !in ts {
        OtherTurn(s, s', cs, ts, t);
      }
    }
    forall i: nat | i < |s'.jobs| ensures JobFine(s', i) {
      if i < |s.jobs| {
        JobsStay(s, s', i);
      }
    }
    forall k: nat | k < |s'.calls| ensures CallFine(s', k) {
      if k < |s.calls| {
        CallsStay(s, s', k);
      }
    }
  }

  lemma OtherConn(s: System, s': System, cs: set<nat>, ts: set<nat>, b: nat)
    requires Inv(s) && Onward(s, s') && Apart(s, s', cs, ts) && Unrelated(s, s', cs, ts) && b in s'.conns && b !in cs
    ensures ConnFine(s', b)
  {
    hide ConnInv, TurnFine, JobFine, CallFine, JobsDiffer, ConnsDiffer, CallsDiffer, HonestStore, CalledOnce;
    assert b in s.conns && ConnFine(s, b);
    ConnStays(s, s', b);
  }

  lemma OtherTurn(s: System, s': System, cs: set<nat>, ts: set<nat>, t: nat)
    requires Inv(s) && Onward(s, s') && Apart(s, s', cs, ts) && Unrelated(s, s', cs, ts) && t in s'.turns && t !in ts
    ensures TurnFine(s', t)
  {
    hide ConnFine, PayloadOk, Drives, Heard, HeardAll, JobFine, CallFine, JobsDiffer, ConnsDiffer, CallsDiffer,
         HonestStore;
    assert t in s.turns && TurnFine(s, t);
    TurnStays(s, s', t);
  }

  // ---------- Every move keeps the invariant ----------

  // Who runs for whom, and the numbering of jobs, read off the invariant.
  ghost predicate Wiring(s: System) {
    && (forall b :: b in s.conns && s.conns[b].busy ==>
          s.conns[b].job.Some? && s.conns[b].job.value.turn in s.turns
          && s.turns[s.conns[b].job.value.turn].running == Some(b))
    && (forall b :: b in s.conns && s.conns[b].job.Some? ==> JobOf(s, s.conns[b].job.value))
    && (forall t :: t in s.turns && s.turns[t].running.Some? ==>
          var b := s.turns[t].running.value;
          b in s.conns && s.conns[b].busy && s.conns[b].job.Some? && s.conns[b].job.value.turn == t)
  }

  lemma InvWires(s: System)
    requires Inv(s)
    ensures Wiring(s)
  {
    hide ConnInv, JobFine, CallFine, HonestStore, PayloadOk, Drives, Heard, HeardAll, CalledOnce;
    assert forall b :: b in s.conns ==> ConnFine(s, b);
    assert forall t :: t in s.turns ==> TurnFine(s, t);
  }

  // The parts of the invariant that do not look into jobs, calls or queues.
  lemma InvParts(s: System)
    requires Inv(s)
    ensures HonestStore(s.local) && HonestStore(s.remote)
    ensures JobsDiffer(s) && ConnsDiffer(s) && CallsDiffer(s)
    ensures forall b :: b in s.conns ==> ConnFine(s, b)
    ensures forall t :: t in s.turns ==> TurnFine(s, t)
  {
    hide ConnFine, TurnFine, JobFine, CallFine, HonestStore, ConnsDiffer, JobsDiffer, CallsDiffer;
  }

  // Moves that add no job and no call.
  lemma SameLogs(s: System, s': System, cs: set<nat>, ts: set<nat>)
    requires s'.jobs == s.jobs && s'.calls == s.calls && JobsDiffer(s) && CallsDiffer(s) && ConnsDiffer(s')
    requires cs <= s'.conns.Keys && ts <= s'.turns.Keys
    requires forall b :: b in cs ==> ConnFine(s', b)
    requires forall t :: t in ts ==> TurnFine(s', t)
    ensures NewFine(s, s', cs, ts)
  {
    hide ConnFine, TurnFine, JobFine, CallFine, ConnsDiffer;
  }

  lemma OneTurnMoves(s: System, t: nat, u: Turn)
    requires Wiring(s)
    requires t in s.turns ==> s.turns[t].running.None? && Later(s.turns[t], u)
    ensures var s' := s.(turns := s.turns[t := u]);
            Apart(s, s', {}, {t}) && Unrelated(s, s', {}, {t}) && Onward(s, s')
  {
    hide JobOf;
  }

  lemma OneTurnFine(s: System, t: nat, u: Turn)
    requires Inv(s)
    requires t in s.turns ==> s.turns[t].running.None? && Later(s.turns[t], u)
    requires TurnFine(s.(turns := s.turns[t := u]), t)
    ensures Inv(s.(turns := s.turns[t := u]))
  {
    var s' := s.(turns := s.turns[t := u]);
    InvParts(s);
    InvWires(s);
    assert ConnsDiffer(s');
    hide *;
    OneTurnMoves(s, t, u);
    SameLogs(s, s', {}, {t});
    Reassemble(s, s', {}, {t});
  }

  lemma ArriveKeeps(s: System, t: nat, u: Turn)
    requires Inv(s) && t !in s.turns && PayloadOk(u.first, u.body)
    requires u == Turn(u.meta, u.body, u.first, Drive(u.first, 0), None, [], None)
    ensures Inv(s.(turns := s.turns[t := u]))
  {
    hide Inv, PayloadOk, Heard, HeardAll;
    OneTurnFine(s, t, u);
  }

  lemma DialFailsKeeps(s: System, t: nat)
    requires Inv(s) && t in s.turns && Waiting(s.turns[t])
    ensures Inv(DialFailed(s, t))
  {
    hide Inv, PayloadOk, Heard, HeardAll;
    InvParts(s);
    assert TurnFine(s, t);
    OneTurnFine(s, t, DialFailed(s, t).turns[t]);
  }

  lemma StoresChangeKeeps(s: System, local: Store, remote: Store)
    requires Inv(s) && HonestStore(local) && HonestStore(remote)
    ensures Inv(s.(local := local, remote := remote))
  {
    var s' := s.(local := local, remote := remote);
    InvParts(s);
    assert ConnsDiffer(s') && Onward(s, s') && Apart(s, s', {}, {}) && Unrelated(s, s', {}, {});
    hide *;
    SameLogs(s, s', {}, {});
    Reassemble(s, s', {}, {});
  }

  lemma OneConnMoves(s: System, cid: nat, c: Conn)
    requires Wiring(s) && cid in s.conns && c.job == s.conns[cid].job && c.busy == s.conns[cid].busy && ConnsDiffer(s)
    ensures var s' := Moved(s, cid, c);
            && Apart(s, s', {cid}, {}) && Unrelated(s, s', {cid}, {}) && Onward(s, s') && ConnsDiffer(s')
            && s'.conns.Keys == s.conns.Keys && s'.jobs == s.jobs && s'.calls == s.calls
            && s'.local == s.local && s'.remote == s.remote
  {
    hide JobOf;
  }

  lemma OneConnFine(s: System, cid: nat, c: Conn)
    requires cid in s.conns && ConnFine(s, cid)
    requires var b := s.conns[cid]; c.job == b.job && c.called == b.called && c.reply == b.reply
    requires s.conns[cid].busy == c.busy && ConnInv(c, GotOf(s, s.conns[cid]))
    ensures ConnFine(Moved(s, cid, c), cid)
  {
    hide ConnInv;
  }

  // A connection that keeps its job, its call and its worker.
  lemma MovedKeeps(s: System, cid: nat, c: Conn)
    requires Inv(s) && cid in s.conns
    requires var b := s.conns[cid]; c.job == b.job && c.called == b.called && c.reply == b.reply
    requires s.conns[cid].busy == c.busy && ConnInv(c, GotOf(s, s.conns[cid]))
    ensures Inv(Moved(s, cid, c))
  {
    hide *;
    InvParts(s);
    InvWires(s);
    assert ConnFine(s, cid);
    OneConnMoves(s, cid, c);
    OneConnFine(s, cid, c);
    SameLogs(s, Moved(s, cid, c), {cid}, {});
    Reassemble(s, Moved(s, cid, c), {cid}, {});
  }

  lemma LinkBreaksKeeps(s: System, cid: nat, k: nat)
    requires Inv(s) && cid in s.conns && k <= |s.conns[cid].down|
    ensures Inv(Moved(s, cid, Cut(s.conns[cid], k)))
  {
    hide ConnInv;
    assert ConnFine(s, cid);
    CutKeeps(s.conns[cid], GotOf(s, s.conns[cid]), k);
    MovedKeeps(s, cid, Cut(s.conns[cid], k));
  }

  lemma PoolKeeps(s: System, cid: nat)
    requires Inv(s) && Pooled(s, cid)
    ensures Inv(Moved(s, cid, Dropped(s.conns[cid]))) && Inv(Moved(s, cid, ResetSent(s.conns[cid])))
  {
    hide ConnInv;
    assert ConnFine(s, cid);
    DropKeeps(s.conns[cid], []);
    ResetKeeps(s.conns[cid], []);
    MovedKeeps(s, cid, Dropped(s.conns[cid]));
    MovedKeeps(s, cid, ResetSent(s.conns[cid]));
  }

  // ---------- The peer reads ----------

  lemma StoreStaysHonest(before: Store, o: RemoteOutcome, after: Store)
    requires HonestStore(before) && StoredAfter(before, o, after) && (o.offered.Some? ==> Honest(o.offered.value))
    ensures HonestStore(after)
  {
    hide Honest, Verifies;
  }

  function WithCall(s: System, cid: nat, c: Conn, l: Logged): System {
    s.(conns := s.conns[cid := c], calls := s.calls + [l])
  }

  lemma CallMoves(s: System, cid: nat, c: Conn, l: Logged)
    requires Wiring(s) && cid in s.conns && c.job == s.conns[cid].job && c.busy == s.conns[cid].busy && ConnsDiffer(s)
    requires c.job.Some? && l.job == c.job.value.id
    ensures var s' := WithCall(s, cid, c, l);
            Apart(s, s', {cid}, {}) && Unrelated(s, s', {cid}, {}) && Onward(s, s') && ConnsDiffer(s')
  {
    hide JobOf;
  }

  lemma CallDiffers(s: System, cid: nat, c: Conn, l: Logged)
    requires JobsDiffer(s) && CallsDiffer(s) && cid in s.conns && ConnFine(s, cid)
    requires !s.conns[cid].called && s.conns[cid].job.Some? && l.job == s.conns[cid].job.value.id
    ensures JobsDiffer(WithCall(s, cid, c, l)) && CallsDiffer(WithCall(s, cid, c, l))
  {
    hide ConnInv;
  }

  lemma CallIsFine(s: System, cid: nat, c: Conn, l: Logged)
    requires cid in s.conns && ConnFine(s, cid) && s.conns[cid].job.Some?
    requires c.job == s.conns[cid].job && c.busy == s.conns[cid].busy && c.called && c.reply == l.reply
    requires ConnInv(c, GotOf(s, s.conns[cid]))
    requires l.job == c.job.value.id && l.call == Call(c.job.value.head, c.job.value.body)
    ensures var s' := WithCall(s, cid, c, l); ConnFine(s', cid) && CallFine(s', |s.calls|)
  {
    hide ConnInv;
    var s' := WithCall(s, cid, c, l);
    assert s'.calls[|s.calls|] == l;
  }

  lemma CallLogs(s: System, cid: nat, c: Conn, l: Logged)
    requires var s' := WithCall(s, cid, c, l);
             && ConnFine(s', cid) && CallFine(s', |s.calls|)
             && JobsDiffer(s') && CallsDiffer(s') && ConnsDiffer(s')
    ensures NewFine(s, WithCall(s, cid, c, l), {cid}, {})
    ensures WithCall(s, cid, c, l).local == s.local && WithCall(s, cid, c, l).remote == s.remote
  {
    hide ConnFine, CallFine, JobsDiffer, CallsDiffer, ConnsDiffer;
  }

  lemma CallKeeps(s: System, cid: nat, c: Conn, l: Logged)
    requires Inv(s) && cid in s.conns && !s.conns[cid].called && s.conns[cid].job.Some?
    requires c.job == s.conns[cid].job && c.busy == s.conns[cid].busy && c.called && c.reply == l.reply
    requires ConnInv(c, GotOf(s, s.conns[cid]))
    requires l.job == c.job.value.id && l.call == Call(c.job.value.head, c.job.value.body)
    ensures Inv(WithCall(s, cid, c, l))
  {
    hide *;
    InvParts(s);
    InvWires(s);
    assert ConnFine(s, cid);
    CallMoves(s, cid, c, l);
    CallDiffers(s, cid, c, l);
    CallIsFine(s, cid, c, l);
    CallLogs(s, cid, c, l);
    Reassemble(s, WithCall(s, cid, c, l), {cid}, {});
  }

  lemma PeerReadsKeeps(s: System, cid: nat, w: World, after: Store)
    requires Inv(s) && cid in s.conns && s.conns[cid].up != [] && HonestSource(w.eyes.src)
    requires StoredAfter(s.remote, RemoteDoes(s.conns[cid], w), after)
    ensures Inv(PeerRead(s, cid, w, after))
  {
    hide ConnInv, Inv, JobFine, CallFine, HonestStore, TurnFine, StoredAfter, RemoteStep, Honest, HonestSource;
    InvParts(s);
    var c := s.conns[cid];
    assert ConnFine(s, cid);
    var o := RemoteDoes(c, w);
    RemoteKeeps(c, GotOf(s, c), w);
    StoreStaysHonest(s.remote, o, after);
    if o.call.Some? {
      var l := Logged(c.job.value.id, o.call.value, w.upstream);
      SameWorker(c, w);
      CallKeeps(s, cid, RemoteReads(c, w), l);
      var s1 := WithCall(s, cid, RemoteReads(c, w), l);
      StoresChangeKeeps(s1, s.local, after);
      assert PeerRead(s, cid, w, after) == s1.(local := s.local, remote := after);
    } else {
      SameWorker(c, w);
      MovedKeeps(s, cid, RemoteReads(c, w));
      var s1 := Moved(s, cid, RemoteReads(c, w));
      StoresChangeKeeps(s1, s.local, after);
      assert PeerRead(s, cid, w, after) == s1.(local := s.local, remote := after);
    }
  }

  lemma SameWorker(c: Conn, w: World)
    requires c.up != []
    ensures var c' := RemoteReads(c, w);
            && c'.job == c.job && c'.busy == c.busy && c'.lost == c.lost && c'.local == c.local
            && (RemoteDoes(c, w).call.Some? ==> c'.called && c'.reply == w.upstream)
            && (RemoteDoes(c, w).call.None? ==> c'.called == c.called && c'.reply == c.reply)
  {
    hide RemoteStep;
  }

  // ---------- The sender reads, or fails ----------

  function Settled(s: System, cid: nat, c: Conn, t: nat, u: Turn): System {
    s.(conns := s.conns[cid := c], turns := s.turns[t := u])
  }

  lemma SettleMoves(s: System, cid: nat, c: Conn, t: nat, u: Turn)
    requires Wiring(s) && Busy(s, cid) && t == s.conns[cid].job.value.turn && c.job == s.conns[cid].job
    requires ConnsDiffer(s) && Later(s.turns[t], u)
    ensures var s' := Settled(s, cid, c, t, u);
            && Apart(s, s', {cid}, {t}) && Unrelated(s, s', {cid}, {t}) && Onward(s, s') && ConnsDiffer(s')
            && cid in s'.conns && t in s'.turns && s'.jobs == s.jobs && s'.calls == s.calls
            && s'.local == s.local && s'.remote == s.remote
  {
    hide JobOf;
  }

  lemma SettleKeeps(s: System, cid: nat, c: Conn, t: nat, u: Turn)
    requires Inv(s) && Busy(s, cid) && t == s.conns[cid].job.value.turn && c.job == s.conns[cid].job
    requires Later(s.turns[t], u)
    requires var s' := Settled(s, cid, c, t, u); ConnFine(s', cid) && TurnFine(s', t)
    ensures Inv(Settled(s, cid, c, t, u))
  {
    hide *;
    InvParts(s);
    InvWires(s);
    var s' := Settled(s, cid, c, t, u);
    SettleMoves(s, cid, c, t, u);
    SameLogs(s, s', {cid}, {t});
    Reassemble(s, s', {cid}, {t});
  }

  // The connection after the sender moved on it, at work or not.
  lemma SettledConn(s: System, cid: nat, c: Conn, t: nat, u: Turn)
    requires cid in s.conns && ConnFine(s, cid) && s.conns[cid].busy && t == s.conns[cid].job.value.turn
    requires c.job == s.conns[cid].job && c.called == s.conns[cid].called && c.reply == s.conns[cid].reply
    requires ConnInv(c, u.got)
    requires c.busy ==> u.running == Some(cid) && u.drive == s.turns[t].drive
    ensures ConnFine(Settled(s, cid, c, t, u), cid)
  {
    hide ConnInv;
    if !c.busy {
      OffDuty(c, u.got, []);
    }
  }

  // What an agent has got of a reply, it got of its own call's.
  lemma GotIsHeard(s: System, cid: nat, c: Conn, t: nat, got: seq<AgentEvent>)
    requires cid in s.conns && ConnFine(s, cid) && s.conns[cid].busy && t == s.conns[cid].job.value.turn
    requires c.reply == s.conns[cid].reply && c.reply.Some? && got <= ReplyEvents(c.reply.value)
    ensures exists k: nat :: Heard(s, k, t, got)
    ensures c.reply.value.complete && got == ReplyEvents(c.reply.value) ==> exists k: nat :: HeardAll(s, k, t, got)
  {
    hide ConnInv, ReplyEvents;
    var j := s.conns[cid].job.value;
    var k: nat :| k < |s.calls| && s.calls[k].job == j.id && s.calls[k].reply == c.reply;
    assert Heard(s, k, t, got);
    if c.reply.value.complete && got == ReplyEvents(c.reply.value) {
      assert HeardAll(s, k, t, got);
    }
  }

  // A turn still at work after the sender read a frame.
  lemma WorkingTurn(s: System, cid: nat, c: Conn, t: nat, u: Turn)
    requires t in s.turns && TurnFine(s, t) && s.turns[t].running == Some(cid) && u == s.turns[t].(got := u.got)
    requires c.busy && c.job == s.conns[cid].job
    requires u.got != [] ==> exists k: nat :: Heard(s, k, t, u.got)
    ensures TurnFine(Settled(s, cid, c, t, u), t)
  {
    hide PayloadOk, Heard, HeardAll;
    var s' := Settled(s, cid, c, t, u);
    HeardSame(s, s', t, u.got);
  }

  lemma HeardSame(s: System, s': System, t: nat, got: seq<AgentEvent>)
    requires s'.jobs == s.jobs && s'.calls == s.calls
    ensures (exists k: nat :: Heard(s, k, t, got)) ==> exists k: nat :: Heard(s', k, t, got)
    ensures (exists k: nat :: HeardAll(s, k, t, got)) ==> exists k: nat :: HeardAll(s', k, t, got)
  {
    if k: nat :| Heard(s, k, t, got) {
      assert Heard(s', k, t, got);
    }
    if k: nat :| HeardAll(s, k, t, got) {
      assert HeardAll(s', k, t, got);
    }
  }

  // A turn whose attempt is over: done, or waiting to send the body whole.
  lemma EndedTurn(s: System, cid: nat, c: Conn, t: nat, r: Result<(), SessionError>, got: seq<AgentEvent>,
                  headSent: bool)
    requires t in s.turns && TurnFine(s, t) && s.turns[t].running == Some(cid)
    requires got != [] ==> exists k: nat :: Heard(s, k, t, got)
    requires r.Ok? ==> exists k: nat :: HeardAll(s, k, t, got)
    requires r.Err? ==> (headSent <==> got != [])
    ensures TurnFine(Settled(s, cid, c, t, Ended(s.turns[t].(got := got), r, headSent)), t)
  {
    hide PayloadOk, Heard, HeardAll;
    HeardSame(s, Settled(s, cid, c, t, Ended(s.turns[t].(got := got), r, headSent)), t, got);
  }

  lemma SenderReadsKeeps(s: System, cid: nat, src: Resolve.Source, there: bool)
    requires Inv(s) && Busy(s, cid) && s.conns[cid].down != [] && HonestSource(src)
    ensures Inv(SenderRead(s, cid, src, there))
  {
    hide ConnInv, Inv, JobFine, CallFine, HonestStore, TurnFine, LocalStep, HonestSource, GotAfter, ReplyEvents;
    InvParts(s);
    InvWires(s);
    var c := s.conns[cid];
    var t := c.job.value.turn;
    var u := s.turns[t];
    assert ConnFine(s, cid) && TurnFine(s, t);
    var o, c', got := LocalDoes(c, src, there), LocalReads(c, src, there), GotAfter(c, u.got, there);
    LocalKeeps(c, u.got, src, there);
    var u' := AfterRead(u, got, o);
    if o.result.None? {
      GotBelongs(c', got);
      if got != [] {
        GotIsHeard(s, cid, c', t, got);
      }
      SettledConn(s, cid, c', t, u');
      WorkingTurn(s, cid, c', t, u');
    } else {
      if o.result.value.Ok? {
        GotIsHeard(s, cid, c', t, got);
      } else {
        FailureLeavesGot(c, u.got, src, there);
        GotBelongs(c, u.got);
        if got != [] {
          GotIsHeard(s, cid, c', t, got);
        }
      }
      SettledConn(s, cid, c', t, u');
      EndedTurn(s, cid, c', t, o.result.value, got, o.local.headSent);
    }
    SettleKeeps(s, cid, c', t, u');
  }

  lemma SenderFailsKeeps(s: System, cid: nat, e: SessionError)
    requires Inv(s) && Busy(s, cid)
    ensures Inv(SenderFailed(s, cid, e))
  {
    hide ConnInv, Inv, JobFine, CallFine, HonestStore, TurnFine, ReplyEvents;
    InvParts(s);
    InvWires(s);
    var c := s.conns[cid];
    var t := c.job.value.turn;
    var u := s.turns[t];
    assert ConnFine(s, cid) && TurnFine(s, t);
    DropKeeps(c, u.got);
    GotBelongs(c, u.got);
    if u.got != [] {
      GotIsHeard(s, cid, c, t, u.got);
    }
    var u' := Ended(u, Err(e), c.local.headSent);
    assert u.(got := u.got) == u;
    SettledConn(s, cid, Dropped(c), t, u');
    EndedTurn(s, cid, Dropped(c), t, Err(e), u.got, c.local.headSent);
    SettleKeeps(s, cid, Dropped(c), t, u');
  }

  // ---------- An attempt starts ----------

  // Any split the splitter hands over, and any whole body, makes an honest job.
  lemma NextJobOk(s: System, t: nat)
    requires t in s.turns && PayloadOk(s.turns[t].first, s.turns[t].body)
    requires s.turns[t].drive.payload == s.turns[t].first || s.turns[t].drive.payload.WholePayload?
    ensures JobOk(NextJob(s, t))
  {
    var u := s.turns[t];
    if u.drive.payload.SplitPayload? {
      var claimed :| Splitter.GoodSplit(u.body, u.drive.payload.out, claimed);
    }
  }

  lemma StartMoves(s: System, t: nat, cid: nat, greeting: Greeting)
    requires Wiring(s) && t in s.turns && Waiting(s.turns[t]) && |s.turns[t].body| < ALLOC_LIMIT
    requires cid !in s.conns || Pooled(s, cid)
    requires ConnsDiffer(s)
    ensures var s' := StartApplied(s, t, cid, greeting);
            && Apart(s, s', {cid}, {t}) && Unrelated(s, s', {cid}, {t}) && Onward(s, s') && ConnsDiffer(s')
            && cid in s'.conns && t in s'.turns && s'.calls == s.calls
            && s'.local == s.local && s'.remote == s.remote
  {
    hide HeadFor, Upload;
  }

  lemma StartedConn(s: System, t: nat, cid: nat, greeting: Greeting)
    requires t in s.turns && Waiting(s.turns[t]) && |s.turns[t].body| < ALLOC_LIMIT && s.turns[t].got == []
    requires cid !in s.conns || (Pooled(s, cid) && ConnFine(s, cid))
    requires JobOk(NextJob(s, t))
    requires forall k :: 0 <= k < |s.calls| ==> s.calls[k].job < |s.jobs|
    ensures ConnFine(StartApplied(s, t, cid, greeting), cid)
  {
    hide ConnInv, JobOk, HeadFor, Upload;
    NewKeeps();
    StartKeeps(ConnAt(s, cid), NextJob(s, t), greeting);
  }

  lemma StartedTurn(s: System, t: nat, cid: nat, greeting: Greeting)
    requires t in s.turns && Waiting(s.turns[t]) && |s.turns[t].body| < ALLOC_LIMIT && TurnFine(s, t)
    ensures TurnFine(StartApplied(s, t, cid, greeting), t)
  {
    hide PayloadOk, Heard, HeardAll, HeadFor, Upload;
  }

  lemma StartedJob(s: System, t: nat, cid: nat, greeting: Greeting)
    requires t in s.turns && Waiting(s.turns[t]) && |s.turns[t].body| < ALLOC_LIMIT && Drives(s.turns[t])
    requires JobOk(NextJob(s, t)) && JobsDiffer(s)
    requires forall i: nat :: i < |s.jobs| ==> JobFine(s, i)
    ensures var s' := StartApplied(s, t, cid, greeting); JobFine(s', |s.jobs|) && JobsDiffer(s')
  {
    hide JobOk, HeadFor, Upload;
    var s' := StartApplied(s, t, cid, greeting);
    assert s'.jobs[|s.jobs|] == NextJob(s, t);
    forall i: nat | i < |s.jobs| && s.jobs[i].turn == t ensures s.jobs[i].attempt <= s.turns[t].drive.attempts {
      assert JobFine(s, i);
    }
  }

  lemma StartedFine(s: System, s': System, cid: nat, t: nat)
    requires cid in s'.conns && t in s'.turns && ConnFine(s', cid) && TurnFine(s', t)
    requires |s'.jobs| == |s.jobs| + 1 && JobFine(s', |s.jobs|) && s'.calls == s.calls
    requires JobsDiffer(s') && ConnsDiffer(s') && CallsDiffer(s)
    ensures NewFine(s, s', {cid}, {t})
  {
    hide ConnFine, TurnFine, JobFine, CallFine, JobsDiffer, ConnsDiffer;
  }

  lemma LogParts(s: System)
    requires Inv(s)
    ensures forall i: nat :: i < |s.jobs| ==> JobFine(s, i)
    ensures forall k :: 0 <= k < |s.calls| ==> s.calls[k].job < |s.jobs|
  {
    hide ConnFine, TurnFine, JobFine, HonestStore, ConnsDiffer, JobsDiffer, CallsDiffer;
    forall k | 0 <= k < |s.calls| ensures s.calls[k].job < |s.jobs| {
      assert CallFine(s, k);
    }
  }

  lemma TurnParts(s: System, t: nat)
    requires t in s.turns && TurnFine(s, t)
    ensures PayloadOk(s.turns[t].first, s.turns[t].body) && Drives(s.turns[t])
    ensures Waiting(s.turns[t]) ==> s.turns[t].got == []
    ensures Waiting(s.turns[t]) ==>
              s.turns[t].drive.payload == s.turns[t].first || s.turns[t].drive.payload.WholePayload?
  {
    hide PayloadOk, Heard, HeardAll;
  }

  lemma StartGrows(s: System, t: nat, cid: nat, greeting: Greeting)
    requires t in s.turns && |s.turns[t].body| < ALLOC_LIMIT
    ensures |StartApplied(s, t, cid, greeting).jobs| == |s.jobs| + 1
  {
  }

  lemma StartApplies(s: System, t: nat, cid: nat, greeting: Greeting)
    requires Inv(s) && t in s.turns && Waiting(s.turns[t]) && |s.turns[t].body| < ALLOC_LIMIT
    requires cid !in s.conns || Pooled(s, cid)
    ensures Inv(StartApplied(s, t, cid, greeting))
  {
    hide *;
    InvParts(s);
    InvWires(s);
    LogParts(s);
    assert TurnFine(s, t);
    TurnParts(s, t);
    assert cid in s.conns ==> ConnFine(s, cid);
    NextJobOk(s, t);
    StartMoves(s, t, cid, greeting);
    StartedConn(s, t, cid, greeting);
    StartedTurn(s, t, cid, greeting);
    StartedJob(s, t, cid, greeting);
    StartGrows(s, t, cid, greeting);
    StartedFine(s, StartApplied(s, t, cid, greeting), cid, t);
    Reassemble(s, StartApplied(s, t, cid, greeting), {cid}, {t});
  }

  // ---------- Whole runs ----------

  lemma StoresStayHonest(s: System, local: Store, remote: Store)
    requires HonestStore(s.local) && HonestStore(s.remote)
    requires forall d :: d in local ==>
               (d in s.local && local[d] == s.local[d]) || (local[d].digest == d && Honest(local[d]))
    requires forall d :: d in remote ==> d in s.remote && remote[d] == s.remote[d]
    ensures HonestStore(local) && HonestStore(remote)
  {
    hide Honest;
  }

  lemma MoveKeeps(s: System, m: Move)
    requires Inv(s) && Enabled(s, m)
    ensures Inv(Applied(s, m))
  {
    hide Inv, PayloadOk, ConnFine, StoredAfter, HonestSource, Honest, HonestStore;
    match m {
      case Arrive(t, meta, body, payload) =>
        ArriveKeeps(s, t, Turn(meta, body, payload, Drive(payload, 0), None, [], None));
      case Start(t, cid, greeting) => StartApplies(s, t, cid, greeting);
      case DialFails(t) => DialFailsKeeps(s, t);
      case PeerReads(cid, w, after) => PeerReadsKeeps(s, cid, w, after);
      case SenderReads(cid, src, there) => SenderReadsKeeps(s, cid, src, there);
      case SenderFails(cid, e) => SenderFailsKeeps(s, cid, e);
      case LinkBreaks(cid, k) => LinkBreaksKeeps(s, cid, k);
      case PoolDrops(cid) => PoolKeeps(s, cid);
      case PoolResets(cid) => PoolKeeps(s, cid);
      case StoresChange(local, remote) =>
        InvParts(s);
        StoresStayHonest(s, local, remote);
        StoresChangeKeeps(s, local, remote);
    }
  }

  // Every state of every run satisfies the invariant.
  lemma {:induction false} RunsAreSafe(ss: seq<System>, ms: seq<Move>, n: nat)
    requires Run(ss, ms) && n < |ss|
    ensures Inv(ss[n])
  {
    hide Inv, Enabled, Applied;
    if n == 0 {
      InitHolds();
    } else {
      RunsAreSafe(ss, ms, n - 1);
      MoveKeeps(ss[n - 1], ms[n - 1]);
    }
  }

  // ---------- What that says ----------

  // Every call upstream carries the head and the exact bytes of the agent's
  // request it was made for, each attempt makes at most one, and a turn that
  // makes two made the second with the body sent whole.
  lemma EveryCallIsExact(ss: seq<System>, ms: seq<Move>, n: nat, k: nat)
    requires Run(ss, ms) && n < |ss| && k < |ss[n].calls|
    ensures var s, l := ss[n], ss[n].calls[k];
            && l.job < |s.jobs|
            && var j := s.jobs[l.job];
            && j.turn in s.turns && |s.turns[j.turn].body| < ALLOC_LIMIT
            && l.call.body == s.turns[j.turn].body
            && l.call.head == HeadFor(s.turns[j.turn].meta, s.turns[j.turn].body, j.payload)
            && (j.attempt == 1 || (j.attempt == 2 && j.payload.WholePayload?))
            && forall i :: 0 <= i < |s.calls| && i != k ==>
                 s.calls[i].job != l.job
                 && (CallFor(s, i, j.turn) ==> s.jobs[s.calls[i].job].attempt != j.attempt)
  {
    hide Run, ConnFine, TurnFine, HonestStore, JobOk, HeadFor;
    RunsAreSafe(ss, ms, n);
    var s := ss[n];
    assert CallFine(s, k);
    var j := s.calls[k].job;
    assert JobFine(s, j);
    forall i | 0 <= i < |s.calls| && i != k
      ensures s.calls[i].job != j
              && (CallFor(s, i, s.jobs[j].turn) ==> s.jobs[s.calls[i].job].attempt != s.jobs[j].attempt)
    {
      assert CallFine(s, i);
      CallsAreDistinct(s, i, k);
    }
  }

  lemma CallsAreDistinct(s: System, i: nat, k: nat)
    requires CallsDiffer(s) && JobsDiffer(s) && i < |s.calls| && k < |s.calls| && i != k
    requires s.calls[i].job < |s.jobs| && s.calls[k].job < |s.jobs|
    ensures var a, b := s.calls[i].job, s.calls[k].job;
            a != b && (s.jobs[a].turn == s.jobs[b].turn ==> s.jobs[a].attempt != s.jobs[b].attempt)
  {
    var lo, hi := if i < k then i else k, if i < k then k else i;
    assert s.calls[lo].job != s.calls[hi].job;
  }

  // Whatever an agent has got is the start of one single reply, to a call made
  // for its own turn; a turn that succeeded got all of one complete reply; no
  // turn takes more than two attempts, and a second is made only for a split
  // body, always whole, and with nothing yet delivered.
  lemma EveryAgentHearsOneReply(ss: seq<System>, ms: seq<Move>, n: nat, t: nat)
    requires Run(ss, ms) && n < |ss| && t in ss[n].turns
    ensures var s, u := ss[n], ss[n].turns[t];
            && (u.got != [] ==> exists k: nat :: Heard(s, k, t, u.got))
            && (u.done.Some? && u.done.value.Ok? ==> exists k: nat :: HeardAll(s, k, t, u.got))
            && u.drive.attempts <= 2
            && (u.drive.attempts == 2 ==> u.first.SplitPayload? && u.drive.payload.WholePayload?)
            && (Waiting(u) ==> u.got == [])
  {
    hide Run, ConnFine, JobFine, CallFine, HonestStore, PayloadOk, Heard, HeardAll;
    RunsAreSafe(ss, ms, n);
    assert TurnFine(ss[n], t);
  }

  // On every connection a sender is working on: no end ever reports a
  // mismatch, a whole body is never asked about, at most one Need is on its
  // way, and the peer is ahead by exactly that one round, within the bound.
  lemma EveryLinkInStep(ss: seq<System>, ms: seq<Move>, n: nat, cid: nat)
    requires Run(ss, ms) && n < |ss| && cid in ss[n].conns && ss[n].conns[cid].busy
    ensures var c := ss[n].conns[cid];
            && c.job.Some? && NoMismatch(c, c.job.value)
            && (forall i :: 0 <= i < |c.down| && c.down[i].Need? ==> i == |c.down| - 1)
            && (Waits(c) ==> c.local.repairs < MAX_REPAIRS)
            && (c.remote.open && !c.called ==> Rounds(c.remote) == c.local.repairs + if Waits(c) then 1 else 0)
            && Rounds(c.remote) <= MAX_REPAIRS
  {
    hide Run, TurnFine, JobFine, CallFine, HonestStore, JobOk, RemoteSide, OneReply, EndsLast, NoMismatch;
    RunsAreSafe(ss, ms, n);
    assert ConnFine(ss[n], cid);
  }

  // Every block either store ever holds is honest.
  lemma EveryBlockIsHonest(ss: seq<System>, ms: seq<Move>, n: nat)
    requires Run(ss, ms) && n < |ss|
    ensures HonestStore(ss[n].local) && HonestStore(ss[n].remote)
  {
    hide Run, Inv, HonestStore;
    RunsAreSafe(ss, ms, n);
    InvParts(ss[n]);
  }
}

// One connection with an end on each side and a queue of frames each way: what
// every step on it keeps, whoever moves and whatever the stores hold.

module Link {
  import opened Results
  import opened Blocks
  import opened Session
  import Blooms
  import Resolve

  // One attempt at one turn: what the sender set out to deliver.
  datatype Job = Job(id: nat, turn: nat, attempt: nat, head: RequestHead, body: Bytes, payload: Payload)

  // `lost` connections are never read or reused by the sender; `called` and
  // `reply` remember whether the current job went upstream, and the answer.
  datatype Conn = Conn(local: Local, job: Option<Job>, busy: bool, lost: bool, up: seq<UpFrame>,
                       down: seq<DownFrame>, remote: Remote, called: bool, reply: Option<Reply>)

  const NEW_CONN := Conn(Local(0, 0, false), None, false, false, [], [], FRESH, false, None)

  // ---------- The moves on a connection ----------

  function Started(c: Conn, job: Job, greeting: Greeting): Conn {
    c.(local := Local(c.local.requests + 1, 0, false), job := Some(job), busy := true, called := false, reply := None,
       up := c.up + Upload(c.local.requests == 0, greeting, job.head, job.payload, job.body))
  }

  function RemoteDoes(c: Conn, w: World): RemoteOutcome
    requires c.up != []
  {
    RemoteStep(c.remote, c.up[0], w)
  }

  function RemoteReads(c: Conn, w: World): Conn
    requires c.up != []
  {
    var o := RemoteDoes(c, w);
    c.(remote := o.remote, up := c.up[1..], down := c.down + o.sent,
       called := c.called || o.call.Some?, reply := if o.call.Some? then w.upstream else c.reply)
  }

  function LocalDoes(c: Conn, src: Resolve.Source, there: bool): LocalOutcome
    requires c.down != []
  {
    LocalStep(c.local, c.down[0], src, there)
  }

  function LocalReads(c: Conn, src: Resolve.Source, there: bool): Conn
    requires c.down != []
  {
    var o := LocalDoes(c, src, there);
    c.(local := o.local, down := c.down[1..], up := c.up + o.sent,
       busy := o.result.None?, lost := o.result.Some? && o.result.value.Err?)
  }

  // The sender gives the connection up.
  function Dropped(c: Conn): Conn { c.(busy := false, lost := true) }

  // The link breaks; what was on its way down may still arrive in part.
  function Cut(c: Conn, k: nat): Conn
    requires k <= |c.down|
  {
    c.(remote := c.remote.(open := false), down := c.down[..k])
  }

  function ResetSent(c: Conn): Conn { c.(up := c.up + [UpFrame.Reset]) }

  // ---------- The upload, from where the peer is ----------

  ghost predicate JobOk(job: Job) {
    && |job.body| < ALLOC_LIMIT
    && job.head == HeadFor(job.head.meta, job.body, job.payload)
    && (job.payload.SplitPayload? ==>
          Denotes(job.payload.out.instrs, job.body) && forall b :: b in job.payload.out.toPush ==> Honest(b))
  }

  function Absorb(r: Remote, f: UpFrame): Remote {
    match f
    case Hello(_) => r.(greeted := true)
    case Head(h) => r.(head := Some(h))
    case Program(p) => r.(instrs := p)
    case RequestBody(data) => r.(literal := r.literal + data)
    case _ => r
  }

  // The peer holds exactly what it takes to rebuild the job's body.
  ghost predicate ReadyFor(r: Remote, job: Job) {
    && r.head == Some(job.head)
    && match job.payload
       case SplitPayload(out) => r.instrs == out.instrs && r.literal == []
       case WholePayload => r.instrs == [] && r.literal == job.body
  }

  // Reading `up` to its one and final end of body makes the peer ready.
  ghost predicate Leads(r: Remote, up: seq<UpFrame>, job: Job)
    decreases |up|
  {
    && up != []
    && if |up| == 1 then up[0].EndOfBody? && ReadyFor(r, job)
       else
         && !up[0].EndOfBody?
         && (up[0].BlockFrame? ==> Honest(up[0].block))
         && (r.repairs.Some? ==> up[0].BlockFrame?)
         && Leads(Absorb(r, up[0]), up[1..], job)
  }

  predicate AtRest(r: Remote) {
    r.head.None? && r.instrs == [] && r.literal == [] && r.repairs.None?
  }

  ghost predicate OnlyResets(up: seq<UpFrame>) {
    forall f :: f in up ==> f.Reset?
  }

  lemma {:induction false} BlocksLead(r: Remote, bs: seq<Block>, job: Job)
    requires ReadyFor(r, job) && forall b :: b in bs ==> Honest(b)
    ensures Leads(r, BlockFrames(bs) + [EndOfBody], job)
  {
    var up := BlockFrames(bs) + [EndOfBody];
    if bs != [] {
      BlocksLead(r, bs[1..], job);
      assert up[0] == BlockFrame(bs[0]) && up[1..] == BlockFrames(bs[1..]) + [EndOfBody];
    }
  }

  function Joined(cs: seq<Bytes>): Bytes {
    if cs == [] then [] else cs[0] + Joined(cs[1..])
  }

  lemma JoinedCons(x: Bytes, cs: seq<Bytes>)
    ensures Joined([x] + cs) == x + Joined(cs)
  {
    assert ([x] + cs)[1..] == cs;
  }

  lemma {:induction false} ChunkedJoins(body: Bytes, n: nat)
    requires n > 0
    ensures Joined(Chunked(body, n)) == body
    decreases |body|
  {
    hide Joined;
    if body == [] {
      NothingJoins();
    } else if |body| <= n {
      NothingJoins();
      JoinedCons(body, []);
      assert [body] + [] == [body];
    } else {
      ChunkedJoins(body[n..], n);
      JoinedCons(body[..n], Chunked(body[n..], n));
      assert body[..n] + body[n..] == body;
    }
  }

  lemma NothingJoins()
    ensures Joined([]) == []
  {
  }

  lemma {:induction false} ChunksLead(r: Remote, cs: seq<Bytes>, job: Job)
    requires r.head == Some(job.head) && job.payload.WholePayload? && r.instrs == [] && r.repairs.None?
    requires r.literal + Joined(cs) == job.body
    ensures Leads(r, BodyFrames(cs) + [EndOfBody], job)
    decreases |cs|
  {
    var up := BodyFrames(cs) + [EndOfBody];
    if cs != [] {
      var r' := r.(literal := r.literal + cs[0]);
      assert r'.literal + Joined(cs[1..]) == r.literal + Joined(cs);
      ChunksLead(r', cs[1..], job);
      assert up[0] == RequestBody(cs[0]) && up[1..] == BodyFrames(cs[1..]) + [EndOfBody];
    }
  }

  lemma LeadsBy(r: Remote, f: UpFrame, rest: seq<UpFrame>, job: Job)
    requires !f.EndOfBody? && !f.BlockFrame? && r.repairs.None? && Leads(Absorb(r, f), rest, job)
    ensures Leads(r, [f] + rest, job)
  {
    assert ([f] + rest)[1..] == rest;
  }

  // From a peer at rest, an upload of an honest job leads where it should.
  lemma UploadLeads(r: Remote, first: bool, greeting: Greeting, job: Job)
    requires JobOk(job) && AtRest(r)
    ensures Leads(r, Upload(first, greeting, job.head, job.payload, job.body), job)
  {
    hide Leads, JobOk;
    var g := if first then r.(greeted := true) else r;
    var h := g.(head := Some(job.head));
    var tail := PayloadFrames(job.payload, job.body) + [EndOfBody];
    assert Leads(h, tail, job) by { PayloadLeads(h, job); }
    LeadsBy(g, Head(job.head), tail, job);
    var up := [Head(job.head)] + tail;
    if first {
      LeadsBy(r, Hello(greeting), up, job);
      assert [Hello(greeting)] + up == Upload(first, greeting, job.head, job.payload, job.body);
    } else {
      assert up == Upload(first, greeting, job.head, job.payload, job.body);
    }
  }

  lemma PayloadLeads(h: Remote, job: Job)
    requires JobOk(job) && h.head == Some(job.head) && h.instrs == [] && h.literal == [] && h.repairs.None?
    ensures Leads(h, PayloadFrames(job.payload, job.body) + [EndOfBody], job)
  {
    hide Leads;
    match job.payload {
      case SplitPayload(out) =>
        BlocksLead(h.(instrs := out.instrs), out.toPush, job);
        LeadsBy(h, Program(out.instrs), BlockFrames(out.toPush) + [EndOfBody], job);
        assert [Program(out.instrs)] + (BlockFrames(out.toPush) + [EndOfBody])
            == PayloadFrames(job.payload, job.body) + [EndOfBody];
      case WholePayload =>
        ChunkedJoins(job.body, RELAY_CHUNK);
        ChunksLead(h, Chunked(job.body, RELAY_CHUNK), job);
    }
  }

  // Resets still queued in front of an upload change nothing about it.
  lemma {:induction false} ResetsLead(r: Remote, resets: seq<UpFrame>, up: seq<UpFrame>, job: Job)
    requires OnlyResets(resets) && r.repairs.None? && Leads(r, up, job)
    ensures Leads(r, resets + up, job)
    decreases |resets|
  {
    if resets == [] {
      assert resets + up == up;
    } else {
      assert resets[0] in resets;
      ResetsLead(r, resets[1..], up, job);
      LeadsBy(r, resets[0], resets[1..] + up, job);
      assert [resets[0]] + (resets[1..] + up) == resets + up;
    }
  }

  lemma {:induction false} HeldHonest(src: Resolve.Source, n: nat, ds: seq<Digest>)
    requires HonestSource(src)
    ensures forall b :: b in Held(src, n, ds) ==> Honest(b)
    decreases |ds|
  {
    if ds != [] {
      HeldHonest(src, n + 1, ds[1..]);
    }
  }

  // ---------- What the agent is given ----------

  function EventsOf(down: seq<DownFrame>): seq<AgentEvent> {
    if down == [] then []
    else
      (match down[0]
       case ResponseHead(status) => [AgentHead(status)]
       case ResponseBody(chunk) => [AgentChunk(chunk)]
       case _ => []) + EventsOf(down[1..])
  }

  function ReplyEvents(reply: Reply): seq<AgentEvent> {
    EventsOf([ResponseHead(reply.status)] + ChunkFrames(reply.chunks))
  }

  // The head and every chunk, in order.
  lemma ReplyEventsAre(reply: Reply)
    ensures |ReplyEvents(reply)| == 1 + |reply.chunks| && ReplyEvents(reply)[0] == AgentHead(reply.status)
    ensures forall k :: 0 <= k < |reply.chunks| ==> ReplyEvents(reply)[k + 1] == AgentChunk(reply.chunks[k])
  {
    ChunkEvents(reply.chunks);
    var down := [ResponseHead(reply.status)] + ChunkFrames(reply.chunks);
    assert down[1..] == ChunkFrames(reply.chunks);
  }

  lemma {:induction false} ChunkEvents(cs: seq<Bytes>)
    ensures |EventsOf(ChunkFrames(cs))| == |cs|
    ensures forall k :: 0 <= k < |cs| ==> EventsOf(ChunkFrames(cs))[k] == AgentChunk(cs[k])
  {
    if cs != [] {
      ChunkEvents(cs[1..]);
      var down := ChunkFrames(cs);
      assert down[0] == ResponseBody(cs[0]) && down[1..] == ChunkFrames(cs[1..]);
      assert EventsOf(down) == [AgentChunk(cs[0])] + EventsOf(ChunkFrames(cs[1..]));
    }
  }

  // The snapshot and the end that follow are not for the agent.
  lemma RelayEvents(reply: Reply, snapshot: Blooms.Filter)
    ensures EventsOf(ReplyFrames(reply, snapshot)) == ReplyEvents(reply)
  {
    var a, z := [ResponseHead(reply.status)] + ChunkFrames(reply.chunks), [BloomFrame(snapshot), ResponseEnd];
    EventsConcat(a, z);
    assert z[1..] == [ResponseEnd] && EventsOf([ResponseEnd][1..]) == [] && EventsOf(z) == [];
    assert a + [] == a;
  }

  lemma {:induction false} EventsConcat(a: seq<DownFrame>, b: seq<DownFrame>)
    ensures EventsOf(a + b) == EventsOf(a) + EventsOf(b)
  {
    if a == [] {
      assert a + b == b;
    } else {
      assert (a + b)[1..] == a[1..] + b;
      EventsConcat(a[1..], b);
    }
  }

  lemma {:induction false} EventsPrefix(down: seq<DownFrame>, k: nat)
    requires k <= |down|
    ensures EventsOf(down[..k]) <= EventsOf(down)
  {
    assert down == down[..k] + down[k..];
    EventsConcat(down[..k], down[k..]);
  }

  // ---------- The invariant of a connection ----------

  // Where the peer is, as long as the link holds.
  ghost predicate RemoteSide(c: Conn) {
    c.remote.open ==>
      match c.job
      case None => AtRest(c.remote) && OnlyResets(c.up)
      case Some(job) =>
        if c.called then AtRest(c.remote) && OnlyResets(c.up)
        else Leads(c.remote, c.up, job) || Asked(c, job)
  }

  ghost predicate Asked(c: Conn, job: Job) {
    c.up == [] && c.remote.repairs.Some? && ReadyFor(c.remote, job)
  }

  function Rounds(r: Remote): nat { if r.repairs.Some? then r.repairs.value else 0 }

  predicate Waits(c: Conn) { c.down != [] && c.down[|c.down| - 1].Need? }

  // The two ends count the same rounds: one Need is on its way exactly when the
  // peer is one ahead, and the bound is never passed.
  ghost predicate Lockstep(c: Conn) {
    && (forall i :: 0 <= i < |c.down| - 1 ==> !c.down[i].Need?)
    && (Waits(c) ==> !c.called && c.local.repairs < MAX_REPAIRS && |c.down[|c.down| - 1].digests| <= MAX_INSTRS)
    && (c.remote.open && !c.called ==>
          if Waits(c) then c.up == [] && Rounds(c.remote) == c.local.repairs + 1
          else c.up != [] && Rounds(c.remote) == c.local.repairs)
  }

  // What has reached the agent, and what is on its way, is the start of one reply.
  ghost predicate OneReply(c: Conn, got: seq<AgentEvent>) {
    && (c.reply.None? ==> got == [] && EventsOf(c.down) == [])
    && (c.reply.Some? ==> c.called && got + EventsOf(c.down) <= ReplyEvents(c.reply.value))
    && (c.local.headSent <==> got != [])
  }

  // The end of a response is the last thing on the link, and closes a whole one.
  ghost predicate EndsLast(c: Conn, got: seq<AgentEvent>) {
    && (forall i :: 0 <= i < |c.down| && c.down[i].ResponseEnd? ==> i == |c.down| - 1)
    && (c.down != [] && c.down[|c.down| - 1].ResponseEnd? ==>
          c.called && c.reply.Some? && c.reply.value.complete && got + EventsOf(c.down) == ReplyEvents(c.reply.value))
    && (c.remote.open && c.called ==> c.down != [] && c.down[|c.down| - 1].ResponseEnd?)
  }

  // No end ever reports a mismatch, and a whole body is never asked about.
  ghost predicate NoMismatch(c: Conn, job: Job) {
    forall f :: f in c.down ==>
      && f != Fail(false) && !f.PeerReset?
      && (job.payload.WholePayload? ==> !f.Need? && !f.Fail?)
  }

  ghost predicate ConnInv(c: Conn, got: seq<AgentEvent>) {
    && RemoteSide(c) && Rounds(c.remote) <= MAX_REPAIRS
    && (c.job.Some? ==> JobOk(c.job.value))
    && !(c.busy && c.lost)
    && (!c.busy && !c.lost ==> c.down == [] && (c.job.Some? && c.remote.open ==> c.called))
    && (c.busy ==> c.job.Some? && Lockstep(c) && OneReply(c, got) && EndsLast(c, got) && NoMismatch(c, c.job.value))
  }

  // ---------- Every move keeps it ----------

  lemma NewKeeps()
    ensures ConnInv(NEW_CONN, [])
  {
  }

  lemma StartKeeps(c: Conn, job: Job, greeting: Greeting)
    requires ConnInv(c, []) && !c.busy && !c.lost && JobOk(job)
    ensures ConnInv(Started(c, job, greeting), [])
  {
    hide Leads;
    var c' := Started(c, job, greeting);
    if c.remote.open {
      var up := Upload(c.local.requests == 0, greeting, job.head, job.payload, job.body);
      UploadLeads(c.remote, c.local.requests == 0, greeting, job);
      ResetsLead(c.remote, c.up, up, job);
    }
  }

  lemma CutEvents(c: Conn, got: seq<AgentEvent>, k: nat)
    requires OneReply(c, got) && k <= |c.down|
    ensures OneReply(Cut(c, k), got)
  {
    EventsPrefix(c.down, k);
  }

  lemma CutEnds(c: Conn, got: seq<AgentEvent>, k: nat)
    requires EndsLast(c, got) && k <= |c.down|
    ensures EndsLast(Cut(c, k), got)
  {
    assert k == |c.down| ==> c.down[..k] == c.down;
  }

  lemma CutLockstep(c: Conn, k: nat)
    requires Lockstep(c) && k <= |c.down|
    ensures Lockstep(Cut(c, k))
  {
  }

  lemma CutKeeps(c: Conn, got: seq<AgentEvent>, k: nat)
    requires ConnInv(c, got) && k <= |c.down|
    ensures ConnInv(Cut(c, k), got)
  {
    hide RemoteSide, JobOk, OneReply, EndsLast, Lockstep;
    assert RemoteSide(Cut(c, k)) by { CutRemote(c, k); }
    if c.busy {
      CutEvents(c, got, k);
      CutEnds(c, got, k);
      CutLockstep(c, k);
    }
  }

  lemma CutRemote(c: Conn, k: nat)
    requires k <= |c.down|
    ensures RemoteSide(Cut(c, k))
  {
  }

  lemma DropKeeps(c: Conn, got: seq<AgentEvent>)
    requires ConnInv(c, got)
    ensures ConnInv(Dropped(c), got)
  {
  }

  lemma ResetKeeps(c: Conn, got: seq<AgentEvent>)
    requires ConnInv(c, got) && !c.busy && !c.lost
    ensures ConnInv(ResetSent(c), got)
  {
  }

  // What the peer does with any frame but an end of body.
  lemma FrameAbsorbed(r: Remote, f: UpFrame, w: World)
    requires r.open && !f.EndOfBody? && (r.repairs.Some? ==> f.BlockFrame?)
    ensures var o := RemoteStep(r, f, w);
            && o.call.None? && o.remote.repairs == r.repairs
            && (o.sent == [] || (|o.sent| == 1 && o.sent[0].HelloAck?))
            && (o.remote.open ==> o.remote == Absorb(r, f))
            && (f.Reset? ==> o.remote == r && o.sent == [])
            && (o.offered.Some? ==> f.BlockFrame? && o.offered.value == f.block)
  {
  }

  ghost predicate Serves(o: RemoteOutcome, job: Job, w: World) {
    && o.call == Some(Call(job.head, job.body))
    && o.sent == (if w.upstream.Some? then ReplyFrames(w.upstream.value, w.snapshot) else [])
    && (o.remote.open <==> w.upstream.Some? && w.upstream.value.complete)
    && (o.remote.open ==> AtRest(o.remote)) && o.remote.repairs.None?
  }

  ghost predicate Asks(o: RemoteOutcome, job: Job, r: Remote) {
    && o.call.None? && Rounds(r) + 1 <= MAX_REPAIRS
    && |o.sent| == 1 && o.sent[0].Need? && o.sent[0].digests != [] && |o.sent[0].digests| <= MAX_INSTRS
    && o.remote == r.(repairs := Some(Rounds(r) + 1))
  }

  ghost predicate GivesUp(o: RemoteOutcome, job: Job, r: Remote) {
    && o.call.None? && Rounds(r) + 1 > MAX_REPAIRS
    && o.sent == [Fail(true)] && o.remote == r.(open := false)
  }

  // At an end of body a peer that is ready forwards exactly the job's body, or
  // asks for blocks, or has asked too often: it never finds a mismatch, and a
  // whole body is forwarded at once.
  lemma AttemptOutcome(r: Remote, job: Job, w: World)
    requires r.open && ReadyFor(r, job) && JobOk(job) && HonestSource(w.eyes.src)
    ensures var o := RemoteStep(r, EndOfBody, w);
            && o.offered.None?
            && (Serves(o, job, w) || (job.payload.SplitPayload? && (Asks(o, job, r) || GivesUp(o, job, r))))
  {
    hide Rebuilt, Denotes, ReplyFrames;
    RebuildIsExact(w.eyes, job.head, r.instrs, r.literal, job.body);
  }

  lemma ReadsAtRest(c: Conn, got: seq<AgentEvent>, w: World)
    requires ConnInv(c, got) && c.up != [] && c.remote.open && (c.job.None? || c.called)
    ensures RemoteReads(c, w) == c.(up := c.up[1..]) && ConnInv(RemoteReads(c, w), got)
    ensures RemoteDoes(c, w).offered.None? && RemoteDoes(c, w).call.None?
  {
    hide ReadyFor, Leads, JobOk, OneReply, EndsLast, NoMismatch, Lockstep;
    assert c.up[0] in c.up;
    FrameAbsorbed(c.remote, c.up[0], w);
    assert c.down + [] == c.down;
    var c' := c.(up := c.up[1..]);
    if c.busy {
      RestKeeps(c, c', got);
    }
  }

  lemma RestKeeps(c: Conn, c': Conn, got: seq<AgentEvent>)
    requires c.job.Some? && c.called && c' == c.(up := c'.up)
    requires Lockstep(c) && OneReply(c, got) && EndsLast(c, got) && NoMismatch(c, c.job.value)
    ensures Lockstep(c') && OneReply(c', got) && EndsLast(c', got) && NoMismatch(c', c.job.value)
  {
  }

  lemma ReadsClosed(c: Conn, got: seq<AgentEvent>, w: World)
    requires ConnInv(c, got) && c.up != [] && !c.remote.open
    ensures ConnInv(RemoteReads(c, w), got)
    ensures RemoteDoes(c, w).offered.None? && RemoteDoes(c, w).call.None?
  {
    hide ReadyFor, Leads, JobOk;
    assert c.down + [] == c.down;
  }

  // Frames that say nothing to the agent and ask for nothing.
  predicate Notice(sent: seq<DownFrame>, job: Job) {
    sent == [] || (|sent| == 1 && (sent[0].HelloAck? || (sent[0] == Fail(true) && job.payload.SplitPayload?)))
  }

  lemma NoticeEvents(c: Conn, c': Conn, got: seq<AgentEvent>, sent: seq<DownFrame>, job: Job)
    requires OneReply(c, got) && Notice(sent, job) && c' == c.(remote := c'.remote, up := c'.up, down := c.down + sent)
    ensures OneReply(c', got)
  {
    hide ReplyEvents;
    EventsConcat(c.down, sent);
    if sent != [] {
      assert EventsOf(sent[1..]) == [];
    }
    assert EventsOf(c'.down) == EventsOf(c.down);
  }

  lemma NoticeOrder(c: Conn, c': Conn, got: seq<AgentEvent>, sent: seq<DownFrame>, job: Job)
    requires !c.called && !Waits(c) && Lockstep(c) && EndsLast(c, got) && NoMismatch(c, job) && Notice(sent, job)
    requires c' == c.(remote := c'.remote, up := c'.up, down := c.down + sent)
    requires c'.remote.open ==> c'.up != [] && Rounds(c'.remote) == Rounds(c.remote) && c.remote.open
    ensures Lockstep(c') && EndsLast(c', got) && NoMismatch(c', job)
  {
    hide ReplyEvents, EventsOf;
    if sent == [] {
      assert c.down + sent == c.down;
    } else {
      assert c'.down == c.down + [sent[0]];
    }
  }

  lemma AppendKeeps(c: Conn, c': Conn, got: seq<AgentEvent>, sent: seq<DownFrame>)
    requires c.busy && c.job.Some? && !c.called && !Waits(c)
    requires Lockstep(c) && OneReply(c, got) && EndsLast(c, got) && NoMismatch(c, c.job.value)
    requires c' == c.(remote := c'.remote, up := c'.up, down := c.down + sent)
    requires Notice(sent, c.job.value)
    requires c'.remote.open ==> c'.up != [] && Rounds(c'.remote) == Rounds(c.remote) && c.remote.open
    ensures Lockstep(c') && OneReply(c', got) && EndsLast(c', got) && NoMismatch(c', c.job.value)
  {
    hide Lockstep, OneReply, EndsLast, NoMismatch, Notice, Waits;
    NoticeEvents(c, c', got, sent, c.job.value);
    NoticeOrder(c, c', got, sent, c.job.value);
  }

  lemma AskKeeps(c: Conn, c': Conn, got: seq<AgentEvent>, need: DownFrame)
    requires c.busy && c.job.Some? && !c.called && !Waits(c) && c.job.value.payload.SplitPayload?
    requires Lockstep(c) && OneReply(c, got) && EndsLast(c, got) && NoMismatch(c, c.job.value)
    requires c' == c.(remote := c'.remote, up := [], down := c.down + [need])
    requires need.Need? && |need.digests| <= MAX_INSTRS
    requires c.remote.open && Rounds(c'.remote) == Rounds(c.remote) + 1 <= MAX_REPAIRS
    ensures Lockstep(c') && OneReply(c', got) && EndsLast(c', got) && NoMismatch(c', c.job.value)
  {
    EventsConcat(c.down, [need]);
    assert EventsOf([need][1..]) == [];
  }

  lemma {:induction false} ChunkFramesShape(cs: seq<Bytes>)
    ensures forall f :: f in ChunkFrames(cs) ==> f.ResponseBody?
  {
    if cs != [] {
      ChunkFramesShape(cs[1..]);
    }
  }

  lemma ReplyShape(reply: Reply, snapshot: Blooms.Filter)
    ensures var fs := ReplyFrames(reply, snapshot);
            && fs != [] && fs[0].ResponseHead?
            && (forall f :: f in fs ==> !f.Need? && !f.Fail? && !f.HelloAck? && !f.PeerReset?)
            && (forall i :: 0 <= i < |fs| && fs[i].ResponseEnd? ==> i == |fs| - 1)
            && (fs[|fs| - 1].ResponseEnd? <==> reply.complete)
  {
    var cf := ChunkFrames(reply.chunks);
    ChunkFramesShape(reply.chunks);
    var fs := ReplyFrames(reply, snapshot);
    forall i | 1 <= i < 1 + |cf| ensures fs[i].ResponseBody? {
      assert fs[i] == cf[i - 1] && cf[i - 1] in cf;
    }
    if !reply.complete && |cf| > 0 {
      assert fs[|fs| - 1] == cf[|cf| - 1] && cf[|cf| - 1] in cf;
    }
  }

  lemma HeadComesFirst(reply: Reply)
    ensures ReplyEvents(reply) != [] && ReplyEvents(reply)[0].AgentHead?
  {
  }

  // The answer of the upstream follows what is already on its way down.
  ghost predicate Relayed(c: Conn, c': Conn, reply: Reply, snapshot: Blooms.Filter) {
    && c' == c.(remote := c'.remote, up := c'.up, down := c.down + ReplyFrames(reply, snapshot), called := true,
                reply := Some(reply))
    && (c'.remote.open ==> reply.complete)
  }

  lemma RelayedFrames(c: Conn, c': Conn, got: seq<AgentEvent>, reply: Reply, snapshot: Blooms.Filter)
    requires Relayed(c, c', reply, snapshot) && Lockstep(c) && !Waits(c) && EndsLast(c, got) && !c.called
    ensures Lockstep(c')
    ensures forall i :: 0 <= i < |c'.down| && c'.down[i].ResponseEnd? ==> i == |c'.down| - 1
    ensures c'.down != [] && (c'.down[|c'.down| - 1].ResponseEnd? <==> reply.complete)
  {
    var fs := ReplyFrames(reply, snapshot);
    ReplyShape(reply, snapshot);
    hide ReplyFrames;
    forall i | 0 <= i < |c'.down| ensures c'.down[i] == if i < |c.down| then c.down[i] else fs[i - |c.down|] {
    }
    assert c'.down[|c'.down| - 1] == fs[|fs| - 1] && fs[|fs| - 1] in fs;
  }

  lemma RelayedEvents(c: Conn, c': Conn, got: seq<AgentEvent>, reply: Reply, snapshot: Blooms.Filter)
    requires Relayed(c, c', reply, snapshot) && OneReply(c, got) && !c.called
    ensures OneReply(c', got) && got + EventsOf(c'.down) == ReplyEvents(reply)
  {
    EventsConcat(c.down, ReplyFrames(reply, snapshot));
    RelayEvents(reply, snapshot);
    hide ReplyFrames, ReplyEvents, EventsOf;
    assert got + EventsOf(c'.down) == ReplyEvents(reply);
  }

  lemma RelayedNoMismatch(c: Conn, c': Conn, reply: Reply, job: Job, snapshot: Blooms.Filter)
    requires Relayed(c, c', reply, snapshot) && NoMismatch(c, job)
    ensures NoMismatch(c', job)
  {
    ReplyShape(reply, snapshot);
    hide ReplyFrames;
  }

  lemma ServeKeeps(c: Conn, c': Conn, got: seq<AgentEvent>, upstream: Option<Reply>, snapshot: Blooms.Filter)
    requires c.busy && c.job.Some? && !c.called && !Waits(c)
    requires Lockstep(c) && OneReply(c, got) && EndsLast(c, got) && NoMismatch(c, c.job.value)
    requires var sent := if upstream.Some? then ReplyFrames(upstream.value, snapshot) else [];
             c' == c.(remote := c'.remote, up := c'.up, down := c.down + sent, called := true, reply := upstream)
    requires c'.remote.open ==> upstream.Some? && upstream.value.complete
    ensures Lockstep(c') && OneReply(c', got) && EndsLast(c', got) && NoMismatch(c', c.job.value)
  {
    if upstream.Some? {
      hide Lockstep, OneReply, NoMismatch, ReplyFrames, ReplyEvents, EventsOf;
      RelayedFrames(c, c', got, upstream.value, snapshot);
      RelayedEvents(c, c', got, upstream.value, snapshot);
      RelayedNoMismatch(c, c', upstream.value, c.job.value, snapshot);
    } else {
      assert c.down + [] == c.down;
    }
  }

  // The peer reads one frame of an upload.
  lemma ReadsFrame(c: Conn, got: seq<AgentEvent>, w: World)
    requires ConnInv(c, got) && c.up != [] && c.remote.open && c.job.Some? && !c.called && !c.up[0].EndOfBody?
    ensures ConnInv(RemoteReads(c, w), got)
    ensures var o := RemoteDoes(c, w);
            o.call.None? && (o.offered.Some? ==> Honest(o.offered.value))
  {
    hide ReadyFor, JobOk, OneReply, EndsLast, NoMismatch;
    var job, f := c.job.value, c.up[0];
    assert Leads(c.remote, c.up, job) && |c.up| > 1;
    FrameAbsorbed(c.remote, f, w);
    var c' := RemoteReads(c, w);
    assert c'.remote.open ==> Leads(c'.remote, c'.up, job);
    if c.busy {
      AppendKeeps(c, c', got, RemoteDoes(c, w).sent);
    }
  }

  // The peer reads an end of body.
  lemma ReadsEnd(c: Conn, got: seq<AgentEvent>, w: World)
    requires ConnInv(c, got) && c.up != [] && c.remote.open && c.job.Some? && !c.called && c.up[0].EndOfBody?
    requires HonestSource(w.eyes.src)
    ensures ConnInv(RemoteReads(c, w), got)
    ensures var o := RemoteDoes(c, w);
            o.offered.None? && (o.call.Some? ==> o.call == Some(Call(c.job.value.head, c.job.value.body)))
  {
    hide JobOk, OneReply, EndsLast, NoMismatch, Attempted;
    var job := c.job.value;
    assert Leads(c.remote, c.up, job) && |c.up| == 1 && ReadyFor(c.remote, job);
    AttemptOutcome(c.remote, job, w);
    var o, c' := RemoteDoes(c, w), RemoteReads(c, w);
    if Serves(o, job, w) {
      if c.busy {
        ServeKeeps(c, c', got, w.upstream, w.snapshot);
      }
    } else if Asks(o, job, c.remote) {
      assert Asked(c', job);
      if c.busy {
        AskKeeps(c, c', got, o.sent[0]);
      }
    } else if c.busy {
      AppendKeeps(c, c', got, o.sent);
    }
  }

  // Whatever the peer reads, on whatever honest blocks the store shows it: what
  // goes upstream is the job's own head and exact body, once, and every block
  // offered to the store is honest.
  lemma RemoteKeeps(c: Conn, got: seq<AgentEvent>, w: World)
    requires ConnInv(c, got) && c.up != [] && HonestSource(w.eyes.src)
    ensures ConnInv(RemoteReads(c, w), got)
    ensures var o := RemoteDoes(c, w);
            && (o.offered.Some? ==> Honest(o.offered.value))
            && (o.call.Some? ==> c.job.Some? && !c.called && o.call == Some(Call(c.job.value.head, c.job.value.body)))
  {
    if !c.remote.open {
      ReadsClosed(c, got, w);
    } else if c.job.None? || c.called {
      ReadsAtRest(c, got, w);
    } else if c.up[0].EndOfBody? {
      ReadsEnd(c, got, w);
    } else {
      ReadsFrame(c, got, w);
    }
  }

  function EventFor(f: DownFrame): seq<AgentEvent> {
    match f
    case ResponseHead(status) => [AgentHead(status)]
    case ResponseBody(chunk) => [AgentChunk(chunk)]
    case _ => []
  }

  function GotAfter(c: Conn, got: seq<AgentEvent>, there: bool): seq<AgentEvent>
    requires c.down != []
  {
    if there then got + EventFor(c.down[0]) else got
  }

  lemma EventsMove(c: Conn, got: seq<AgentEvent>, there: bool)
    requires c.down != [] && (there || EventFor(c.down[0]) == [])
    ensures GotAfter(c, got, there) + EventsOf(c.down[1..]) == got + EventsOf(c.down)
  {
    assert EventsOf(c.down) == EventFor(c.down[0]) + EventsOf(c.down[1..]);
    assert got + EventFor(c.down[0]) + EventsOf(c.down[1..]) == got + (EventFor(c.down[0]) + EventsOf(c.down[1..]));
    assert EventFor(c.down[0]) == [] ==> got + EventFor(c.down[0]) == got;
  }

  // A body chunk only ever reaches the agent after a head.
  lemma ChunkAfterHead(c: Conn, got: seq<AgentEvent>)
    requires OneReply(c, got) && c.down != [] && c.down[0].ResponseBody?
    ensures got != []
  {
    hide ReplyEvents;
    var all := EventsOf(c.down);
    assert all[0] == AgentChunk(c.down[0].chunk);
    HeadComesFirst(c.reply.value);
    assert got == [] ==> got + all == all;
    assert (got + all)[0] == ReplyEvents(c.reply.value)[0];
  }

  // Frames the sender passes on or ignores.
  lemma PassesOn(c: Conn, got: seq<AgentEvent>, src: Resolve.Source, there: bool)
    requires ConnInv(c, got) && c.busy && c.down != []
    requires var f := c.down[0];
             || (f.HelloAck? && f.ok) || (there && (f.ResponseHead? || f.ResponseBody?))
             || (f.BloomFrame? && Received(f.snapshot).Some?)
    ensures ConnInv(LocalReads(c, src, there), GotAfter(c, got, there)) && LocalDoes(c, src, there).result.None?
  {
    hide RemoteSide, JobOk, EventsOf, ReplyEvents, Denotes, Received;
    var c', got' := LocalReads(c, src, there), GotAfter(c, got, there);
    assert c.up + [] == c.up;
    EventsMove(c, got, there);
    if c.down[0].ResponseBody? {
      ChunkAfterHead(c, got);
    }
    assert RemoteSide(c') by { SameRemoteSide(c, c'); }
    PassesOrder(c, c', got);
  }

  lemma SameRemoteSide(c: Conn, c': Conn)
    requires RemoteSide(c) && c'.remote == c.remote && c'.up == c.up && c'.called == c.called && c'.job == c.job
    ensures RemoteSide(c')
  {
  }

  lemma PassesOrder(c: Conn, c': Conn, got: seq<AgentEvent>)
    requires c.down != [] && Lockstep(c) && !c.down[0].Need? && !c.down[0].ResponseEnd? && EndsLast(c, got)
    requires c'.down == c.down[1..] && c'.up == c.up && c'.called == c.called && c'.remote == c.remote
    requires c'.local.repairs == c.local.repairs
    ensures Lockstep(c')
    ensures forall i :: 0 <= i < |c'.down| && c'.down[i].ResponseEnd? ==> i == |c'.down| - 1
    ensures c'.down != [] ==> c'.down[|c'.down| - 1] == c.down[|c.down| - 1]
  {
  }

  // A Need is the last frame on the link; it is answered by the blocks still
  // held and exactly one end of body, and the bound on rounds never stops it.
  lemma AnswersNeed(c: Conn, got: seq<AgentEvent>, src: Resolve.Source, there: bool)
    requires ConnInv(c, got) && c.busy && c.down != [] && c.down[0].Need? && HonestSource(src)
    ensures ConnInv(LocalReads(c, src, there), GotAfter(c, got, there)) && LocalDoes(c, src, there).result.None?
    ensures LocalDoes(c, src, there).sent == Answer(src, c.down[0].digests)
  {
    hide JobOk, ReplyEvents, Leads, OneReply;
    assert |c.down| == 1;
    assert Waits(c);
    var c', job, ds := LocalReads(c, src, there), c.job.value, c.down[0].digests;
    if c.remote.open {
      HeldHonest(src, 0, ds);
      BlocksLead(c.remote, Held(src, 0, ds), job) by { NoEmptyLead(c.remote, job); }
      assert [] + Answer(src, ds) == Answer(src, ds);
    }
    assert OneReply(c', GotAfter(c, got, there)) by { NeedEvents(c, c', got, there); }
  }

  lemma NoEmptyLead(r: Remote, job: Job)
    ensures !Leads(r, [], job)
  {
  }

  lemma NeedEvents(c: Conn, c': Conn, got: seq<AgentEvent>, there: bool)
    requires OneReply(c, got) && |c.down| == 1 && c.down[0].Need? && c'.down == []
    requires c'.reply == c.reply && c'.called == c.called && c'.local.headSent == c.local.headSent
    ensures OneReply(c', GotAfter(c, got, there))
  {
    assert GotAfter(c, got, there) == got;
    assert EventsOf(c.down[1..]) == [];
  }

  // A finished request leaves an idle connection, a peer at rest, and an agent
  // that got all of one whole reply.
  lemma Finishes(c: Conn, got: seq<AgentEvent>, src: Resolve.Source, there: bool)
    requires ConnInv(c, got) && c.busy && c.down != [] && c.down[0].ResponseEnd?
    ensures ConnInv(LocalReads(c, src, there), GotAfter(c, got, there))
    ensures LocalDoes(c, src, there).result == Some(Ok(()))
    ensures GotAfter(c, got, there) == got
    ensures c.reply.Some? && c.reply.value.complete && got == ReplyEvents(c.reply.value)
  {
    hide JobOk, ReplyEvents, Leads;
    assert |c.down| == 1;
    assert EventsOf(c.down[1..]) == [] && EventsOf(c.down) == [];
    assert got + [] == got && c.up + [] == c.up;
  }

  // What makes the sender give up: a refused greeting, a plea for the whole
  // body, an agent that has gone, or a snapshot too large for the decoder.
  predicate GivesUpOn(f: DownFrame, there: bool) {
    match f
    case HelloAck(ok, _, _) => !ok
    case Fail(_) => true
    case ResponseHead(_) => !there
    case ResponseBody(_) => !there
    case BloomFrame(snapshot) => Received(snapshot).None?
    case _ => false
  }

  predicate MayFail(c: Conn, there: bool, e: SessionError)
    requires c.down != [] && c.job.Some?
  {
    || e == Rejected
    || (e == SendWhole && c.job.value.payload.SplitPayload?)
    || (e == LinkClosed && !there)
    || (e == Proto && c.down[0].BloomFrame? && Received(c.down[0].snapshot).None?)
  }

  lemma GivesUpLocally(c: Conn, got: seq<AgentEvent>, src: Resolve.Source, there: bool)
    requires ConnInv(c, got) && c.busy && c.down != [] && GivesUpOn(c.down[0], there)
    ensures ConnInv(LocalReads(c, src, there), got) && GotAfter(c, got, there) == got
    ensures var r := LocalDoes(c, src, there).result;
            r.Some? && r.value.Err? && MayFail(c, there, r.value.error)
  {
    hide JobOk, ReplyEvents, Leads, ReadyFor, Received;
    assert c.up + [] == c.up;
    assert c.down[0] in c.down;
    assert got + [] == got;
  }

  // Whatever the sender reads keeps the connection as it should be; the only
  // errors it can see are a refused greeting, for a split body a request to
  // send it whole, an agent that left, and a snapshot past the decoder's limit:
  // its own bound on repairs never fires.
  lemma LocalKeeps(c: Conn, got: seq<AgentEvent>, src: Resolve.Source, there: bool)
    requires ConnInv(c, got) && c.busy && c.down != [] && HonestSource(src)
    ensures ConnInv(LocalReads(c, src, there), GotAfter(c, got, there)) && c.job.Some?
    ensures var r := LocalDoes(c, src, there).result;
            && (r.Some? && r.value.Ok? ==>
                  c.reply.Some? && c.reply.value.complete && GotAfter(c, got, there) == ReplyEvents(c.reply.value))
            && (r.Some? && r.value.Err? ==> MayFail(c, there, r.value.error))
  {
    NeverReset(c, got);
    hide ConnInv, LocalReads, ReplyEvents, Received, MayFail;
    if GivesUpOn(c.down[0], there) {
      GivesUpLocally(c, got, src, there);
    } else {
      match c.down[0] {
        case Need(_) => AnswersNeed(c, got, src, there);
        case ResponseEnd => Finishes(c, got, src, there);
        case _ => PassesOn(c, got, src, there);
      }
    }
  }

  // The peer never sends a reset.
  lemma NeverReset(c: Conn, got: seq<AgentEvent>)
    requires ConnInv(c, got) && c.busy && c.down != []
    ensures c.job.Some? && !c.down[0].PeerReset?
  {
    hide RemoteSide, JobOk, Lockstep, OneReply, EndsLast;
    assert c.down[0] in c.down;
  }

  // An attempt that fails leaves what the agent got, and what the sender knows
  // about it, as they were.
  lemma FailureLeavesGot(c: Conn, got: seq<AgentEvent>, src: Resolve.Source, there: bool)
    requires ConnInv(c, got) && c.busy && c.down != []
    ensures c.local.headSent <==> got != []
    ensures var o := LocalDoes(c, src, there);
            o.result.Some? && o.result.value.Err? ==>
              GotAfter(c, got, there) == got && o.local.headSent == c.local.headSent
  {
    hide RemoteSide, JobOk, Lockstep, EndsLast, NoMismatch, ReplyEvents, EventsOf;
    assert got + [] == got;
  }

  lemma GotBelongs(c: Conn, got: seq<AgentEvent>)
    requires ConnInv(c, got) && c.busy
    ensures c.local.headSent <==> got != []
    ensures got != [] ==> c.reply.Some? && got <= ReplyEvents(c.reply.value)
  {
    hide RemoteSide, JobOk, Lockstep, EndsLast, NoMismatch, ReplyEvents;
  }

  lemma OffDuty(c: Conn, a: seq<AgentEvent>, b: seq<AgentEvent>)
    requires ConnInv(c, a) && !c.busy
    ensures ConnInv(c, b)
  {
    hide RemoteSide, JobOk;
  }
}

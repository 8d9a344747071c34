// Both ends of the per-request protocol, frame by frame. What an end does with
// one frame is a function of its state; the classes carry it out in place.

module Session {
  import opened Results
  import opened Blocks
  import opened Programs
  import Blooms
  import Codec
  import Resolve
  import Splitter

  const MAX_INSTRS: nat := 200_000
  const MAX_REPAIRS: nat := 4
  const RELAY_CHUNK: nat := 256 * 1024
  const MAX_BODY_BYTES: nat := 512 * 1024 * 1024
  const MAX_DEPTH: nat := 32

  // `meta` stands for the method, path, headers and kind, carried unchanged.
  datatype RequestHead = RequestHead(meta: nat, bodyLen: u64, bodyDigest: Digest, split: bool)

  // What the upstream answers: `complete` is false when its body breaks off.
  datatype Reply = Reply(status: nat, chunks: seq<Bytes>, complete: bool)

  datatype Payload = SplitPayload(out: Splitter.SplitOutput) | WholePayload

  // Whether a greeting has the peer's protocol version, and its pairing proof.
  datatype Greeting = Greeting(current: bool, proof: bool)

  datatype UpFrame =
    | Hello(greeting: Greeting)
    | Head(head: RequestHead)
    | Program(instrs: seq<Instr>)
    | RequestBody(data: Bytes)
    | BlockFrame(block: Block)
    | EndOfBody
    | Reset

  datatype DownFrame =
    | HelloAck(ok: bool, blocks: nat, epoch: nat)
    | Need(digests: seq<Digest>)
    | Fail(clearPresence: bool)
    | ResponseHead(status: nat)
    | ResponseBody(chunk: Bytes)
    | BloomFrame(snapshot: Blooms.Filter)
    | ResponseEnd
    | PeerReset

  datatype SessionError =
    | LinkClosed
    | Rejected
    | SendWhole
    | Unrebuildable(rounds: nat)
    | DigestMismatch
    | BadPayload
    | Io
    | Proto
    | Compress

  // Errors for which sending the body whole is the right recovery.
  predicate FallbackToWhole(e: SessionError) {
    !e.BadPayload? && !e.Compress?
  }

  // A lookup in a store that may change between lookups.
  ghost predicate HonestSource(src: Resolve.Source) {
    forall n, d :: src(n, d).Some? ==> src(n, d).value.digest == d && Honest(src(n, d).value)
  }

  ghost predicate HonestStore(store: Store) {
    forall d :: d in store ==> store[d].digest == d && Honest(store[d])
  }

  function HeadFor(meta: nat, body: Bytes, payload: Payload): RequestHead
    requires |body| < ALLOC_LIMIT
  {
    RequestHead(meta, |body|, Digest(Raw, body), payload.SplitPayload?)
  }

  // ---------- The sender's upload ----------

  function Chunked(body: Bytes, n: nat): seq<Bytes>
    requires n > 0
    decreases |body|
  {
    if body == [] then []
    else if |body| <= n then [body]
    else [body[..n]] + Chunked(body[n..], n)
  }

  function BodyFrames(cs: seq<Bytes>): seq<UpFrame> {
    if cs == [] then [] else [RequestBody(cs[0])] + BodyFrames(cs[1..])
  }

  function BlockFrames(bs: seq<Block>): seq<UpFrame> {
    if bs == [] then [] else [BlockFrame(bs[0])] + BlockFrames(bs[1..])
  }

  function PayloadFrames(payload: Payload, body: Bytes): seq<UpFrame> {
    match payload
    case SplitPayload(out) => [Program(out.instrs)] + BlockFrames(out.toPush)
    case WholePayload => BodyFrames(Chunked(body, RELAY_CHUNK))
  }

  function Upload(first: bool, greeting: Greeting, h: RequestHead, payload: Payload, body: Bytes): seq<UpFrame> {
    (if first then [Hello(greeting)] else []) + [Head(h)] + PayloadFrames(payload, body) + [EndOfBody]
  }

  // The blocks a Need is answered with: those held when each is looked up.
  function Held(src: Resolve.Source, n: nat, ds: seq<Digest>): seq<Block>
    decreases |ds|
  {
    if ds == [] then []
    else (if src(n, ds[0]).Some? then [src(n, ds[0]).value] else []) + Held(src, n + 1, ds[1..])
  }

  function Answer(src: Resolve.Source, ds: seq<Digest>): seq<UpFrame> {
    BlockFrames(Held(src, 0, ds)) + [EndOfBody]
  }

  lemma {:induction false} BlockFramesConcat(a: seq<Block>, b: seq<Block>)
    ensures BlockFrames(a + b) == BlockFrames(a) + BlockFrames(b)
  {
    if a == [] {
      assert a + b == b;
    } else {
      assert (a + b)[1..] == a[1..] + b;
      BlockFramesConcat(a[1..], b);
    }
  }

  lemma {:induction false} BodyFramesConcat(a: seq<Bytes>, b: seq<Bytes>)
    ensures BodyFrames(a + b) == BodyFrames(a) + BodyFrames(b)
  {
    if a == [] {
      assert a + b == b;
    } else {
      assert (a + b)[1..] == a[1..] + b;
      BodyFramesConcat(a[1..], b);
    }
  }

  // ---------- The sender, frame by frame ----------

  datatype AgentEvent = AgentHead(status: nat) | AgentChunk(chunk: Bytes)

  datatype Local = Local(requests: nat, repairs: nat, headSent: bool)

  // What a frame does to the sender's view of what the peer holds.
  datatype Belief = Unchanged | Forget | Refresh(snapshot: Blooms.Filter)

  // What one frame makes the sender do: frames for the peer, something for the
  // agent, and the result of the request once there is one.
  datatype LocalOutcome = LocalOutcome(local: Local, sent: seq<UpFrame>, event: Option<AgentEvent>, belief: Belief,
                                       result: Option<Result<(), SessionError>>)

  function Onto(l: Local): LocalOutcome { LocalOutcome(l, [], None, Unchanged, None) }

  function GivenUp(l: Local, e: SessionError): LocalOutcome { Onto(l).(result := Some(Err(e))) }

  // `there` is false when the agent has gone, and takes nothing more.
  function LocalStep(l: Local, f: DownFrame, src: Resolve.Source, there: bool): LocalOutcome {
    match f
    case HelloAck(ok, blocks, epoch) =>
      if !ok then GivenUp(l, Rejected)
      else Onto(l).(belief := if blocks == 0 && epoch != 0 then Forget else Unchanged)
    case Need(ds) =>
      var l' := l.(repairs := l.repairs + 1);
      if l'.repairs > MAX_REPAIRS then GivenUp(l', Unrebuildable(l.repairs))
      else if |ds| > MAX_INSTRS then GivenUp(l', Proto)
      else Onto(l').(sent := Answer(src, ds))
    case Fail(clearPresence) => GivenUp(l, SendWhole).(belief := if clearPresence then Forget else Unchanged)
    case ResponseHead(status) =>
      if there then Onto(l.(headSent := true)).(event := Some(AgentHead(status))) else GivenUp(l, LinkClosed)
    case ResponseBody(chunk) =>
      if there then Onto(l).(event := Some(AgentChunk(chunk))) else GivenUp(l, LinkClosed)
    case BloomFrame(snapshot) =>
      var read := Received(snapshot);
      if read.None? then GivenUp(l, Proto) else Onto(l).(belief := Refresh(read.value))
    case ResponseEnd => Onto(l).(result := Some(Ok(())))
    case PeerReset => GivenUp(l, SendWhole).(belief := Forget)
  }

  // A snapshot as it comes out at the other end.
  function Received(snapshot: Blooms.Filter): Option<Blooms.Filter> { Blooms.FromBytes(Blooms.ToBytes(snapshot)) }

  // A request ends well with the end of the response, and ends badly exactly when
  // the peer refuses, gives up or resets, asks too often or for too much, sends
  // a snapshot that does not decode, or when the agent has gone.
  lemma RequestEnds(l: Local, f: DownFrame, src: Resolve.Source, there: bool)
    ensures var result := LocalStep(l, f, src, there).result;
            && (result == Some(Ok(())) <==> f.ResponseEnd?)
            && (result.Some? && result.value.Err? <==>
                || (f.HelloAck? && !f.ok)
                || f.Fail? || f.PeerReset?
                || (f.Need? && (l.repairs >= MAX_REPAIRS || |f.digests| > MAX_INSTRS))
                || (f.BloomFrame? && Blooms.FromBytes(Blooms.ToBytes(f.snapshot)).None?)
                || ((f.ResponseHead? || f.ResponseBody?) && !there))
  {
    hide Answer, Blooms.FromBytes, Blooms.ToBytes;
  }

  method SendBlocks(bs: seq<Block>) returns (sent: seq<UpFrame>)
    ensures sent == BlockFrames(bs)
  {
    sent := [];
    for k := 0 to |bs|
      invariant sent == BlockFrames(bs[..k])
    {
      assert bs[..k + 1] == bs[..k] + [bs[k]];
      BlockFramesConcat(bs[..k], [bs[k]]);
      sent := sent + [BlockFrame(bs[k])];
    }
    assert bs[..|bs|] == bs;
  }

  method SendChunks(cs: seq<Bytes>) returns (sent: seq<UpFrame>)
    ensures sent == BodyFrames(cs)
  {
    sent := [];
    for k := 0 to |cs|
      invariant sent == BodyFrames(cs[..k])
    {
      assert cs[..k + 1] == cs[..k] + [cs[k]];
      BodyFramesConcat(cs[..k], [cs[k]]);
      sent := sent + [RequestBody(cs[k])];
    }
    assert cs[..|cs|] == cs;
  }

  method SendPayload(payload: Payload, body: Bytes) returns (sent: seq<UpFrame>)
    ensures sent == PayloadFrames(payload, body)
  {
    match payload {
      case SplitPayload(out) =>
        var blocks := SendBlocks(out.toPush);
        sent := [Program(out.instrs)] + blocks;
      case WholePayload =>
        sent := SendChunks(Chunked(body, RELAY_CHUNK));
    }
  }

  // The blocks asked for that are still held, then one end of body.
  method AnswerNeed(ds: seq<Digest>, src: Resolve.Source) returns (sent: seq<UpFrame>)
    ensures sent == Answer(src, ds)
  {
    var held: seq<Block> := [];
    for k := 0 to |ds|
      invariant Held(src, 0, ds) == held + Held(src, k, ds[k..])
    {
      assert ds[k..][0] == ds[k] && ds[k..][1..] == ds[k + 1..];
      var b := src(k, ds[k]);
      if b.Some? {
        held := held + [b.value];
      }
    }
    assert held == Held(src, 0, ds);
    sent := SendBlocks(held);
    sent := sent + [EndOfBody];
  }

  class LocalEnd {
    var requests: nat
    var repairs: nat
    var headSent: bool
    // Shared with every other connection to the same peer.
    const view: Blooms.Optimistic

    ghost function State(): Local
      reads this
    {
      Local(requests, repairs, headSent)
    }

    constructor (view: Blooms.Optimistic)
      ensures State() == Local(0, 0, false) && this.view == view
    {
      requests, repairs, headSent, this.view := 0, 0, false, view;
    }

    // Everything up to the first end of body; what was pushed is believed to be
    // there from now on.
    method Begin(h: RequestHead, payload: Payload, body: Bytes, greeting: Greeting) returns (sent: seq<UpFrame>)
      requires view.Valid()
      modifies this, view
      ensures sent == Upload(old(requests) == 0, greeting, h, payload, body)
      ensures State() == Local(old(requests) + 1, 0, false)
      ensures view.Valid() && view.base == old(view.base)
      ensures view.sent == old(view.sent) + if payload.SplitPayload? then Splitter.Digests(payload.out.toPush) else {}
    {
      sent := [];
      requests := requests + 1;
      if requests == 1 {
        sent := sent + [Hello(greeting)];
      }
      sent := sent + [Head(h)];
      var frames := SendPayload(payload, body);
      sent := sent + frames;
      sent := sent + [EndOfBody];
      var pushed: seq<Digest> := [];
      if payload.SplitPayload? {
        pushed := DigestList(payload.out.toPush);
      }
      view.NotePushed(pushed);
      repairs, headSent := 0, false;
    }

    method OnFrame(f: DownFrame, src: Resolve.Source, there: bool)
      returns (sent: seq<UpFrame>, event: Option<AgentEvent>, result: Option<Result<(), SessionError>>)
      requires view.Valid()
      modifies this, view
      ensures var o := LocalStep(old(State()), f, src, there);
              && State() == o.local && sent == o.sent && event == o.event && result == o.result
              && view.sent == (if o.belief.Forget? then {} else old(view.sent))
              && view.base == (if o.belief.Refresh? then o.belief.snapshot else old(view.base))
      ensures view.Valid()
    {
      sent, event, result := [], None, None;
      match f {
        case HelloAck(ok, blocks, epoch) =>
          if !ok {
            result := Some(Err(Rejected));
          } else if blocks == 0 && epoch != 0 {
            view.Clear();
          }
        case Need(ds) =>
          repairs := repairs + 1;
          if repairs > MAX_REPAIRS {
            result := Some(Err(Unrebuildable(repairs - 1)));
          } else if |ds| > MAX_INSTRS {
            result := Some(Err(Proto));
          } else {
            sent := AnswerNeed(ds, src);
          }
        case Fail(clearPresence) =>
          if clearPresence {
            view.Clear();
          }
          result := Some(Err(SendWhole));
        case ResponseHead(status) =>
          if there {
            event := Some(AgentHead(status));
            headSent := true;
          } else {
            result := Some(Err(LinkClosed));
          }
        case ResponseBody(chunk) =>
          if there {
            event := Some(AgentChunk(chunk));
          } else {
            result := Some(Err(LinkClosed));
          }
        case BloomFrame(snapshot) =>
          var read := Blooms.DecodeFilter(Blooms.ToBytes(snapshot));
          if read.None? {
            result := Some(Err(Proto));
          } else {
            Blooms.DecodedIsShaped(Blooms.ToBytes(snapshot));
            view.Replace(read.value);
          }
        case ResponseEnd =>
          result := Some(Ok(()));
        case PeerReset =>
          view.Clear();
          result := Some(Err(SendWhole));
      }
    }
  }

  method DigestList(bs: seq<Block>) returns (ds: seq<Digest>)
    ensures (set d | d in ds) == Splitter.Digests(bs)
  {
    ds := [];
    assert bs[..0] == [];
    for k := 0 to |bs|
      invariant (set d | d in ds) == Splitter.Digests(bs[..k])
    {
      assert bs[..k + 1][..k] == bs[..k];
      ds := ds + [bs[k].digest];
    }
    assert bs[..|bs|] == bs;
  }

  // ---------- Rebuilding a body ----------

  datatype RebuildError = MissingBlocks(digests: seq<Digest>) | Mismatch

  // The store when a frame arrives, and what it answers from one lookup to the
  // next after that: to the missing-block walk, and to the expansion.
  datatype Eyes = Eyes(store: Store, has: Oracle, walked: Resolve.Source, src: Resolve.Source)

  function Checked(h: RequestHead, body: Bytes): Result<Bytes, RebuildError> {
    if |body| != h.bodyLen || Digest(Raw, body) != h.bodyDigest then Err(Mismatch) else Ok(body)
  }

  function LimitsFor(h: RequestHead): Resolve.Limits {
    Resolve.Limits((h.bodyLen + 1) % TWO64, MAX_DEPTH)
  }

  function Rebuilt(eyes: Eyes, h: RequestHead, instrs: seq<Instr>, literal: Bytes): Result<Bytes, RebuildError> {
    if !h.split then Checked(h, literal)
    else
      var missing := LiveWalk(eyes.has, eyes.walked, MAX_INSTRS, [], RefsOf(instrs), 0);
      if missing != [] then Err(MissingBlocks(missing))
      else match Resolve.Expansion(eyes.src, LimitsFor(h), instrs)
        case Ok(body) => Checked(h, body)
        case Err(e) => if e.Missing? then Err(MissingBlocks([e.digest])) else Err(Mismatch)
  }

  method Rebuild(eyes: Eyes, h: RequestHead, instrs: seq<Instr>, literal: Bytes)
    returns (r: Result<Bytes, RebuildError>)
    ensures r == Rebuilt(eyes, h, instrs, literal)
  {
    var body := literal;
    if h.split {
      var missing := Programs.MissingBlocks(eyes.has, eyes.walked, instrs, MAX_INSTRS);
      if missing != [] {
        return Err(RebuildError.MissingBlocks(missing));
      }
      var run := Resolve.Run(eyes.src, LimitsFor(h), instrs);
      match run {
        case Ok(b) => body := b;
        case Err(e) =>
          return if e.Missing? then Err(RebuildError.MissingBlocks([e.digest])) else Err(Mismatch);
      }
    }
    return Checked(h, body);
  }

  // Over honest blocks, however they come and go, a program for the declared
  // body is rebuilt exactly or something really is absent: never a mismatch,
  // and a whole body needs nothing.
  lemma RebuildIsExact(eyes: Eyes, h: RequestHead, instrs: seq<Instr>, literal: Bytes, body: Bytes)
    requires HonestSource(eyes.src) && |body| < ALLOC_LIMIT
    requires h.bodyLen == |body| && h.bodyDigest == Digest(Raw, body)
    requires if h.split then Denotes(instrs, body) else literal == body
    ensures var r := Rebuilt(eyes, h, instrs, literal);
            || r == Ok(body)
            || (h.split && r.Err? && r.error.MissingBlocks? && r.error.digests != [] && |r.error.digests| <= MAX_INSTRS)
  {
    if h.split {
      Resolve.HonestExpansion(eyes.src, LimitsFor(h), instrs, body);
      LiveWalkReports(eyes.has, eyes.walked, MAX_INSTRS, [], RefsOf(instrs), 0);
    }
  }

  // ---------- The peer, frame by frame ----------

  // `repairs` is set while the peer waits for the blocks it asked for.
  datatype Remote = Remote(head: Option<RequestHead>, instrs: seq<Instr>, literal: Bytes, greeted: bool,
                           repairs: Option<nat>, open: bool)

  datatype Call = Call(head: RequestHead, body: Bytes)

  // `offered` is a block handed to the store, `cleared` an emptied store,
  // `call` what goes upstream.
  datatype RemoteOutcome = RemoteOutcome(remote: Remote, sent: seq<DownFrame>, offered: Option<Block>,
                                         cleared: bool, call: Option<Call>)

  // What the peer's surroundings answer while it handles one frame: the store,
  // its epoch and the snapshot of what it holds, whether pairing is on, and the
  // upstream, which may be unreachable.
  datatype World = World(eyes: Eyes, epoch: nat, snapshot: Blooms.Filter, paired: bool, upstream: Option<Reply>)

  const FRESH: Remote := Remote(None, [], [], false, None, true)

  function ChunkFrames(cs: seq<Bytes>): seq<DownFrame> {
    if cs == [] then [] else [ResponseBody(cs[0])] + ChunkFrames(cs[1..])
  }

  function ReplyFrames(reply: Reply, snapshot: Blooms.Filter): seq<DownFrame> {
    [ResponseHead(reply.status)] + ChunkFrames(reply.chunks) +
    (if reply.complete then [BloomFrame(snapshot), ResponseEnd] else [])
  }

  function Quietly(r: Remote): RemoteOutcome { RemoteOutcome(r, [], None, false, None) }

  function Closed(r: Remote, last: seq<DownFrame>): RemoteOutcome {
    RemoteOutcome(r.(open := false), last, None, false, None)
  }

  predicate Decodes(b: Block) { Codec.BlockPasses(b, MAX_INSTRS) }

  // Too large a frame, too long a program or a block that does not parse: the
  // peer drops the connection without a word.
  predicate Passes(f: UpFrame) {
    match f
    case Program(p) => Codec.ProgramPasses(p, MAX_INSTRS)
    case RequestBody(data) => |data| <= Codec.MAX_FRAME_PAYLOAD
    case BlockFrame(b) => Decodes(b)
    case _ => true
  }

  // A rebuilt body goes upstream and the answer is relayed.
  function Served(r: Remote, h: RequestHead, body: Bytes, w: World): RemoteOutcome {
    var r' := r.(literal := if h.split then r.literal else [], repairs := None);
    match w.upstream
    case None => Closed(r', []).(call := Some(Call(h, body)))
    case Some(reply) =>
      if reply.complete then
        RemoteOutcome(r'.(head := None, instrs := []), ReplyFrames(reply, w.snapshot), None, false, Some(Call(h, body)))
      else Closed(r', ReplyFrames(reply, w.snapshot)).(call := Some(Call(h, body)))
  }

  // One attempt at rebuilding, `n` rounds of repair in.
  function Attempted(r: Remote, h: RequestHead, n: nat, w: World): RemoteOutcome {
    match Rebuilt(w.eyes, h, r.instrs, r.literal)
    case Ok(body) => Served(r, h, body, w)
    case Err(MissingBlocks(ds)) =>
      if n + 1 > MAX_REPAIRS then Closed(r, [Fail(true)])
      else RemoteOutcome(r.(repairs := Some(n + 1)), [Need(ds)], None, false, None)
    case Err(Mismatch) => Closed(r.(literal := if h.split then r.literal else []), [Fail(false)])
  }

  function RepairStep(r: Remote, h: RequestHead, n: nat, f: UpFrame, w: World): RemoteOutcome {
    match f
    case BlockFrame(b) => if b.digest in w.eyes.store then Quietly(r) else Quietly(r).(offered := Some(b))
    case EndOfBody => Attempted(r, h, n, w)
    case _ => Closed(r, [])
  }

  function RequestStep(r: Remote, f: UpFrame, w: World): RemoteOutcome {
    match f
    case Hello(g) =>
      var ok := g.current && (g.proof || !w.paired);
      var ack := HelloAck(ok, |w.eyes.store|, w.epoch);
      if ok then RemoteOutcome(r.(greeted := true), [ack], None, false, None) else Closed(r, [ack])
    case Head(h) => if !r.greeted && w.paired then Closed(r, []) else Quietly(r.(head := Some(h)))
    case Program(p) => Quietly(r.(instrs := p))
    case RequestBody(data) =>
      if |r.literal| + |data| > MAX_BODY_BYTES then Closed(r, [])
      else Quietly(r.(literal := r.literal + data))
    case BlockFrame(b) => if b.digest in w.eyes.store then Quietly(r) else Quietly(r).(offered := Some(b))
    case EndOfBody => if r.head.None? then Closed(r, []) else Attempted(r, r.head.value, 0, w)
    case Reset => Quietly(r).(cleared := true)
  }

  // A closed peer reads nothing.
  function RemoteStep(r: Remote, f: UpFrame, w: World): RemoteOutcome {
    if !r.open then Quietly(r)
    else if !Passes(f) then Closed(r, [])
    else if r.repairs.Some? && r.head.Some? then RepairStep(r, r.head.value, r.repairs.value, f, w)
    else RequestStep(r, f, w)
  }

  // The peer closes a connection exactly when a frame does not decode, comes out
  // of order or past the size limit, when the greeting is refused or was needed,
  // when it gives up rebuilding, or when the upstream breaks off.
  lemma PeerCloses(r: Remote, f: UpFrame, w: World)
    requires r.open
    ensures var repairing := r.repairs.Some? && r.head.Some?;
            var ended := f.EndOfBody? && r.head.Some?;
            var made := if ended then Rebuilt(w.eyes, r.head.value, r.instrs, r.literal) else Err(Mismatch);
            var rounds := if repairing then r.repairs.value else 0;
            !RemoteStep(r, f, w).remote.open <==>
            || !Passes(f)
            || (repairing && !f.BlockFrame? && !f.EndOfBody?)
            || (!repairing && f.Hello? && !(f.greeting.current && (f.greeting.proof || !w.paired)))
            || (!repairing && f.Head? && w.paired && !r.greeted)
            || (!repairing && f.RequestBody? && |r.literal| + |f.data| > MAX_BODY_BYTES)
            || (f.EndOfBody? && r.head.None?)
            || (ended && made.Ok? && (w.upstream.None? || !w.upstream.value.complete))
            || (ended && made == Err(Mismatch))
            || (ended && made.Err? && made.error.MissingBlocks? && rounds + 1 > MAX_REPAIRS)
  {
    hide Rebuilt, ReplyFrames;
  }

  method Relay(reply: Reply, snapshot: Blooms.Filter) returns (sent: seq<DownFrame>)
    ensures sent == ReplyFrames(reply, snapshot)
  {
    sent := [ResponseHead(reply.status)];
    for k := 0 to |reply.chunks|
      invariant sent == [ResponseHead(reply.status)] + ChunkFrames(reply.chunks[..k])
    {
      ChunkFramesSnoc(reply.chunks, k);
      sent := sent + [ResponseBody(reply.chunks[k])];
    }
    assert reply.chunks[..|reply.chunks|] == reply.chunks;
    if reply.complete {
      sent := sent + [BloomFrame(snapshot)];
      sent := sent + [ResponseEnd];
    }
  }

  class RemoteEnd {
    var head: Option<RequestHead>
    var instrs: seq<Instr>
    var literal: Bytes
    var greeted: bool
    var repairs: Option<nat>
    var open: bool

    ghost function State(): Remote
      reads this
    {
      Remote(head, instrs, literal, greeted, repairs, open)
    }

    constructor ()
      ensures State() == FRESH
    {
      head, instrs, literal, greeted, repairs, open := None, [], [], false, None, true;
    }

    // Relay the upstream's answer, then be ready for the next request.
    method Serve(h: RequestHead, body: Bytes, w: World) returns (sent: seq<DownFrame>, call: Call)
      modifies this
      ensures RemoteOutcome(State(), sent, None, false, Some(call)) ==
              Served(old(State()), h, body, w)
    {
      sent, call := [], Call(h, body);
      repairs := None;
      if !h.split {
        literal := [];
      }
      match w.upstream {
        case None =>
          open := false;
        case Some(reply) =>
          sent := Relay(reply, w.snapshot);
          if reply.complete {
            instrs := [];
            head := None;
          } else {
            open := false;
          }
      }
    }

    method Attempt(h: RequestHead, n: nat, w: World) returns (sent: seq<DownFrame>, call: Option<Call>)
      modifies this
      ensures RemoteOutcome(State(), sent, None, false, call) == Attempted(old(State()), h, n, w)
    {
      hide Rebuilt, Served;
      call := None;
      var r := Rebuild(w.eyes, h, instrs, literal);
      match r {
        case Ok(body) =>
          ghost var was := State();
          var c;
          sent, c := Serve(h, body, w);
          call := Some(c);
        case Err(MissingBlocks(ds)) =>
          if n + 1 > MAX_REPAIRS {
            sent, open := [Fail(true)], false;
          } else {
            sent, repairs := [Need(ds)], Some(n + 1);
          }
        case Err(Mismatch) =>
          if !h.split {
            literal := [];
          }
          sent, open := [Fail(false)], false;
      }
    }

    method OnFrame(f: UpFrame, w: World)
      returns (sent: seq<DownFrame>, offered: Option<Block>, cleared: bool, call: Option<Call>)
      modifies this
      ensures RemoteOutcome(State(), sent, offered, cleared, call) == RemoteStep(old(State()), f, w)
    {
      hide Attempted;
      sent, offered, cleared, call := [], None, false, None;
      if !open {
        return;
      }
      if !Passes(f) {
        open := false;
        return;
      }
      if repairs.Some? && head.Some? {
        match f {
          case BlockFrame(b) =>
            if b.digest !in w.eyes.store {
              offered := Some(b);
            }
          case EndOfBody =>
            sent, call := Attempt(head.value, repairs.value, w);
          case _ =>
            open := false;
        }
        return;
      }
      match f {
        case Hello(g) =>
          var ok := g.current && (g.proof || !w.paired);
          sent := [HelloAck(ok, |w.eyes.store|, w.epoch)];
          if ok {
            greeted := true;
          } else {
            open := false;
          }
        case Head(h) =>
          if !greeted && w.paired {
            open := false;
          } else {
            head := Some(h);
          }
        case Program(p) =>
          instrs := p;
        case RequestBody(data) =>
          if |literal| + |data| > MAX_BODY_BYTES {
            open := false;
          } else {
            literal := literal + data;
          }
        case BlockFrame(b) =>
          if b.digest !in w.eyes.store {
            offered := Some(b);
          }
        case EndOfBody =>
          if head.None? {
            open := false;
          } else {
            sent, call := Attempt(head.value, 0, w);
          }
        case Reset =>
          cleared := true;
      }
    }
  }

  lemma ChunkFramesSnoc(cs: seq<Bytes>, k: nat)
    requires k < |cs|
    ensures ChunkFrames(cs[..k + 1]) == ChunkFrames(cs[..k]) + [ResponseBody(cs[k])]
  {
    assert cs[..k + 1] == cs[..k] + [cs[k]];
    ChunkFramesConcat(cs[..k], [cs[k]]);
    assert ChunkFrames([cs[k]][1..]) == [];
  }

  lemma {:induction false} ChunkFramesConcat(a: seq<Bytes>, b: seq<Bytes>)
    ensures ChunkFrames(a + b) == ChunkFrames(a) + ChunkFrames(b)
  {
    if a == [] {
      assert a + b == b;
    } else {
      assert (a + b)[1..] == a[1..] + b;
      ChunkFramesConcat(a[1..], b);
    }
  }

  // ---------- Driving one turn ----------

  datatype Drive = Drive(payload: Payload, attempts: nat)

  // After a failed attempt: whether to try again, and then always whole.
  function AfterFailure(d: Drive, e: SessionError, headSent: bool): (Drive, bool) {
    if FallbackToWhole(e) && d.attempts == 1 && d.payload.SplitPayload? && !headSent
    then (d.(payload := WholePayload), true)
    else (d, false)
  }

  class Driver {
    var payload: Payload
    var attempts: nat

    ghost function State(): Drive
      reads this
    {
      Drive(payload, attempts)
    }

    constructor (payload: Payload)
      ensures State() == Drive(payload, 0)
    {
      this.payload, attempts := payload, 0;
    }

    method Start()
      modifies this
      ensures State() == old(State()).(attempts := old(attempts) + 1)
    {
      attempts := attempts + 1;
    }

    method Failed(e: SessionError, headSent: bool) returns (retry: bool)
      modifies this
      ensures (State(), retry) == AfterFailure(old(State()), e, headSent)
    {
      var retryable := FallbackToWhole(e) && attempts == 1 && payload.SplitPayload? && !headSent;
      if !retryable {
        return false;
      }
      payload := WholePayload;
      return true;
    }
  }
}

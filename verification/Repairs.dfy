// What comes of one request. A whole body is always forwarded; for a split one
// on a quiet link, where the peer keeps what it is sent, the rounds of repair
// are known in advance, and so is whether it is forwarded at all.

module Repairs {
  import opened Results
  import opened Blocks
  import opened Programs
  import opened Session
  import Codec
  import Link
  import Resolve
  import Splitter

  // ---------- A whole body ----------

  datatype Feeding = Feeding(remote: Remote, sent: seq<DownFrame>, calls: seq<Call>)

  // The peer reading `up`, its surroundings changing from frame to frame.
  function Fed(r: Remote, up: seq<UpFrame>, ws: nat -> World, k: nat): Feeding
    decreases |up|
  {
    if up == [] then Feeding(r, [], [])
    else
      var o := RemoteStep(r, up[0], ws(k));
      var rest := Fed(o.remote, up[1..], ws, k + 1);
      Feeding(rest.remote, o.sent + rest.sent, (if o.call.Some? then [o.call.value] else []) + rest.calls)
  }

  lemma FedOne(r: Remote, f: UpFrame, up: seq<UpFrame>, ws: nat -> World, k: nat)
    ensures var o := RemoteStep(r, f, ws(k));
            var rest := Fed(o.remote, up, ws, k + 1);
            Fed(r, [f] + up, ws, k) ==
            Feeding(rest.remote, o.sent + rest.sent, (if o.call.Some? then [o.call.value] else []) + rest.calls)
  {
    assert ([f] + up)[1..] == up;
  }

  // A closed peer reads on without effect.
  lemma {:induction false} FedClosed(r: Remote, up: seq<UpFrame>, ws: nat -> World, k: nat)
    requires !r.open
    ensures Fed(r, up, ws, k) == Feeding(r, [], [])
    decreases |up|
  {
    if up != [] {
      FedClosed(r, up[1..], ws, k + 1);
    }
  }

  ghost predicate Quiet(sent: seq<DownFrame>) {
    forall f :: f in sent ==> !f.Need? && !f.Fail?
  }

  lemma {:induction false} ChunksFed(r: Remote, h: RequestHead, cs: seq<Bytes>, ws: nat -> World, k: nat, body: Bytes)
    requires r.open && r.repairs.None? && r.head == Some(h) && !h.split
    requires h.bodyLen == |body| && h.bodyDigest == Digest(Raw, body)
    requires body == r.literal + Link.Joined(cs) && |r.literal| <= MAX_BODY_BYTES
    requires forall c :: c in cs ==> |c| <= Codec.MAX_FRAME_PAYLOAD
    ensures var fed := Fed(r, BodyFrames(cs) + [EndOfBody], ws, k);
            && Quiet(fed.sent)
            && fed.calls == if |body| <= MAX_BODY_BYTES then [Call(h, body)] else []
    decreases |cs|
  {
    hide Fed;
    if cs == [] {
      assert r.literal == body;
      EndFed(r, h, ws, k, body);
      assert BodyFrames(cs) + [EndOfBody] == [EndOfBody];
    } else {
      var rest := BodyFrames(cs[1..]) + [EndOfBody];
      assert BodyFrames(cs) + [EndOfBody] == [RequestBody(cs[0])] + rest;
      FedOne(r, RequestBody(cs[0]), rest, ws, k);
      var grown := r.literal + cs[0];
      assert body == grown + Link.Joined(cs[1..]);
      if |grown| > MAX_BODY_BYTES {
        FedClosed(r.(open := false), rest, ws, k + 1);
      } else {
        ChunksFed(r.(literal := grown), h, cs[1..], ws, k + 1, body);
      }
    }
  }

  lemma EndFed(r: Remote, h: RequestHead, ws: nat -> World, k: nat, body: Bytes)
    requires r.open && r.repairs.None? && r.head == Some(h) && !h.split && r.literal == body
    requires h.bodyLen == |body| && h.bodyDigest == Digest(Raw, body)
    ensures var fed := Fed(r, [EndOfBody], ws, k); Quiet(fed.sent) && fed.calls == [Call(h, body)]
  {
    FedOne(r, EndOfBody, [], ws, k);
    assert [EndOfBody] + [] == [EndOfBody];
    var o := RemoteStep(r, EndOfBody, ws(k));
    assert o.call == Some(Call(h, body));
    if ws(k).upstream.Some? {
      Link.ReplyShape(ws(k).upstream.value, ws(k).snapshot);
    }
    assert o.sent + [] == o.sent;
  }

  lemma {:induction false} ChunksFit(body: Bytes, n: nat)
    requires n > 0
    ensures forall c :: c in Chunked(body, n) ==> |c| <= n
    decreases |body|
  {
    if |body| > n {
      ChunksFit(body[n..], n);
    }
  }

  lemma HeadedFed(r: Remote, job: Link.Job, ws: nat -> World, k: nat)
    requires r.open && Link.AtRest(r) && Link.JobOk(job) && job.payload.WholePayload?
    requires r.greeted || !ws(k).paired
    ensures var fed := Fed(r, [Head(job.head)] + (BodyFrames(Chunked(job.body, RELAY_CHUNK)) + [EndOfBody]), ws, k);
            && Quiet(fed.sent)
            && fed.calls == if |job.body| <= MAX_BODY_BYTES then [Call(job.head, job.body)] else []
  {
    hide Link.Joined, Fed, Chunked;
    var cs := Chunked(job.body, RELAY_CHUNK);
    Link.ChunkedJoins(job.body, RELAY_CHUNK);
    ChunksFit(job.body, RELAY_CHUNK);
    assert r.literal + Link.Joined(cs) == job.body;
    FedOne(r, Head(job.head), BodyFrames(cs) + [EndOfBody], ws, k);
    ChunksFed(r.(head := Some(job.head)), job.head, cs, ws, k + 1, job.body);
    var rest := Fed(r.(head := Some(job.head)), BodyFrames(cs) + [EndOfBody], ws, k + 1);
    assert [] + rest.sent == rest.sent && [] + rest.calls == rest.calls;
  }

  // The chunked whole-body path always passes the rebuild check, whatever the
  // stores hold: the peer forwards exactly the body, asks for nothing and
  // refuses nothing, if and only if the body is within the peer's size limit.
  // Nothing is forwarded otherwise.
  lemma WholeBodyIsForwarded(r: Remote, first: bool, greeting: Greeting, job: Link.Job, ws: nat -> World)
    requires r.open && Link.AtRest(r) && Link.JobOk(job) && job.payload.WholePayload?
    requires if first then greeting.current && (greeting.proof || forall k :: !ws(k).paired)
             else r.greeted || forall k :: !ws(k).paired
    ensures var fed := Fed(r, Upload(first, greeting, job.head, job.payload, job.body), ws, 0);
            && Quiet(fed.sent)
            && fed.calls == if |job.body| <= MAX_BODY_BYTES then [Call(job.head, job.body)] else []
  {
    hide Fed, Link.JobOk, Chunked;
    var up := [Head(job.head)] + (BodyFrames(Chunked(job.body, RELAY_CHUNK)) + [EndOfBody]);
    if first {
      HeadedFed(r.(greeted := true), job, ws, 1);
      GreetingFed(r, greeting, up, ws);
      assert [Hello(greeting)] + up == Upload(first, greeting, job.head, job.payload, job.body);
    } else {
      HeadedFed(r, job, ws, 0);
      assert up == Upload(first, greeting, job.head, job.payload, job.body);
    }
  }

  lemma GreetingFed(r: Remote, greeting: Greeting, up: seq<UpFrame>, ws: nat -> World)
    requires r.open && r.repairs.None? && greeting.current && (greeting.proof || !ws(0).paired)
    ensures var fed := Fed(r, [Hello(greeting)] + up, ws, 0);
            var rest := Fed(r.(greeted := true), up, ws, 1);
            && fed.sent == [HelloAck(true, |ws(0).eyes.store|, ws(0).epoch)] + rest.sent
            && fed.calls == rest.calls
  {
    FedOne(r, Hello(greeting), up, ws, 0);
  }

  // ---------- A split body on a quiet link ----------

  // A store nothing else touches.
  function Static(store: Store): Resolve.Source {
    (n, d) => if d in store then Some(store[d]) else None
  }

  // A peer whose store nothing else touches while it reads one frame.
  function Calm(store: Store): Eyes {
    Eyes(store, (n, d) => d in store, Static(store), Static(store))
  }

  ghost function Tops(instrs: seq<Instr>): set<Digest> { Elements(RefsOf(instrs)) }

  // What the blocks under `tops` nest, as this store has them.
  ghost function Under(store: Store, tops: set<Digest>): set<Digest> {
    set t, e | t in tops && e in Nested(store, t) :: e
  }

  // The peer's store once it has kept those of the digests the sender holds.
  ghost function Delivered(peer: Store, sender: Store, ds: set<Digest>): Store {
    map d | d in peer.Keys + (ds * sender.Keys) :: if d in peer then peer[d] else sender[d]
  }

  // Reading the answer to a Need: every block not held is kept.
  ghost function Kept(peer: Store, bs: seq<Block>): Store
    decreases |bs|
  {
    if bs == [] then peer
    else Kept(if bs[0].digest in peer then peer else peer[bs[0].digest := bs[0]], bs[1..])
  }

  lemma DeliveredStep(peer: Store, sender: Store, d: Digest, ds: set<Digest>)
    ensures var next := if d in sender && d !in peer then peer[d := sender[d]] else peer;
            Delivered(next, sender, ds) == Delivered(peer, sender, {d} + ds)
  {
  }

  lemma {:induction false} AnswerDelivers(peer: Store, sender: Store, ds: seq<Digest>, n: nat)
    requires HonestStore(sender)
    ensures Kept(peer, Held(Static(sender), n, ds)) == Delivered(peer, sender, Elements(ds))
    decreases |ds|
  {
    hide Honest, Delivered;
    if ds == [] {
      NoElements();
      NothingDelivered(peer, sender);
    } else {
      var d := ds[0];
      assert Elements(ds) == {d} + Elements(ds[1..]);
      var next := if d in sender && d !in peer then peer[d := sender[d]] else peer;
      AnswerDelivers(next, sender, ds[1..], n + 1);
      DeliveredStep(peer, sender, d, Elements(ds[1..]));
      var rest := Held(Static(sender), n + 1, ds[1..]);
      if d in sender {
        assert Held(Static(sender), n, ds) == [sender[d]] + rest && ([sender[d]] + rest)[1..] == rest;
      } else {
        assert Held(Static(sender), n, ds) == [] + rest == rest;
      }
    }
  }

  // The rounds a repair will take: one for all the top-level blocks the peer
  // lacks, then one for each nested block it still lacks.
  ghost function RoundsNeeded(peer: Store, sender: Store, instrs: seq<Instr>): nat {
    var lacking := Tops(instrs) - peer.Keys;
    var after := Delivered(peer, sender, lacking);
    (if lacking == {} then 0 else 1) + |Under(after, Tops(instrs)) - after.Keys|
  }

  // What the peer will ask for in those rounds.
  ghost function AskedFor(peer: Store, sender: Store, instrs: seq<Instr>): set<Digest> {
    var lacking := Tops(instrs) - peer.Keys;
    var after := Delivered(peer, sender, lacking);
    lacking + (Under(after, Tops(instrs)) - after.Keys)
  }

  // The sender holds everything the peer will ask for.
  ghost predicate Supplies(peer: Store, sender: Store, instrs: seq<Instr>) {
    var tops := Tops(instrs);
    var after := Delivered(peer, sender, tops - peer.Keys);
    tops <= after.Keys && Under(after, tops) <= after.Keys + sender.Keys
  }

  ghost predicate RebuiltAfter(peer: Store, sender: Store, h: RequestHead, instrs: seq<Instr>, n: nat)
    decreases n
  {
    match Rebuilt(Calm(peer), h, instrs, [])
    case Ok(_) => n == 0
    case Err(MissingBlocks(ds)) =>
      n > 0 && RebuiltAfter(Delivered(peer, sender, Elements(ds)), sender, h, instrs, n - 1)
    case Err(Mismatch) => false
  }

  // A head that announces exactly this split body.
  ghost predicate Declares(h: RequestHead, instrs: seq<Instr>, body: Bytes) {
    h.split && |body| < ALLOC_LIMIT && h.bodyLen == |body| && h.bodyDigest == Digest(Raw, body) && Denotes(instrs, body)
  }

  // A missing block is one the program leads to, and really absent.
  lemma {:induction false} MissingIsAbsent(store: Store, lim: Resolve.Limits, instrs: seq<Instr>, depth: nat,
                                           c: Resolve.Cursor, live: set<Digest>)
    requires Resolve.RefsIn(instrs, live)
    requires forall d :: d in live && d in store && store[d].body.ProgramBody? ==>
               Resolve.RefsIn(store[d].body.instrs, live)
    ensures var r := Resolve.ExpandAll(Static(store), lim, instrs, depth, c);
            r.Err? && r.error.Missing? ==> r.error.digest in live && r.error.digest !in store
    decreases Resolve.Room(depth, lim), 1 + |instrs|
  {
    if instrs != [] {
      var i, src := instrs[0], Static(store);
      if i.Ref? && depth <= lim.maxDepth && i.digest in store && store[i.digest].body.ProgramBody? {
        assert i.digest in live;
        MissingIsAbsent(store, lim, store[i.digest].body.instrs, depth + 1, c.(gets := c.gets + 1), live);
      }
      var r := Resolve.ExpandInstr(src, lim, i, depth, c);
      if r.Ok? {
        MissingIsAbsent(store, lim, instrs[1..], depth, r.value, live);
      }
    }
  }

  // A program that expands has all its blocks in place, and all they nest.
  lemma {:induction false} SuccessTouchesAll(store: Store, lim: Resolve.Limits, instrs: seq<Instr>, depth: nat,
                                             c: Resolve.Cursor)
    requires Resolve.ExpandAll(Static(store), lim, instrs, depth, c).Ok?
    ensures forall i :: i in instrs && i.Ref? ==> i.digest in store
    ensures forall i :: i in instrs && i.Ref? && store[i.digest].body.ProgramBody? ==>
              Resolve.RefsIn(store[i.digest].body.instrs, store.Keys)
    decreases Resolve.Room(depth, lim), 1 + |instrs|
  {
    if instrs != [] {
      var i, src := instrs[0], Static(store);
      var r := Resolve.ExpandInstr(src, lim, i, depth, c);
      assert instrs == [i] + instrs[1..];
      SuccessTouchesAll(store, lim, instrs[1..], depth, r.value);
      if i.Ref? && store[i.digest].body.ProgramBody? {
        SuccessTouchesAll(store, lim, store[i.digest].body.instrs, depth + 1, c.(gets := c.gets + 1));
      }
    }
  }

  lemma TopsAre(instrs: seq<Instr>, d: Digest)
    ensures d in Tops(instrs) <==> exists i :: i in instrs && i.Ref? && i.digest == d
  {
    RefsOfMembers(instrs, d);
  }

  // With the top level in place, an honest program leads no further than what
  // its blocks nest: payloads nest nothing.
  lemma LedTo(store: Store, instrs: seq<Instr>)
    requires HonestStore(store)
    ensures var live := Tops(instrs) + Under(store, Tops(instrs));
            && Resolve.RefsIn(instrs, live)
            && forall d :: d in live && d in store && store[d].body.ProgramBody? ==>
                 Resolve.RefsIn(store[d].body.instrs, live)
  {
    hide Denotes;
    var tops := Tops(instrs);
    var live := tops + Under(store, tops);
    forall i | i in instrs && i.Ref? ensures i.digest in live {
      TopsAre(instrs, i.digest);
    }
    forall d | d in live && d in store && store[d].body.ProgramBody?
      ensures Resolve.RefsIn(store[d].body.instrs, live)
    {
      var p := store[d].body.instrs;
      if d in tops {
        forall i | i in p && i.Ref? ensures i.digest in live {
          RefsOfMembers(p, i.digest);
          assert i.digest in Nested(store, d);
        }
      } else {
        var t :| t in tops && d in Nested(store, t);
        PayloadLevel(store, t, d);
        assert RefsBelow(p, 0);
      }
    }
  }

  lemma PayloadLevel(store: Store, t: Digest, d: Digest)
    requires HonestStore(store) && d in Nested(store, t)
    ensures Level(d) == 0
  {
    hide Denotes;
    var p := store[t].body.instrs;
    RefsOfMembers(p, d);
    var i :| i in p && i.Ref? && i.digest == d;
    assert Level(i.digest) < Level(t);
  }

  // With the top level in place, the peer asks for one nested block it lacks,
  // and is done when it lacks none.
  lemma TopsInPlace(peer: Store, h: RequestHead, instrs: seq<Instr>, body: Bytes)
    requires HonestStore(peer) && Declares(h, instrs, body) && Tops(instrs) <= peer.Keys
    ensures var lacking := Under(peer, Tops(instrs)) - peer.Keys;
            var r := Rebuilt(Calm(peer), h, instrs, []);
            if lacking == {} then r == Ok(body)
            else r.Err? && r.error.MissingBlocks? && |r.error.digests| == 1 && r.error.digests[0] in lacking
  {
    AllThere(peer, instrs);
    StaticHonest(peer);
    hide Under, Tops, Denotes, LiveWalk, Resolve.Expansion, HonestStore, HonestSource, Static;
    if Under(peer, Tops(instrs)) - peer.Keys == {} {
      NothingLacks(peer, LimitsFor(h), instrs, body);
    } else {
      OneLacks(peer, LimitsFor(h), instrs, body);
    }
  }

  lemma NothingLacks(peer: Store, lim: Resolve.Limits, instrs: seq<Instr>, body: Bytes)
    requires HonestStore(peer) && Denotes(instrs, body) && |body| <= lim.maxOut && lim.maxDepth >= 2
    requires Tops(instrs) <= peer.Keys && Under(peer, Tops(instrs)) - peer.Keys == {}
    ensures Resolve.Expansion(Static(peer), lim, instrs) == Ok(body)
  {
    hide Denotes, Honest, Resolve.Expansion, Under, Tops;
    StaticHonest(peer);
    LedTo(peer, instrs);
    var live := Tops(instrs) + Under(peer, Tops(instrs));
    forall d | d in live ensures d in peer {
      assert d !in Under(peer, Tops(instrs)) - peer.Keys;
    }
    Resolve.CompleteExpansion(Static(peer), lim, instrs, body, live);
  }

  lemma OneLacks(peer: Store, lim: Resolve.Limits, instrs: seq<Instr>, body: Bytes)
    requires HonestStore(peer) && Denotes(instrs, body) && |body| <= lim.maxOut && lim.maxDepth >= 2
    requires Tops(instrs) <= peer.Keys && Under(peer, Tops(instrs)) - peer.Keys != {}
    ensures var r := Resolve.Expansion(Static(peer), lim, instrs);
            r.Err? && r.error.Missing? && r.error.digest in Under(peer, Tops(instrs)) - peer.Keys
  {
    hide Denotes, Honest, Resolve.ExpandAll, Under, Tops, Static;
    var c := Resolve.Cursor([], 0);
    StaticHonest(peer);
    LedTo(peer, instrs);
    Resolve.HonestExpansion(Static(peer), lim, instrs, body);
    MissingIsAbsent(peer, lim, instrs, 1, c, Tops(instrs) + Under(peer, Tops(instrs)));
    var e :| e in Under(peer, Tops(instrs)) - peer.Keys;
    NotTouched(peer, lim, instrs, c, e);
  }

  lemma StaticHonest(store: Store)
    requires HonestStore(store)
    ensures HonestSource(Static(store))
    ensures forall n: nat, d :: Static(store)(n, d).Some? <==> d in store
  {
    hide Honest;
  }

  lemma CalmWalk(peer: Store, instrs: seq<Instr>)
    ensures LiveWalk(Calm(peer).has, Calm(peer).walked, MAX_INSTRS, [], RefsOf(instrs), 0) ==
            Walk(peer, d => d in peer, MAX_INSTRS, [], RefsOf(instrs))
  {
    SteadyWalk(Calm(peer).has, Calm(peer).walked, peer, d => d in peer, MAX_INSTRS, [], RefsOf(instrs), 0);
  }

  lemma AllThere(peer: Store, instrs: seq<Instr>)
    requires Tops(instrs) <= peer.Keys
    ensures LiveWalk(Calm(peer).has, Calm(peer).walked, MAX_INSTRS, [], RefsOf(instrs), 0) == []
  {
    CalmWalk(peer, instrs);
    MissingFromSelf(peer, d => d in peer, instrs, MAX_INSTRS);
    forall i | i in instrs && i.Ref? ensures i.digest in peer {
      TopsAre(instrs, i.digest);
    }
  }

  lemma NotTouched(peer: Store, lim: Resolve.Limits, instrs: seq<Instr>, c: Resolve.Cursor, e: Digest)
    requires Tops(instrs) <= peer.Keys && e in Tops(instrs) + Under(peer, Tops(instrs)) && e !in peer
    ensures Resolve.ExpandAll(Static(peer), lim, instrs, 1, c).Err?
  {
    if Resolve.ExpandAll(Static(peer), lim, instrs, 1, c).Ok? {
      SuccessTouchesAll(peer, lim, instrs, 1, c);
      var t :| t in Tops(instrs) && e in Nested(peer, t);
      TopsAre(instrs, t);
      RefsOfMembers(peer[t].body.instrs, e);
      assert false;
    }
  }

  lemma {:induction false} SetSize(s: seq<Digest>)
    ensures |Elements(s)| <= |s|
    ensures Distinct(s) ==> |Elements(s)| == |s|
  {
    if s == [] {
      assert Elements(s) == {};
    } else {
      SetSize(s[1..]);
      assert Elements(s) == {s[0]} + Elements(s[1..]);
      if Distinct(s) {
        assert s[0] !in Elements(s[1..]);
      }
    }
  }

  lemma SubsetOfSameSize(a: set<Digest>, b: set<Digest>)
    requires a <= b && |a| >= |b|
    ensures a == b
  {
    assert |b - a| == |b| - |a|;
  }

  lemma {:induction false} RefsNoLonger(instrs: seq<Instr>)
    ensures |RefsOf(instrs)| <= |instrs|
  {
    if instrs != [] {
      RefsNoLonger(instrs[1..]);
    }
  }

  // The first Need names exactly the top-level blocks the peer lacks.
  lemma FirstNeed(peer: Store, instrs: seq<Instr>)
    requires |instrs| <= MAX_INSTRS
    ensures Elements(Walk(peer, d => d in peer, MAX_INSTRS, [], RefsOf(instrs))) == Tops(instrs) - peer.Keys
  {
    var r := Walk(peer, d => d in peer, MAX_INSTRS, [], RefsOf(instrs));
    var lacking := Tops(instrs) - peer.Keys;
    MissingFromSelf(peer, d => d in peer, instrs, MAX_INSTRS);
    MissingIsLeastCover(peer, d => d in peer, instrs, MAX_INSTRS);
    assert Elements(r) <= lacking;
    if |r| < MAX_INSTRS {
      assert lacking <= Elements(r);
    } else {
      SetSize(r);
      SetSize(RefsOf(instrs));
      RefsNoLonger(instrs);
      SubsetCounts(lacking, Tops(instrs));
      SubsetOfSameSize(Elements(r), lacking);
    }
  }

  lemma DeliveredHonest(peer: Store, sender: Store, ds: set<Digest>)
    requires HonestStore(peer) && HonestStore(sender)
    ensures HonestStore(Delivered(peer, sender, ds))
  {
    hide Honest;
  }

  lemma OneMoreRound(peer: Store, sender: Store, h: RequestHead, instrs: seq<Instr>, n: nat)
    requires var r := Rebuilt(Calm(peer), h, instrs, []);
             && r.Err? && r.error.MissingBlocks?
             && RebuiltAfter(Delivered(peer, sender, Elements(r.error.digests)), sender, h, instrs, n)
    ensures RebuiltAfter(peer, sender, h, instrs, n + 1)
    ensures var ds := Elements(Rebuilt(Calm(peer), h, instrs, []).error.digests);
            CleanAfter(peer, sender, h, instrs, n + 1) <==>
            DigestsDecode(sender, ds) && CleanAfter(Delivered(peer, sender, ds), sender, h, instrs, n)
  {
    hide Rebuilt, Delivered, Elements, Calm, DigestsDecode;
  }

  lemma OneFewer(ds: set<Digest>, d: Digest)
    requires d in ds
    ensures |ds - {d}| == |ds| - 1 && {d} + (ds - {d}) == ds
  {
  }

  lemma DecodeBoth(sender: Store, a: set<Digest>, b: set<Digest>)
    ensures DigestsDecode(sender, a + b) <==> DigestsDecode(sender, a) && DigestsDecode(sender, b)
  {
    hide Decodes;
  }

  lemma DecodeNone(sender: Store)
    ensures DigestsDecode(sender, {})
  {
  }

  lemma NoMoreRounds(peer: Store, sender: Store, h: RequestHead, instrs: seq<Instr>)
    requires Rebuilt(Calm(peer), h, instrs, []).Ok?
    ensures RebuiltAfter(peer, sender, h, instrs, 0) && CleanAfter(peer, sender, h, instrs, 0)
  {
    hide Rebuilt;
  }

  lemma NestedStep(peer: Store, sender: Store, tops: set<Digest>, d: Digest)
    requires tops <= peer.Keys && Under(peer, tops) <= peer.Keys + sender.Keys
    requires d in Under(peer, tops) && d !in peer
    ensures var next := Delivered(peer, sender, {d});
            && tops <= next.Keys && Under(next, tops) <= next.Keys + sender.Keys
            && Under(next, tops) - next.Keys == (Under(peer, tops) - peer.Keys) - {d}
  {
    SameUnder(peer, Delivered(peer, sender, {d}), tops);
    hide Under;
  }

  // The nested rounds: one block each, and no block brings new ones along.
  lemma {:induction false} NestedRounds(peer: Store, sender: Store, h: RequestHead, instrs: seq<Instr>, body: Bytes)
    requires HonestStore(peer) && HonestStore(sender) && Declares(h, instrs, body) && Tops(instrs) <= peer.Keys
    requires Under(peer, Tops(instrs)) <= peer.Keys + sender.Keys
    ensures var lacking := Under(peer, Tops(instrs)) - peer.Keys;
            && RebuiltAfter(peer, sender, h, instrs, |lacking|)
            && (CleanAfter(peer, sender, h, instrs, |lacking|) <==> DigestsDecode(sender, lacking))
    decreases |Under(peer, Tops(instrs)) - peer.Keys|
  {
    hide *;
    var lacking := Under(peer, Tops(instrs)) - peer.Keys;
    TopsInPlace(peer, h, instrs, body);
    if lacking != {} {
      var ds := Rebuilt(Calm(peer), h, instrs, []).error.digests;
      OneElement(ds);
      DeliveredHonest(peer, sender, {ds[0]});
      NestedStep(peer, sender, Tops(instrs), ds[0]);
      OneFewer(lacking, ds[0]);
      NestedRounds(Delivered(peer, sender, {ds[0]}), sender, h, instrs, body);
      OneMoreRound(peer, sender, h, instrs, |lacking| - 1);
      DecodeBoth(sender, {ds[0]}, lacking - {ds[0]});
    } else {
      NoMoreRounds(peer, sender, h, instrs);
      DecodeNone(sender);
    }
  }

  lemma SameUnder(peer: Store, next: Store, tops: set<Digest>)
    requires tops <= peer.Keys && forall d :: d in peer ==> d in next && next[d] == peer[d]
    ensures Under(next, tops) == Under(peer, tops)
  {
    forall t | t in tops ensures Nested(next, t) == Nested(peer, t) {
    }
  }

  // Repair takes exactly the rounds known in advance, asking for exactly the
  // digests known in advance.
  lemma RepairTakes(peer: Store, sender: Store, h: RequestHead, instrs: seq<Instr>, body: Bytes)
    requires HonestStore(peer) && HonestStore(sender) && Declares(h, instrs, body) && |instrs| <= MAX_INSTRS
    requires Supplies(peer, sender, instrs)
    ensures RebuiltAfter(peer, sender, h, instrs, RoundsNeeded(peer, sender, instrs))
    ensures CleanAfter(peer, sender, h, instrs, RoundsNeeded(peer, sender, instrs)) <==>
            DigestsDecode(sender, AskedFor(peer, sender, instrs))
  {
    var lacking := Tops(instrs) - peer.Keys;
    var after := Delivered(peer, sender, lacking);
    if lacking != {} {
      FirstRound(peer, h, instrs);
    }
    hide Rebuilt, HonestStore, Denotes, Under, Tops, Calm, Delivered, RebuiltAfter, CleanAfter, DigestsDecode, Elements;
    DeliveredHonest(peer, sender, lacking);
    NestedRounds(after, sender, h, instrs, body);
    DecodeBoth(sender, lacking, Under(after, Tops(instrs)) - after.Keys);
    if lacking == {} {
      NothingDelivered(peer, sender);
      DecodeNone(sender);
    } else {
      OneMoreRound(peer, sender, h, instrs, |Under(after, Tops(instrs)) - after.Keys|);
    }
  }

  lemma FirstRound(peer: Store, h: RequestHead, instrs: seq<Instr>)
    requires h.split && |instrs| <= MAX_INSTRS && Tops(instrs) - peer.Keys != {}
    ensures var r := Rebuilt(Calm(peer), h, instrs, []);
            r.Err? && r.error.MissingBlocks? && Elements(r.error.digests) == Tops(instrs) - peer.Keys
  {
    hide Walk, LiveWalk, RefsOf, Tops, Resolve.Expansion, Elements;
    FirstNeed(peer, instrs);
    CalmWalk(peer, instrs);
    NoElements();
  }

  lemma NothingDelivered(peer: Store, sender: Store)
    ensures Delivered(peer, sender, {}) == peer
  {
  }

  lemma OneElement(ds: seq<Digest>)
    requires |ds| == 1
    ensures Elements(ds) == {ds[0]}
  {
  }

  lemma NoElements()
    ensures Elements([]) == {}
  {
  }

  // Only absent digests the program can lead to are ever asked for.
  lemma AskedAreAbsent(peer: Store, h: RequestHead, instrs: seq<Instr>, universe: set<Digest>)
    requires h.split && Resolve.RefsIn(instrs, universe)
    requires forall d :: d in universe && d in peer && peer[d].body.ProgramBody? ==>
               Resolve.RefsIn(peer[d].body.instrs, universe)
    requires var r := Rebuilt(Calm(peer), h, instrs, []); r.Err? && r.error.MissingBlocks?
    ensures var ds := Rebuilt(Calm(peer), h, instrs, []).error.digests;
            ds != [] && forall d :: d in ds ==> d in universe && d !in peer
  {
    var missing := Walk(peer, d => d in peer, MAX_INSTRS, [], RefsOf(instrs));
    var ds := Rebuilt(Calm(peer), h, instrs, []).error.digests;
    MissingFromSelf(peer, d => d in peer, instrs, MAX_INSTRS);
    CalmWalk(peer, instrs);
    MissingIsAbsent(peer, LimitsFor(h), instrs, 1, Resolve.Cursor([], 0), universe);
    forall d | d in ds ensures d in universe && d !in peer {
      if missing != [] {
        TopsAre(instrs, d);
      }
    }
  }

  lemma DeliveryShrinks(peer: Store, sender: Store, ds: seq<Digest>, universe: set<Digest>)
    requires ds != [] && forall d :: d in ds ==> d in universe && d !in peer && d in sender
    ensures |universe - Delivered(peer, sender, Elements(ds)).Keys| < |universe - peer.Keys|
  {
    var after := Delivered(peer, sender, Elements(ds));
    assert ds[0] in Elements(ds);
    assert universe - after.Keys <= (universe - peer.Keys) - {ds[0]};
    SubsetCounts(universe - after.Keys, (universe - peer.Keys) - {ds[0]});
  }

  // Every answered round leaves strictly fewer absent digests among those the
  // program can lead to, so repair makes progress.
  lemma RoundMakesProgress(peer: Store, sender: Store, h: RequestHead, instrs: seq<Instr>, universe: set<Digest>)
    requires h.split && Resolve.RefsIn(instrs, universe)
    requires forall d :: d in universe && d in peer && peer[d].body.ProgramBody? ==>
               Resolve.RefsIn(peer[d].body.instrs, universe)
    requires var r := Rebuilt(Calm(peer), h, instrs, []);
             r.Err? && r.error.MissingBlocks? && forall d :: d in r.error.digests ==> d in sender
    ensures var ds := Elements(Rebuilt(Calm(peer), h, instrs, []).error.digests);
            && ds <= universe && ds !! peer.Keys
            && |universe - Delivered(peer, sender, ds).Keys| < |universe - peer.Keys|
  {
    hide Rebuilt, Static, Delivered;
    AskedAreAbsent(peer, h, instrs, universe);
    DeliveryShrinks(peer, sender, Rebuilt(Calm(peer), h, instrs, []).error.digests, universe);
  }

  // ---------- Both ends together ----------

  datatype Reading = Reading(remote: Remote, store: Store, sent: seq<DownFrame>, calls: seq<Call>)

  // The store after one frame, when it keeps every block it is offered.
  function Stored(peer: Store, o: RemoteOutcome): Store {
    if o.cleared then map[]
    else if o.offered.Some? then peer[o.offered.value.digest := o.offered.value] else peer
  }

  // The peer reading `up` frame by frame, nothing else touching its store.
  function Read(r: Remote, up: seq<UpFrame>, peer: Store, w: World): Reading
    decreases |up|
  {
    if up == [] then Reading(r, peer, [], [])
    else
      var o := RemoteStep(r, up[0], w.(eyes := Calm(peer)));
      var rest := Read(o.remote, up[1..], Stored(peer, o), w);
      Reading(rest.remote, rest.store, o.sent + rest.sent, (if o.call.Some? then [o.call.value] else []) + rest.calls)
  }

  datatype Hearing = Hearing(local: Local, sent: seq<UpFrame>, done: bool)

  // The sender answers a Need, within the bound, and nothing else.
  lemma SendsOnNeed(l: Local, f: DownFrame, src: Resolve.Source)
    ensures var o := LocalStep(l, f, src, true);
            o.result.None? ==>
              if o.sent == [] then o.local.repairs == l.repairs else l.repairs < o.local.repairs <= MAX_REPAIRS
  {
    if f.Need? {
      AnswerEnds(src, f.digests);
    }
    hide Answer;
  }

  lemma AnswerEnds(src: Resolve.Source, ds: seq<Digest>)
    ensures Answer(src, ds) != []
  {
  }

  // The sender reading what came back, until the request is over.
  function Hear(l: Local, down: seq<DownFrame>, src: Resolve.Source): (a: Hearing)
    ensures !a.done && a.sent == [] ==> a.local.repairs == l.repairs
    ensures !a.done && a.sent != [] ==> l.repairs < a.local.repairs <= MAX_REPAIRS
    decreases |down|
  {
    if down == [] then Hearing(l, [], false)
    else
      SendsOnNeed(l, down[0], src);
      var o := LocalStep(l, down[0], src, true);
      if o.result.Some? then Hearing(o.local, o.sent, true)
      else
        var rest := Hear(o.local, down[1..], src);
        Hearing(rest.local, o.sent + rest.sent, rest.done)
  }

  // The two ends in turn, until a body goes upstream or one of them stops.
  function Talk(l: Local, r: Remote, up: seq<UpFrame>, peer: Store, sender: Store, w: World): seq<Call>
    requires l.repairs <= MAX_REPAIRS
    decreases MAX_REPAIRS - l.repairs
  {
    var read := Read(r, up, peer, w);
    var heard := Hear(l, read.sent, Static(sender));
    if read.calls != [] || heard.done || heard.sent == [] then read.calls
    else Talk(heard.local, read.remote, heard.sent, read.store, sender, w)
  }

  lemma ReadOne(r: Remote, f: UpFrame, up: seq<UpFrame>, peer: Store, w: World)
    ensures var o := RemoteStep(r, f, w.(eyes := Calm(peer)));
            var rest := Read(o.remote, up, Stored(peer, o), w);
            Read(r, [f] + up, peer, w) ==
            Reading(rest.remote, rest.store, o.sent + rest.sent,
                    (if o.call.Some? then [o.call.value] else []) + rest.calls)
  {
    hide RemoteStep;
    assert ([f] + up)[1..] == up;
  }

  lemma {:induction false} ReadClosed(r: Remote, up: seq<UpFrame>, peer: Store, w: World)
    requires !r.open
    ensures Read(r, up, peer, w) == Reading(r, peer, [], [])
    decreases |up|
  {
    if up != [] {
      ReadClosed(r, up[1..], peer, w);
    }
  }

  // A frame that only changes what the peer keeps.
  lemma ReadQuietly(r: Remote, f: UpFrame, up: seq<UpFrame>, peer: Store, w: World)
    requires var o := RemoteStep(r, f, w.(eyes := Calm(peer))); o.sent == [] && o.call.None?
    ensures var o := RemoteStep(r, f, w.(eyes := Calm(peer)));
            Read(r, [f] + up, peer, w) == Read(o.remote, up, Stored(peer, o), w)
  {
    ReadOne(r, f, up, peer, w);
    hide RemoteStep, Read, Stored;
    var o := RemoteStep(r, f, w.(eyes := Calm(peer)));
    var rest := Read(o.remote, up, Stored(peer, o), w);
    assert [] + rest.sent == rest.sent && [] + rest.calls == rest.calls;
  }

  lemma SameTalk(l: Local, r: Remote, up: seq<UpFrame>, peer: Store, r': Remote, up': seq<UpFrame>, peer': Store,
                 sender: Store, w: World)
    requires l.repairs <= MAX_REPAIRS && Read(r, up, peer, w) == Read(r', up', peer', w)
    ensures Talk(l, r, up, peer, sender, w) == Talk(l, r', up', peer', sender, w)
  {
    hide Read, Hear;
  }

  lemma NothingMore(l: Local, r: Remote, up: seq<UpFrame>, peer: Store, sender: Store, w: World)
    requires l.repairs <= MAX_REPAIRS && Read(r, up, peer, w).sent == []
    ensures Talk(l, r, up, peer, sender, w) == Read(r, up, peer, w).calls
  {
    hide Read;
  }

  // ---------- Blocks on their way ----------

  ghost predicate AllDecode(bs: seq<Block>) {
    forall b :: b in bs ==> Decodes(b)
  }

  lemma BlockRead(r: Remote, b: Block, rest: seq<UpFrame>, peer: Store, w: World)
    requires r.open && (r.repairs.Some? ==> r.head.Some?)
    ensures Read(r, [BlockFrame(b)] + rest, peer, w) ==
            if Decodes(b) then Read(r, rest, if b.digest in peer then peer else peer[b.digest := b], w)
            else Reading(r.(open := false), peer, [], [])
  {
    hide Decodes, Read;
    ReadQuietly(r, BlockFrame(b), rest, peer, w);
    if !Decodes(b) {
      ReadClosed(r.(open := false), rest, peer, w);
    }
  }

  // Blocks sent to a peer are kept, if every one of them gets across; one that
  // does not ends the connection without a word.
  lemma {:induction false} BlocksRead(r: Remote, bs: seq<Block>, rest: seq<UpFrame>, peer: Store, w: World)
    requires r.open && (r.repairs.Some? ==> r.head.Some?)
    ensures AllDecode(bs) ==> Read(r, BlockFrames(bs) + rest, peer, w) == Read(r, rest, Kept(peer, bs), w)
    ensures !AllDecode(bs) ==> Read(r, BlockFrames(bs) + rest, peer, w).sent == []
                               && Read(r, BlockFrames(bs) + rest, peer, w).calls == []
    decreases |bs|
  {
    hide Decodes, Read;
    if bs == [] {
      assert BlockFrames(bs) + rest == rest;
    } else {
      var b, tail := bs[0], BlockFrames(bs[1..]) + rest;
      assert BlockFrames(bs) + rest == [BlockFrame(b)] + tail;
      assert bs == [b] + bs[1..];
      BlockRead(r, b, tail, peer, w);
      BlocksRead(r, bs[1..], rest, if b.digest in peer then peer else peer[b.digest := b], w);
    }
  }

  // Reading the answer to a Need through the peer's own frame step: what the
  // sender holds of it is kept if all of it gets across, and otherwise the
  // connection ends.
  lemma AnswerIsRead(r: Remote, ds: seq<Digest>, peer: Store, sender: Store, w: World)
    requires HonestStore(sender) && r.open && r.repairs.Some? && r.head.Some?
    ensures var read := Read(r, Answer(Static(sender), ds), peer, w);
            if DigestsDecode(sender, Elements(ds))
            then read == Read(r, [EndOfBody], Delivered(peer, sender, Elements(ds)), w)
            else read.sent == [] && read.calls == []
  {
    hide Read, HonestStore, Delivered, DigestsDecode, AllDecode;
    BlocksRead(r, Held(Static(sender), 0, ds), [EndOfBody], peer, w);
    AnswerDelivers(peer, sender, ds, 0);
    HeldDecodes(sender, 0, ds);
  }

  // Every one of these blocks, as the sender has it, gets across.
  ghost predicate DigestsDecode(sender: Store, ds: set<Digest>) {
    forall d :: d in ds && d in sender ==> Decodes(sender[d])
  }

  lemma {:induction false} HeldDecodes(sender: Store, n: nat, ds: seq<Digest>)
    ensures AllDecode(Held(Static(sender), n, ds)) <==> DigestsDecode(sender, Elements(ds))
    decreases |ds|
  {
    hide Decodes;
    if ds != [] {
      HeldDecodes(sender, n + 1, ds[1..]);
      assert ds == [ds[0]] + ds[1..];
      assert Elements(ds) == {ds[0]} + Elements(ds[1..]);
      var rest := Held(Static(sender), n + 1, ds[1..]);
      assert ds[0] in sender ==> Held(Static(sender), n, ds) == [sender[ds[0]]] + rest;
      assert ds[0] !in sender ==> Held(Static(sender), n, ds) == rest;
    }
  }

  // ---------- One round after another ----------

  // The peer at an end of body, `n` rounds in, for a split body.
  ghost predicate AtEnd(l: Local, r: Remote, h: RequestHead, n: nat) {
    && n <= MAX_REPAIRS && l.repairs == n && h.split
    && r.open && r.head == Some(h) && r.literal == []
    && r.repairs == (if n == 0 then None else Some(n))
  }

  lemma EndIsRead(l: Local, r: Remote, h: RequestHead, n: nat, peer: Store, w: World)
    requires AtEnd(l, r, h, n)
    ensures var o := Attempted(r, h, n, w.(eyes := Calm(peer)));
            Read(r, [EndOfBody], peer, w) ==
            Reading(o.remote, peer, o.sent, if o.call.Some? then [o.call.value] else [])
  {
    hide Rebuilt;
    ReadOne(r, EndOfBody, [], peer, w);
    assert [EndOfBody] + [] == [EndOfBody];
    var o := Attempted(r, h, n, w.(eyes := Calm(peer)));
    assert o.sent + [] == o.sent;
  }

  // What one attempt leads to: the call, the end, or one more round.
  lemma EndTalk(l: Local, r: Remote, h: RequestHead, n: nat, peer: Store, sender: Store, w: World, body: Bytes)
    requires AtEnd(l, r, h, n) && Declares(h, r.instrs, body) && HonestStore(peer)
    ensures var rebuilt := Rebuilt(Calm(peer), h, r.instrs, []);
            && (rebuilt.Ok? ==> Talk(l, r, [EndOfBody], peer, sender, w) == [Call(h, body)])
            && (rebuilt.Err? ==>
                  && rebuilt.error.MissingBlocks?
                  && Talk(l, r, [EndOfBody], peer, sender, w) ==
                     if n == MAX_REPAIRS then []
                     else Talk(l.(repairs := n + 1), r.(repairs := Some(n + 1)),
                               Answer(Static(sender), rebuilt.error.digests), peer, sender, w))
  {
    hide *;
    BoundIs(l, r, h, n);
    AttemptReads(l, r, h, n, peer, w, body);
    var rebuilt := Rebuilt(Calm(peer), h, r.instrs, []);
    if rebuilt.Ok? {
      CalledTalk(l, r, [EndOfBody], peer, sender, w);
    } else if n == MAX_REPAIRS {
      FailedTalk(l, r, [EndOfBody], peer, sender, w);
    } else {
      AskedTalk(l, r, [EndOfBody], peer, sender, w, r.(repairs := Some(n + 1)), rebuilt.error.digests);
    }
  }

  lemma AttemptReads(l: Local, r: Remote, h: RequestHead, n: nat, peer: Store, w: World, body: Bytes)
    requires AtEnd(l, r, h, n) && Declares(h, r.instrs, body) && HonestStore(peer)
    ensures var rebuilt, read := Rebuilt(Calm(peer), h, r.instrs, []), Read(r, [EndOfBody], peer, w);
            && (rebuilt.Ok? ==> read.calls == [Call(h, body)])
            && (rebuilt.Err? ==>
                  && rebuilt.error.MissingBlocks? && |rebuilt.error.digests| <= MAX_INSTRS
                  && if n == MAX_REPAIRS then read.calls == [] && read.sent == [Fail(true)]
                     else read == Reading(r.(repairs := Some(n + 1)), peer, [Need(rebuilt.error.digests)], []))
  {
    hide Rebuilt, Read, Denotes, HonestStore, HonestSource, Calm;
    EndIsRead(l, r, h, n, peer, w);
    StaticHonest(peer);
    RebuildIsExact(Calm(peer), h, r.instrs, [], body) by { CalmIsStatic(peer); }
  }

  lemma CalmIsStatic(peer: Store)
    ensures Calm(peer).src == Static(peer)
  {
  }

  lemma CalledTalk(l: Local, r: Remote, up: seq<UpFrame>, peer: Store, sender: Store, w: World)
    requires l.repairs <= MAX_REPAIRS && Read(r, up, peer, w).calls != []
    ensures Talk(l, r, up, peer, sender, w) == Read(r, up, peer, w).calls
  {
    hide Read, Hear;
  }

  lemma FailedTalk(l: Local, r: Remote, up: seq<UpFrame>, peer: Store, sender: Store, w: World)
    requires l.repairs <= MAX_REPAIRS
    requires var read := Read(r, up, peer, w); read.calls == [] && read.sent == [Fail(true)]
    ensures Talk(l, r, up, peer, sender, w) == []
  {
    hide Read;
    HearOne(l, Fail(true), Static(sender));
  }

  lemma AskedTalk(l: Local, r: Remote, up: seq<UpFrame>, peer: Store, sender: Store, w: World, r': Remote,
                  ds: seq<Digest>)
    requires l.repairs < MAX_REPAIRS && |ds| <= MAX_INSTRS && Read(r, up, peer, w) == Reading(r', peer, [Need(ds)], [])
    ensures Talk(l, r, up, peer, sender, w) ==
            Talk(l.(repairs := l.repairs + 1), r', Answer(Static(sender), ds), peer, sender, w)
  {
    hide Read, Answer, Static;
    HearOne(l, Need(ds), Static(sender));
    AnswerEnds(Static(sender), ds);
  }

  lemma HearOne(l: Local, f: DownFrame, src: Resolve.Source)
    ensures var o := LocalStep(l, f, src, true);
            Hear(l, [f], src) == Hearing(o.local, o.sent, o.result.Some?)
  {
    hide LocalStep;
    var o := LocalStep(l, f, src, true);
    assert [f][1..] == [] && o.sent + [] == o.sent;
  }

  // A round that is asked for: the answer gets across and the peer tries again
  // with what it was given, or the conversation is over.
  lemma RoundTalk(l: Local, r: Remote, h: RequestHead, n: nat, peer: Store, sender: Store, w: World, body: Bytes)
    requires AtEnd(l, r, h, n) && Declares(h, r.instrs, body) && HonestStore(peer) && HonestStore(sender)
    requires Rebuilt(Calm(peer), h, r.instrs, []).Err?
    ensures Rebuilt(Calm(peer), h, r.instrs, []).error.MissingBlocks?
    ensures var ds := Elements(Rebuilt(Calm(peer), h, r.instrs, []).error.digests);
            var l', r' := l.(repairs := n + 1), r.(repairs := Some(n + 1));
            && (n < MAX_REPAIRS ==> AtEnd(l', r', h, n + 1))
            && Talk(l, r, [EndOfBody], peer, sender, w) ==
               if n < MAX_REPAIRS && DigestsDecode(sender, ds)
               then Talk(l', r', [EndOfBody], Delivered(peer, sender, ds), sender, w) else []
  {
    hide Rebuilt, Read, Talk, Answer, Elements, Declares, HonestStore, DigestsDecode, Delivered, Static;
    EndTalk(l, r, h, n, peer, sender, w, body);
    if n < MAX_REPAIRS {
      var ds := Rebuilt(Calm(peer), h, r.instrs, []).error.digests;
      var l', r' := l.(repairs := n + 1), r.(repairs := Some(n + 1));
      var up := Answer(Static(sender), ds);
      AnswerIsRead(r', ds, peer, sender, w);
      if DigestsDecode(sender, Elements(ds)) {
        SameTalk(l', r', up, peer, r', [EndOfBody], Delivered(peer, sender, Elements(ds)), sender, w);
      } else {
        NothingMore(l', r', up, peer, sender, w);
      }
    }
  }

  // Everything delivered in `m` rounds gets across.
  ghost predicate CleanAfter(peer: Store, sender: Store, h: RequestHead, instrs: seq<Instr>, m: nat)
    decreases m
  {
    m > 0 ==>
      match Rebuilt(Calm(peer), h, instrs, [])
      case Err(MissingBlocks(ds)) =>
        && DigestsDecode(sender, Elements(ds))
        && CleanAfter(Delivered(peer, sender, Elements(ds)), sender, h, instrs, m - 1)
      case _ => true
  }

  lemma {:induction false} RoundsTalk(l: Local, r: Remote, h: RequestHead, n: nat, peer: Store, sender: Store, w: World,
                                      body: Bytes, m: nat)
    requires AtEnd(l, r, h, n) && Declares(h, r.instrs, body) && HonestStore(peer) && HonestStore(sender)
    requires RebuiltAfter(peer, sender, h, r.instrs, m)
    ensures Talk(l, r, [EndOfBody], peer, sender, w) ==
            if n + m <= MAX_REPAIRS && CleanAfter(peer, sender, h, r.instrs, m) then [Call(h, body)] else []
    decreases m
  {
    BoundIs(l, r, h, n);
    hide *;
    if m == 0 {
      NoRound(l, r, h, n, peer, sender, w, body);
    } else {
      var next, clean := OneRound(l, r, h, n, peer, sender, w, body, m);
      if n < MAX_REPAIRS {
        RoundsTalk(l.(repairs := n + 1), r.(repairs := Some(n + 1)), h, n + 1, next, sender, w, body, m - 1);
      }
    }
  }

  lemma NoRound(l: Local, r: Remote, h: RequestHead, n: nat, peer: Store, sender: Store, w: World, body: Bytes)
    requires AtEnd(l, r, h, n) && Declares(h, r.instrs, body) && HonestStore(peer)
    requires RebuiltAfter(peer, sender, h, r.instrs, 0)
    ensures Talk(l, r, [EndOfBody], peer, sender, w) == [Call(h, body)] && CleanAfter(peer, sender, h, r.instrs, 0)
  {
    hide *;
    RoundStep(peer, sender, h, r.instrs, 0);
    EndTalk(l, r, h, n, peer, sender, w, body);
  }

  // The peer's store after one round, and whether that round gets across.
  lemma OneRound(l: Local, r: Remote, h: RequestHead, n: nat, peer: Store, sender: Store, w: World, body: Bytes, m: nat)
    returns (next: Store, clean: bool)
    requires AtEnd(l, r, h, n) && Declares(h, r.instrs, body) && HonestStore(peer) && HonestStore(sender)
    requires m > 0 && RebuiltAfter(peer, sender, h, r.instrs, m)
    ensures HonestStore(next) && RebuiltAfter(next, sender, h, r.instrs, m - 1)
    ensures CleanAfter(peer, sender, h, r.instrs, m) <==> clean && CleanAfter(next, sender, h, r.instrs, m - 1)
    ensures var l', r' := l.(repairs := n + 1), r.(repairs := Some(n + 1));
            && (n < MAX_REPAIRS ==> AtEnd(l', r', h, n + 1))
            && Talk(l, r, [EndOfBody], peer, sender, w) ==
               if n < MAX_REPAIRS && clean then Talk(l', r', [EndOfBody], next, sender, w) else []
  {
    BoundIs(l, r, h, n);
    hide *;
    RoundStep(peer, sender, h, r.instrs, m);
    RoundTalk(l, r, h, n, peer, sender, w, body);
    var ds := Elements(Rebuilt(Calm(peer), h, r.instrs, []).error.digests);
    DeliveredHonest(peer, sender, ds);
    next, clean := Delivered(peer, sender, ds), DigestsDecode(sender, ds);
  }

  lemma BoundIs(l: Local, r: Remote, h: RequestHead, n: nat)
    requires AtEnd(l, r, h, n)
    ensures l.repairs == n <= MAX_REPAIRS
  {
  }

  lemma RoundStep(peer: Store, sender: Store, h: RequestHead, instrs: seq<Instr>, m: nat)
    requires RebuiltAfter(peer, sender, h, instrs, m)
    ensures var rebuilt := Rebuilt(Calm(peer), h, instrs, []);
            && (rebuilt.Ok? <==> m == 0) && (m == 0 ==> CleanAfter(peer, sender, h, instrs, m))
            && (m > 0 ==>
                  && rebuilt.error.MissingBlocks?
                  && var ds := Elements(rebuilt.error.digests);
                  && RebuiltAfter(Delivered(peer, sender, ds), sender, h, instrs, m - 1)
                  && (CleanAfter(peer, sender, h, instrs, m) <==>
                      DigestsDecode(sender, ds) && CleanAfter(Delivered(peer, sender, ds), sender, h, instrs, m - 1)))
  {
    hide Rebuilt, Delivered, Elements, Calm, DigestsDecode;
  }

  // ---------- When the sender does not have it all ----------

  lemma SuppliesMeans(peer: Store, sender: Store, instrs: seq<Instr>)
    ensures Supplies(peer, sender, instrs) <==>
            && Tops(instrs) <= peer.Keys + sender.Keys
            && Under(Delivered(peer, sender, Tops(instrs)), Tops(instrs)) <= peer.Keys + sender.Keys
  {
    hide Tops, Under;
    assert Delivered(peer, sender, Tops(instrs) - peer.Keys) == Delivered(peer, sender, Tops(instrs));
  }

  // A round changes nothing about it.
  lemma SuppliesStays(peer: Store, sender: Store, instrs: seq<Instr>, ds: set<Digest>)
    ensures Supplies(Delivered(peer, sender, ds), sender, instrs) <==> Supplies(peer, sender, instrs)
  {
    var next, tops := Delivered(peer, sender, ds), Tops(instrs);
    SuppliesMeans(peer, sender, instrs);
    SuppliesMeans(next, sender, instrs);
    assert next.Keys + sender.Keys == peer.Keys + sender.Keys;
    SameUnderTops(Delivered(peer, sender, tops), Delivered(next, sender, tops), tops);
  }

  lemma SameUnderTops(a: Store, b: Store, tops: set<Digest>)
    requires forall t :: t in tops ==> (t in a <==> t in b) && (t in a ==> a[t] == b[t])
    ensures Under(a, tops) == Under(b, tops)
  {
    forall t | t in tops ensures Nested(a, t) == Nested(b, t) {
    }
  }

  lemma RebuiltIsSupplied(peer: Store, sender: Store, h: RequestHead, instrs: seq<Instr>)
    requires h.split && Rebuilt(Calm(peer), h, instrs, []).Ok?
    ensures Supplies(peer, sender, instrs)
  {
    SuccessTouchesAll(peer, LimitsFor(h), instrs, 1, Resolve.Cursor([], 0));
    hide Rebuilt, Resolve.ExpandAll;
    var tops := Tops(instrs);
    forall d | d in tops ensures d in peer {
      TopsAre(instrs, d);
    }
    assert tops - peer.Keys == {};
    NothingDelivered(peer, sender);
    forall t, e | t in tops && e in Nested(peer, t) ensures e in peer {
      TopsAre(instrs, t);
      RefsOfMembers(peer[t].body.instrs, e);
    }
  }

  // What neither end has is never rebuilt, however many rounds.
  lemma {:induction false} StarvedTalk(l: Local, r: Remote, h: RequestHead, n: nat, peer: Store, sender: Store,
                                       w: World, body: Bytes)
    requires AtEnd(l, r, h, n) && Declares(h, r.instrs, body) && HonestStore(peer) && HonestStore(sender)
    requires !Supplies(peer, sender, r.instrs)
    ensures Talk(l, r, [EndOfBody], peer, sender, w) == []
    decreases MAX_REPAIRS - n
  {
    assert h.split;
    hide *;
    if Rebuilt(Calm(peer), h, r.instrs, []).Ok? {
      RebuiltIsSupplied(peer, sender, h, r.instrs);
    } else {
      RoundTalk(l, r, h, n, peer, sender, w, body);
      var ds := Elements(Rebuilt(Calm(peer), h, r.instrs, []).error.digests);
      if n < MAX_REPAIRS {
        DeliveredHonest(peer, sender, ds);
        SuppliesStays(peer, sender, r.instrs, ds);
        StarvedTalk(l.(repairs := n + 1), r.(repairs := Some(n + 1)), h, n + 1, Delivered(peer, sender, ds), sender, w,
                    body);
      }
    }
  }

  // ---------- The upload in front ----------

  predicate Welcome(r: Remote, first: bool, greeting: Greeting, w: World) {
    if first then greeting.current && (greeting.proof || !w.paired) else r.greeted || !w.paired
  }

  // Whether a split body is forwarded: its program and what is pushed get
  // across, both ends have everything between them, the rounds fit the bound,
  // and what is asked for gets across as well.
  ghost predicate Forwardable(out: Splitter.SplitOutput, peer: Store, sender: Store) {
    && Codec.ProgramPasses(out.instrs, MAX_INSTRS) && AllDecode(out.toPush)
    && var held := Kept(peer, out.toPush);
    && Supplies(held, sender, out.instrs)
    && RoundsNeeded(held, sender, out.instrs) <= MAX_REPAIRS
    && DigestsDecode(sender, AskedFor(held, sender, out.instrs))
  }

  lemma {:induction false} KeptHonest(peer: Store, bs: seq<Block>)
    requires HonestStore(peer) && forall b :: b in bs ==> Honest(b)
    ensures HonestStore(Kept(peer, bs))
    decreases |bs|
  {
    hide Honest;
    if bs != [] {
      KeptHonest(if bs[0].digest in peer then peer else peer[bs[0].digest := bs[0]], bs[1..]);
    }
  }

  // From the end of the upload on.
  lemma PushedTalk(l: Local, r: Remote, h: RequestHead, peer: Store, sender: Store, w: World, body: Bytes)
    requires AtEnd(l, r, h, 0) && Declares(h, r.instrs, body) && HonestStore(peer) && HonestStore(sender)
    requires |r.instrs| <= MAX_INSTRS
    ensures Talk(l, r, [EndOfBody], peer, sender, w) ==
            if Supplies(peer, sender, r.instrs) && RoundsNeeded(peer, sender, r.instrs) <= MAX_REPAIRS
               && DigestsDecode(sender, AskedFor(peer, sender, r.instrs))
            then [Call(h, body)] else []
  {
    if Supplies(peer, sender, r.instrs) {
      RepairTakes(peer, sender, h, r.instrs, body);
      hide *;
      RoundsTalk(l, r, h, 0, peer, sender, w, body, RoundsNeeded(peer, sender, r.instrs));
    } else {
      hide *;
      StarvedTalk(l, r, h, 0, peer, sender, w, body);
    }
  }

  lemma BlocksTalk(l: Local, r: Remote, bs: seq<Block>, peer: Store, sender: Store, w: World)
    requires l.repairs <= MAX_REPAIRS && r.open && r.repairs.None?
    ensures Talk(l, r, BlockFrames(bs) + [EndOfBody], peer, sender, w) ==
            if AllDecode(bs) then Talk(l, r, [EndOfBody], Kept(peer, bs), sender, w) else []
  {
    hide Talk, Read, AllDecode;
    BlocksRead(r, bs, [EndOfBody], peer, w);
    if AllDecode(bs) {
      SameTalk(l, r, BlockFrames(bs) + [EndOfBody], peer, r, [EndOfBody], Kept(peer, bs), sender, w);
    } else {
      NothingMore(l, r, BlockFrames(bs) + [EndOfBody], peer, sender, w);
    }
  }

  // A frame in front that changes the peer, or closes it, and nothing else.
  lemma LeadTalk(l: Local, r: Remote, f: UpFrame, up: seq<UpFrame>, peer: Store, sender: Store, w: World)
    requires l.repairs <= MAX_REPAIRS
    requires var o := RemoteStep(r, f, w.(eyes := Calm(peer)));
             o.sent == [] && o.call.None? && o.offered.None? && !o.cleared
    ensures var o := RemoteStep(r, f, w.(eyes := Calm(peer)));
            Talk(l, r, [f] + up, peer, sender, w) ==
            if o.remote.open then Talk(l, o.remote, up, peer, sender, w) else []
  {
    hide Talk, Read, RemoteStep;
    var o := RemoteStep(r, f, w.(eyes := Calm(peer)));
    ReadQuietly(r, f, up, peer, w);
    if o.remote.open {
      SameTalk(l, r, [f] + up, peer, o.remote, up, peer, sender, w);
    } else {
      ReadClosed(o.remote, up, peer, w);
      NothingMore(l, r, [f] + up, peer, sender, w);
    }
  }

  lemma GreetingTalk(l: Local, r: Remote, greeting: Greeting, up: seq<UpFrame>, peer: Store, sender: Store, w: World)
    requires l.repairs <= MAX_REPAIRS && r.open && r.repairs.None?
    ensures Talk(l, r, [Hello(greeting)] + up, peer, sender, w) ==
            if Welcome(r, true, greeting, w) then Talk(l, r.(greeted := true), up, peer, sender, w) else []
  {
    hide Read, Talk;
    var ok := Welcome(r, true, greeting, w);
    var ack := HelloAck(ok, |peer|, w.epoch);
    var r' := if ok then r.(greeted := true) else r.(open := false);
    ReadOne(r, Hello(greeting), up, peer, w);
    var rest := Read(r', up, peer, w);
    assert [] + rest.calls == rest.calls;
    assert Read(r, [Hello(greeting)] + up, peer, w) == Reading(rest.remote, rest.store, [ack] + rest.sent, rest.calls);
    if !ok {
      ReadClosed(r', up, peer, w);
    }
    AckTalk(l, r, [Hello(greeting)] + up, peer, r', up, sender, w, ack);
  }

  lemma AckTalk(l: Local, r: Remote, up: seq<UpFrame>, peer: Store, r': Remote, up': seq<UpFrame>, sender: Store,
                w: World, ack: DownFrame)
    requires l.repairs <= MAX_REPAIRS && ack.HelloAck?
    requires var rest := Read(r', up', peer, w);
             && Read(r, up, peer, w) == Reading(rest.remote, rest.store, [ack] + rest.sent, rest.calls)
             && (!ack.ok ==> rest.calls == [])
    ensures Talk(l, r, up, peer, sender, w) == if ack.ok then Talk(l, r', up', peer, sender, w) else []
  {
    var sent := Read(r', up', peer, w).sent;
    hide Read, Static;
    assert ([ack] + sent)[1..] == sent;
    if ack.ok {
      var rest := Hear(l, sent, Static(sender));
      assert [] + rest.sent == rest.sent;
      assert Hear(l, [ack] + sent, Static(sender)) == rest;
    }
  }

  lemma ProgramTalk(l: Local, r: Remote, h: RequestHead, out: Splitter.SplitOutput, peer: Store, sender: Store,
                    w: World, body: Bytes)
    requires l.repairs == 0 && r.open && r.head == Some(h) && r.literal == [] && r.repairs.None?
    requires Declares(h, out.instrs, body) && HonestStore(peer) && HonestStore(sender)
    requires forall b :: b in out.toPush ==> Honest(b)
    ensures Talk(l, r, [Program(out.instrs)] + (BlockFrames(out.toPush) + [EndOfBody]), peer, sender, w) ==
            if Forwardable(out, peer, sender) then [Call(h, body)] else []
  {
    var r' := r.(instrs := out.instrs);
    assert h.split && AtEnd(l, r', h, 0);
    hide Talk, Read, Supplies, RoundsNeeded, DigestsDecode, AllDecode, HonestStore, Declares, Honest, AskedFor, Kept,
         AtEnd, Codec.ProgramSize;
    LeadTalk(l, r, Program(out.instrs), BlockFrames(out.toPush) + [EndOfBody], peer, sender, w);
    if Codec.ProgramPasses(out.instrs, MAX_INSTRS) {
      BlocksTalk(l, r', out.toPush, peer, sender, w);
      KeptHonest(peer, out.toPush);
      PushedTalk(l, r', h, Kept(peer, out.toPush), sender, w, body);
    }
  }

  // A split upload after the greeting.
  function SplitUpload(job: Link.Job): seq<UpFrame>
    requires job.payload.SplitPayload?
  {
    var out := job.payload.out;
    [Head(job.head)] + ([Program(out.instrs)] + (BlockFrames(out.toPush) + [EndOfBody]))
  }

  lemma HeadTalk(l: Local, r: Remote, job: Link.Job, peer: Store, sender: Store, w: World)
    requires l.repairs == 0 && r.open && Link.AtRest(r) && Link.JobOk(job) && job.payload.SplitPayload?
    requires HonestStore(peer) && HonestStore(sender)
    ensures var out := job.payload.out;
            Talk(l, r, SplitUpload(job), peer, sender, w) ==
            if (r.greeted || !w.paired) && Forwardable(out, peer, sender) then [Call(job.head, job.body)] else []
  {
    hide Talk, Read, HonestStore, Forwardable, Denotes, Honest;
    var out := job.payload.out;
    var up := [Program(out.instrs)] + (BlockFrames(out.toPush) + [EndOfBody]);
    LeadTalk(l, r, Head(job.head), up, peer, sender, w);
    if r.greeted || !w.paired {
      ProgramTalk(l, r.(head := Some(job.head)), job.head, out, peer, sender, w, job.body);
    }
  }

  // A split request on a quiet link, from its first frame to the last, every
  // frame going through both ends' own steps: it is forwarded, once and exactly,
  // if and only if the greeting is accepted, the program and every block sent
  // get across, the two ends have all it takes, and the absent top-level
  // blocks (one round together) and absent nested blocks (one round each) fit
  // the bound on rounds. Nothing goes upstream otherwise.
  lemma SplitBodyIsForwarded(r: Remote, requests: nat, first: bool, greeting: Greeting, job: Link.Job, peer: Store,
                             sender: Store, w: World)
    requires r.open && Link.AtRest(r) && Link.JobOk(job) && job.payload.SplitPayload?
    requires HonestStore(peer) && HonestStore(sender)
    ensures Talk(Local(requests, 0, false), r, Upload(first, greeting, job.head, job.payload, job.body), peer, sender,
                 w) ==
            if Welcome(r, first, greeting, w) && Forwardable(job.payload.out, peer, sender)
            then [Call(job.head, job.body)] else []
  {
    hide *;
    var l, out := Local(requests, 0, false), job.payload.out;
    UploadIs(first, greeting, job);
    if first {
      GreetedRest(r, greeting, w);
      GreetingTalk(l, r, greeting, SplitUpload(job), peer, sender, w);
      if Welcome(r, true, greeting, w) {
        HeadTalk(l, r.(greeted := true), job, peer, sender, w);
      }
    } else {
      GreetedRest(r, greeting, w);
      HeadTalk(l, r, job, peer, sender, w);
    }
  }

  lemma GreetedRest(r: Remote, greeting: Greeting, w: World)
    requires Link.AtRest(r)
    ensures Link.AtRest(r.(greeted := true)) && r.repairs.None?
    ensures Welcome(r, false, greeting, w) <==> r.greeted || !w.paired
  {
  }

  lemma UploadIs(first: bool, greeting: Greeting, job: Link.Job)
    requires job.payload.SplitPayload?
    ensures Upload(first, greeting, job.head, job.payload, job.body) ==
            if first then [Hello(greeting)] + SplitUpload(job) else SplitUpload(job)
  {
    hide BlockFrames;
  }
}

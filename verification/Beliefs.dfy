// What the sender believes the peer holds, over all the frames of a request:
// when that is forgotten, when it is refreshed, and what the peer does to
// bring it about.

module Beliefs {
  import opened Results
  import opened Blocks
  import opened Session
  import Blooms
  import Resolve
  import Runs

  // The last snapshot, and what was pushed since.
  datatype Seen = Seen(base: Blooms.Filter, sent: set<Digest>)

  function Believing(b: Seen, o: LocalOutcome): Seen {
    Seen(if o.belief.Refresh? then o.belief.snapshot else b.base, if o.belief.Forget? then {} else b.sent)
  }

  // The sender reading what is on the link until the request is over; its store
  // and the agent may change from frame to frame.
  datatype Heard = Heard(local: Local, seen: Seen, read: nat, result: Option<Result<(), SessionError>>)

  function HearAll(l: Local, b: Seen, down: seq<DownFrame>, srcs: nat -> Resolve.Source, there: nat -> bool,
                   k: nat): Heard
    decreases |down|
  {
    if down == [] then Heard(l, b, 0, None)
    else
      var o := LocalStep(l, down[0], srcs(k), there(k));
      if o.result.Some? then Heard(o.local, Believing(b, o), 1, o.result)
      else
        var rest := HearAll(o.local, Believing(b, o), down[1..], srcs, there, k + 1);
        rest.(read := rest.read + 1)
  }

  // A peer that says it has nothing although it has run before, one that lacks
  // blocks it was thought to have, and one that starts over.
  predicate Forgets(f: DownFrame) {
    || (f.HelloAck? && f.ok && f.blocks == 0 && f.epoch != 0)
    || (f.Fail? && f.clearPresence)
    || f.PeerReset?
  }

  predicate Snapshots(f: DownFrame, base: Blooms.Filter) {
    f.BloomFrame? && Blooms.FromBytes(Blooms.ToBytes(f.snapshot)) == Some(base)
  }

  ghost predicate NoneForgets(down: seq<DownFrame>) { forall f :: f in down ==> !Forgets(f) }

  ghost predicate NoSnapshot(down: seq<DownFrame>) { forall f, base :: f in down ==> !Snapshots(f, base) }

  // `base` is the last snapshot among the frames.
  ghost predicate LastSnapshot(down: seq<DownFrame>, base: Blooms.Filter) {
    exists i :: 0 <= i < |down| && Snapshots(down[i], base) && NoSnapshot(down[i + 1..])
  }

  lemma OneFrame(l: Local, b: Seen, f: DownFrame, src: Resolve.Source, there: bool)
    ensures var seen := Believing(b, LocalStep(l, f, src, there));
            && seen.sent == (if Forgets(f) then {} else b.sent)
            && (NoSnapshot([f]) ==> seen.base == b.base)
            && (forall base :: Snapshots(f, base) ==> seen.base == base)
  {
    hide Answer, Blooms.FromBytes, Blooms.ToBytes;
    if f.BloomFrame? && Received(f.snapshot).Some? {
      assert f in [f] && Snapshots(f, Received(f.snapshot).value);
    }
  }

  // Of the frames a sender has read of a request, whatever they are: what it
  // pushed is forgotten exactly if one of them says so, and its snapshot is the
  // last among them, or the old one if there is none.
  lemma {:induction false} BeliefsFollow(l: Local, b: Seen, down: seq<DownFrame>, srcs: nat -> Resolve.Source,
                                         there: nat -> bool, k: nat)
    ensures var h := HearAll(l, b, down, srcs, there, k);
            && h.read <= |down| && (h.read < |down| ==> h.result.Some?)
            && h.seen.sent == (if NoneForgets(down[..h.read]) then b.sent else {})
            && (if NoSnapshot(down[..h.read]) then h.seen.base == b.base
                else LastSnapshot(down[..h.read], h.seen.base))
    decreases |down|
  {
    hide LocalStep, Believing, Snapshots, Forgets, NoSnapshot, LastSnapshot, NoneForgets;
    if down != [] {
      var o := LocalStep(l, down[0], srcs(k), there(k));
      OneFrame(l, b, down[0], srcs(k), there(k));
      var h := HearAll(l, b, down, srcs, there, k);
      if o.result.None? {
        BeliefsFollow(o.local, Believing(b, o), down[1..], srcs, there, k + 1);
      }
      var rest := down[1..h.read];
      assert down[..h.read] == [down[0]] + rest && (o.result.None? ==> rest == down[1..][..h.read - 1]);
      ConsForgets(down[0], rest);
      ConsSnapshots(down[0], rest);
      NothingRead();
    } else {
      NothingRead();
    }
  }

  lemma NothingRead()
    ensures NoneForgets([]) && NoSnapshot([])
  {
  }

  lemma ConsForgets(f: DownFrame, rest: seq<DownFrame>)
    ensures NoneForgets([f] + rest) <==> !Forgets(f) && NoneForgets(rest)
  {
    assert f in [f] + rest && forall x :: x in rest ==> x in [f] + rest;
  }

  lemma ConsSnapshots(f: DownFrame, rest: seq<DownFrame>)
    ensures NoSnapshot([f] + rest) <==> NoSnapshot([f]) && NoSnapshot(rest)
    ensures forall base :: LastSnapshot(rest, base) ==> LastSnapshot([f] + rest, base)
    ensures forall base :: Snapshots(f, base) && NoSnapshot(rest) ==> LastSnapshot([f] + rest, base)
    ensures !NoSnapshot([f]) ==> exists base :: Snapshots(f, base)
  {
    hide Snapshots;
    var all := [f] + rest;
    assert f in all && f in [f] && forall x :: x in rest ==> x in all;
    forall base | LastSnapshot(rest, base) ensures LastSnapshot(all, base) {
      var i :| 0 <= i < |rest| && Snapshots(rest[i], base) && NoSnapshot(rest[i + 1..]);
      assert all[i + 1] == rest[i] && all[i + 1 + 1..] == rest[i + 1..];
    }
    forall base | Snapshots(f, base) && NoSnapshot(rest) ensures LastSnapshot(all, base) {
      assert all[0] == f && all[0 + 1..] == rest;
    }
  }

  // ---------- What the peer does to bring it about ----------

  // A peer that accepts a greeting makes the sender forget exactly when it
  // holds nothing and is not at its first epoch; one that refuses ends the
  // request, and nothing is forgotten.
  lemma RestartIsNoticed(r: Remote, g: Greeting, w: World, l: Local, b: Seen, src: Resolve.Source, there: bool)
    requires r.open && r.repairs.None?
    ensures var o := RemoteStep(r, Hello(g), w);
            && |o.sent| == 1
            && var read := LocalStep(l, o.sent[0], src, there);
               if g.current && (g.proof || !w.paired) then
                 && read.result.None?
                 && Believing(b, read) == (if w.eyes.store == map[] && w.epoch != 0 then b.(sent := {}) else b)
               else read.result == Some(Err(Rejected)) && Believing(b, read) == b && !o.remote.open
  {
  }

  // A peer that gives up makes the sender forget exactly when blocks are what it
  // lacks; a body that is rebuilt wrongly is no reason to.
  lemma GivingUpForgets(r: Remote, w: World, x: DownFrame)
    requires r.open && r.head.Some? && x in RemoteStep(r, EndOfBody, w).sent
    ensures x.Fail? ==>
              var made := Rebuilt(w.eyes, r.head.value, r.instrs, r.literal);
              made.Err? && (Forgets(x) <==> made.error.MissingBlocks?)
    ensures !x.Fail? ==> !Forgets(x)
  {
    hide Rebuilt, ReplyFrames;
    if w.upstream.Some? && x in ReplyFrames(w.upstream.value, w.snapshot) {
      RepliesForgetNothing(w.upstream.value, w.snapshot, x);
    }
  }

  lemma RepliesForgetNothing(reply: Reply, snapshot: Blooms.Filter, x: DownFrame)
    requires x in ReplyFrames(reply, snapshot)
    ensures !x.Fail? && !Forgets(x)
  {
    ChunksAreBodies(reply.chunks);
  }

  lemma {:induction false} ChunksAreBodies(cs: seq<Bytes>)
    ensures forall x :: x in ChunkFrames(cs) ==> x.ResponseBody?
  {
    if cs != [] {
      ChunksAreBodies(cs[1..]);
    }
  }

  // A reset that the peer reads between two requests, in any state of a run,
  // leaves its store empty and changes nothing else about the peer.
  lemma ResetEmpties(s: Runs.System, cid: nat, w: World, after: Runs.Store)
    requires Runs.Enabled(s, Runs.PeerReads(cid, w, after))
    requires var c := s.conns[cid]; c.remote.open && c.remote.repairs.None? && c.up[0].Reset?
    ensures var c, s' := s.conns[cid], Runs.Applied(s, Runs.PeerReads(cid, w, after));
            && s'.remote == map[] && cid in s'.conns
            && s'.conns[cid] == c.(up := c.up[1..])
  {
    hide HonestSource;
    assert s.conns[cid].down + [] == s.conns[cid].down;
  }

  // ---------- After a reply ----------

  lemma HearOne(l: Local, b: Seen, f: DownFrame, rest: seq<DownFrame>, srcs: nat -> Resolve.Source,
                there: nat -> bool, k: nat)
    ensures var o := LocalStep(l, f, srcs(k), there(k));
            HearAll(l, b, [f] + rest, srcs, there, k) ==
            if o.result.Some? then Heard(o.local, Believing(b, o), 1, o.result)
            else
              var h := HearAll(o.local, Believing(b, o), rest, srcs, there, k + 1);
              h.(read := h.read + 1)
  {
    hide LocalStep, Believing;
    assert ([f] + rest)[1..] == rest;
  }

  lemma BodyStep(l: Local, b: Seen, chunk: Bytes, src: Resolve.Source)
    ensures var o := LocalStep(l, ResponseBody(chunk), src, true);
            o.local == l && Believing(b, o) == b && o.result.None?
  {
  }

  lemma ChunksCons(cs: seq<Bytes>, rest: seq<DownFrame>)
    ensures ChunkFrames(cs) + rest ==
            if cs == [] then rest else [ResponseBody(cs[0])] + (ChunkFrames(cs[1..]) + rest)
  {
  }

  lemma {:induction false} ChunksHeard(l: Local, b: Seen, cs: seq<Bytes>, rest: seq<DownFrame>,
                                       srcs: nat -> Resolve.Source, there: nat -> bool, k: nat)
    requires forall n: nat :: there(n)
    ensures var h := HearAll(l, b, rest, srcs, there, k + |cs|);
            HearAll(l, b, ChunkFrames(cs) + rest, srcs, there, k) == h.(read := h.read + |cs|)
    decreases |cs|
  {
    hide *;
    ChunksCons(cs, rest);
    if cs != [] {
      ChunksHeard(l, b, cs[1..], rest, srcs, there, k + 1);
      HearOne(l, b, ResponseBody(cs[0]), ChunkFrames(cs[1..]) + rest, srcs, there, k);
      BodyStep(l, b, cs[0], srcs(k));
    }
  }

  lemma EndHeard(l: Local, b: Seen, snapshot: Blooms.Filter, base: Blooms.Filter, srcs: nat -> Resolve.Source,
                 there: nat -> bool, k: nat)
    requires Blooms.FromBytes(Blooms.ToBytes(snapshot)) == Some(base)
    ensures HearAll(l, b, [BloomFrame(snapshot), ResponseEnd], srcs, there, k) ==
            Heard(l, b.(base := base), 2, Some(Ok(())))
  {
    hide Blooms.FromBytes, Blooms.ToBytes;
    var down := [BloomFrame(snapshot), ResponseEnd];
    assert down[1..] == [ResponseEnd];
  }

  // A complete reply leaves the sender with the snapshot the peer sent with it,
  // and with everything it pushed still believed to be there.
  lemma ReplyRefreshes(l: Local, b: Seen, reply: Reply, snapshot: Blooms.Filter, base: Blooms.Filter,
                       srcs: nat -> Resolve.Source, there: nat -> bool, k: nat)
    requires reply.complete && (forall n: nat :: there(n))
    requires Blooms.FromBytes(Blooms.ToBytes(snapshot)) == Some(base)
    ensures var h := HearAll(l, b, ReplyFrames(reply, snapshot), srcs, there, k);
            && h.result == Some(Ok(())) && h.seen == Seen(base, b.sent) && h.local == l.(headSent := true)
            && h.read == |ReplyFrames(reply, snapshot)|
  {
    hide *;
    var end: seq<DownFrame> := [BloomFrame(snapshot), ResponseEnd];
    var l' := l.(headSent := true);
    ReplyIs(reply, snapshot);
    HearOne(l, b, ResponseHead(reply.status), ChunkFrames(reply.chunks) + end, srcs, there, k);
    HeadStep(l, b, reply.status, srcs(k));
    ChunksHeard(l', b, reply.chunks, end, srcs, there, k + 1);
    EndHeard(l', b, snapshot, base, srcs, there, k + 1 + |reply.chunks|);
    ChunkCount(reply.chunks);
  }

  lemma ReplyIs(reply: Reply, snapshot: Blooms.Filter)
    requires reply.complete
    ensures ReplyFrames(reply, snapshot) ==
            [ResponseHead(reply.status)] + (ChunkFrames(reply.chunks) + [BloomFrame(snapshot), ResponseEnd])
  {
  }

  lemma HeadStep(l: Local, b: Seen, status: nat, src: Resolve.Source)
    ensures var o := LocalStep(l, ResponseHead(status), src, true);
            o.local == l.(headSent := true) && Believing(b, o) == b && o.result.None?
  {
  }

  lemma {:induction false} ChunkCount(cs: seq<Bytes>)
    ensures |ChunkFrames(cs)| == |cs|
  {
    if cs != [] {
      ChunkCount(cs[1..]);
    }
  }

  // So from then on no block the peer held when it replied is thought absent.
  lemma HeldIsSeen(l: Local, b: Seen, reply: Reply, hash: Blooms.Hasher, f: Blooms.Filter, held: set<Digest>,
                   srcs: nat -> Resolve.Source, there: nat -> bool, k: nat, d: Digest)
    requires reply.complete && (forall n: nat :: there(n)) && d in held
    requires Blooms.Sized(f) && 1 <= f.k <= 12 && f.mBits <= Blooms.MAX_BITS
    requires forall e :: e in held ==> Blooms.Has(hash, f, e)
    ensures var seen := HearAll(l, b, ReplyFrames(reply, f), srcs, there, k).seen;
            Blooms.Shaped(seen.base) && Blooms.Answer(hash, seen.base, d) == Some(true)
  {
    hide HearAll, ReplyFrames, Blooms.FromBytes, Blooms.ToBytes, Blooms.Has;
    Blooms.BytesRoundTrip(f);
    ReplyRefreshes(l, b, reply, f, f, srcs, there, k);
  }
}

// Where the parts meet: what the splitter hands over may be sent, the store
// does what a run assumes of it, and a right guess needs no repair.

module EndToEnd {
  import opened Results
  import opened Blocks
  import opened Session
  import opened SplitBodies
  import Chunking
  import Codec
  import LaminarGroups
  import Limits
  import Link
  import Programs
  import Repairs
  import Resolve
  import Runs
  import Splitter
  import Stores

  // Every split of every body, under every policy and whatever presence
  // answered, is a payload a run may carry.
  lemma EverySplitMayBeSent(cx: Splitter.Ctx, gear: Chunking.Gear)
    requires |cx.body| < ALLOC_LIMIT && Decision(cx, gear).Split?
    ensures Runs.PayloadOk(SplitPayload(Decision(cx, gear).out), cx.body)
  {
    hide Decision, Splitter.GoodSplit, Planned, MadeFrom, Honest;
    var claimed := EverySplitIsGood(cx, gear);
  }

  // What a run assumes of the peer's store after a block is offered, the store
  // does: admitted and pruned, or refused.
  lemma StoreDoesAsAssumed(cfg: Stores.Config, i: Stores.Inner, b: Block, now: nat, later: nat, order: seq<Digest>,
                           o: RemoteOutcome)
    requires Stores.Valid(i) && o.offered == Some(b) && !o.cleared
    requires Stores.Admits(cfg, b) && b.digest !in i.table
    requires Stores.ByRecency(Stores.AddStep(i, b, now).table, order)
    ensures Stores.AllVerify(i.table)
    ensures var j := Stores.AddStep(i, b, now);
            var p := Stores.PruneStep(cfg, j, later, order);
            && Stores.AllVerify(j.table) && Stores.AllVerify(p.table)
            && Runs.StoredAfter(Stores.View(i.table), o, Stores.View(j.table))
            && Runs.StoredAfter(Stores.View(i.table), o, Stores.View(p.table))
    ensures Runs.StoredAfter(Stores.View(i.table), o, Stores.View(i.table))
  {
    hide Verifies, Stores.View, Stores.AllVerify, Stores.ByRecency, Stores.Valid, Stores.AddStep, Stores.PruneStep;
    Stores.AddShows(i, b, now);
    Stores.AddKeeps(i, b, now);
    Stores.PruneShows(cfg, Stores.AddStep(i, b, now), later, order);
  }

  ghost predicate AlwaysThere(src: Resolve.Source, d: Digest) {
    forall n: nat :: src(n, d).Some?
  }

  // When the pushed blocks arrived and everything presence claimed can be
  // expanded, the peer rebuilds the exact body at once: no round of repair.
  lemma RightGuessNeedsNoRepair(cx: Splitter.Ctx, gear: Chunking.Gear, meta: nat, eyes: Eyes,
                                held: set<Digest>)
    requires |cx.body| < ALLOC_LIMIT && Decision(cx, gear).Split?
    requires HonestSource(eyes.src)
    requires forall d, k: nat :: AlwaysThere(eyes.src, d) ==> eyes.has(k, d)
    requires Splitter.Holds(eyes.src, Decision(cx, gear).out.toPush)
    requires forall n: nat, d :: cx.peer(n, d) ==> d in held
    requires Resolve.Available(eyes.src, held)
    ensures var out := Decision(cx, gear).out;
            Rebuilt(eyes, HeadFor(meta, cx.body, SplitPayload(out)), out.instrs, []) == Ok(cx.body)
  {
    hide Decision, Resolve.Expansion, Programs.LiveWalk, Programs.RefsOf, Planned, MadeFrom, Honest;
    var out := Decision(cx, gear).out;
    var claimed := EverySplitIsGood(cx, gear);
    SplitThenResolve(cx, gear, eyes.src, held);
    forall d, k: nat | d in Programs.RefsOf(out.instrs) ensures eyes.has(k, d) {
      Programs.RefsOfMembers(out.instrs, d);
      LedToIsThere(eyes.src, out.toPush, claimed, held, d);
    }
    Programs.LiveWalkOfHeld(eyes.has, eyes.walked, MAX_INSTRS, Programs.RefsOf(out.instrs), 0);
  }

  lemma LedToIsThere(src: Resolve.Source, pushed: seq<Block>, claimed: set<Digest>, held: set<Digest>, d: Digest)
    requires Splitter.Holds(src, pushed) && Resolve.Available(src, held) && claimed <= held
    requires d in Splitter.Digests(pushed) + claimed
    ensures AlwaysThere(src, d)
  {
    if d !in claimed {
      var k := Splitter.DigestsAt(pushed, d);
      assert pushed[k] in pushed;
      assert forall n: nat :: src(n, d) == Some(pushed[k]);
    }
  }

  // Every split body, from cutting it up to the call: on a quiet link it goes
  // upstream, with its own head and exact bytes, if and only if it is
  // forwardable; and nothing else ever does.
  lemma SplitIsDelivered(cx: Splitter.Ctx, gear: Chunking.Gear, meta: nat, r: Remote, requests: nat,
                         first: bool, greeting: Greeting, peer: Programs.Store, sender: Programs.Store, w: World)
    requires |cx.body| < ALLOC_LIMIT && Decision(cx, gear).Split?
    requires r.open && Link.AtRest(r) && HonestStore(peer) && HonestStore(sender)
    ensures var payload := SplitPayload(Decision(cx, gear).out);
            var h := HeadFor(meta, cx.body, payload);
            Repairs.Talk(Local(requests, 0, false), r, Upload(first, greeting, h, payload, cx.body), peer, sender, w) ==
            if Repairs.Welcome(r, first, greeting, w) && Repairs.Forwardable(payload.out, peer, sender)
            then [Call(h, cx.body)] else []
  {
    hide Decision, Repairs.Talk, Repairs.Forwardable, HonestStore, Planned, MadeFrom, Honest;
    var payload := SplitPayload(Decision(cx, gear).out);
    var claimed := EverySplitIsGood(cx, gear);
    var job := Link.Job(0, 0, 1, HeadFor(meta, cx.body, payload), cx.body, payload);
    Repairs.SplitBodyIsForwarded(r, requests, first, greeting, job, peer, sender, w);
  }

  // Which splits get across at all. Of a body of up to 56 MiB and fewer than a
  // hundred thousand payloads in one value, every one whose groups and gaps are
  // within the decoder's limit; the rest is a matter of what the stores hold.
  lemma SmallSplitForwardable(cx: Splitter.Ctx, gear: Chunking.Gear, peer: Programs.Store, sender: Programs.Store)
    requires |cx.body| <= 0x380_0000 && Decision(cx, gear).Split?
    requires forall g :: g in Planned(cx.body, cx.policy, gear) ==> |g.children| < 100_000
    ensures var out := Decision(cx, gear).out;
            var held := Repairs.Kept(peer, out.toPush);
            Repairs.Forwardable(out, peer, sender) <==>
            && Splitter.Pieces(0, |cx.body|, LaminarGroups.CandsOf(Planned(cx.body, cx.policy, gear))) <= MAX_INSTRS
            && Repairs.Supplies(held, sender, out.instrs)
            && Repairs.RoundsNeeded(held, sender, out.instrs) <= MAX_REPAIRS
            && Repairs.DigestsDecode(sender, Repairs.AskedFor(held, sender, out.instrs))
  {
    hide Decision, Planned, Splitter.Pieces, Codec.ProgramPasses, Decodes, Repairs.Kept, Repairs.Supplies,
         Repairs.RoundsNeeded, Repairs.DigestsDecode, Repairs.AskedFor;
    Limits.ProgramGetsAcross(cx, gear);
    Limits.SmallSplitPasses(cx, gear);
  }
}

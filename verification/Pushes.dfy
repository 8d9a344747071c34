// What a split ships: only what the peer was not said to have; and exactly when
// a body is split at all, into which program.

module Pushes {
  import opened Results
  import opened Blocks
  import opened Policies
  import opened Splitter
  import opened SplitBodies
  import opened LaminarGroups
  import Chunking
  import Grouping
  import Limits
  import Programs

  // ---------- Only what the peer lacks ----------

  // Of every block queued, presence denied its digest when asked about it.
  ghost predicate Denied(cx: Ctx, v: View) {
    forall b :: b in v.push ==> exists n: nat :: !cx.peer(n, b.digest)
  }

  lemma QueueDenied(cx: Ctx, v: View, b: Block, n: nat)
    requires Denied(cx, v) && !cx.peer(n, b.digest)
    ensures Denied(cx, QueueStep(cx, v, b))
  {
  }

  lemma {:induction false} ChildrenDenied(cx: Ctx, v: View, pos: nat, end: nat, inner: seq<Cand>)
    requires pos <= end <= |cx.body| < ALLOC_LIMIT && Denied(cx, v)
    ensures Denied(cx, ChildrenStep(cx, v, pos, end, inner))
    decreases |inner|
  {
    if inner != [] {
      if Fits(inner[0], pos, end) {
        var ch := inner[0];
        var d := Digest(ch.kind, Slice(ch.span, cx.body));
        if !cx.peer(v.asked, d) {
          QueueDenied(cx, AskStep(cx, CountRef(v, 0), d), BytesBlock(ch.kind, Slice(ch.span, cx.body)), v.asked);
        }
        ChildrenDenied(cx, ChildStep(cx, v, ch), ch.span.end, end, inner[1..]);
      } else {
        ChildrenDenied(cx, v, pos, end, inner[1..]);
      }
    }
  }

  lemma ReferenceDenied(cx: Ctx, v: View, c: Cand, inner: seq<Cand>)
    requires |cx.body| < ALLOC_LIMIT && InBounds(c.span, cx.body) && Denied(cx, v)
    ensures Denied(cx, ReferenceStep(cx, v, c, inner))
  {
    hide BlockFor;
    if Accepts(v, c) {
      var v0 := LitStep(cx, v, c.span.start);
      var d := Digest(c.kind, Slice(c.span, cx.body));
      if !cx.peer(v.asked, d) {
        var v1 := CountNew(AskStep(cx, CountRef(v0, SpanLen(c.span)), d));
        ChildrenDenied(cx, v1, c.span.start, c.span.end, inner);
        BlockDigest(cx.body, c, inner);
        QueueDenied(cx, ChildrenStep(cx, v1, c.span.start, c.span.end, inner), BlockFor(cx.body, c, inner), v.asked);
      }
    }
  }

  lemma BlockDigest(body: Bytes, c: Cand, inner: seq<Cand>)
    requires InBounds(c.span, body) && |body| < ALLOC_LIMIT
    ensures BlockFor(body, c, inner).digest == Digest(c.kind, Slice(c.span, body))
  {
  }

  lemma {:induction false} CoverDenied(cx: Ctx, v: View, gs: seq<Group>)
    requires |cx.body| < ALLOC_LIMIT && AllInBounds(cx.body, gs) && Denied(cx, v)
    ensures Denied(cx, CoverAll(cx, v, gs))
    decreases |gs|
  {
    hide ReferenceStep, Denied;
    if gs != [] {
      assert gs[0] in gs && forall x :: x in gs[1..] ==> x in gs;
      ReferenceDenied(cx, v, gs[0].cand, gs[0].children);
      CoverDenied(cx, ReferenceStep(cx, v, gs[0].cand, gs[0].children), gs[1..]);
    }
  }

  // From any list of groups, of whatever kinds and however they overlap, only
  // blocks whose digests presence denied are pushed.
  lemma ListPushesDenied(cx: Ctx, gs: seq<Group>)
    requires |cx.body| < ALLOC_LIMIT && AllInBounds(cx.body, gs)
    requires FinishAction(cx, Covered(cx, Start(cx.body), gs)).Split?
    ensures forall b :: b in FinishAction(cx, Covered(cx, Start(cx.body), gs)).out.toPush ==>
              exists n: nat :: !cx.peer(n, b.digest)
  {
    hide CoverAll;
    CoverDenied(cx, Start(cx.body), gs);
  }

  // So of every split: only what the peer was not said to have goes over the
  // link, and nothing when it is said to have everything.
  lemma OnlyDeniedIsPushed(cx: Ctx, gear: Chunking.Gear)
    requires |cx.body| < ALLOC_LIMIT && Decision(cx, gear).Split?
    ensures forall b :: b in Decision(cx, gear).out.toPush ==> exists n: nat :: !cx.peer(n, b.digest)
    ensures (forall n: nat, d :: cx.peer(n, d)) ==> Decision(cx, gear).out.toPush == []
  {
    hide CoverAll, StructuralPlan, ChunkPlan;
    PlansAreShaped(cx.body, cx.policy, gear);
    var v := Marked(Start(cx.body), StructuralPlan(cx.body, cx.policy) != []);
    CoverDenied(cx, v, Planned(cx.body, cx.policy, gear));
    var out := Decision(cx, gear).out;
    if out.toPush != [] {
      assert out.toPush[0] in out.toPush;
    }
  }

  // ---------- A presence that does not change its mind ----------

  ghost predicate Steady(cx: Ctx, has: Digest -> bool) {
    forall n: nat, d :: cx.peer(n, d) <==> has(d)
  }

  function Without(ds: seq<Digest>, has: Digest -> bool): seq<Digest> {
    if ds == [] then []
    else (if has(ds[0]) then [] else [ds[0]]) + Without(ds[1..], has)
  }

  lemma {:induction false} WithoutConcat(a: seq<Digest>, b: seq<Digest>, has: Digest -> bool)
    ensures Without(a + b, has) == Without(a, has) + Without(b, has)
  {
    if a == [] {
      assert a + b == b;
    } else {
      assert (a + b)[1..] == a[1..] + b;
      WithoutConcat(a[1..], b, has);
    }
  }

  // Every reference counts as new exactly when the peer lacks it.
  ghost predicate NewsCounted(v: View, has: Digest -> bool) {
    v.stats.refsNew == |Without(Programs.RefsOf(v.instrs), has)|
  }

  lemma {:induction false} ChildrenNews(cx: Ctx, v: View, pos: nat, end: nat, inner: seq<Cand>)
    requires pos <= end <= |cx.body| < ALLOC_LIMIT
    ensures var w := ChildrenStep(cx, v, pos, end, inner);
            && w.stats.refsNew == v.stats.refsNew && w.instrs == v.instrs
            && w.stats.refs - v.stats.refs >= w.stats.refsHit - v.stats.refsHit
    decreases |inner|
  {
    if inner != [] {
      if Fits(inner[0], pos, end) {
        ChildrenNews(cx, ChildStep(cx, v, inner[0]), inner[0].span.end, end, inner[1..]);
      } else {
        ChildrenNews(cx, v, pos, end, inner[1..]);
      }
    }
  }

  lemma ProvideNews(cx: Ctx, v: View, c: Cand, inner: seq<Cand>)
    requires |cx.body| < ALLOC_LIMIT && InBounds(c.span, cx.body)
    ensures var w, hit := ProvideStep(cx, v, c, inner), cx.peer(v.asked, Digest(c.kind, Slice(c.span, cx.body)));
            && w.instrs == v.instrs && w.stats.refsNew == v.stats.refsNew + (if hit then 0 else 1)
            && w.stats.refs - v.stats.refs >= w.stats.refsHit - v.stats.refsHit + (if hit then 0 else 1)
            && (hit ==> w.stats.refs == v.stats.refs + 1 && w.stats.refsHit == v.stats.refsHit + 1)
  {
    hide BlockFor;
    var v1 := AskStep(cx, CountRef(v, SpanLen(c.span)), Digest(c.kind, Slice(c.span, cx.body)));
    ChildrenNews(cx, CountNew(v1), c.span.start, c.span.end, inner);
  }

  lemma LitNews(cx: Ctx, v: View, end: nat)
    ensures var w := LitStep(cx, v, end);
            && Programs.RefsOf(w.instrs) == Programs.RefsOf(v.instrs)
            && w.stats.refs == v.stats.refs && w.stats.refsHit == v.stats.refsHit && w.stats.refsNew == v.stats.refsNew
            && w.asked == v.asked
  {
    var w := LitStep(cx, v, end);
    if w.instrs != v.instrs {
      RefsConcat(v.instrs, [w.instrs[|w.instrs| - 1]]);
      RefsOfOne(w.instrs[|w.instrs| - 1]);
    }
  }

  // The accounts of references: `top` is how many there are at the top.
  ghost predicate Accounted(v: View, has: Digest -> bool) {
    && NewsCounted(v, has)
    && v.stats.refsHit + v.stats.refsNew <= v.stats.refs
    && ((forall d :: has(d)) ==> v.stats.refsHit == v.stats.refs == |Programs.RefsOf(v.instrs)|)
  }

  lemma ReferenceAccounted(cx: Ctx, v: View, c: Cand, inner: seq<Cand>, has: Digest -> bool)
    requires |cx.body| < ALLOC_LIMIT && InBounds(c.span, cx.body) && Steady(cx, has) && Accounted(v, has)
    ensures Accounted(ReferenceStep(cx, v, c, inner), has)
  {
    if Accepts(v, c) {
      var d := Digest(c.kind, Slice(c.span, cx.body));
      var v0 := LitStep(cx, v, c.span.start);
      LitNews(cx, v, c.span.start);
      ProvideNews(cx, v0, c, inner);
      var w := ReferenceStep(cx, v, c, inner);
      var r: Instr := Ref(d, SpanLen(c.span));
      assert w.instrs == v0.instrs + [r];
      RefsConcat(v0.instrs, [r]);
      RefsOfOne(r);
      WithoutConcat(Programs.RefsOf(v0.instrs), [d], has);
      assert [d][1..] == [];
    }
  }

  lemma {:induction false} CoverAccounted(cx: Ctx, v: View, gs: seq<Group>, has: Digest -> bool)
    requires |cx.body| < ALLOC_LIMIT && AllInBounds(cx.body, gs) && Steady(cx, has) && Accounted(v, has)
    ensures Accounted(CoverAll(cx, v, gs), has)
    decreases |gs|
  {
    hide ReferenceStep, Accounted, Steady;
    if gs != [] {
      assert gs[0] in gs && forall x :: x in gs[1..] ==> x in gs;
      ReferenceAccounted(cx, v, gs[0].cand, gs[0].children, has);
      CoverAccounted(cx, ReferenceStep(cx, v, gs[0].cand, gs[0].children), gs[1..], has);
    }
  }

  lemma FinishAccounted(cx: Ctx, v: View, has: Digest -> bool)
    requires Accounted(v, has) && FinishAction(cx, LitStep(cx, v, |cx.body|)).Split?
    ensures var out := FinishAction(cx, LitStep(cx, v, |cx.body|)).out;
            && out.stats.refsNew == |Without(Programs.RefsOf(out.instrs), has)|
            && out.stats.refsHit + out.stats.refsNew <= out.stats.refs
            && ((forall d :: has(d)) ==> out.stats.refsHit == out.stats.refs == |Programs.RefsOf(out.instrs)|)
  {
    LitNews(cx, v, |cx.body|);
    var w := LitStep(cx, v, |cx.body|);
    LitNews(cx, w, |cx.body|);
    NormalizedKeepsRefs([], LitStep(cx, w, |cx.body|).instrs);
    var refs := Programs.RefsOf(LitStep(cx, w, |cx.body|).instrs);
    assert Programs.RefsOf([]) + refs == refs;
  }

  // What is pushed and what is referenced, under a presence that always gives
  // the same answer about a digest: of the references of the program, and of
  // those inside the pushed blocks, the pushed ones are exactly those the peer
  // lacks; and the counts of hits and of news are of these.
  lemma SteadyPushes(cx: Ctx, gear: Chunking.Gear, has: Digest -> bool)
    requires |cx.body| < ALLOC_LIMIT && Decision(cx, gear).Split? && Steady(cx, has)
    ensures var out := Decision(cx, gear).out;
            && (forall b :: b in out.toPush ==> !has(b.digest))
            && (forall i :: i in out.instrs && i.Ref? ==> (i.digest in Digests(out.toPush) <==> !has(i.digest)))
            && (forall b, i :: b in out.toPush && b.body.ProgramBody? && i in b.body.instrs && i.Ref? ==>
                  (i.digest in Digests(out.toPush) <==> !has(i.digest)))
            && out.stats.refsNew == |Without(Programs.RefsOf(out.instrs), has)|
            && out.stats.refsHit + out.stats.refsNew <= out.stats.refs
            && ((forall d :: has(d)) ==> out.stats.refsHit == out.stats.refs == |Programs.RefsOf(out.instrs)|)
  {
    var out := Decision(cx, gear).out;
    SteadyAccounts(cx, gear, has);
    hide Decision, GoodSplit, Without;
    OnlyDeniedIsPushed(cx, gear);
    var claimed := EverySplitIsGood(cx, gear);
    ExactlyLacking(cx.body, out, claimed, has);
  }

  lemma ExactlyLacking(body: Bytes, out: SplitOutput, claimed: set<Digest>, has: Digest -> bool)
    requires GoodSplit(body, out, claimed) && (forall d :: d in claimed ==> has(d))
    requires forall b :: b in out.toPush ==> !has(b.digest)
    ensures forall i :: i in out.instrs && i.Ref? ==> (i.digest in Digests(out.toPush) <==> !has(i.digest))
    ensures forall b, i :: b in out.toPush && b.body.ProgramBody? && i in b.body.instrs && i.Ref? ==>
              (i.digest in Digests(out.toPush) <==> !has(i.digest))
  {
    forall d | d in Digests(out.toPush) ensures !has(d) {
      var k := DigestsAt(out.toPush, d);
      assert out.toPush[k] in out.toPush;
    }
    forall b, i | b in out.toPush && b.body.ProgramBody? && i in b.body.instrs && i.Ref?
      ensures i.digest in Digests(out.toPush) + claimed
    {
      var k :| 0 <= k < |out.toPush| && out.toPush[k] == b;
      PushOrderAt(out.toPush, claimed, k);
      DigestsGrow(out.toPush, k, |out.toPush|);
      assert out.toPush[..|out.toPush|] == out.toPush;
    }
  }

  lemma SteadyAccounts(cx: Ctx, gear: Chunking.Gear, has: Digest -> bool)
    requires |cx.body| < ALLOC_LIMIT && Decision(cx, gear).Split? && Steady(cx, has)
    ensures var out := Decision(cx, gear).out;
            && out.stats.refsNew == |Without(Programs.RefsOf(out.instrs), has)|
            && out.stats.refsHit + out.stats.refsNew <= out.stats.refs
            && ((forall d :: has(d)) ==> out.stats.refsHit == out.stats.refs == |Programs.RefsOf(out.instrs)|)
  {
    hide CoverAll, StructuralPlan, ChunkPlan, FinishAction, LitStep, Steady;
    PlansAreShaped(cx.body, cx.policy, gear);
    var v := Marked(Start(cx.body), StructuralPlan(cx.body, cx.policy) != []);
    assert Accounted(v, has);
    CoverAccounted(cx, v, Planned(cx.body, cx.policy, gear), has);
    FinishAccounted(cx, CoverAll(cx, v, Planned(cx.body, cx.policy, gear)), has);
  }

  // ---------- Written through ----------

  // Every pushed block is in the local store from then on: it was, or it was
  // written when it was queued.
  ghost predicate Through(cx: Ctx, v: View, holds: Digest -> bool) {
    |v.wrote| == |v.push| && forall k :: 0 <= k < |v.push| ==> (v.wrote[k] <==> !holds(v.push[k].digest))
  }

  ghost predicate SteadyStore(cx: Ctx, holds: Digest -> bool) {
    forall n: nat, d :: cx.localHas(n, d) <==> holds(d)
  }

  lemma QueueThrough(cx: Ctx, v: View, b: Block, holds: Digest -> bool)
    requires SteadyStore(cx, holds) && Through(cx, v, holds)
    ensures Through(cx, QueueStep(cx, v, b), holds)
  {
  }

  lemma {:induction false} ChildrenThrough(cx: Ctx, v: View, pos: nat, end: nat, inner: seq<Cand>,
                                           holds: Digest -> bool)
    requires pos <= end <= |cx.body| < ALLOC_LIMIT && SteadyStore(cx, holds) && Through(cx, v, holds)
    ensures Through(cx, ChildrenStep(cx, v, pos, end, inner), holds)
    decreases |inner|
  {
    hide SteadyStore;
    if inner != [] {
      if Fits(inner[0], pos, end) {
        var ch := inner[0];
        var v1 := AskStep(cx, CountRef(v, 0), Digest(ch.kind, Slice(ch.span, cx.body)));
        QueueThrough(cx, v1, BytesBlock(ch.kind, Slice(ch.span, cx.body)), holds);
        ChildrenThrough(cx, ChildStep(cx, v, ch), ch.span.end, end, inner[1..], holds);
      } else {
        ChildrenThrough(cx, v, pos, end, inner[1..], holds);
      }
    }
  }

  lemma ReferenceThrough(cx: Ctx, v: View, c: Cand, inner: seq<Cand>, holds: Digest -> bool)
    requires |cx.body| < ALLOC_LIMIT && InBounds(c.span, cx.body)
    requires SteadyStore(cx, holds) && Through(cx, v, holds)
    ensures Through(cx, ReferenceStep(cx, v, c, inner), holds)
  {
    hide BlockFor, SteadyStore;
    if Accepts(v, c) {
      var v0 := LitStep(cx, v, c.span.start);
      var v1 := CountNew(AskStep(cx, CountRef(v0, SpanLen(c.span)), Digest(c.kind, Slice(c.span, cx.body))));
      ChildrenThrough(cx, v1, c.span.start, c.span.end, inner, holds);
      QueueThrough(cx, ChildrenStep(cx, v1, c.span.start, c.span.end, inner), BlockFor(cx.body, c, inner), holds);
    }
  }

  lemma {:induction false} WrittenThrough(cx: Ctx, v: View, gs: seq<Group>, holds: Digest -> bool)
    requires |cx.body| < ALLOC_LIMIT && AllInBounds(cx.body, gs)
    requires SteadyStore(cx, holds) && Through(cx, v, holds)
    ensures Through(cx, CoverAll(cx, v, gs), holds)
    decreases |gs|
  {
    hide ReferenceStep, Through, SteadyStore;
    if gs != [] {
      assert gs[0] in gs && forall x :: x in gs[1..] ==> x in gs;
      ReferenceThrough(cx, v, gs[0].cand, gs[0].children, holds);
      WrittenThrough(cx, ReferenceStep(cx, v, gs[0].cand, gs[0].children), gs[1..], holds);
    }
  }

  // ---------- Which program, and when ----------

  // The rest of the program is that of the candidates that are left.
  lemma ReferenceProgram(cx: Ctx, v: View, g: Group, rest: seq<Cand>)
    requires |cx.body| < ALLOC_LIMIT && InBounds(g.cand.span, cx.body) && v.pos <= |cx.body|
    ensures var w := ReferenceStep(cx, v, g.cand, g.children);
            && w.pos <= |cx.body|
            && w.instrs + InnerProgram(cx.body, w.pos, |cx.body|, rest) ==
               v.instrs + InnerProgram(cx.body, v.pos, |cx.body|, [g.cand] + rest)
  {
    hide ProvideStep;
    assert ([g.cand] + rest)[1..] == rest;
    if Accepts(v, g.cand) {
      Limits.ProvideApart(cx, LitStep(cx, v, g.cand.span.start), g.cand, g.children);
    }
  }

  lemma {:induction false} CoverProgram(cx: Ctx, v: View, gs: seq<Group>)
    requires |cx.body| < ALLOC_LIMIT && AllInBounds(cx.body, gs) && v.pos <= |cx.body|
    ensures var w := CoverAll(cx, v, gs);
            && w.pos <= |cx.body|
            && LitStep(cx, w, |cx.body|).instrs == v.instrs + InnerProgram(cx.body, v.pos, |cx.body|, CandsOf(gs))
    decreases |gs|
  {
    hide ReferenceStep;
    if gs != [] {
      assert gs[0] in gs && forall x :: x in gs[1..] ==> x in gs;
      ReferenceProgram(cx, v, gs[0], CandsOf(gs[1..]));
      CoverProgram(cx, ReferenceStep(cx, v, gs[0].cand, gs[0].children), gs[1..]);
    } else {
      assert v.instrs + [] == v.instrs;
    }
  }

  ghost predicate SomeFits(body: Bytes, cs: seq<Cand>) { exists c :: c in cs && Fits(c, 0, |body|) }

  lemma {:induction false} RefsStay(cx: Ctx, v: View, gs: seq<Group>)
    requires |cx.body| < ALLOC_LIMIT && AllInBounds(cx.body, gs) && v.pos <= |cx.body|
    ensures CoverAll(cx, v, gs).stats.refs >= v.stats.refs
    decreases |gs|
  {
    Limits.CoverCounts(cx, v, gs);
  }

  lemma {:induction false} NothingReferenced(cx: Ctx, v: View, gs: seq<Group>)
    requires |cx.body| < ALLOC_LIMIT && AllInBounds(cx.body, gs) && v.pos == 0 && v.stats.refs == 0
    ensures CoverAll(cx, v, gs).stats.refs == 0 <==> !SomeFits(cx.body, CandsOf(gs))
    decreases |gs|
  {
    hide ReferenceStep;
    if gs != [] {
      var g := gs[0];
      assert g in gs && forall x :: x in gs[1..] ==> x in gs;
      assert CandsOf(gs) == [g.cand] + CandsOf(gs[1..]);
      Limits.ReferenceCounts(cx, v, g);
      if Fits(g.cand, 0, |cx.body|) {
        assert g.cand in CandsOf(gs);
        RefsStay(cx, ReferenceStep(cx, v, g.cand, g.children), gs[1..]);
      } else {
        NothingReferenced(cx, v, gs[1..]);
      }
    }
  }

  // What a split of these groups would put on the link.
  ghost function Weight(cx: Ctx, v: View, gs: seq<Group>): nat
    requires |cx.body| < ALLOC_LIMIT && AllInBounds(cx.body, gs)
  {
    Programs.ProgramWireCost(InnerProgram(cx.body, 0, |cx.body|, CandsOf(gs))) + PushCost(CoverAll(cx, v, gs).push)
  }

  // How many instructions there are up to the last reference.
  function UpToLast(body: Bytes, cs: seq<Cand>): int {
    Pieces(0, |body|, cs) - if Limits.Reached(0, |body|, cs) < |body| then 1 else 0
  }

  // The end of it, for any list of groups: a program known from the candidates
  // alone, and whether it is worth sending.
  ghost predicate Concluded(cx: Ctx, v: View, gs: seq<Group>, a: Action)
    requires |cx.body| < ALLOC_LIMIT && AllInBounds(cx.body, gs)
  {
    var body, cs := cx.body, CandsOf(gs);
    var most := |body| + if |body| / 16 > 1024 then |body| / 16 else 1024;
    if UpToLast(body, cs) > cx.policy.maxInstrs then a == Passthrough(LimitsHit)
    else if !SomeFits(body, cs) then a == Passthrough(Unrecognised)
    else if Weight(cx, v, gs) > most then a == Passthrough(LimitsHit)
    else
      && a.Split? && a.out.instrs == InnerProgram(body, 0, |body|, cs) && a.out.toPush == CoverAll(cx, v, gs).push
      && a.out.stats.WireBytes() == Weight(cx, v, gs)
      && a.out.stats.structural == v.stats.structural && a.out.stats.cdcUsed == v.stats.cdcUsed
      && a.out.stats.pushBlocks == a.out.stats.blocksCreated == |a.out.toPush|
      && a.out.stats.instrs == |a.out.instrs|
  }

  ghost predicate AtStart(cx: Ctx, v: View) {
    v.instrs == [] && v.pos == 0 && v.stats.refs == 0 && !v.limits
  }

  lemma {:induction false} MarksStay(cx: Ctx, v: View, gs: seq<Group>)
    requires |cx.body| < ALLOC_LIMIT && AllInBounds(cx.body, gs)
    ensures CoverAll(cx, v, gs).stats.structural == v.stats.structural
    ensures CoverAll(cx, v, gs).stats.cdcUsed == v.stats.cdcUsed
    decreases |gs|
  {
    hide ReferenceStep;
    if gs != [] {
      assert gs[0] in gs && forall x :: x in gs[1..] ==> x in gs;
      MarkStays(cx, v, gs[0].cand, gs[0].children);
      MarksStay(cx, ReferenceStep(cx, v, gs[0].cand, gs[0].children), gs[1..]);
    }
  }

  lemma MarkStays(cx: Ctx, v: View, c: Cand, inner: seq<Cand>)
    requires |cx.body| < ALLOC_LIMIT && InBounds(c.span, cx.body)
    ensures var w := ReferenceStep(cx, v, c, inner);
            w.stats.structural == v.stats.structural && w.stats.cdcUsed == v.stats.cdcUsed
  {
    hide BlockFor;
    if Accepts(v, c) {
      var v0 := LitStep(cx, v, c.span.start);
      var v1 := AskStep(cx, CountRef(v0, SpanLen(c.span)), Digest(c.kind, Slice(c.span, cx.body)));
      ChildrenMark(cx, CountNew(v1), c.span.start, c.span.end, inner);
    }
  }

  lemma {:induction false} ChildrenMark(cx: Ctx, v: View, pos: nat, end: nat, inner: seq<Cand>)
    requires pos <= end <= |cx.body| < ALLOC_LIMIT
    ensures var w := ChildrenStep(cx, v, pos, end, inner);
            w.stats.structural == v.stats.structural && w.stats.cdcUsed == v.stats.cdcUsed
    decreases |inner|
  {
    if inner != [] {
      if Fits(inner[0], pos, end) {
        ChildrenMark(cx, ChildStep(cx, v, inner[0]), inner[0].span.end, end, inner[1..]);
      } else {
        ChildrenMark(cx, v, pos, end, inner[1..]);
      }
    }
  }

  // The builder's last step, from a state of which these are known.
  lemma FinishConcludes(cx: Ctx, w: View)
    requires Inv(cx.body, w) && Limits.Tidy(cx, w)
    ensures var u, a := LitStep(cx, w, |cx.body|), FinishAction(cx, LitStep(cx, w, |cx.body|));
            var cost := Programs.ProgramWireCost(u.instrs) + PushCost(w.push);
            var most := |cx.body| + if |cx.body| / 16 > 1024 then |cx.body| / 16 else 1024;
            if w.limits then a == Passthrough(LimitsHit)
            else if w.stats.refs == 0 then a == Passthrough(Unrecognised)
            else if cost > most then a == Passthrough(LimitsHit)
            else && a.Split? && a.out.instrs == u.instrs && a.out.toPush == w.push && a.out.stats.WireBytes() == cost
                 && a.out.stats.structural == w.stats.structural && a.out.stats.cdcUsed == w.stats.cdcUsed
                 && a.out.stats.pushBlocks == a.out.stats.blocksCreated == |w.push|
                 && a.out.stats.instrs == |u.instrs|
  {
    Limits.TailMerged(cx, w);
    LitKeeps(cx, w, |cx.body|);
    Programs.LitBytesWithinCost(LitStep(cx, w, |cx.body|).instrs);
    hide Programs.Normalized, Programs.ProgramWireCost, Programs.LitBytes, PushCost, Denotes, Limits.Tidy;
  }

  lemma TidyLimits(cx: Ctx, v: View, gs: seq<Group>)
    requires |cx.body| < ALLOC_LIMIT && AllInBounds(cx.body, gs) && AtStart(cx, v) && Limits.Tidy(cx, v)
    ensures var w := CoverAll(cx, v, gs);
            && Limits.Tidy(cx, w) && w.pos <= |cx.body|
            && (w.limits <==> UpToLast(cx.body, CandsOf(gs)) > cx.policy.maxInstrs)
  {
    hide CoverAll, ReferenceStep, Pieces, Limits.Reached, Limits.Taken, Programs.Canonical;
    Limits.TidyCover(cx, v, gs);
    Limits.CoverCounts(cx, v, gs);
  }

  lemma ListConcludes(cx: Ctx, v: View, gs: seq<Group>)
    requires |cx.body| < ALLOC_LIMIT && AllInBounds(cx.body, gs) && AllShaped(cx.body, gs)
    requires AtStart(cx, v) && Inv(cx.body, v) && Claims(cx, v) && Limits.Tidy(cx, v)
    ensures Concluded(cx, v, gs, FinishAction(cx, Covered(cx, v, gs)))
  {
    hide *;
    CoverAllKeeps(cx, v, gs);
    TidyLimits(cx, v, gs);
    MarksStay(cx, v, gs);
    ConcludeParts(cx, v, gs);
    CoverProgram(cx, v, gs);
    NothingReferenced(cx, v, gs);
    FinishConcludes(cx, CoverAll(cx, v, gs));
    Conclude(cx, v, gs);
  }

  lemma ConcludeParts(cx: Ctx, v: View, gs: seq<Group>)
    requires |cx.body| < ALLOC_LIMIT && AllInBounds(cx.body, gs)
    ensures AtStart(cx, v) ==> v.instrs == [] && v.pos == 0 && v.stats.refs == 0
    ensures Covered(cx, v, gs) == LitStep(cx, CoverAll(cx, v, gs), |cx.body|)
  {
    hide CoverAll, LitStep;
  }

  lemma Conclude(cx: Ctx, v: View, gs: seq<Group>)
    requires |cx.body| < ALLOC_LIMIT && AllInBounds(cx.body, gs) && v.instrs == []
    requires var w := CoverAll(cx, v, gs);
             && (w.limits <==> UpToLast(cx.body, CandsOf(gs)) > cx.policy.maxInstrs)
             && (w.stats.refs == 0 <==> !SomeFits(cx.body, CandsOf(gs)))
             && w.stats.structural == v.stats.structural && w.stats.cdcUsed == v.stats.cdcUsed
             && LitStep(cx, w, |cx.body|).instrs == v.instrs + InnerProgram(cx.body, 0, |cx.body|, CandsOf(gs))
    requires var w := CoverAll(cx, v, gs);
             var u, a := LitStep(cx, w, |cx.body|), FinishAction(cx, LitStep(cx, w, |cx.body|));
             var cost := Programs.ProgramWireCost(u.instrs) + PushCost(w.push);
             var most := |cx.body| + if |cx.body| / 16 > 1024 then |cx.body| / 16 else 1024;
             if w.limits then a == Passthrough(LimitsHit)
             else if w.stats.refs == 0 then a == Passthrough(Unrecognised)
             else if cost > most then a == Passthrough(LimitsHit)
             else && a.Split? && a.out.instrs == u.instrs && a.out.toPush == w.push && a.out.stats.WireBytes() == cost
                  && a.out.stats.structural == w.stats.structural && a.out.stats.cdcUsed == w.stats.cdcUsed
                  && a.out.stats.pushBlocks == a.out.stats.blocksCreated == |w.push|
                  && a.out.stats.instrs == |u.instrs|
    ensures Concluded(cx, v, gs, FinishAction(cx, LitStep(cx, CoverAll(cx, v, gs), |cx.body|)))
  {
    hide CoverAll, LitStep, FinishAction, InnerProgram, UpToLast, SomeFits, AllInBounds, PushCost,
         Programs.ProgramWireCost, CandsOf;
    var p := InnerProgram(cx.body, 0, |cx.body|, CandsOf(gs));
    assert [] + p == p;
  }

  // When a body is split, and into what. The gates come in this order; then the
  // structural groups are taken if there are any, and otherwise the chunks if
  // the fallback is on; and what comes of them is known from the candidates, but
  // for what presence spares.
  lemma DecisionExactly(cx: Ctx, gear: Chunking.Gear)
    requires |cx.body| < ALLOC_LIMIT
    ensures AllInBounds(cx.body, StructuralPlan(cx.body, cx.policy))
    ensures AllInBounds(cx.body, ChunkPlan(cx.body, cx.policy, gear))
    ensures var body, p, a := cx.body, cx.policy, Decision(cx, gear);
            if !p.enabled then a == Passthrough(Disabled)
            else if |body| < p.minBodyBytes then a == Passthrough(Skip.TooSmall(|body|))
            else if |body| > p.maxBodyBytes then a == Passthrough(Skip.TooLarge(|body|))
            else if StructuralPlan(body, p) != [] then
              Concluded(cx, Marked(Start(body), true), StructuralPlan(body, p), a)
            else if p.cdcFallback then Concluded(cx, Marked(Start(body), false), ChunkPlan(body, p, gear), a)
            else a == Passthrough(Unrecognised)
    ensures var a, structural := Decision(cx, gear), StructuralPlan(cx.body, cx.policy) != [];
            a.Split? ==> a.out.stats.structural == structural && a.out.stats.cdcUsed == !structural
  {
    hide StructuralPlan, ChunkPlan, Covered, FinishAction, Concluded, Inv, Claims;
    PlansAreShaped(cx.body, cx.policy, gear);
    StartKeeps(cx);
    if StructuralPlan(cx.body, cx.policy) != [] {
      ListConcludes(cx, Marked(Start(cx.body), true), StructuralPlan(cx.body, cx.policy));
      ConcludedMarks(cx, Marked(Start(cx.body), true), StructuralPlan(cx.body, cx.policy), Decision(cx, gear));
    } else {
      ListConcludes(cx, Marked(Start(cx.body), false), ChunkPlan(cx.body, cx.policy, gear));
      ConcludedMarks(cx, Marked(Start(cx.body), false), ChunkPlan(cx.body, cx.policy, gear), Decision(cx, gear));
    }
  }

  lemma ConcludedMarks(cx: Ctx, v: View, gs: seq<Group>, a: Action)
    requires |cx.body| < ALLOC_LIMIT && AllInBounds(cx.body, gs)
    ensures Concluded(cx, v, gs, a) && a.Split? ==>
              a.out.stats.structural == v.stats.structural && a.out.stats.cdcUsed == v.stats.cdcUsed
  {
    hide CoverAll, InnerProgram, UpToLast, SomeFits, Weight;
  }

  // ---------- The chunks a body falls back on ----------

  lemma {:induction false} AloneChunks(spans: seq<Span>, floor: nat)
    ensures var gs := Grouping.AloneAll(Chunking.ChunkCands(spans, floor));
            && |gs| == |spans|
            && forall k :: 0 <= k < |spans| ==> gs[k] == Group(Cand(spans[k], Chunk, floor), [])
  {
    if spans != [] {
      AloneChunks(spans[1..], floor);
    }
  }

  // A body in which no structure is found is cut up whole: its chunks are a
  // group each, of at least the larger of the two floors, and each ends at the
  // first place where it may.
  lemma ChunkPlanExactly(body: Bytes, p: Policy, gear: Chunking.Gear, cs: seq<Span>)
    requires Chunking.Tiles(cs, 0, |body|)
    requires forall c :: c in cs ==>
               Chunking.EndsRight(gear, body, Span(0, |body|), c, Chunking.Larger(p.cdcMin, p.minBlockBytes), p.cdcMax,
                                  p.cdcBits)
    ensures var gs := ChunkPlan(body, p, gear);
            && |gs| == |cs|
            && forall k :: 0 <= k < |cs| ==>
                 gs[k] == Group(Cand(cs[k], Chunk, Chunking.Larger(p.cdcMin, p.minBlockBytes)), [])
  {
    hide Chunking.EndsRight, Chunking.Tiles, Chunking.Chunks, Chunking.ChunkCands, Chunking.MaskBits, Grouping.AloneAll;
    var floor := Chunking.Larger(p.cdcMin, p.minBlockBytes);
    Chunking.ChunksExactly(gear, body, Span(0, |body|), floor, p.cdcMax, p.cdcBits, cs);
    AloneChunks(cs, floor);
  }
}

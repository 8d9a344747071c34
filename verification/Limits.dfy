// Whether what a split puts on the link gets past the peer's decoder: its blocks,
// and its program, which can be one instruction longer than the limit both
// ends share.

module Limits {
  import opened Blocks
  import opened Policies
  import opened Session
  import opened SplitBodies
  import opened Splitter
  import Chunking
  import Codec
  import LaminarGroups
  import Programs
  import Varints

  // ---------- Do pushed blocks get across? ----------

  // The block made for a group passes the peer's decoder exactly when it fits a
  // frame and its program, one instruction a child and one a gap, is within
  // the decoder's limit.
  lemma GroupBlockDecodes(body: Bytes, c: Cand, inner: seq<Cand>)
    requires |body| < ALLOC_LIMIT && InReach(body, c, inner)
    ensures var b := BlockFor(body, c, inner);
            Decodes(b) <==> Codec.BlockSize(b) <= Codec.MAX_FRAME_PAYLOAD
                            && (inner == [] || Pieces(c.span.start, c.span.end, inner) <= MAX_INSTRS)
  {
    hide Codec.BlockSize, InnerProgram, Programs.Normalized, Pieces;
    BlockForSize(body, c, inner);
  }

  lemma VarintTen(v: nat)
    requires v < TWO64
    ensures Varints.VarintLen(v) <= 10
  {
    Varints.Pow128Ten();
    Varints.VarintLenBound(v, 10);
  }

  lemma {:induction false} InnerSize(body: Bytes, pos: nat, end: nat, inner: seq<Cand>)
    requires pos <= end <= |body| < ALLOC_LIMIT
    ensures Codec.InstrsSize(InnerProgram(body, pos, end, inner)) <=
            end - pos + 27 * Pieces(pos, end, inner)
    decreases |inner|
  {
    hide Varints.VarintLen;
    if inner == [] {
      LitSize(body, pos, end);
    } else if Fits(inner[0], pos, end) {
      var s := inner[0].span;
      var tail := InnerProgram(body, s.end, end, inner[1..]);
      var x: Instr := Ref(Digest(inner[0].kind, Slice(s, body)), SpanLen(s));
      var lead: seq<Instr> := if pos < s.start then [Lit(body[pos..s.start])] else [];
      InnerSize(body, s.end, end, inner[1..]);
      LitSize(body, pos, s.start);
      VarintTen(SpanLen(s));
      SizesAdd(lead, [x] + tail);
      assert ([x] + tail)[1..] == tail && lead + [x] + tail == lead + ([x] + tail);
    } else {
      InnerSize(body, pos, end, inner[1..]);
    }
  }

  lemma LitSize(body: Bytes, pos: nat, end: nat)
    requires pos <= end <= |body| < ALLOC_LIMIT
    ensures var p: seq<Instr> := if pos < end then [Lit(body[pos..end])] else [];
            Codec.InstrsSize(p) <= end - pos + 11 * |p|
  {
    VarintTen(end - pos);
    hide Varints.VarintLen;
    var p: seq<Instr> := if pos < end then [Lit(body[pos..end])] else [];
    assert p != [] ==> p[1..] == [];
  }

  lemma {:induction false} SizesAdd(a: seq<Instr>, b: seq<Instr>)
    ensures Codec.InstrsSize(a + b) == Codec.InstrsSize(a) + Codec.InstrsSize(b)
  {
    if a == [] {
      assert a + b == b;
    } else {
      assert (a + b)[1..] == a[1..] + b;
      SizesAdd(a[1..], b);
    }
  }

  // A span of up to 56 MiB with fewer than a hundred thousand children is
  // always on the safe side.
  lemma SmallGroupDecodes(body: Bytes, c: Cand, inner: seq<Cand>)
    requires |body| < ALLOC_LIMIT && InReach(body, c, inner)
    requires SpanLen(c.span) <= 0x380_0000 && |inner| < 100_000
    ensures Decodes(BlockFor(body, c, inner))
  {
    var b := BlockFor(body, c, inner);
    GroupBlockDecodes(body, c, inner);
    BlockForSize(body, c, inner);
    InnerSize(body, c.span.start, c.span.end, inner);
    NormalizedPieces(body, c.span.start, c.span.end, inner);
    VarintTen(b.len);
    VarintTen(Pieces(c.span.start, c.span.end, inner));
    hide Varints.VarintLen, InnerProgram, Programs.Normalized, Pieces, Codec.InstrsSize;
  }

  // So everything a split of such a body pushes gets across.
  lemma SmallSplitPasses(cx: Ctx, gear: Chunking.Gear)
    requires |cx.body| <= 0x380_0000 && Decision(cx, gear).Split?
    requires forall g :: g in Planned(cx.body, cx.policy, gear) ==> |g.children| < 100_000
    ensures forall b :: b in Decision(cx, gear).out.toPush ==> Decodes(b)
  {
    PlansAreShaped(cx.body, cx.policy, gear);
    var groups := Planned(cx.body, cx.policy, gear);
    assert AllShaped(cx.body, groups);
    hide Decision, Planned, Decodes, StructuralPlan, ChunkPlan, Honest, GoodSplit, BlockFor;
    var claimed := EverySplitIsGood(cx, gear);
    forall b | b in Decision(cx, gear).out.toPush ensures Decodes(b) {
      var g :| g in groups && MadeFor(cx.body, g.cand, g.children, b);
      MadeDecodes(cx.body, g.cand, g.children, b);
    }
  }

  lemma MadeDecodes(body: Bytes, c: Cand, inner: seq<Cand>, b: Block)
    requires |body| <= 0x380_0000 && InReach(body, c, inner) && |inner| < 100_000
    requires MadeFor(body, c, inner, b)
    ensures Decodes(b)
  {
    hide Decodes, BlockFor;
    if b == BlockFor(body, c, inner) {
      SmallGroupDecodes(body, c, inner);
    } else {
      var ch :| ch in inner && InBounds(ch.span, body)
                && b == BytesBlock(ch.kind, Slice(ch.span, body));
      SmallGroupDecodes(body, ch, []);
      AloneIsRaw(body, ch);
    }
  }

  lemma AloneIsRaw(body: Bytes, c: Cand)
    requires |body| < ALLOC_LIMIT && InBounds(c.span, body)
    ensures BlockFor(body, c, []) == BytesBlock(c.kind, Slice(c.span, body))
  {
  }

  // ---------- How long a program can be ----------

  // Between two groups the program is merged already and ends in a reference,
  // and the limit is not passed unless that was noticed.
  ghost predicate Tidy(cx: Ctx, v: View) {
    && Programs.Canonical(v.instrs)
    && (v.instrs != [] ==> v.instrs[|v.instrs| - 1].Ref?)
    && v.pos <= |cx.body|
    && (v.limits || |v.instrs| <= cx.policy.maxInstrs)
  }

  lemma TidyLit(cx: Ctx, v: View, end: nat)
    requires Tidy(cx, v)
    ensures var w := LitStep(cx, v, end);
            && Programs.Canonical(w.instrs) && w.pos <= |cx.body| && w.limits == v.limits
            && |w.instrs| == |v.instrs| + if w.pos > v.pos then 1 else 0
  {
  }

  lemma {:induction false} ChildrenApart(cx: Ctx, v: View, pos: nat, end: nat, inner: seq<Cand>)
    requires pos <= end <= |cx.body| < ALLOC_LIMIT
    ensures var w := ChildrenStep(cx, v, pos, end, inner);
            && w.instrs == v.instrs && w.pos == v.pos && w.limits == v.limits
            && w.stats.refCovered == v.stats.refCovered && w.stats.refs >= v.stats.refs
    decreases |inner|
  {
    if inner != [] {
      if Fits(inner[0], pos, end) {
        ChildrenApart(cx, ChildStep(cx, v, inner[0]), inner[0].span.end, end, inner[1..]);
      } else {
        ChildrenApart(cx, v, pos, end, inner[1..]);
      }
    }
  }

  lemma ProvideApart(cx: Ctx, v: View, c: Cand, inner: seq<Cand>)
    requires |cx.body| < ALLOC_LIMIT && InBounds(c.span, cx.body)
    ensures var w := ProvideStep(cx, v, c, inner);
            && w.instrs == v.instrs && w.pos == v.pos && w.limits == v.limits
            && w.stats.refCovered == v.stats.refCovered + SpanLen(c.span) && w.stats.refs > v.stats.refs
  {
    hide BlockFor;
    var v1 := AskStep(cx, CountRef(v, SpanLen(c.span)), Digest(c.kind, Slice(c.span, cx.body)));
    ChildrenApart(cx, CountNew(v1), c.span.start, c.span.end, inner);
  }

  lemma TidyReference(cx: Ctx, v: View, c: Cand, inner: seq<Cand>)
    requires |cx.body| < ALLOC_LIMIT && InBounds(c.span, cx.body) && Tidy(cx, v)
    ensures Tidy(cx, ReferenceStep(cx, v, c, inner))
  {
    hide ProvideStep;
    if Accepts(v, c) {
      var w := LitStep(cx, v, c.span.start);
      TidyLit(cx, v, c.span.start);
      ProvideApart(cx, w, c, inner);
    }
  }

  lemma {:induction false} TidyCover(cx: Ctx, v: View, gs: seq<Group>)
    requires |cx.body| < ALLOC_LIMIT && LaminarGroups.AllInBounds(cx.body, gs) && Tidy(cx, v)
    ensures Tidy(cx, LaminarGroups.CoverAll(cx, v, gs))
    decreases |gs|
  {
    hide Tidy, ReferenceStep;
    if gs != [] {
      var g := gs[0];
      assert g in gs && forall x :: x in gs[1..] ==> x in gs;
      TidyReference(cx, v, g.cand, g.children);
      TidyCover(cx, ReferenceStep(cx, v, g.cand, g.children), gs[1..]);
    }
  }

  // How far the candidates that fit reach, and how much they cover.
  function Reached(pos: nat, end: nat, cs: seq<Cand>): nat
    decreases |cs|
  {
    if cs == [] then pos else Reached(if Fits(cs[0], pos, end) then cs[0].span.end else pos, end, cs[1..])
  }

  function Taken(pos: nat, end: nat, cs: seq<Cand>): nat
    decreases |cs|
  {
    if cs == [] then 0
    else if Fits(cs[0], pos, end) then SpanLen(cs[0].span) + Taken(cs[0].span.end, end, cs[1..])
    else Taken(pos, end, cs[1..])
  }

  // What referencing a list of groups comes to is known from the candidates
  // alone, whatever presence answers.
  ghost predicate Counts(cx: Ctx, v: View, w: View, cs: seq<Cand>)
    requires v.pos <= |cx.body|
  {
    && w.pos == Reached(v.pos, |cx.body|, cs) <= |cx.body|
    && |w.instrs| + (if w.pos < |cx.body| then 1 else 0) == |v.instrs| + Pieces(v.pos, |cx.body|, cs)
    && |v.instrs| <= |w.instrs|
    && w.stats.refCovered == v.stats.refCovered + Taken(v.pos, |cx.body|, cs)
    && w.stats.refs >= v.stats.refs && (Taken(v.pos, |cx.body|, cs) > 0 ==> w.stats.refs > 0)
    && (!v.limits && |w.instrs| <= cx.policy.maxInstrs ==> !w.limits)
  }

  lemma ReferenceCounts(cx: Ctx, v: View, g: Group)
    requires |cx.body| < ALLOC_LIMIT && InBounds(g.cand.span, cx.body) && v.pos <= |cx.body|
    ensures var w := ReferenceStep(cx, v, g.cand, g.children);
            && w.pos <= |cx.body|
            && if Fits(g.cand, v.pos, |cx.body|)
               then w.pos == g.cand.span.end
                    && |w.instrs| == |v.instrs| + (if v.pos < g.cand.span.start then 2 else 1)
                    && w.stats.refCovered == v.stats.refCovered + SpanLen(g.cand.span)
                    && w.stats.refs > v.stats.refs
                    && (w.limits <==> v.limits || |w.instrs| > cx.policy.maxInstrs)
               else w == v
  {
    hide ProvideStep;
    ProvideApart(cx, LitStep(cx, v, g.cand.span.start), g.cand, g.children);
  }

  lemma {:induction false} CoverCounts(cx: Ctx, v: View, gs: seq<Group>)
    requires |cx.body| < ALLOC_LIMIT && LaminarGroups.AllInBounds(cx.body, gs) && v.pos <= |cx.body|
    ensures Counts(cx, v, LaminarGroups.CoverAll(cx, v, gs), LaminarGroups.CandsOf(gs))
    decreases |gs|
  {
    hide ReferenceStep;
    if gs != [] {
      var g := gs[0];
      assert g in gs && forall x :: x in gs[1..] ==> x in gs;
      assert LaminarGroups.CandsOf(gs)[1..] == LaminarGroups.CandsOf(gs[1..]);
      ReferenceCounts(cx, v, g);
      CoverCounts(cx, ReferenceStep(cx, v, g.cand, g.children), gs[1..]);
    }
  }

  // The program of a split: one instruction for every group that fits and one
  // for every gap. The limit is checked at every reference, but the literal tail
  // comes after the last, so it can be one longer than the limit.
  lemma SplitLength(cx: Ctx, gear: Chunking.Gear)
    requires |cx.body| < ALLOC_LIMIT && Decision(cx, gear).Split?
    ensures var n := Pieces(0, |cx.body|, LaminarGroups.CandsOf(Planned(cx.body, cx.policy, gear)));
            && |Decision(cx, gear).out.instrs| == n <= cx.policy.maxInstrs + 1
            && (|Decision(cx, gear).out.instrs| > cx.policy.maxInstrs <==> n == cx.policy.maxInstrs + 1)
  {
    PlansAreShaped(cx.body, cx.policy, gear);
    var v0, gs := Marked(Start(cx.body), StructuralPlan(cx.body, cx.policy) != []), Planned(cx.body, cx.policy, gear);
    assert Tidy(cx, v0) && v0.instrs == [] && v0.pos == 0;
    assert Decision(cx, gear) == FinishAction(cx, Covered(cx, v0, gs));
    hide StructuralPlan, ChunkPlan, LaminarGroups.CoverAll, Decision, Planned, LaminarGroups.AllInBounds, Pieces,
         Reached, Taken;
    TidyCover(cx, v0, gs);
    CoverCounts(cx, v0, gs);
    TailLength(cx, LaminarGroups.CoverAll(cx, v0, gs));
  }

  lemma TailLength(cx: Ctx, v: View)
    requires Tidy(cx, v) && FinishAction(cx, LitStep(cx, v, |cx.body|)).Split?
    ensures var out := FinishAction(cx, LitStep(cx, v, |cx.body|)).out;
            |v.instrs| <= cx.policy.maxInstrs && |out.instrs| == |v.instrs| + (if v.pos < |cx.body| then 1 else 0)
  {
    TailMerged(cx, v);
  }

  lemma TailMerged(cx: Ctx, v: View)
    requires Tidy(cx, v)
    ensures var w := LitStep(cx, v, |cx.body|);
            && LitStep(cx, w, |cx.body|) == w && Programs.Normalized(w.instrs) == w.instrs && w.pos == |cx.body|
            && |w.instrs| == |v.instrs| + (if v.pos < |cx.body| then 1 else 0)
            && w.limits == v.limits && w.stats.refs == v.stats.refs && w.push == v.push
  {
    var w := LitStep(cx, v, |cx.body|);
    TidyLit(cx, v, |cx.body|);
    assert LitStep(cx, w, |cx.body|) == w;
    Programs.CanonicalFixed([], w.instrs);
    assert [] + w.instrs == w.instrs;
  }

  lemma {:induction false} SizeWithinCost(p: seq<Instr>)
    requires Programs.ProgramWireCost(p) < TWO64
    ensures Codec.InstrsSize(p) <= Programs.ProgramWireCost(p) + 7 * |p|
  {
    hide Varints.VarintLen;
    if p != [] {
      SizeWithinCost(p[1..]);
      if p[0].Lit? {
        VarintTen(|p[0].data|);
      } else {
        VarintTen(p[0].len);
      }
    }
  }

  // So the peer's decoder takes the program of a body of up to 56 MiB exactly
  // when these are within its own limit: for equal limits, all but the ones that
  // are one over.
  lemma ProgramGetsAcross(cx: Ctx, gear: Chunking.Gear)
    requires |cx.body| <= 0x380_0000 && Decision(cx, gear).Split?
    ensures Codec.ProgramPasses(Decision(cx, gear).out.instrs, MAX_INSTRS) <==>
            Pieces(0, |cx.body|, LaminarGroups.CandsOf(Planned(cx.body, cx.policy, gear))) <= MAX_INSTRS
  {
    hide Decision, Planned, MadeFrom, Honest, Codec.InstrsSize, Programs.ProgramWireCost, Varints.VarintLen, Denotes,
         PushOrder, Pieces;
    SplitLength(cx, gear);
    var out := Decision(cx, gear).out;
    var claimed := EverySplitIsGood(cx, gear);
    assert Programs.ProgramWireCost(out.instrs) <= |cx.body| + out.stats.Slack();
    SizeWithinCost(out.instrs);
    if |out.instrs| <= MAX_INSTRS {
      VarintTen(|out.instrs|);
    }
  }

  // ---------- When a plan is split ----------

  lemma {:induction false} CostWithin(p: seq<Instr>)
    ensures Programs.LitBytes(p) <= Programs.ProgramWireCost(p) <= Programs.LitBytes(p) + 20 * |p|
  {
    if p != [] {
      CostWithin(p[1..]);
    }
  }

  lemma {:induction false} OnlyBlock(push: seq<Block>, claimed: set<Digest>, x: Block)
    requires PushOrder(push, claimed) && forall b :: b in push ==> b == x
    ensures PushCost(push) <= Programs.WireCost(x)
  {
    if |push| > 1 {
      assert push[0] in push && push[|push| - 1] in push;
      PushOrderAt(push, claimed, |push| - 1);
      PushOrderAt(push[..|push| - 1], claimed, 0);
    } else if |push| == 1 {
      assert push[0] in push && push[..0] == [];
    }
  }

  // Nothing is pushed twice, so of two blocks there is the weight of both at most.
  lemma FewBlocks(push: seq<Block>, claimed: set<Digest>, x: Block, y: Block)
    requires PushOrder(push, claimed) && forall b :: b in push ==> b == x || b == y
    ensures PushCost(push) <= Programs.WireCost(x) + Programs.WireCost(y)
  {
    if push != [] {
      var before, last := push[..|push| - 1], push[|push| - 1];
      assert last in push;
      var other := if last == x then y else x;
      forall b | b in before ensures b == other {
        var k :| 0 <= k < |before| && before[k] == b;
        PushOrderAt(push, claimed, |push| - 1);
        PushOrderAt(before, claimed, k);
        assert b in push;
      }
      OnlyBlock(before, claimed, other);
    }
  }

  lemma {:induction false} InnerLits(body: Bytes, pos: nat, end: nat, inner: seq<Cand>)
    requires pos <= end <= |body| < ALLOC_LIMIT
    ensures Programs.LitBytes(InnerProgram(body, pos, end, inner)) + Taken(pos, end, inner) == end - pos
    decreases |inner|
  {
    if inner == [] {
      GapLits(body, pos, end);
    } else if Fits(inner[0], pos, end) {
      var s := inner[0].span;
      var x: Instr := Ref(Digest(inner[0].kind, Slice(s, body)), SpanLen(s));
      var lead: seq<Instr> := if pos < s.start then [Lit(body[pos..s.start])] else [];
      var tail := InnerProgram(body, s.end, end, inner[1..]);
      InnerLits(body, s.end, end, inner[1..]);
      GapLits(body, pos, s.start);
      Programs.LitBytesConcat(lead + [x], tail);
      Programs.LitBytesConcat(lead, [x]);
      assert [x][1..] == [];
    } else {
      InnerLits(body, pos, end, inner[1..]);
    }
  }

  lemma GapLits(body: Bytes, pos: nat, end: nat)
    requires pos <= end <= |body|
    ensures Programs.LitBytes(if pos < end then [Lit(body[pos..end])] else []) == end - pos
  {
    var p: seq<Instr> := if pos < end then [Lit(body[pos..end])] else [];
    assert p != [] ==> p[1..] == [];
  }

  // A group's block weighs what its children leave over and its instructions.
  lemma GroupWeight(body: Bytes, c: Cand, inner: seq<Cand>)
    requires |body| < ALLOC_LIMIT && InBounds(c.span, body) && Pieces(c.span.start, c.span.end, inner) > 1
    ensures Programs.WireCost(BlockFor(body, c, inner)) + Taken(c.span.start, c.span.end, inner) <=
            SpanLen(c.span) + 20 * Pieces(c.span.start, c.span.end, inner)
  {
    var p := InnerProgram(body, c.span.start, c.span.end, inner);
    NormalizedPieces(body, c.span.start, c.span.end, inner);
    InnerLits(body, c.span.start, c.span.end, inner);
    CostWithin(p);
    assert inner != [];
    hide InnerProgram, Programs.Normalized, Programs.ProgramWireCost, Programs.LitBytes, Pieces, Taken;
    assert BlockFor(body, c, inner).body == ProgramBody(p);
  }

  // Enough for a plan to be split: something is covered, the references are
  // within the limit, and literals, instructions and pushed blocks weigh less
  // than the body.
  lemma PlanSplits(cx: Ctx, v: View, gs: seq<Group>)
    requires |cx.body| < ALLOC_LIMIT && LaminarGroups.AllInBounds(cx.body, gs) && Inv(cx.body, v) && Tidy(cx, v)
    requires v.instrs == [] && v.pos == 0 && v.stats.refCovered == 0 && !v.limits
    requires Inv(cx.body, LaminarGroups.CoverAll(cx, v, gs))
    requires var cs, push := LaminarGroups.CandsOf(gs), LaminarGroups.CoverAll(cx, v, gs).push;
             && Taken(0, |cx.body|, cs) > 0
             && Pieces(0, |cx.body|, cs) <=
                cx.policy.maxInstrs + (if Reached(0, |cx.body|, cs) < |cx.body| then 1 else 0)
             && 20 * Pieces(0, |cx.body|, cs) + PushCost(push) <= Taken(0, |cx.body|, cs) + 1024
    ensures FinishAction(cx, Covered(cx, v, gs)).Split?
    ensures FinishAction(cx, Covered(cx, v, gs)).out.toPush == LaminarGroups.CoverAll(cx, v, gs).push
  {
    hide LaminarGroups.CoverAll, ReferenceStep, Pieces, Reached, Taken, PushCost, Denotes, LaminarGroups.AllInBounds,
         Programs.Normalized, Programs.ProgramWireCost, Programs.LitBytes, Tidy;
    var u := LaminarGroups.CoverAll(cx, v, gs);
    CoverCounts(cx, v, gs);
    TidyCover(cx, v, gs);
    TailMerged(cx, u);
    LitKeeps(cx, u, |cx.body|);
    CostWithin(LitStep(cx, u, |cx.body|).instrs);
  }
}

// Splitting one request body: the policy's gates, the structural groups or the
// chunks that stand in for them, and what every split guarantees.

module SplitBodies {
  import opened Results
  import opened Blocks
  import opened Policies
  import opened Splitter
  import opened LaminarGroups
  import Programs
  import Resolve
  import Scan
  import Grouping
  import Chunking

  // The structural groups of a body; none unless it is a JSON object.
  function StructuralPlan(body: Bytes, p: Policy): seq<Group> {
    var doc := Scan.Document(body);
    if doc.Ok? then Grouping.Groups(body, doc.value.span, p) else []
  }

  function ChunkFloor(p: Policy): nat {
    if p.cdcMin > p.minBlockBytes then p.cdcMin else p.minBlockBytes
  }

  function ChunkPlan(body: Bytes, p: Policy, gear: Chunking.Gear): seq<Group> {
    var ct := Chunking.Cutter(gear, ChunkFloor(p), p.cdcMax, Chunking.MaskBits(p.cdcBits));
    Grouping.AloneAll(Chunking.ChunkCands(Chunking.Chunks(ct, body, Span(0, |body|)), ChunkFloor(p)))
  }

  // The groups a body is split into, if it is split.
  function Planned(body: Bytes, p: Policy, gear: Chunking.Gear): seq<Group> {
    if StructuralPlan(body, p) != [] then StructuralPlan(body, p) else ChunkPlan(body, p, gear)
  }

  function Marked(v: View, structural: bool): View {
    if structural then v.(stats := v.stats.(structural := true)) else v.(stats := v.stats.(cdcUsed := true))
  }

  ghost predicate AllShaped(body: Bytes, gs: seq<Group>) {
    forall g :: g in gs ==> GroupShape(body, g.cand, g.children)
  }

  predicate AllTwoLevel(gs: seq<Group>) {
    forall g :: g in gs ==> TwoLevel(g.cand, g.children)
  }

  // Reference every group, then the literal tail.
  function Covered(cx: Ctx, v: View, gs: seq<Group>): View
    requires |cx.body| < ALLOC_LIMIT && AllInBounds(cx.body, gs)
  {
    LitStep(cx, CoverAll(cx, v, gs), |cx.body|)
  }

  ghost function Decision(cx: Ctx, gear: Chunking.Gear): Action
    requires |cx.body| < ALLOC_LIMIT
  {
    var (body, p) := (cx.body, cx.policy);
    if !p.enabled then Passthrough(Disabled)
    else if |body| < p.minBodyBytes then Passthrough(Skip.TooSmall(|body|))
    else if |body| > p.maxBodyBytes then Passthrough(Skip.TooLarge(|body|))
    else
      PlansAreShaped(body, p, gear);
      var groups := StructuralPlan(body, p);
      if groups != [] then FinishAction(cx, Covered(cx, Marked(Start(body), true), groups))
      else if !p.cdcFallback then Passthrough(Unrecognised)
      else FinishAction(cx, Covered(cx, Marked(Start(body), false), ChunkPlan(body, p, gear)))
  }

  // ---------- Both plans are fit for the builder ----------

  lemma {:induction false} ChunksShaped(body: Bytes, cs: seq<Span>, start: nat, end: nat, floor: nat)
    requires Chunking.Tiles(cs, start, end) && end <= |body|
    ensures var gs := Grouping.AloneAll(Chunking.ChunkCands(cs, floor)); AllShaped(body, gs) && AllTwoLevel(gs)
    decreases |cs|
  {
    if cs != [] {
      ChunksShaped(body, cs[1..], cs[0].end, end, floor);
    }
  }

  lemma PlansAreShaped(body: Bytes, p: Policy, gear: Chunking.Gear)
    ensures AllShaped(body, StructuralPlan(body, p)) && AllShaped(body, ChunkPlan(body, p, gear))
    ensures AllTwoLevel(StructuralPlan(body, p)) && AllTwoLevel(ChunkPlan(body, p, gear))
    ensures AllInBounds(body, StructuralPlan(body, p)) && AllInBounds(body, ChunkPlan(body, p, gear))
  {
    var ct := Chunking.Cutter(gear, ChunkFloor(p), p.cdcMax, Chunking.MaskBits(p.cdcBits));
    Chunking.ChunksTile(ct, body, Span(0, |body|));
    ChunksShaped(body, Chunking.Chunks(ct, body, Span(0, |body|)), 0, |body|, ChunkFloor(p));
    StructuralShaped(body, p);
  }

  lemma StructuralShaped(body: Bytes, p: Policy)
    ensures AllShaped(body, StructuralPlan(body, p)) && AllTwoLevel(StructuralPlan(body, p))
  {
    var doc := Scan.Document(body);
    if doc.Ok? {
      GroupsReady(body, doc.value.span, p);
    }
  }

  lemma GroupsReady(body: Bytes, doc: Span, p: Policy)
    requires InBounds(doc, body)
    ensures forall g :: g in Grouping.Groups(body, doc, p) ==> Ready(body, g)
    ensures Grouping.Spaced(CandsOf(Grouping.Groups(body, doc, p)), doc.start, doc.end)
  {
    hide Grouping.DocCands, Grouping.Collect, Grouping.Assign, Grouping.Merge, Scan.Members, Ready;
    var ms := Scan.Members(body, doc);
    if ms.Ok? {
      Scan.OrderedFrom(Scan.MemberValues(ms.value), doc.start, doc.start + 1, doc.end);
      var cs := Grouping.DocCands(body, ms.value, doc, p);
      if cs.Ok? {
        GroupsAreLaminar(body, doc, p, cs.value, Grouping.Collect(body, Scan.ValueSpan(doc, Scan.KObject), 0, p, []));
      }
    }
  }

  // ---------- The invariant through a whole plan ----------

  ghost predicate Claims(cx: Ctx, v: View) {
    forall d :: d in v.claimed ==> exists n: nat :: cx.peer(n, d)
  }

  lemma AskClaims(cx: Ctx, v: View, d: Digest)
    requires Claims(cx, v)
    ensures Claims(cx, AskStep(cx, v, d))
  {
    assert cx.peer(v.asked, d) ==> exists n: nat :: cx.peer(n, d);
  }

  lemma {:induction false} ChildrenClaim(cx: Ctx, v: View, pos: nat, end: nat, inner: seq<Cand>)
    requires pos <= end <= |cx.body| < ALLOC_LIMIT && Claims(cx, v)
    ensures Claims(cx, ChildrenStep(cx, v, pos, end, inner))
    decreases |inner|
  {
    if inner != [] {
      if Fits(inner[0], pos, end) {
        AskClaims(cx, CountRef(v, 0), Digest(inner[0].kind, Slice(inner[0].span, cx.body)));
        ChildrenClaim(cx, ChildStep(cx, v, inner[0]), inner[0].span.end, end, inner[1..]);
      } else {
        ChildrenClaim(cx, v, pos, end, inner[1..]);
      }
    }
  }

  lemma ReferenceClaims(cx: Ctx, v: View, c: Cand, inner: seq<Cand>)
    requires |cx.body| < ALLOC_LIMIT && InBounds(c.span, cx.body) && Claims(cx, v)
    ensures Claims(cx, ReferenceStep(cx, v, c, inner))
  {
    if Accepts(v, c) {
      var v1 := CountRef(LitStep(cx, v, c.span.start), SpanLen(c.span));
      var d := Digest(c.kind, Slice(c.span, cx.body));
      AskClaims(cx, v1, d);
      ChildrenClaim(cx, CountNew(AskStep(cx, v1, d)), c.span.start, c.span.end, inner);
    }
  }

  lemma {:induction false} CoverAllKeeps(cx: Ctx, v: View, gs: seq<Group>)
    requires |cx.body| < ALLOC_LIMIT && AllInBounds(cx.body, gs) && AllShaped(cx.body, gs)
    requires Inv(cx.body, v) && Claims(cx, v)
    ensures Inv(cx.body, CoverAll(cx, v, gs)) && Claims(cx, CoverAll(cx, v, gs))
    decreases |gs|
  {
    hide Inv, Claims, ReferenceStep, GroupShape, TwoLevel;
    if gs != [] {
      assert gs[0] in gs;
      assert forall g :: g in gs[1..] ==> g in gs;
      ReferenceKeeps(cx, v, gs[0].cand, gs[0].children);
      ReferenceClaims(cx, v, gs[0].cand, gs[0].children);
      CoverAllKeeps(cx, ReferenceStep(cx, v, gs[0].cand, gs[0].children), gs[1..]);
    }
  }

  // A block made for one of the groups of a plan.
  ghost predicate MadeFrom(body: Bytes, gs: seq<Group>, b: Block)
    requires |body| < ALLOC_LIMIT
  {
    exists g :: g in gs && MadeFor(body, g.cand, g.children, b)
  }

  lemma {:induction false} CoverAllPushes(cx: Ctx, v: View, gs: seq<Group>, b: Block)
    requires |cx.body| < ALLOC_LIMIT && AllInBounds(cx.body, gs) && AllShaped(cx.body, gs)
    requires b in CoverAll(cx, v, gs).push
    ensures b in v.push || MadeFrom(cx.body, gs, b)
    decreases |gs|
  {
    hide ReferenceStep, MadeFor;
    if gs != [] {
      var g := gs[0];
      assert g in gs && forall x :: x in gs[1..] ==> x in gs;
      var next := ReferenceStep(cx, v, g.cand, g.children);
      CoverAllPushes(cx, next, gs[1..], b);
      if b in next.push {
        ReferencePushes(cx, v, g.cand, g.children, b);
      }
    }
  }

  lemma CoveredKeeps(cx: Ctx, v: View, gs: seq<Group>)
    requires |cx.body| < ALLOC_LIMIT && AllInBounds(cx.body, gs) && AllShaped(cx.body, gs)
    requires Inv(cx.body, v) && Claims(cx, v) && v.push == []
    ensures var w := Covered(cx, v, gs);
            Inv(cx.body, w) && Claims(cx, w) && forall b :: b in w.push ==> MadeFrom(cx.body, gs, b)
  {
    hide CoverAll, LitStep, Inv, Claims;
    CoverAllKeeps(cx, v, gs);
    forall b | b in CoverAll(cx, v, gs).push ensures MadeFrom(cx.body, gs, b) {
      CoverAllPushes(cx, v, gs, b);
    }
    LitKeeps(cx, CoverAll(cx, v, gs), |cx.body|);
    LitClaims(cx, CoverAll(cx, v, gs));
  }

  lemma StartKeeps(cx: Ctx)
    ensures Inv(cx.body, Start(cx.body)) && Claims(cx, Start(cx.body))
    ensures forall structural ::
              Inv(cx.body, Marked(Start(cx.body), structural)) && Claims(cx, Marked(Start(cx.body), structural))
  {
    StartHolds(cx.body);
  }

  lemma LitClaims(cx: Ctx, v: View)
    requires Claims(cx, v)
    ensures Claims(cx, LitStep(cx, v, |cx.body|)) && LitStep(cx, v, |cx.body|).push == v.push
  {
  }

  // ---------- Splitting ----------

  method CoverGroups(b: Builder, groups: seq<Group>)
    requires |b.cx.body| < ALLOC_LIMIT && AllInBounds(b.cx.body, groups) && AllShaped(b.cx.body, groups)
    modifies b
    ensures b.State() == CoverAll(b.cx, old(b.State()), groups)
  {
    hide ReferenceStep, InReach, TwoLevel;
    ghost var goal := CoverAll(b.cx, b.State(), groups);
    assert groups[0..] == groups;
    for k := 0 to |groups|
      invariant AllInBounds(b.cx.body, groups[k..])
      invariant CoverAll(b.cx, b.State(), groups[k..]) == goal
    {
      var g := groups[k];
      assert groups[k..][0] == g && groups[k..][1..] == groups[k + 1..];
      assert forall x :: x in groups[k + 1..] ==> x in groups[k..];
      var done := b.Reference(g.cand, g.children);
    }
  }

  method Plan(body: Bytes, p: Policy) returns (groups: seq<Group>)
    ensures groups == StructuralPlan(body, p)
  {
    hide Grouping.Groups;
    groups := [];
    var doc := Scan.ScanDocument(body);
    if doc.Ok? {
      var found := Grouping.StructuralGroups(body, doc.value.span, p);
      if found.Ok? {
        groups := found.value;
      }
    }
  }

  method ChunkGroups(body: Bytes, p: Policy, gear: Chunking.Gear) returns (groups: seq<Group>)
    ensures groups == ChunkPlan(body, p, gear)
  {
    var floor := if p.cdcMin > p.minBlockBytes then p.cdcMin else p.minBlockBytes;
    var cs := Chunking.CdcCandidates(gear, body, Span(0, |body|), floor, p.cdcMax, p.cdcBits);
    groups := Grouping.AloneAll(cs);
  }

  method SplitBody(cx: Ctx, gear: Chunking.Gear) returns (a: Action)
    requires |cx.body| < ALLOC_LIMIT
    ensures a == Decision(cx, gear)
  {
    hide StructuralPlan, ChunkPlan, CoverAll, LitStep, FinishAction, AllShaped, AllInBounds;
    var p := cx.policy;
    if !p.enabled {
      return Passthrough(Disabled);
    }
    if |cx.body| < p.minBodyBytes {
      return Passthrough(Skip.TooSmall(|cx.body|));
    }
    if |cx.body| > p.maxBodyBytes {
      return Passthrough(Skip.TooLarge(|cx.body|));
    }
    PlansAreShaped(cx.body, cx.policy, gear);
    var b := new Builder(cx);
    var groups := Plan(cx.body, p);
    if groups == [] {
      if !p.cdcFallback {
        return Passthrough(Unrecognised);
      }
      b.stats := b.stats.(cdcUsed := true);
      groups := ChunkGroups(cx.body, cx.policy, gear);
    } else {
      b.stats := b.stats.(structural := true);
    }
    CoverGroups(b, groups);
    b.FlushLit(|cx.body|);
    a := b.Finish();
  }

  // Whatever the body, the policy, the gear table and the answers of the peer's
  // presence, a split denotes exactly the body over the blocks it pushes and
  // the digests presence claimed, and its accounts are right.
  lemma EverySplitIsGood(cx: Ctx, gear: Chunking.Gear) returns (claimed: set<Digest>)
    requires |cx.body| < ALLOC_LIMIT && Decision(cx, gear).Split?
    ensures GoodSplit(cx.body, Decision(cx, gear).out, claimed)
    ensures forall b :: b in Decision(cx, gear).out.toPush ==>
              Honest(b) && MadeFrom(cx.body, Planned(cx.body, cx.policy, gear), b)
    ensures forall d :: d in claimed ==> exists n: nat :: cx.peer(n, d)
    ensures cx.policy.enabled && cx.policy.minBodyBytes <= |cx.body| <= cx.policy.maxBodyBytes
  {
    hide StructuralPlan, ChunkPlan, Covered, FinishAction, GoodSplit, Inv, MadeFrom, Honest;
    PlansAreShaped(cx.body, cx.policy, gear);
    var structural, groups := StructuralPlan(cx.body, cx.policy) != [], Planned(cx.body, cx.policy, gear);
    StartKeeps(cx);
    CoveredKeeps(cx, Marked(Start(cx.body), structural), groups);
    var v := Covered(cx, Marked(Start(cx.body), structural), groups);
    FinishGood(cx, v);
    claimed := v.claimed;
    forall b | b in v.push ensures Honest(b) {
      PlanHonest(cx.body, groups, b);
    }
  }

  lemma PlanHonest(body: Bytes, gs: seq<Group>, b: Block)
    requires |body| < ALLOC_LIMIT && AllShaped(body, gs) && AllTwoLevel(gs) && MadeFrom(body, gs, b)
    ensures Honest(b)
  {
    hide MadeFor, Honest, GroupShape, TwoLevel;
    var g :| g in gs && MadeFor(body, g.cand, g.children, b);
    MadeHonest(body, g.cand, g.children, b);
  }

  // The end-to-end identity of the splitter: every body it splits is rebuilt,
  // byte for byte, by any honest store that holds the pushed blocks and can
  // expand everything the peer's presence said it has.
  lemma SplitThenResolve(cx: Ctx, gear: Chunking.Gear, src: Resolve.Source, held: set<Digest>)
    requires |cx.body| < ALLOC_LIMIT && Decision(cx, gear).Split?
    requires forall n, d :: src(n, d).Some? ==> src(n, d).value.digest == d && Honest(src(n, d).value)
    requires Holds(src, Decision(cx, gear).out.toPush)
    requires forall n: nat, d :: cx.peer(n, d) ==> d in held
    requires Resolve.Available(src, held)
    ensures Resolve.Expansion(src, Resolve.Limits(|cx.body| + 1, 32), Decision(cx, gear).out.instrs) == Ok(cx.body)
  {
    hide Decision, GoodSplit;
    var claimed := EverySplitIsGood(cx, gear);
    SplitIsIdentity(cx.body, Decision(cx, gear).out, claimed, src, held);
  }

  // ---------- Any list of candidates ----------

  // The same from any list of groups in the body, of whatever kinds, in
  // whatever order and however they overlap: the program the builder makes of it
  // expands to exactly the body on every sound store with the pushed blocks and
  // the closure of what presence claimed, or it is too deep; and which of the
  // two is decided by how deep the blocks nest.
  lemma ListResolves(cx: Ctx, gs: seq<Group>, src: Resolve.Source, held: set<Digest>)
    requires |cx.body| < ALLOC_LIMIT && AllInBounds(cx.body, gs) && AllShaped(cx.body, gs)
    requires FinishAction(cx, Covered(cx, Start(cx.body), gs)).Split?
    requires Resolve.Sound(src) && Holds(src, FinishAction(cx, Covered(cx, Start(cx.body), gs)).out.toPush)
    requires forall n: nat, d :: cx.peer(n, d) ==> d in held
    requires Resolve.Available(src, held)
    ensures var out := FinishAction(cx, Covered(cx, Start(cx.body), gs)).out;
            var r := Resolve.Expansion(src, Resolve.Limits(|cx.body| + 1, 32), out.instrs);
            && (r == Ok(cx.body) || r == Err(Resolve.TooDeep(32)))
            && (Resolve.Stable(src) ==> (r == Ok(cx.body) <==> Resolve.DepthWithin(src, out.instrs, 32)))
  {
    StartKeeps(cx);
    hide Covered, FinishAction, Inv, GoodSplit, Resolve.Sound, Holds, Resolve.Stable, Resolve.DepthWithin, MadeFrom;
    var v := Covered(cx, Start(cx.body), gs);
    CoveredKeeps(cx, Start(cx.body), gs);
    FinishGood(cx, v);
    var out := FinishAction(cx, v).out;
    SplitResolves(cx.body, out, v.claimed, src, held);
    if Resolve.Stable(src) {
      SplitIsIdentityWhen(cx.body, out, v.claimed, src, held);
    }
  }

  // ---------- No group is skipped ----------

  lemma {:induction false} NormalizedKeepsRefs(out: seq<Instr>, instrs: seq<Instr>)
    ensures Programs.RefsOf(Programs.NormalizedFrom(out, instrs)) == Programs.RefsOf(out) + Programs.RefsOf(instrs)
    decreases |instrs|
  {
    if instrs != [] {
      var i, next := instrs[0], Programs.Absorb(out, instrs[0]);
      NormalizedKeepsRefs(next, instrs[1..]);
      AbsorbKeepsRefs(out, i);
      assert instrs == [i] + instrs[1..];
    }
  }

  lemma AbsorbKeepsRefs(out: seq<Instr>, i: Instr)
    ensures Programs.RefsOf(Programs.Absorb(out, i)) == Programs.RefsOf(out) + (if i.Ref? then [i.digest] else [])
  {
    RefsConcat(out, [i]);
    RefsOfOne(i);
    if i.Lit? && out != [] && out[|out| - 1].Lit? {
      var init, last := out[..|out| - 1], out[|out| - 1];
      assert out == init + [last];
      RefsConcat(init, [last]);
      RefsConcat(init, [Lit(last.data + i.data)]);
      RefsOfOne(last);
      RefsOfOne(Lit(last.data + i.data));
    }
  }

  // A structural split has exactly one reference a group, in document order;
  // the payloads promoted out of every candidate are among them.
  lemma StructuralSplitCoversAll(cx: Ctx, gear: Chunking.Gear)
    requires |cx.body| < ALLOC_LIMIT && Decision(cx, gear).Split? && StructuralPlan(cx.body, cx.policy) != []
    ensures AllIn(cx.body, CandsOf(StructuralPlan(cx.body, cx.policy)))
    ensures Programs.RefsOf(Decision(cx, gear).out.instrs) ==
            DigestsOf(cx.body, CandsOf(StructuralPlan(cx.body, cx.policy)))
  {
    hide CoverAll, LitStep, Grouping.Groups, Ready, DigestsOf;
    PlansAreShaped(cx.body, cx.policy, gear);
    var doc, groups := Scan.Document(cx.body).value.span, StructuralPlan(cx.body, cx.policy);
    GroupsReady(cx.body, doc, cx.policy);
    SpacedIn(CandsOf(groups), doc.start, doc.end, cx.body);
    var v := Marked(Start(cx.body), true);
    StartHolds(cx.body);
    Grouping.SpacedWidens(CandsOf(groups), doc.start, doc.end, 0, doc.end);
    EveryGroupCovered(cx, v, groups, doc.end);
    var w := CoverAll(cx, v, groups);
    LitRefs(cx, w);
    LitRefs(cx, LitStep(cx, w, |cx.body|));
    var z := LitStep(cx, LitStep(cx, w, |cx.body|), |cx.body|);
    NormalizedKeepsRefs([], z.instrs);
  }

  lemma SpacedIn(cs: seq<Cand>, lo: nat, hi: nat, body: Bytes)
    requires Grouping.Spaced(cs, lo, hi) && hi <= |body|
    ensures AllIn(body, cs)
  {
    forall c | c in cs ensures InBounds(c.span, body) {
      Grouping.SpacedMember(cs, lo, hi, c);
    }
  }

  lemma LitRefs(cx: Ctx, v: View)
    ensures Programs.RefsOf(LitStep(cx, v, |cx.body|).instrs) == Programs.RefsOf(v.instrs)
  {
    var w := LitStep(cx, v, |cx.body|);
    if w != v {
      RefsConcat(v.instrs, [w.instrs[|w.instrs| - 1]]);
      RefsOfOne(w.instrs[|w.instrs| - 1]);
    }
  }
}

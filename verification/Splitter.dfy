// The builder that turns a body and candidate spans into a block program, and
// the blocks the peer has to be given first.

module Splitter {
  import opened Results
  import opened Blocks
  import opened Resolve
  import opened Programs
  import opened Policies

  datatype SplitOutput = SplitOutput(instrs: seq<Instr>, toPush: seq<Block>, stats: SplitStats)

  datatype Action = Split(out: SplitOutput) | Passthrough(reason: Skip)

  function Digests(blocks: seq<Block>): set<Digest> {
    if blocks == [] then {} else Digests(blocks[..|blocks| - 1]) + {blocks[|blocks| - 1].digest}
  }

  function PushCost(blocks: seq<Block>): nat {
    if blocks == [] then 0 else PushCost(blocks[..|blocks| - 1]) + WireCost(blocks[|blocks| - 1])
  }

  // ---------- The block made for one candidate ----------

  predicate Fits(ch: Cand, pos: nat, end: nat) {
    pos <= ch.span.start <= ch.span.end <= end && SpanLen(ch.span) >= ch.floor
  }

  // Program for body[pos..end] that lifts out the candidates of `inner` that fit.
  function InnerProgram(body: Bytes, pos: nat, end: nat, inner: seq<Cand>): seq<Instr>
    requires pos <= end <= |body| < ALLOC_LIMIT
    decreases |inner|
  {
    if inner == [] then
      if pos < end then [Lit(body[pos..end])] else []
    else if !Fits(inner[0], pos, end) then
      InnerProgram(body, pos, end, inner[1..])
    else
      var s := inner[0].span;
      (if pos < s.start then [Lit(body[pos..s.start])] else [])
      + [Ref(Digest(inner[0].kind, Slice(s, body)), SpanLen(s))]
      + InnerProgram(body, s.end, end, inner[1..])
  }

  function BlockFor(body: Bytes, c: Cand, inner: seq<Cand>): Block
    requires InBounds(c.span, body) && |body| < ALLOC_LIMIT
  {
    var p := Normalized(InnerProgram(body, c.span.start, c.span.end, inner));
    var raw := BytesBlock(c.kind, Slice(c.span, body));
    if inner == [] || (|p| == 1 && p[0].Lit? && |p[0].data| == SpanLen(c.span)) then raw
    else raw.(body := ProgramBody(p))
  }

  // Spans the right way round, the group's own inside the body.
  ghost predicate InReach(body: Bytes, c: Cand, inner: seq<Cand>) {
    InBounds(c.span, body) && forall ch :: ch in inner ==> ch.span.start <= ch.span.end
  }

  // What the candidates of one group must satisfy, of whatever kinds they are:
  // spans in reach, and something to lift children out of.
  ghost predicate GroupShape(body: Bytes, c: Cand, inner: seq<Cand>) {
    InReach(body, c, inner) && (inner != [] ==> c.span.start < c.span.end)
  }

  // The two-level case: only whole JSON values nest, and they nest payloads.
  predicate TwoLevel(c: Cand, inner: seq<Cand>) {
    (inner != [] ==> c.kind == JsonMember) && forall ch :: ch in inner ==> ch.kind != JsonMember
  }

  lemma FlatRef(kind: BlockKind, data: Bytes)
    requires |data| < ALLOC_LIMIT
    ensures Denotes([Ref(Digest(kind, data), |data|)], data)
    ensures LitBytes([Ref(Digest(kind, data), |data|)]) == 0
  {
    var r: Instr := Ref(Digest(kind, data), |data|);
    assert Flat([r][1..]) == [] && LitBytes([r][1..]) == 0;
  }

  lemma GapDenotes(body: Bytes, pos: nat, end: nat)
    requires pos <= end <= |body|
    ensures Denotes(if pos < end then [Lit(body[pos..end])] else [], body[pos..end])
  {
    FlatLit(body[pos..end]);
  }

  lemma CutDenotes(body: Bytes, pos: nat, s: Span, end: nat, kind: BlockKind, tail: seq<Instr>)
    requires pos <= s.start <= s.end <= end <= |body| < ALLOC_LIMIT
    requires Denotes(tail, body[s.end..end])
    ensures Denotes((if pos < s.start then [Lit(body[pos..s.start])] else [])
                    + [Ref(Digest(kind, Slice(s, body)), SpanLen(s))] + tail, body[pos..end])
  {
    var x, y, z := body[pos..s.start], Slice(s, body), body[s.end..end];
    var lead: seq<Instr> := if pos < s.start then [Lit(x)] else [];
    GapDenotes(body, pos, s.start);
    FlatRef(kind, y);
    assert x + y + z == body[pos..end];
    Denotes3(lead, x, [Ref(Digest(kind, y), |y|)], y, tail, z);
  }

  lemma Denotes3(a: seq<Instr>, x: Bytes, b: seq<Instr>, y: Bytes, c: seq<Instr>, z: Bytes)
    requires Denotes(a, x) && Denotes(b, y) && Denotes(c, z)
    ensures Denotes(a + b + c, x + y + z)
  {
    DenotesConcat(a, x, b, y);
    DenotesConcat(a + b, x + y, c, z);
  }

  // Whichever candidates fit, the program of a group denotes its bytes.
  lemma {:induction false} InnerDenotes(body: Bytes, pos: nat, end: nat, inner: seq<Cand>)
    requires pos <= end <= |body| < ALLOC_LIMIT
    requires forall ch :: ch in inner ==> ch.span.start <= ch.span.end
    ensures Denotes(InnerProgram(body, pos, end, inner), body[pos..end])
    decreases |inner|
  {
    if inner == [] {
      FlatLit(body[pos..end]);
    } else {
      var rest := inner[1..];
      assert forall ch :: ch in rest ==> ch in inner;
      if Fits(inner[0], pos, end) {
        assert inner[0] in inner;
        InnerDenotes(body, inner[0].span.end, end, rest);
        CutDenotes(body, pos, inner[0].span, end, inner[0].kind, InnerProgram(body, inner[0].span.end, end, rest));
      } else {
        InnerDenotes(body, pos, end, rest);
      }
    }
  }

  lemma {:induction false} InnerBelow(body: Bytes, pos: nat, end: nat, inner: seq<Cand>)
    requires pos <= end <= |body| < ALLOC_LIMIT && forall ch :: ch in inner ==> ch.kind != JsonMember
    ensures RefsBelow(InnerProgram(body, pos, end, inner), 1)
    decreases |inner|
  {
    if inner != [] {
      var rest := inner[1..];
      assert forall ch :: ch in rest ==> ch in inner;
      assert inner[0] in inner;
      InnerBelow(body, if Fits(inner[0], pos, end) then inner[0].span.end else pos, end, rest);
    }
  }

  // The block made for a group stands for exactly the bytes of its span, for
  // candidates of any kinds, unless it is a program of nothing: an empty span
  // with children of which none fits.
  lemma BlockForDenotes(body: Bytes, c: Cand, inner: seq<Cand>)
    requires |body| < ALLOC_LIMIT && InReach(body, c, inner)
    ensures Denoting(BlockFor(body, c, inner)) <==>
            inner == [] || InnerProgram(body, c.span.start, c.span.end, inner) != []
    ensures GroupShape(body, c, inner) ==> Denoting(BlockFor(body, c, inner))
  {
    if inner != [] {
      var raw := InnerProgram(body, c.span.start, c.span.end, inner);
      InnerDenotes(body, c.span.start, c.span.end, inner);
      NormalizedDenotes(raw);
      NormalizedPieces(body, c.span.start, c.span.end, inner);
    }
  }

  // With two levels it nests payloads only.
  lemma BlockForHonest(body: Bytes, c: Cand, inner: seq<Cand>)
    requires |body| < ALLOC_LIMIT && GroupShape(body, c, inner) && TwoLevel(c, inner)
    ensures Honest(BlockFor(body, c, inner))
  {
    BlockForDenotes(body, c, inner);
    if inner != [] {
      InnerDenotes(body, c.span.start, c.span.end, inner);
      InnerBelow(body, c.span.start, c.span.end, inner);
      NormalizedDenotes(InnerProgram(body, c.span.start, c.span.end, inner));
    }
  }

  // How many instructions the program of a group has: one for each child that
  // fits, and one for each gap.
  function Pieces(pos: nat, end: nat, inner: seq<Cand>): nat
    requires pos <= end
    decreases |inner|
  {
    if inner == [] then (if pos < end then 1 else 0)
    else if !Fits(inner[0], pos, end) then Pieces(pos, end, inner[1..])
    else (if pos < inner[0].span.start then 2 else 1) + Pieces(inner[0].span.end, end, inner[1..])
  }

  lemma {:induction false} InnerCanonical(body: Bytes, pos: nat, end: nat, inner: seq<Cand>)
    requires pos <= end <= |body| < ALLOC_LIMIT
    ensures Canonical(InnerProgram(body, pos, end, inner))
    ensures |InnerProgram(body, pos, end, inner)| == Pieces(pos, end, inner)
    decreases |inner|
  {
    if inner != [] {
      if Fits(inner[0], pos, end) {
        var s := inner[0].span;
        InnerCanonical(body, s.end, end, inner[1..]);
        var lead: seq<Instr> := if pos < s.start then [Lit(body[pos..s.start])] else [];
        LeadCanonical(lead, Ref(Digest(inner[0].kind, Slice(s, body)), SpanLen(s)),
                      InnerProgram(body, s.end, end, inner[1..]));
      } else {
        InnerCanonical(body, pos, end, inner[1..]);
      }
    }
  }

  lemma LeadCanonical(lead: seq<Instr>, r: Instr, tail: seq<Instr>)
    requires lead == [] || (|lead| == 1 && lead[0].Lit? && lead[0].data != [])
    requires r.Ref? && Canonical(tail)
    ensures Canonical(lead + [r] + tail)
  {
    var all := lead + [r] + tail;
    forall k | 0 <= k < |all| - 1 ensures all[k].Ref? || all[k + 1].Ref? {
      if k > |lead| {
        assert all[k] == tail[k - |lead| - 1] && all[k + 1] == tail[k - |lead|];
      }
    }
  }

  // Merging has nothing to merge in it.
  lemma NormalizedPieces(body: Bytes, pos: nat, end: nat, inner: seq<Cand>)
    requires pos <= end <= |body| < ALLOC_LIMIT
    ensures Normalized(InnerProgram(body, pos, end, inner)) == InnerProgram(body, pos, end, inner)
    ensures |InnerProgram(body, pos, end, inner)| == Pieces(pos, end, inner)
  {
    var p := InnerProgram(body, pos, end, inner);
    InnerCanonical(body, pos, end, inner);
    assert [] + p == p;
    CanonicalFixed([], p);
  }

  // How long the program of a group's block is, and so whether a limit on
  // instructions admits it.
  lemma BlockForSize(body: Bytes, c: Cand, inner: seq<Cand>)
    requires |body| < ALLOC_LIMIT && InReach(body, c, inner)
    ensures var b := BlockFor(body, c, inner);
            b.body.ProgramBody? ==> inner != [] && |b.body.instrs| == Pieces(c.span.start, c.span.end, inner)
    ensures Pieces(c.span.start, c.span.end, inner) <= 2 * |inner| + 1
    ensures inner != [] && BlockFor(body, c, inner).body.BytesBody? ==> Pieces(c.span.start, c.span.end, inner) == 1
  {
    NormalizedPieces(body, c.span.start, c.span.end, inner);
    FewPieces(c.span.start, c.span.end, inner);
  }

  // It is raw exactly when there is nothing to lift out of it: no children, or
  // none that fits, in a span of any bytes at all.
  lemma BlockIsRaw(body: Bytes, c: Cand, inner: seq<Cand>)
    requires |body| < ALLOC_LIMIT && InReach(body, c, inner)
    ensures BlockFor(body, c, inner).body.BytesBody? <==>
            || inner == []
            || (c.span.start < c.span.end && forall ch :: ch in inner ==> !Fits(ch, c.span.start, c.span.end))
  {
    NormalizedPieces(body, c.span.start, c.span.end, inner);
    if forall ch :: ch in inner ==> !Fits(ch, c.span.start, c.span.end) {
      NothingCut(body, c.span.start, c.span.end, inner);
    } else {
      SomethingCut(body, c.span.start, c.span.end, inner);
    }
  }

  lemma {:induction false} NothingCut(body: Bytes, pos: nat, end: nat, inner: seq<Cand>)
    requires pos <= end <= |body| < ALLOC_LIMIT && forall ch :: ch in inner ==> !Fits(ch, pos, end)
    ensures InnerProgram(body, pos, end, inner) == if pos < end then [Lit(body[pos..end])] else []
    decreases |inner|
  {
    if inner != [] {
      assert inner[0] in inner;
      NothingCut(body, pos, end, inner[1..]);
    }
  }

  lemma {:induction false} SomethingCut(body: Bytes, pos: nat, end: nat, inner: seq<Cand>)
    requires pos <= end <= |body| < ALLOC_LIMIT && exists ch :: ch in inner && Fits(ch, pos, end)
    ensures exists i :: i in InnerProgram(body, pos, end, inner) && i.Ref?
    decreases |inner|
  {
    if Fits(inner[0], pos, end) {
      var r: Instr := Ref(Digest(inner[0].kind, Slice(inner[0].span, body)), SpanLen(inner[0].span));
      assert r in InnerProgram(body, pos, end, inner);
    } else {
      var ch :| ch in inner && Fits(ch, pos, end);
      assert ch in inner[1..];
      SomethingCut(body, pos, end, inner[1..]);
    }
  }

  lemma {:induction false} FewPieces(pos: nat, end: nat, inner: seq<Cand>)
    requires pos <= end
    ensures Pieces(pos, end, inner) <= 2 * |inner| + 1
    decreases |inner|
  {
    if inner != [] {
      FewPieces(if Fits(inner[0], pos, end) then inner[0].span.end else pos, end, inner[1..]);
    }
  }

  // ---------- Builder steps, as functions of the state ----------

  datatype Ctx = Ctx(body: Bytes, policy: Policy, peer: Oracle, localHas: Oracle)

  // `wrote[k]` says whether push[k] was also written to the local store;
  // `claimed` are the digests the peer's presence answered yes for; `asked` and
  // `lookups` count the questions put to it and to the local store.
  datatype View = View(
    instrs: seq<Instr>,
    push: seq<Block>,
    wrote: seq<bool>,
    queued: set<Digest>,
    pos: nat,
    stats: SplitStats,
    limits: bool,
    claimed: set<Digest>,
    asked: nat,
    lookups: nat
  )

  function Start(body: Bytes): View {
    View([], [], [], {}, 0, SplitStats(|body|, 0, 0, 0, 0, 0, 0, 0, 0, 0, 0, false, false), false, {}, 0, 0)
  }

  function LitStep(cx: Ctx, v: View, end: nat): View {
    var e := if end < |cx.body| then end else |cx.body|;
    if e > v.pos then
      v.(instrs := v.instrs + [Lit(cx.body[v.pos..e])], pos := e,
         stats := v.stats.(litBytes := v.stats.litBytes + (e - v.pos)))
    else v
  }

  function AskStep(cx: Ctx, v: View, d: Digest): View {
    v.(asked := v.asked + 1, claimed := if cx.peer(v.asked, d) then v.claimed + {d} else v.claimed)
  }

  function QueueStep(cx: Ctx, v: View, b: Block): View {
    if b.digest in v.queued then v
    else
      v.(queued := v.queued + {b.digest}, push := v.push + [b], lookups := v.lookups + 1,
         wrote := v.wrote + [!cx.localHas(v.lookups, b.digest)],
         stats := v.stats.(blocksCreated := v.stats.blocksCreated + 1,
                           pushBytes := v.stats.pushBytes + WireCost(b),
                           pushBlocks := v.stats.pushBlocks + 1))
  }

  function ChildStep(cx: Ctx, v: View, ch: Cand): View
    requires InBounds(ch.span, cx.body) && |cx.body| < ALLOC_LIMIT
  {
    var d := Digest(ch.kind, Slice(ch.span, cx.body));
    var v1 := AskStep(cx, CountRef(v, 0), d);
    if cx.peer(v.asked, d) then CountHit(v1)
    else QueueStep(cx, v1, BytesBlock(ch.kind, Slice(ch.span, cx.body)))
  }

  function ChildrenStep(cx: Ctx, v: View, pos: nat, end: nat, inner: seq<Cand>): View
    requires pos <= end <= |cx.body| < ALLOC_LIMIT
    decreases |inner|
  {
    if inner == [] then v
    else if !Fits(inner[0], pos, end) then ChildrenStep(cx, v, pos, end, inner[1..])
    else ChildrenStep(cx, ChildStep(cx, v, inner[0]), inner[0].span.end, end, inner[1..])
  }

  function MakeStep(cx: Ctx, v: View, c: Cand, inner: seq<Cand>): View
    requires InBounds(c.span, cx.body) && |cx.body| < ALLOC_LIMIT
  {
    QueueStep(cx, ChildrenStep(cx, v, c.span.start, c.span.end, inner), BlockFor(cx.body, c, inner))
  }

  function CountRef(v: View, covered: nat): View {
    v.(stats := v.stats.(refs := v.stats.refs + 1, refCovered := v.stats.refCovered + covered))
  }

  function CountHit(v: View): View {
    v.(stats := v.stats.(refsHit := v.stats.refsHit + 1))
  }

  function CountNew(v: View): View {
    v.(stats := v.stats.(refsNew := v.stats.refsNew + 1))
  }

  function ProvideStep(cx: Ctx, v: View, c: Cand, inner: seq<Cand>): View
    requires InBounds(c.span, cx.body) && |cx.body| < ALLOC_LIMIT
  {
    var d := Digest(c.kind, Slice(c.span, cx.body));
    var v1 := AskStep(cx, CountRef(v, SpanLen(c.span)), d);
    if cx.peer(v.asked, d) then CountHit(v1) else MakeStep(cx, CountNew(v1), c, inner)
  }

  predicate Accepts(v: View, c: Cand)
    requires c.span.start <= c.span.end
  {
    SpanLen(c.span) >= c.floor && v.pos <= c.span.start
  }

  function ReferenceStep(cx: Ctx, v: View, c: Cand, inner: seq<Cand>): View
    requires InBounds(c.span, cx.body) && |cx.body| < ALLOC_LIMIT
  {
    if !Accepts(v, c) then v
    else
      var v1 := ProvideStep(cx, LitStep(cx, v, c.span.start), c, inner);
      var instrs := v1.instrs + [Ref(Digest(c.kind, Slice(c.span, cx.body)), SpanLen(c.span))];
      v1.(instrs := instrs, pos := c.span.end, limits := v1.limits || |instrs| > cx.policy.maxInstrs)
  }

  function FinishAction(cx: Ctx, v: View): Action {
    if v.limits then Passthrough(LimitsHit)
    else
      var v1 := LitStep(cx, v, |cx.body|);
      if v1.stats.refs == 0 then Passthrough(Unrecognised)
      else
        var p := Normalized(v1.instrs);
        var cost := ProgramWireCost(p);
        var overhead := if cost > v1.stats.litBytes then cost - v1.stats.litBytes else 0;
        var stats := v1.stats.(instrs := |v1.instrs|, instrOverhead := overhead);
        if stats.Inflates() then Passthrough(LimitsHit)
        else Split(SplitOutput(p, v1.push, stats))
  }

  // ---------- The builder ----------

  class Builder {
    const cx: Ctx
    var instrs: seq<Instr>
    var push: seq<Block>
    var wrote: seq<bool>
    var queued: set<Digest>
    var pos: nat
    var stats: SplitStats
    var limits: bool
    ghost var claimed: set<Digest>
    var asked: nat
    var lookups: nat

    ghost function State(): View
      reads this
    {
      View(instrs, push, wrote, queued, pos, stats, limits, claimed, asked, lookups)
    }

    constructor (cx: Ctx)
      ensures this.cx == cx && State() == Start(cx.body)
    {
      this.cx := cx;
      instrs, push, wrote, queued, pos := [], [], [], {}, 0;
      stats := SplitStats(|cx.body|, 0, 0, 0, 0, 0, 0, 0, 0, 0, 0, false, false);
      limits, claimed, asked, lookups := false, {}, 0, 0;
    }

    // Flush the literal run up to `end`.
    method FlushLit(end: nat)
      modifies this
      ensures State() == LitStep(cx, old(State()), end)
    {
      var e := if end < |cx.body| then end else |cx.body|;
      if e > pos {
        instrs := instrs + [Lit(cx.body[pos..e])];
        stats := stats.(litBytes := stats.litBytes + (e - pos));
        pos := e;
      }
    }

    method AskPeer(d: Digest) returns (yes: bool)
      modifies this
      ensures State() == AskStep(cx, old(State()), d) && yes == cx.peer(old(asked), d)
    {
      yes := cx.peer(asked, d);
      asked := asked + 1;
      if yes {
        claimed := claimed + {d};
      }
    }

    // Queue a block for the peer unless its digest is queued already.
    method Queue(b: Block)
      modifies this
      ensures State() == QueueStep(cx, old(State()), b)
    {
      if b.digest in queued {
        return;
      }
      queued := queued + {b.digest};
      stats := stats.(blocksCreated := stats.blocksCreated + 1,
                      pushBytes := stats.pushBytes + WireCost(b),
                      pushBlocks := stats.pushBlocks + 1);
      var held := cx.localHas(lookups, b.digest);
      lookups := lookups + 1;
      wrote := wrote + [!held];
      push := push + [b];
    }

    method MakeBlock(d: Digest, c: Cand, inner: seq<Cand>) returns (b: Block)
      requires |cx.body| < ALLOC_LIMIT && InReach(cx.body, c, inner) && d == Digest(c.kind, Slice(c.span, cx.body))
      modifies this
      ensures b == BlockFor(cx.body, c, inner)
      ensures State() == ChildrenStep(cx, old(State()), c.span.start, c.span.end, inner)
    {
      var data := Slice(c.span, cx.body);
      if inner == [] {
        return Block(d, c.kind, |data|, BytesBody(data));
      }
      var p: seq<Instr> := [];
      var at := c.span.start;
      ghost var whole := InnerProgram(cx.body, c.span.start, c.span.end, inner);
      ghost var goal := ChildrenStep(cx, State(), c.span.start, c.span.end, inner);
      for k := 0 to |inner|
        invariant c.span.start <= at <= c.span.end
        invariant p + InnerProgram(cx.body, at, c.span.end, inner[k..]) == whole
        invariant ChildrenStep(cx, State(), at, c.span.end, inner[k..]) == goal
      {
        var ch := inner[k];
        assert inner[k..][0] == ch && inner[k..][1..] == inner[k + 1..];
        assert ch in inner;
        if ch.span.start < at || ch.span.end > c.span.end || SpanLen(ch.span) < ch.floor {
          continue;
        }
        p := CutChild(p, at, c.span.end, ch, inner[k + 1..]);
        at := ch.span.end;
      }
      if at < c.span.end {
        p := p + [Lit(cx.body[at..c.span.end])];
      }
      assert p == whole;
      p := Normalize(p);
      if |p| == 1 && p[0].Lit? && |p[0].data| == |data| {
        return Block(d, c.kind, |data|, BytesBody(data));
      }
      return Block(d, c.kind, |data|, ProgramBody(p));
    }

    // One child of a block program: the literal before it, its reference, and
    // its block unless the peer has it.
    method CutChild(p: seq<Instr>, at: nat, end: nat, ch: Cand, ghost rest: seq<Cand>) returns (q: seq<Instr>)
      requires at <= end <= |cx.body| < ALLOC_LIMIT && Fits(ch, at, end)
      modifies this
      ensures q + InnerProgram(cx.body, ch.span.end, end, rest) ==
              p + InnerProgram(cx.body, at, end, [ch] + rest)
      ensures State() == ChildStep(cx, old(State()), ch)
    {
      var d := Digest(ch.kind, Slice(ch.span, cx.body));
      q := p;
      if at < ch.span.start {
        q := q + [Lit(cx.body[at..ch.span.start])];
      }
      q := q + [Ref(d, SpanLen(ch.span))];
      stats := stats.(refs := stats.refs + 1);
      var hit := AskPeer(d);
      if hit {
        stats := stats.(refsHit := stats.refsHit + 1);
      } else {
        Queue(BytesBlock(ch.kind, Slice(ch.span, cx.body)));
      }
      assert ([ch] + rest)[1..] == rest;
    }

    // Account for a reference, and queue its block unless the peer has it.
    method Provide(d: Digest, c: Cand, inner: seq<Cand>)
      requires |cx.body| < ALLOC_LIMIT && InReach(cx.body, c, inner) && d == Digest(c.kind, Slice(c.span, cx.body))
      modifies this
      ensures State() == ProvideStep(cx, old(State()), c, inner)
    {
      stats := stats.(refs := stats.refs + 1, refCovered := stats.refCovered + SpanLen(c.span));
      var hit := AskPeer(d);
      if hit {
        stats := stats.(refsHit := stats.refsHit + 1);
      } else {
        stats := stats.(refsNew := stats.refsNew + 1);
        MakeAndQueue(d, c, inner);
      }
    }

    method MakeAndQueue(d: Digest, c: Cand, inner: seq<Cand>)
      requires |cx.body| < ALLOC_LIMIT && InReach(cx.body, c, inner) && d == Digest(c.kind, Slice(c.span, cx.body))
      modifies this
      ensures State() == MakeStep(cx, old(State()), c, inner)
    {
      var b := MakeBlock(d, c, inner);
      Queue(b);
    }

    // Cover a candidate with a reference, unless it is too small or overlaps
    // what has been emitted.
    method Reference(c: Cand, inner: seq<Cand>) returns (done: bool)
      requires |cx.body| < ALLOC_LIMIT && InReach(cx.body, c, inner)
      modifies this
      ensures State() == ReferenceStep(cx, old(State()), c, inner)
      ensures done == Accepts(old(State()), c)
    {
      var data := Slice(c.span, cx.body);
      if |data| < c.floor || pos > c.span.start {
        return false;
      }
      var d := Digest(c.kind, data);
      FlushLit(c.span.start);
      Provide(d, c, inner);
      instrs := instrs + [Ref(d, |data|)];
      pos := c.span.end;
      if |instrs| > cx.policy.maxInstrs {
        limits := true;
      }
      return true;
    }

    method Finish() returns (a: Action)
      modifies this
      ensures a == FinishAction(cx, old(State()))
    {
      if limits {
        return Passthrough(LimitsHit);
      }
      FlushLit(|cx.body|);
      if stats.refs == 0 {
        return Passthrough(Unrecognised);
      }
      stats := stats.(instrs := |instrs|);
      var p := Normalize(instrs);
      var cost := ProgramWireCost(p);
      stats := stats.(instrOverhead := if cost > stats.litBytes then cost - stats.litBytes else 0);
      if stats.Inflates() {
        return Passthrough(LimitsHit);
      }
      return Split(SplitOutput(p, push, stats));
    }
  }

  // ---------- What every step keeps ----------

  // What a block nests is among the digests `known`.
  predicate Nests(b: Block, known: set<Digest>) {
    b.body.ProgramBody? ==> RefsIn(b.body.instrs, known)
  }

  // Every pushed block stands for its digest, is pushed once, and after what it nests.
  ghost predicate PushOrder(push: seq<Block>, claimed: set<Digest>) {
    push == [] ||
    var (before, b) := (push[..|push| - 1], push[|push| - 1]);
    && PushOrder(before, claimed)
    && Denoting(b) && b.digest !in Digests(before) && Nests(b, Digests(before) + claimed)
  }

  ghost predicate Queued(v: View) {
    && v.queued == Digests(v.push)
    && PushOrder(v.push, v.claimed)
    && |v.wrote| == |v.push|
    && v.stats.pushBytes == PushCost(v.push)
    && v.stats.pushBlocks == v.stats.blocksCreated == |v.push|
  }

  ghost predicate Prefixed(body: Bytes, v: View) {
    && v.pos <= |body|
    && Denotes(v.instrs, body[..v.pos])
    && v.stats.bodyLen == |body|
    && v.stats.litBytes == LitBytes(v.instrs)
    && v.stats.litBytes + v.stats.refCovered == v.pos
    && (v.stats.refs == 0 ==> LitBytes(v.instrs) == v.pos)
  }

  ghost predicate Inv(body: Bytes, v: View) {
    Prefixed(body, v) && Queued(v) && RefsIn(v.instrs, v.queued + v.claimed)
  }

  lemma {:induction false} PushOrderWidens(push: seq<Block>, claimed: set<Digest>, claimed': set<Digest>)
    requires PushOrder(push, claimed) && claimed <= claimed'
    ensures PushOrder(push, claimed')
  {
    if push != [] {
      PushOrderWidens(push[..|push| - 1], claimed, claimed');
    }
  }

  lemma {:induction false} PushOrderAt(push: seq<Block>, claimed: set<Digest>, k: nat)
    requires PushOrder(push, claimed) && k < |push|
    ensures Denoting(push[k]) && push[k].digest !in Digests(push[..k])
    ensures Nests(push[k], Digests(push[..k]) + claimed)
    ensures push[k].digest in Digests(push)
  {
    var before := push[..|push| - 1];
    if k < |before| {
      PushOrderAt(before, claimed, k);
      assert before[..k] == push[..k];
    }
  }

  lemma {:induction false} DigestsAt(blocks: seq<Block>, d: Digest) returns (k: nat)
    requires d in Digests(blocks)
    ensures k < |blocks| && blocks[k].digest == d
  {
    k := |blocks| - 1;
    if blocks[k].digest != d {
      k := DigestsAt(blocks[..k], d);
    }
  }

  lemma {:induction false} DigestsGrow(blocks: seq<Block>, k: nat, j: nat)
    requires k <= j <= |blocks|
    ensures Digests(blocks[..k]) <= Digests(blocks[..j])
  {
    if k < j {
      DigestsGrow(blocks, k, j - 1);
      assert blocks[..j][..j - 1] == blocks[..j - 1];
    }
  }

  // What asking and queueing leave alone, and that they only add to what the
  // peer will be able to resolve.
  ghost predicate Extends(v: View, v': View) {
    && v'.instrs == v.instrs && v'.pos == v.pos && v'.limits == v.limits
    && v'.stats.bodyLen == v.stats.bodyLen && v'.stats.litBytes == v.stats.litBytes
    && v'.stats.refCovered == v.stats.refCovered && v.stats.refs <= v'.stats.refs
    && v.queued <= v'.queued && v.claimed <= v'.claimed
  }

  lemma AskKeeps(cx: Ctx, v: View, d: Digest)
    requires Queued(v)
    ensures var w := AskStep(cx, v, d);
            Queued(w) && Extends(v, w) && (cx.peer(v.asked, d) ==> d in w.claimed)
  {
    PushOrderWidens(v.push, v.claimed, AskStep(cx, v, d).claimed);
  }

  lemma QueueKeeps(cx: Ctx, v: View, b: Block)
    requires Queued(v) && Denoting(b) && Nests(b, v.queued + v.claimed)
    ensures var w := QueueStep(cx, v, b);
            Queued(w) && Extends(v, w) && b.digest in w.queued
  {
    var q := v.push + [b];
    assert q[|q| - 1] == b && q[..|q| - 1] == v.push;
  }

  lemma ChildKeeps(cx: Ctx, v: View, ch: Cand)
    requires Queued(v) && InBounds(ch.span, cx.body) && |cx.body| < ALLOC_LIMIT
    ensures var w := ChildStep(cx, v, ch);
            && Queued(w) && Extends(v, w)
            && Digest(ch.kind, Slice(ch.span, cx.body)) in w.queued + w.claimed
  {
    var d := Digest(ch.kind, Slice(ch.span, cx.body));
    var v0 := CountRef(v, 0);
    AskKeeps(cx, v0, d);
    QueueKeeps(cx, AskStep(cx, v0, d), BytesBlock(ch.kind, Slice(ch.span, cx.body)));
  }

  // All the children of a block end up queued or claimed, before the block.
  lemma {:induction false} ChildrenKeep(cx: Ctx, v: View, pos: nat, end: nat, inner: seq<Cand>)
    requires Queued(v) && pos <= end <= |cx.body| < ALLOC_LIMIT
    ensures var w := ChildrenStep(cx, v, pos, end, inner);
            && Queued(w) && Extends(v, w)
            && RefsIn(InnerProgram(cx.body, pos, end, inner), w.queued + w.claimed)
    decreases |inner|
  {
    if inner != [] {
      if Fits(inner[0], pos, end) {
        ChildKeeps(cx, v, inner[0]);
        ChildrenKeep(cx, ChildStep(cx, v, inner[0]), inner[0].span.end, end, inner[1..]);
      } else {
        ChildrenKeep(cx, v, pos, end, inner[1..]);
      }
    }
  }

  lemma BlockForNests(body: Bytes, c: Cand, inner: seq<Cand>, known: set<Digest>)
    requires |body| < ALLOC_LIMIT && GroupShape(body, c, inner)
    requires RefsIn(InnerProgram(body, c.span.start, c.span.end, inner), known)
    ensures Nests(BlockFor(body, c, inner), known)
  {
    InnerDenotes(body, c.span.start, c.span.end, inner);
    NormalizedDenotes(InnerProgram(body, c.span.start, c.span.end, inner));
  }

  // The block of a group, after its children.
  lemma MakeKeeps(cx: Ctx, v: View, c: Cand, inner: seq<Cand>)
    requires Queued(v) && |cx.body| < ALLOC_LIMIT && GroupShape(cx.body, c, inner)
    ensures var w := MakeStep(cx, v, c, inner);
            Queued(w) && Extends(v, w) && Digest(c.kind, Slice(c.span, cx.body)) in w.queued
  {
    ChildrenKeep(cx, v, c.span.start, c.span.end, inner);
    var v1 := ChildrenStep(cx, v, c.span.start, c.span.end, inner);
    BlockForDenotes(cx.body, c, inner);
    BlockForNests(cx.body, c, inner, v1.queued + v1.claimed);
    QueueKeeps(cx, v1, BlockFor(cx.body, c, inner));
  }

  lemma ProvideKeeps(cx: Ctx, v: View, c: Cand, inner: seq<Cand>)
    requires Queued(v) && |cx.body| < ALLOC_LIMIT && GroupShape(cx.body, c, inner)
    ensures var w := ProvideStep(cx, v, c, inner);
            && Queued(w) && w.stats.refs > 0
            && Extends(CountRef(v, SpanLen(c.span)), w)
            && Digest(c.kind, Slice(c.span, cx.body)) in w.queued + w.claimed
  {
    var d := Digest(c.kind, Slice(c.span, cx.body));
    var v0 := CountRef(v, SpanLen(c.span));
    var v1 := AskStep(cx, v0, d);
    AskKeeps(cx, v0, d);
    if !cx.peer(v.asked, d) {
      MakeKeeps(cx, CountNew(v1), c, inner);
      assert Extends(v1, CountNew(v1));
    }
  }

  lemma LitKeeps(cx: Ctx, v: View, end: nat)
    requires Inv(cx.body, v)
    ensures Inv(cx.body, LitStep(cx, v, end))
  {
    var e := if end < |cx.body| then end else |cx.body|;
    if e > v.pos {
      var run := cx.body[v.pos..e];
      FlatLit(run);
      DenotesConcat(v.instrs, cx.body[..v.pos], [Lit(run)], run);
      LitBytesConcat(v.instrs, [Lit(run)]);
      assert cx.body[..v.pos] + run == cx.body[..e];
    }
  }

  lemma CoverKeeps(body: Bytes, instrs: seq<Instr>, pos: nat, kind: BlockKind, s: Span)
    requires InBounds(s, body) && |body| < ALLOC_LIMIT && pos == s.start && Denotes(instrs, body[..pos])
    ensures var r: Instr := Ref(Digest(kind, Slice(s, body)), SpanLen(s));
            Denotes(instrs + [r], body[..s.end]) && LitBytes(instrs + [r]) == LitBytes(instrs)
  {
    var r: Instr := Ref(Digest(kind, Slice(s, body)), SpanLen(s));
    FlatRef(kind, Slice(s, body));
    DenotesConcat(instrs, body[..pos], [r], Slice(s, body));
    LitBytesConcat(instrs, [r]);
    assert body[..pos] + Slice(s, body) == body[..s.end];
  }

  // Every candidate, in whatever order and however they overlap, leaves a
  // program for exactly the bytes passed so far.
  lemma ReferenceKeeps(cx: Ctx, v: View, c: Cand, inner: seq<Cand>)
    requires Inv(cx.body, v) && |cx.body| < ALLOC_LIMIT && GroupShape(cx.body, c, inner)
    ensures Inv(cx.body, ReferenceStep(cx, v, c, inner))
  {
    if Accepts(v, c) {
      LitKeeps(cx, v, c.span.start);
      var v1 := LitStep(cx, v, c.span.start);
      ProvideKeeps(cx, v1, c, inner);
      CoverKeeps(cx.body, v1.instrs, v1.pos, c.kind, c.span);
    }
  }

  lemma StartHolds(body: Bytes)
    ensures Inv(body, Start(body))
  {
  }

  // ---------- What is pushed ----------

  // A block the builder makes for one group: the group's, or one of a child.
  ghost predicate MadeFor(body: Bytes, c: Cand, inner: seq<Cand>, b: Block)
    requires |body| < ALLOC_LIMIT
  {
    || (InBounds(c.span, body) && b == BlockFor(body, c, inner))
    || exists ch :: ch in inner && InBounds(ch.span, body) && b == BytesBlock(ch.kind, Slice(ch.span, body))
  }

  lemma {:induction false} ChildrenPush(cx: Ctx, v: View, pos: nat, end: nat, inner: seq<Cand>, b: Block)
    requires pos <= end <= |cx.body| < ALLOC_LIMIT && b in ChildrenStep(cx, v, pos, end, inner).push
    ensures b in v.push || exists ch :: ch in inner && InBounds(ch.span, cx.body)
                                        && b == BytesBlock(ch.kind, Slice(ch.span, cx.body))
    decreases |inner|
  {
    if inner != [] {
      var ch, rest := inner[0], inner[1..];
      assert ch in inner && forall x :: x in rest ==> x in inner;
      if Fits(ch, pos, end) {
        ChildrenPush(cx, ChildStep(cx, v, ch), ch.span.end, end, rest, b);
      } else {
        ChildrenPush(cx, v, pos, end, rest, b);
      }
    }
  }

  // Referencing a group pushes nothing but blocks made for it.
  lemma ReferencePushes(cx: Ctx, v: View, c: Cand, inner: seq<Cand>, b: Block)
    requires |cx.body| < ALLOC_LIMIT && InReach(cx.body, c, inner) && b in ReferenceStep(cx, v, c, inner).push
    ensures b in v.push || MadeFor(cx.body, c, inner, b)
  {
    hide BlockFor;
    if Accepts(v, c) {
      var d := Digest(c.kind, Slice(c.span, cx.body));
      var v1 := AskStep(cx, CountRef(LitStep(cx, v, c.span.start), SpanLen(c.span)), d);
      if b in ChildrenStep(cx, CountNew(v1), c.span.start, c.span.end, inner).push {
        ChildrenPush(cx, CountNew(v1), c.span.start, c.span.end, inner, b);
      }
    }
  }

  // With two levels all of them are honest.
  lemma MadeHonest(body: Bytes, c: Cand, inner: seq<Cand>, b: Block)
    requires |body| < ALLOC_LIMIT && GroupShape(body, c, inner) && TwoLevel(c, inner) && MadeFor(body, c, inner, b)
    ensures Honest(b)
  {
    BlockForHonest(body, c, inner);
  }

  // ---------- What a finished split guarantees ----------

  ghost predicate GoodSplit(body: Bytes, out: SplitOutput, claimed: set<Digest>) {
    && |body| < ALLOC_LIMIT
    && Denotes(out.instrs, body)
    && RefsIn(out.instrs, Digests(out.toPush) + claimed)
    && PushOrder(out.toPush, claimed)
    && GoodAccounts(body, out)
  }

  // Every body byte is a literal or covered by a reference; the modelled cost
  // is the program's cost plus the cost of the pushed blocks; and it is never
  // much more than the body itself.
  ghost predicate GoodAccounts(body: Bytes, out: SplitOutput) {
    && out.stats.bodyLen == |body|
    && out.stats.litBytes + out.stats.refCovered == |body|
    && out.stats.litBytes == LitBytes(out.instrs)
    && out.stats.WireBytes() == ProgramWireCost(out.instrs) + PushCost(out.toPush)
    && out.stats.WireBytes() <= |body| + out.stats.Slack()
  }

  // What the source answers for every pushed digest: that block.
  ghost predicate Holds(src: Source, blocks: seq<Block>) {
    forall n, b :: b in blocks ==> src(n, b.digest) == Some(b)
  }

  lemma FinishGood(cx: Ctx, v: View)
    requires Inv(cx.body, v) && |cx.body| < ALLOC_LIMIT && FinishAction(cx, v).Split?
    ensures GoodSplit(cx.body, FinishAction(cx, v).out, v.claimed)
    ensures FinishAction(cx, v).out.toPush == v.push
  {
    LitKeeps(cx, v, |cx.body|);
    var v1 := LitStep(cx, v, |cx.body|);
    assert cx.body[..v1.pos] == cx.body;
    NormalizedDenotes(v1.instrs);
    LitBytesWithinCost(Normalized(v1.instrs));
  }

  // ---------- Split, then resolve ----------

  // Everything the program leads to is pushed or held, with all it nests.
  lemma PushedAreAvailable(body: Bytes, out: SplitOutput, claimed: set<Digest>, src: Source, held: set<Digest>)
    requires GoodSplit(body, out, claimed) && Holds(src, out.toPush)
    requires claimed <= held && Available(src, held)
    ensures Available(src, held + Digests(out.toPush)) && RefsIn(out.instrs, held + Digests(out.toPush))
  {
    var live := held + Digests(out.toPush);
    forall n, d | d in live
      ensures src(n, d).Some? &&
              (src(n, d).value.body.ProgramBody? ==> RefsIn(src(n, d).value.body.instrs, live))
    {
      if d in held {
        assert RefsIn([], held);
        if src(n, d).value.body.ProgramBody? {
          assert RefsIn(src(n, d).value.body.instrs, held);
        }
      } else {
        var k := DigestsAt(out.toPush, d);
        var b := out.toPush[k];
        PushOrderAt(out.toPush, claimed, k);
        DigestsGrow(out.toPush, k, |out.toPush|);
        assert out.toPush[..|out.toPush|] == out.toPush;
        assert b in out.toPush && src(n, b.digest) == Some(b);
      }
    }
  }

  // For a good split and any sound store, however deep it nests: the program
  // expands to exactly the body, or it is too deep. Nothing else
  // can come out, and no byte is ever wrong.
  lemma SplitResolves(body: Bytes, out: SplitOutput, claimed: set<Digest>, src: Source, held: set<Digest>)
    requires GoodSplit(body, out, claimed) && Sound(src) && Holds(src, out.toPush)
    requires claimed <= held && Available(src, held)
    ensures var r := Expansion(src, Limits(|body| + 1, 32), out.instrs);
            r == Ok(body) || r == Err(TooDeep(32))
  {
    var live, c, lim := held + Digests(out.toPush), Cursor([], 0), Limits(|body| + 1, 32);
    PushedAreAvailable(body, out, claimed, src, held);
    ExpandSound(src, lim, out.instrs, 1, c);
    ExpandNotMissing(src, lim, out.instrs, 1, c, live);
    assert [] + body == body;
  }

  // Which of the two is decided by how deep the blocks nest, and nothing else.
  lemma SplitIsIdentityWhen(body: Bytes, out: SplitOutput, claimed: set<Digest>, src: Source, held: set<Digest>)
    requires GoodSplit(body, out, claimed) && Sound(src) && Holds(src, out.toPush)
    requires claimed <= held && Available(src, held) && Stable(src)
    ensures var r := Expansion(src, Limits(|body| + 1, 32), out.instrs);
            && (r == Ok(body) <==> DepthWithin(src, out.instrs, 32))
            && (r == Err(TooDeep(32)) <==> !DepthWithin(src, out.instrs, 32))
  {
    var lim, c := Limits(|body| + 1, 32), Cursor([], 0);
    assert Room(1, lim) == 32;
    hide GoodSplit, Sound, Holds, Available, Stable, DepthWithin, ExpandAll;
    SplitResolves(body, out, claimed, src, held);
    if ExpandAll(src, lim, out.instrs, 1, c).Ok? {
      OkIsWithin(src, lim, out.instrs, 1, c);
    }
    if DepthWithin(src, out.instrs, 32) {
      WithinIsNotTooDeep(src, lim, out.instrs, 1, c);
    }
  }

  // The two-level case, which is what structural groups and chunks make: any
  // honest store holding the pushed blocks, and everything that what presence
  // claimed leads to, resolves the program to the body.
  lemma SplitIsIdentity(body: Bytes, out: SplitOutput, claimed: set<Digest>, src: Source, held: set<Digest>)
    requires GoodSplit(body, out, claimed)
    requires forall n, d :: src(n, d).Some? ==> src(n, d).value.digest == d && Honest(src(n, d).value)
    requires Holds(src, out.toPush)
    requires claimed <= held && Available(src, held)
    ensures Expansion(src, Limits(|body| + 1, 32), out.instrs) == Ok(body)
  {
    SplitResolves(body, out, claimed, src, held);
    ExpandNotTooDeep(src, Limits(|body| + 1, 32), out.instrs, 1, Cursor([], 0), Level);
  }

  // Pushed blocks pass the receiving store's check, none is pushed twice, and
  // what a pushed program nests is pushed before it or already claimed.
  lemma PushedBlocksAreAccepted(body: Bytes, out: SplitOutput, claimed: set<Digest>, k: nat)
    requires GoodSplit(body, out, claimed) && k < |out.toPush|
    ensures Verifies(out.toPush[k]) && Denoting(out.toPush[k])
    ensures forall j :: 0 <= j < |out.toPush| && j != k ==> out.toPush[j].digest != out.toPush[k].digest
    ensures forall i :: out.toPush[k].body.ProgramBody? && i in out.toPush[k].body.instrs && i.Ref? ==>
              i.digest in claimed || exists j :: 0 <= j < k && out.toPush[j].digest == i.digest
  {
    var push := out.toPush;
    PushOrderAt(push, claimed, k);
    DenotingVerifies(push[k]);
    forall j | 0 <= j < |push| && j != k ensures push[j].digest != push[k].digest {
      var lo, hi := if j < k then j else k, if j < k then k else j;
      PushOrderAt(push, claimed, hi);
      DigestsGrow(push, lo + 1, hi);
      assert push[..lo + 1][..lo] == push[..lo];
    }
    forall i | push[k].body.ProgramBody? && i in push[k].body.instrs && i.Ref? && i.digest !in claimed
      ensures exists j :: 0 <= j < k && push[j].digest == i.digest
    {
      var j := DigestsAt(push[..k], i.digest);
      assert push[j].digest == i.digest;
    }
  }
}

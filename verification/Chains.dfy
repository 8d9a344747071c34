// Candidate lists whose program may be too deep to resolve: each
// group nests the block of the group before it, and every child's kind differs
// from its parent's.

module Chains {
  import opened Results
  import opened Blocks
  import opened Policies
  import opened Programs
  import opened Resolve
  import opened Splitter

  function Zeros(n: nat): (z: Bytes)
    ensures |z| == n
  {
    seq(n, i => 0)
  }

  // The end of the k-th group: segments of one, two, three bytes and so on.
  function EndOf(k: nat): nat { if k == 0 then 0 else EndOf(k - 1) + k }

  function KindAt(k: nat): BlockKind { if k % 2 == 0 then Text else Chunk }

  // The k-th group is the k-th segment, whole.
  function GroupAt(k: nat): Cand
    requires k > 0
  {
    Cand(Span(EndOf(k - 1), EndOf(k)), KindAt(k), 1)
  }

  // Its child is all of it but the last byte: the bytes of the group before.
  function ChildrenAt(k: nat): seq<Cand>
    requires k > 0
  {
    if k == 1 then [] else [Cand(Span(EndOf(k - 1), EndOf(k - 1) + k - 1), KindAt(k - 1), 1)]
  }

  function DigestAt(k: nat): Digest { Digest(KindAt(k), Zeros(k)) }

  function LinkInstrs(k: nat): seq<Instr>
    requires 1 < k < ALLOC_LIMIT
  {
    [Ref(DigestAt(k - 1), k - 1), Lit([0])]
  }

  // The block of the k-th group: one byte, or the block before and one byte.
  function BlockAt(k: nat): Block
    requires 0 < k < ALLOC_LIMIT
  {
    Block(DigestAt(k), KindAt(k), k, if k == 1 then BytesBody([0]) else ProgramBody(LinkInstrs(k)))
  }

  function Pushed(k: nat): seq<Block>
    requires k < ALLOC_LIMIT
  {
    if k == 0 then [] else Pushed(k - 1) + [BlockAt(k)]
  }

  function Roots(k: nat): seq<Instr>
    requires k < ALLOC_LIMIT
  {
    if k == 0 then [] else Roots(k - 1) + [Ref(DigestAt(k), k)]
  }

  // A peer that has nothing, a store that has nothing.
  function Bare(n: nat): Ctx { Ctx(Zeros(EndOf(n)), DEFAULT_POLICY, (i, d) => false, (i, d) => false) }

  lemma {:induction false} EndsGrow(k: nat, n: nat)
    requires k <= n
    ensures EndOf(k) <= EndOf(n)
  {
    if k < n {
      EndsGrow(k, n - 1);
    }
  }

  lemma GroupFits(k: nat, n: nat)
    requires 0 < k <= n && EndOf(n) < ALLOC_LIMIT
    ensures GroupShape(Bare(n).body, GroupAt(k), ChildrenAt(k))
    ensures Slice(GroupAt(k).span, Bare(n).body) == Zeros(k)
    ensures k > 1 ==> InBounds(ChildrenAt(k)[0].span, Bare(n).body)
                      && Slice(ChildrenAt(k)[0].span, Bare(n).body) == Zeros(k - 1)
    ensures k < ALLOC_LIMIT
  {
    EndsGrow(k, n);
  }

  // Every child's kind differs from its parent's.
  ghost predicate KindsDiffer(n: nat) {
    forall k :: 0 < k <= n ==> forall c :: c in ChildrenAt(k) ==> c.kind != GroupAt(k).kind
  }

  lemma KindsAlternate(n: nat)
    ensures KindsDiffer(n)
  {
  }

  // The builder after the first k groups.
  ghost function Built(n: nat, k: nat): View
    requires k <= n && EndOf(n) < ALLOC_LIMIT
  {
    if k == 0 then Start(Bare(n).body)
    else
      GroupFits(k, n);
      ReferenceStep(Bare(n), Built(n, k - 1), GroupAt(k), ChildrenAt(k))
  }

  lemma {:induction false} DigestsPushed(k: nat, d: Digest)
    requires k < ALLOC_LIMIT
    ensures d in Digests(Pushed(k)) <==> exists j :: 0 < j <= k && d == DigestAt(j)
  {
    if k > 0 {
      var all := Pushed(k);
      assert all[|all| - 1] == BlockAt(k) && all[..|all| - 1] == Pushed(k - 1);
      DigestsPushed(k - 1, d);
    }
  }

  lemma DigestsApart(j: nat, k: nat)
    requires j != k
    ensures DigestAt(j) != DigestAt(k)
  {
    assert |DigestAt(j).data| == j && |DigestAt(k).data| == k;
  }

  // The block the builder makes for the k-th group.
  lemma BlockMade(n: nat, k: nat)
    requires 0 < k <= n && EndOf(n) < ALLOC_LIMIT
    ensures k < ALLOC_LIMIT && InBounds(GroupAt(k).span, Bare(n).body)
    ensures BlockFor(Bare(n).body, GroupAt(k), ChildrenAt(k)) == BlockAt(k)
  {
    GroupFits(k, n);
    var body, s := Bare(n).body, GroupAt(k).span;
    if k == 1 {
      assert Zeros(1) == [0];
    } else {
      var c := ChildrenAt(k)[0];
      assert ChildrenAt(k)[1..] == [];
      assert body[c.span.end..s.end] == [0];
      var p := InnerProgram(body, s.start, s.end, ChildrenAt(k));
      assert InnerProgram(body, c.span.end, s.end, []) == [Lit([0])];
      assert p == [] + [Ref(DigestAt(k - 1), k - 1)] + [Lit([0])] == LinkInstrs(k);
      NormalizedPieces(body, s.start, s.end, ChildrenAt(k));
    }
  }

  ghost predicate Chained(n: nat, k: nat)
    requires k <= n && EndOf(n) < ALLOC_LIMIT
  {
    var v := Built(n, k);
    && Small(n) && v.push == Pushed(k) && v.instrs == Roots(k) && v.pos == EndOf(k) && !v.limits
    && (k > 0 ==> v.stats.refs > 0)
    && v.claimed == {}
  }

  predicate Small(n: nat) { n <= 200_000 }

  lemma {:induction false} RootsCount(k: nat)
    requires k < ALLOC_LIMIT
    ensures |Roots(k)| == k
  {
    if k > 0 {
      RootsCount(k - 1);
    }
  }

  // A group that starts where the last one ended, whose digest nobody has and
  // whose children add nothing to the queue.
  lemma FreshGroup(cx: Ctx, v: View, c: Cand, inner: seq<Cand>, d: Digest, b: Block)
    requires InBounds(c.span, cx.body) && |cx.body| < ALLOC_LIMIT && v.pos == c.span.start && SpanLen(c.span) >= c.floor
    requires d == Digest(c.kind, Slice(c.span, cx.body)) && !cx.peer(v.asked, d) && d !in v.queued
    requires b == BlockFor(cx.body, c, inner) && b.digest == d
    requires var w := ChildrenStep(cx, CountNew(AskStep(cx, CountRef(v, SpanLen(c.span)), d)), c.span.start, c.span.end,
                                   inner);
             && w.push == v.push && w.queued == v.queued && w.instrs == v.instrs && w.claimed == v.claimed
             && w.limits == v.limits && w.stats.refs > 0
    ensures var v' := ReferenceStep(cx, v, c, inner);
            && v'.push == v.push + [b] && v'.instrs == v.instrs + [Ref(d, SpanLen(c.span))] && v'.pos == c.span.end
            && v'.claimed == v.claimed && v'.stats.refs > 0
            && v'.limits == (v.limits || |v.instrs| + 1 > cx.policy.maxInstrs)
  {
    hide ChildrenStep, BlockFor, Slice;
    assert LitStep(cx, v, c.span.start) == v;
  }

  // One more group adds its block and its reference, and nothing else: the
  // child's digest is queued already, as the program of the group before.
  lemma OneMoreGroup(n: nat, k: nat)
    requires 0 < k <= n && EndOf(n) < ALLOC_LIMIT && Chained(n, k - 1) && Inv(Bare(n).body, Built(n, k - 1))
    ensures Chained(n, k) && Inv(Bare(n).body, Built(n, k))
  {
    var cx, v, g, cs := Bare(n), Built(n, k - 1), GroupAt(k), ChildrenAt(k);
    GroupFits(k, n);
    BlockMade(n, k);
    RootsCount(k);
    NotYet(k);
    var v1 := CountNew(AskStep(cx, CountRef(v, SpanLen(g.span)), DigestAt(k)));
    assert v1.queued == Digests(Pushed(k - 1)) && v.claimed == {};
    hide Inv, BlockFor, GroupShape, ChildrenAt, EndOf, Digests, ReferenceStep, ChildrenStep, Zeros, BlockAt, KindAt;
    ReferenceKeeps(cx, v, g, cs);
    ChildrenQueued(cx, v1, n, k);
    assert SpanLen(g.span) == k by { EndStep(k); }
    FreshGroup(cx, v, g, cs, DigestAt(k), BlockFor(cx.body, g, cs)) by { BlockNamed(k); }
  }

  lemma EndStep(k: nat)
    requires k > 0
    ensures GroupAt(k).span.start <= GroupAt(k).span.end && SpanLen(GroupAt(k).span) == k
  {
  }

  lemma BlockNamed(k: nat)
    requires 0 < k < ALLOC_LIMIT
    ensures BlockAt(k).digest == DigestAt(k)
  {
  }

  lemma NotYet(k: nat)
    requires 0 < k < ALLOC_LIMIT
    ensures DigestAt(k) !in Digests(Pushed(k - 1))
    ensures k > 1 ==> DigestAt(k - 1) in Digests(Pushed(k - 1))
  {
    DigestsPushed(k - 1, DigestAt(k));
    forall j | 0 < j <= k - 1 ensures DigestAt(j) != DigestAt(k) {
      DigestsApart(j, k);
    }
    if k > 1 {
      DigestsPushed(k - 1, DigestAt(k - 1));
    }
  }

  lemma ChildrenQueued(cx: Ctx, v: View, n: nat, k: nat)
    requires 0 < k <= n && EndOf(n) < ALLOC_LIMIT && cx == Bare(n) && v.queued == Digests(Pushed(k - 1))
    requires InBounds(GroupAt(k).span, cx.body) && k < ALLOC_LIMIT
    ensures var w := ChildrenStep(cx, v, GroupAt(k).span.start, GroupAt(k).span.end, ChildrenAt(k));
            && w.push == v.push && w.queued == v.queued && w.instrs == v.instrs && w.claimed == v.claimed
            && w.pos == v.pos && w.limits == v.limits && w.stats.refs >= v.stats.refs
  {
    if k > 1 {
      GroupFits(k, n);
      NotYet(k);
      var c := ChildrenAt(k)[0];
      assert ChildrenAt(k)[1..] == [];
      assert ChildStep(cx, v, c).queued == v.queued;
      assert ChildrenStep(cx, ChildStep(cx, v, c), c.span.end, GroupAt(k).span.end, []) == ChildStep(cx, v, c);
    }
  }

  lemma {:induction false} AllChained(n: nat, k: nat)
    requires k <= n <= 200_000 && EndOf(n) < ALLOC_LIMIT
    ensures Chained(n, k) && Inv(Bare(n).body, Built(n, k))
  {
    hide *;
    if k == 0 {
      NoGroups(n);
    } else {
      AllChained(n, k - 1);
      OneMoreGroup(n, k);
    }
  }

  lemma NoGroups(n: nat)
    requires n <= 200_000 && EndOf(n) < ALLOC_LIMIT
    ensures Chained(n, 0) && Inv(Bare(n).body, Built(n, 0))
  {
    hide Inv, Zeros;
    StartHolds(Bare(n).body);
  }

  // The segments are as long together as a triangle is large.
  lemma {:induction false} EndsAre(n: nat)
    ensures 2 * EndOf(n) == n * (n + 1)
  {
    if n > 0 {
      EndsAre(n - 1);
      assert n * (n + 1) == (n - 1) * n + 2 * n;
    }
  }

  // A triangle lies above its tangent at 44 and 45.
  lemma {:induction false} AboveTangent(n: nat)
    ensures EndOf(n) >= 45 * n - 990
    decreases if n < 44 then 44 - n else n - 44
  {
    if n == 44 {
      EndsAre(44);
    } else if n > 44 {
      AboveTangent(n - 1);
    } else {
      AboveTangent(n + 1);
    }
  }

  lemma ChainLength(n: nat)
    requires 0 < n <= 200_000
    ensures EndOf(n) < ALLOC_LIMIT && 45 * n - 24 <= EndOf(n) + 1024
  {
    AboveTangent(n);
    hide EndOf;
    EndsGrow(n, 200_000);
    EndsAre(200_000);
  }

  // ---------- What it costs, and that it is split ----------

  lemma {:induction false} ChainCost(k: nat)
    requires 0 < k < ALLOC_LIMIT
    ensures PushCost(Pushed(k)) == 25 * (k - 1) + 1
    ensures ProgramWireCost(Roots(k)) == 20 * k && LitBytes(Roots(k)) == 0
    ensures Normalized(Roots(k)) == Roots(k)
  {
    var all, blocks := Roots(k), Pushed(k);
    assert blocks[|blocks| - 1] == BlockAt(k) && blocks[..|blocks| - 1] == Pushed(k - 1);
    RootsAre(k);
    CanonicalFixed([], all);
    assert [] + all == all;
    RootsCost(all);
    RootsCount(k);
    if k > 1 {
      ChainCost(k - 1);
      LinkCost(k);
    }
  }

  lemma LinkCost(k: nat)
    requires 1 < k < ALLOC_LIMIT
    ensures WireCost(BlockAt(k)) == 25
  {
    var p := LinkInstrs(k);
    assert p[1..] == [Lit([0])] && p[1..][1..] == [];
    assert ProgramWireCost(p[1..]) == 5;
  }

  lemma {:induction false} RootsAre(k: nat)
    requires k < ALLOC_LIMIT
    ensures forall i :: i in Roots(k) ==> i.Ref?
  {
    if k > 0 {
      RootsAre(k - 1);
    }
  }

  lemma {:induction false} RootsCost(p: seq<Instr>)
    requires forall i :: i in p ==> i.Ref?
    ensures ProgramWireCost(p) == 20 * |p| && LitBytes(p) == 0
  {
    if p != [] {
      assert p[0] in p && forall i :: i in p[1..] ==> i in p;
      RootsCost(p[1..]);
    }
  }

  // Whatever its length, the chain passes every gate of the builder.
  lemma ChainIsSplit(n: nat)
    requires 0 < n <= 200_000
    ensures EndOf(n) < ALLOC_LIMIT
    ensures var a := FinishAction(Bare(n), Built(n, n));
            && a.Split? && a.out.instrs == Roots(n) && a.out.toPush == Pushed(n)
            && GoodSplit(Bare(n).body, a.out, {})
  {
    ChainLength(n);
    AllChained(n, n);
    ChainCost(n);
    ChainFinishes(Bare(n), Built(n, n), n);
  }

  lemma ChainFinishes(cx: Ctx, v: View, n: nat)
    requires 0 < n <= 200_000 && |cx.body| == EndOf(n) < ALLOC_LIMIT && Inv(cx.body, v)
    requires v.push == Pushed(n) && v.instrs == Roots(n) && v.pos == EndOf(n) && !v.limits && v.stats.refs > 0
    requires v.claimed == {}
    requires PushCost(Pushed(n)) == 25 * (n - 1) + 1
    requires ProgramWireCost(Roots(n)) == 20 * n && LitBytes(Roots(n)) == 0 && Normalized(Roots(n)) == Roots(n)
    ensures var a := FinishAction(cx, v);
            a.Split? && a.out.instrs == Roots(n) && a.out.toPush == Pushed(n) && GoodSplit(cx.body, a.out, {})
  {
    hide Roots, Pushed, ProgramWireCost, PushCost, LitBytes, Normalized, EndOf, PushOrder, Digests, GoodSplit;
    ChainLength(n);
    assert LitStep(cx, v, |cx.body|) == v;
    assert FinishAction(cx, v).Split?;
    FinishGood(cx, v);
  }

  // ---------- Too deep ----------

  // A store of exactly the pushed blocks.
  function Answers(n: nat): Source
    requires n < ALLOC_LIMIT
  {
    (i: nat, d: Digest) => if 0 < |d.data| <= n && d == DigestAt(|d.data|) then Some(BlockAt(|d.data|)) else None
  }

  lemma {:induction false} PushedBlocks(k: nat, b: Block)
    requires k < ALLOC_LIMIT && b in Pushed(k)
    ensures exists j :: 0 < j <= k && b == BlockAt(j)
  {
    if b != BlockAt(k) {
      PushedBlocks(k - 1, b);
    }
  }

  lemma LinkStands(k: nat)
    requires 0 < k < ALLOC_LIMIT
    ensures StandsFor(BlockAt(k), DigestAt(k))
  {
    if k == 1 {
      assert Zeros(1) == [0];
    } else {
      var r: Instr := Ref(DigestAt(k - 1), k - 1);
      FlatRef(KindAt(k - 1), Zeros(k - 1));
      FlatLit([0]);
      DenotesConcat([r], Zeros(k - 1), [Lit([0])], [0]);
      assert [r] + [Lit([0])] == LinkInstrs(k) && Zeros(k - 1) + [0] == Zeros(k);
    }
  }

  lemma AnswersHold(n: nat)
    requires n < ALLOC_LIMIT
    ensures Stable(Answers(n)) && Sound(Answers(n)) && Holds(Answers(n), Pushed(n))
  {
    forall i: nat, d | Answers(n)(i, d).Some? ensures StandsFor(Answers(n)(i, d).value, d) {
      LinkStands(|d.data|);
    }
    forall i: nat, b | b in Pushed(n) ensures Answers(n)(i, b.digest) == Some(b) {
      PushedBlocks(n, b);
    }
  }

  // A chain of k blocks needs room for k.
  lemma {:induction false} ChainNeedsRoom(n: nat, instrs: seq<Instr>, k: nat, room: nat)
    requires 0 < k <= n < ALLOC_LIMIT && Ref(DigestAt(k), k) in instrs && DepthWithin(Answers(n), instrs, room)
    ensures room >= k
    decreases k
  {
    var i: Instr := Ref(DigestAt(k), k);
    assert i.Ref? && room > 0;
    assert Answers(n)(0, i.digest) == Some(BlockAt(k));
    if k > 1 {
      assert Program(Answers(n)(0, i.digest)) == Some(LinkInstrs(k));
      assert Ref(DigestAt(k - 1), k - 1) in LinkInstrs(k);
      ChainNeedsRoom(n, LinkInstrs(k), k - 1, room - 1);
    }
  }

  lemma {:induction false} ChainFitsRoom(n: nat, instrs: seq<Instr>, room: nat)
    requires n < ALLOC_LIMIT
    requires forall i :: i in instrs && i.Ref? ==> exists k :: 0 < k <= n && k <= room && i.digest == DigestAt(k)
    ensures DepthWithin(Answers(n), instrs, room)
    decreases room
  {
    hide DigestAt, Zeros;
    forall i | i in instrs && i.Ref? && Program(Answers(n)(0, i.digest)).Some?
      ensures room > 0 && DepthWithin(Answers(n), Program(Answers(n)(0, i.digest)).value, room - 1)
    {
      var k :| 0 < k <= n && k <= room && i.digest == DigestAt(k);
      AnswerAt(n, k);
      ChainFitsRoom(n, LinkInstrs(k), room - 1);
    }
  }

  lemma AnswerAt(n: nat, k: nat)
    requires 0 < k <= n < ALLOC_LIMIT
    ensures Answers(n)(0, DigestAt(k)) == Some(BlockAt(k))
    ensures Program(Some(BlockAt(k))) == if k == 1 then None else Some(LinkInstrs(k))
    ensures k > 1 ==> forall i :: i in LinkInstrs(k) && i.Ref? ==> i.digest == DigestAt(k - 1)
  {
    assert |DigestAt(k).data| == k;
  }

  lemma {:induction false} RootDigests(k: nat)
    requires k < ALLOC_LIMIT
    ensures forall i :: i in Roots(k) && i.Ref? ==> exists j :: 0 < j <= k && i.digest == DigestAt(j)
    ensures k > 0 ==> Ref(DigestAt(k), k) in Roots(k)
  {
    if k > 0 {
      RootDigests(k - 1);
    }
  }

  // In-bounds candidates, positive floors, kinds that differ from parent to
  // child, a split the builder accepts, and a store holding every pushed
  // block: the program resolves to the body if and only if the chain is of at
  // most 32 groups. From the 33rd on (561 bytes) it is too deep.
  lemma ChainIsTooDeep(n: nat)
    requires 0 < n <= 200_000
    ensures EndOf(n) < ALLOC_LIMIT && 2 * EndOf(n) == n * (n + 1) && KindsDiffer(n)
    ensures FinishAction(Bare(n), Built(n, n)).Split?
    ensures Sound(Answers(n)) && Holds(Answers(n), FinishAction(Bare(n), Built(n, n)).out.toPush)
    ensures Expansion(Answers(n), Limits(EndOf(n) + 1, 32), FinishAction(Bare(n), Built(n, n)).out.instrs) ==
            if n <= 32 then Ok(Bare(n).body) else Err(TooDeep(32))
  {
    hide *;
    KindsAlternate(n);
    ChainIsSplit(n);
    EndsAre(n);
    BareLength(n);
    ChainDepth(n);
    AnswersHold(n);
    OnlyPushed(Bare(n).body, FinishAction(Bare(n), Built(n, n)).out, Answers(n));
  }

  lemma BareLength(n: nat)
    ensures |Bare(n).body| == EndOf(n)
  {
  }

  // Resolved from the pushed blocks alone.
  lemma OnlyPushed(body: Bytes, out: SplitOutput, src: Source)
    requires GoodSplit(body, out, {}) && Sound(src) && Holds(src, out.toPush) && Stable(src)
    ensures |body| < ALLOC_LIMIT
    ensures Expansion(src, Limits(|body| + 1, 32), out.instrs) ==
            if DepthWithin(src, out.instrs, 32) then Ok(body) else Err(TooDeep(32))
  {
    assert Available(src, {});
    SplitIsIdentityWhen(body, out, {}, src, {});
  }

  lemma ChainDepth(n: nat)
    requires 0 < n <= 200_000
    ensures DepthWithin(Answers(n), Roots(n), 32) <==> n <= 32
  {
    RootDigests(n);
    if n <= 32 {
      ChainFitsRoom(n, Roots(n), 32);
    } else if DepthWithin(Answers(n), Roots(n), 32) {
      ChainNeedsRoom(n, Roots(n), n, 32);
    }
  }
}

// Walking and rewriting block programs: what a peer still lacks, and literal
// merging.

module Programs {
  import opened Results
  import opened Blocks
  import opened Resolve

  type Store = map<Digest, Block>

  ghost predicate Distinct<T>(s: seq<T>) {
    forall i, j :: 0 <= i < j < |s| ==> s[i] != s[j]
  }

  ghost function Elements(s: seq<Digest>): set<Digest> { set d | d in s }

  lemma SubsetCounts<T>(a: set<T>, b: set<T>)
    requires a <= b
    ensures |a| <= |b|
  {
    assert |b - a| == |b| - |a|;
  }

  // ---------- missing_blocks ----------

  // The digests an instruction list names, in order.
  function RefsOf(instrs: seq<Instr>): seq<Digest> {
    if instrs == [] then []
    else (if instrs[0].Ref? then [instrs[0].digest] else []) + RefsOf(instrs[1..])
  }

  lemma {:induction false} RefsOfMembers(instrs: seq<Instr>, d: Digest)
    ensures d in RefsOf(instrs) <==> exists i :: i in instrs && i.Ref? && i.digest == d
  {
    if instrs != [] {
      RefsOfMembers(instrs[1..], d);
      assert instrs == [instrs[0]] + instrs[1..];
    }
  }

  function Nested(store: Store, d: Digest): seq<Digest> {
    if d in store && store[d].body.ProgramBody? then RefsOf(store[d].body.instrs) else []
  }

  // The walk from a stack of digests, having reported `out` so far.
  function Walk(store: Store, peer: Digest -> bool, limit: nat, out: seq<Digest>, stack: seq<Digest>): seq<Digest>
    decreases if |out| < limit then limit - |out| else 0, |stack|
  {
    if stack == [] then out
    else
      var d := stack[|stack| - 1];
      var rest := stack[..|stack| - 1];
      if d in out || peer(d) then Walk(store, peer, limit, out, rest)
      else if |out| >= limit then out
      else Walk(store, peer, limit, out + [d], rest + Nested(store, d))
  }

  // The n-th time somebody is asked whether a block is there.
  type Oracle = (nat, Digest) -> bool

  function ProgramRefs(found: Option<Block>): seq<Digest> {
    if found.Some? && found.value.body.ProgramBody? then RefsOf(found.value.body.instrs) else []
  }

  // The same walk while the peer and the store change from one step to the
  // next: at the n-th step they answer `has` and `src`.
  function LiveWalk(has: Oracle, src: Source, limit: nat, out: seq<Digest>, stack: seq<Digest>, n: nat): seq<Digest>
    decreases if |out| < limit then limit - |out| else 0, |stack|
  {
    if stack == [] then out
    else
      var d := stack[|stack| - 1];
      var rest := stack[..|stack| - 1];
      if d in out || has(n, d) then LiveWalk(has, src, limit, out, rest, n + 1)
      else if |out| >= limit then out
      else LiveWalk(has, src, limit, out + [d], rest + ProgramRefs(src(n, d)), n + 1)
  }

  method MissingBlocks(has: Oracle, src: Source, instrs: seq<Instr>, limit: nat) returns (out: seq<Digest>)
    ensures out == LiveWalk(has, src, limit, [], RefsOf(instrs), 0)
  {
    out := [];
    var seen: seq<Digest> := [];
    var stack := RefsOf(instrs);
    var n := 0;
    ghost var goal := LiveWalk(has, src, limit, out, stack, n);
    while stack != []
      invariant seen == out
      invariant LiveWalk(has, src, limit, out, stack, n) == goal
      decreases if |out| < limit then limit - |out| else 0, |stack|
    {
      var d := stack[|stack| - 1];
      stack := stack[..|stack| - 1];
      if d in seen || has(n, d) {
        n := n + 1;
        continue;
      }
      seen := seen + [d];
      if |out| >= limit {
        break;
      }
      out := out + [d];
      stack := stack + ProgramRefs(src(n, d));
      n := n + 1;
    }
  }

  // Whatever changes meanwhile: nothing is reported twice, nothing past the
  // limit, and nothing that was there each time it was asked about.
  lemma {:induction false} LiveWalkReports(has: Oracle, src: Source, limit: nat, out: seq<Digest>,
                                           stack: seq<Digest>, n: nat)
    requires Distinct(out) && |out| <= limit && forall d :: d in out ==> exists k: nat :: !has(k, d)
    ensures var r := LiveWalk(has, src, limit, out, stack, n);
            Distinct(r) && out <= r && |r| <= limit && forall d :: d in r ==> exists k: nat :: !has(k, d)
    decreases if |out| < limit then limit - |out| else 0, |stack|
  {
    if stack != [] {
      var d := stack[|stack| - 1];
      var rest := stack[..|stack| - 1];
      if d in out || has(n, d) {
        LiveWalkReports(has, src, limit, out, rest, n + 1);
      } else if |out| < limit {
        LiveWalkReports(has, src, limit, out + [d], rest + ProgramRefs(src(n, d)), n + 1);
      }
    }
  }

  // With every root there throughout, nothing is reported.
  lemma {:induction false} LiveWalkOfHeld(has: Oracle, src: Source, limit: nat, stack: seq<Digest>, n: nat)
    requires forall k: nat, d :: d in stack ==> has(k, d)
    ensures LiveWalk(has, src, limit, [], stack, n) == []
    decreases |stack|
  {
    if stack != [] {
      LiveWalkOfHeld(has, src, limit, stack[..|stack| - 1], n + 1);
    }
  }

  // While nothing changes it is the walk over one store.
  lemma {:induction false} SteadyWalk(has: Oracle, src: Source, store: Store, peer: Digest -> bool, limit: nat,
                                      out: seq<Digest>, stack: seq<Digest>, n: nat)
    requires forall k: nat, d :: has(k, d) == peer(d)
    requires forall k: nat, d :: src(k, d) == if d in store then Some(store[d]) else None
    ensures LiveWalk(has, src, limit, out, stack, n) == Walk(store, peer, limit, out, stack)
    decreases if |out| < limit then limit - |out| else 0, |stack|
  {
    if stack != [] {
      var d := stack[|stack| - 1];
      var rest := stack[..|stack| - 1];
      if d in out || peer(d) {
        SteadyWalk(has, src, store, peer, limit, out, rest, n + 1);
      } else if |out| < limit {
        assert ProgramRefs(src(n, d)) == Nested(store, d);
        SteadyWalk(has, src, store, peer, limit, out + [d], rest + Nested(store, d), n + 1);
      }
    }
  }

  // `c` covers `roots` if everything reachable from them without entering a
  // block the peer has is in `c` or on the peer.
  ghost predicate Covers(store: Store, peer: Digest -> bool, c: set<Digest>) {
    forall d, e :: d in c && e in Nested(store, d) ==> e in c || peer(e)
  }

  ghost predicate Rooted(peer: Digest -> bool, roots: seq<Digest>, c: set<Digest>) {
    forall d :: d in roots ==> d in c || peer(d)
  }

  lemma {:induction false} WalkDistinct(store: Store, peer: Digest -> bool, limit: nat, out: seq<Digest>,
                                        stack: seq<Digest>)
    requires Distinct(out) && |out| <= limit && forall d :: d in out ==> !peer(d)
    ensures var r := Walk(store, peer, limit, out, stack);
            Distinct(r) && out <= r && |r| <= limit && forall d :: d in r ==> !peer(d)
    decreases if |out| < limit then limit - |out| else 0, |stack|
  {
    if stack != [] {
      var d := stack[|stack| - 1];
      var rest := stack[..|stack| - 1];
      if d in out || peer(d) {
        WalkDistinct(store, peer, limit, out, rest);
      } else if |out| < limit {
        WalkDistinct(store, peer, limit, out + [d], rest + Nested(store, d));
      }
    }
  }

  // Every block reported so far has its nested digests reported, held by the
  // peer, or still on the stack.
  ghost predicate Frontier(store: Store, peer: Digest -> bool, out: seq<Digest>, stack: seq<Digest>) {
    forall d, e :: d in out && e in Nested(store, d) ==> e in out || peer(e) || e in stack
  }

  lemma {:induction false} WalkKeeps(store: Store, peer: Digest -> bool, limit: nat, out: seq<Digest>,
                                     stack: seq<Digest>)
    ensures Elements(out) <= Elements(Walk(store, peer, limit, out, stack))
    decreases if |out| < limit then limit - |out| else 0, |stack|
  {
    if stack != [] {
      var d := stack[|stack| - 1];
      var rest := stack[..|stack| - 1];
      if d in out || peer(d) {
        WalkKeeps(store, peer, limit, out, rest);
      } else if |out| < limit {
        WalkKeeps(store, peer, limit, out + [d], rest + Nested(store, d));
      }
    }
  }

  lemma {:induction false} WalkRooted(store: Store, peer: Digest -> bool, limit: nat, out: seq<Digest>,
                                      stack: seq<Digest>)
    ensures var r := Walk(store, peer, limit, out, stack);
            |r| < limit ==> Rooted(peer, stack, Elements(r))
    decreases if |out| < limit then limit - |out| else 0, |stack|
  {
    if stack != [] {
      var d := stack[|stack| - 1];
      var rest := stack[..|stack| - 1];
      assert stack == rest + [d];
      WalkKeeps(store, peer, limit, out, stack);
      if d in out || peer(d) {
        WalkRooted(store, peer, limit, out, rest);
      } else if |out| < limit {
        WalkKeeps(store, peer, limit, out + [d], rest + Nested(store, d));
        WalkRooted(store, peer, limit, out + [d], rest + Nested(store, d));
        assert d in Elements(out + [d]);
      }
    }
  }

  lemma {:induction false} WalkCovers(store: Store, peer: Digest -> bool, limit: nat, out: seq<Digest>,
                                      stack: seq<Digest>)
    requires Frontier(store, peer, out, stack) && |out| <= limit
    ensures |Walk(store, peer, limit, out, stack)| < limit ==>
              Covers(store, peer, Elements(Walk(store, peer, limit, out, stack)))
    decreases if |out| < limit then limit - |out| else 0, |stack|
  {
    if stack == [] {
      FrontierDone(store, peer, out);
    } else {
      var d := stack[|stack| - 1];
      var rest := stack[..|stack| - 1];
      assert stack == rest + [d];
      if d in out || peer(d) {
        FrontierSkip(store, peer, out, rest, d);
        WalkCovers(store, peer, limit, out, rest);
      } else if |out| < limit {
        FrontierStep(store, peer, out, rest, d);
        WalkCovers(store, peer, limit, out + [d], rest + Nested(store, d));
      }
    }
  }

  lemma FrontierDone(store: Store, peer: Digest -> bool, out: seq<Digest>)
    requires Frontier(store, peer, out, [])
    ensures Covers(store, peer, Elements(out))
  {
  }

  lemma FrontierSkip(store: Store, peer: Digest -> bool, out: seq<Digest>, rest: seq<Digest>, d: Digest)
    requires Frontier(store, peer, out, rest + [d]) && (d in out || peer(d))
    ensures Frontier(store, peer, out, rest)
  {
  }

  lemma FrontierStep(store: Store, peer: Digest -> bool, out: seq<Digest>, rest: seq<Digest>, d: Digest)
    requires Frontier(store, peer, out, rest + [d])
    ensures Frontier(store, peer, out + [d], rest + Nested(store, d))
  {
  }

  lemma {:induction false} WalkLeast(store: Store, peer: Digest -> bool, limit: nat, out: seq<Digest>,
                                     stack: seq<Digest>, c: set<Digest>)
    requires Covers(store, peer, c) && Rooted(peer, stack, c)
    requires forall d :: d in out ==> d in c
    ensures forall d :: d in Walk(store, peer, limit, out, stack) ==> d in c
    decreases if |out| < limit then limit - |out| else 0, |stack|
  {
    if stack != [] {
      var d := stack[|stack| - 1];
      var rest := stack[..|stack| - 1];
      if d in out || peer(d) {
        WalkLeast(store, peer, limit, out, rest, c);
      } else if |out| < limit {
        WalkLeast(store, peer, limit, out + [d], rest + Nested(store, d), c);
      }
    }
  }

  // What is reported is the least cover of the program: distinct, absent from
  // the peer, complete when under the limit, and nothing unreachable. The
  // walk ends on every store, cyclic ones included.
  lemma MissingIsLeastCover(store: Store, peer: Digest -> bool, instrs: seq<Instr>, limit: nat)
    ensures var r := Walk(store, peer, limit, [], RefsOf(instrs));
            var c := Elements(r);
            && Distinct(r) && |r| <= limit && (forall d :: d in r ==> !peer(d))
            && (|r| < limit ==> Covers(store, peer, c) && Rooted(peer, RefsOf(instrs), c))
            && (forall c' :: Covers(store, peer, c') && Rooted(peer, RefsOf(instrs), c') ==> c <= c')
  {
    WalkDistinct(store, peer, limit, [], RefsOf(instrs));
    WalkCovers(store, peer, limit, [], RefsOf(instrs));
    WalkRooted(store, peer, limit, [], RefsOf(instrs));
    forall c' | Covers(store, peer, c') && Rooted(peer, RefsOf(instrs), c')
      ensures Elements(Walk(store, peer, limit, [], RefsOf(instrs))) <= c'
    {
      WalkLeast(store, peer, limit, [], RefsOf(instrs), c');
    }
  }

  // Asked about its own store, an end reports exactly the absent top-level
  // references, and nothing exactly when all of them are there.
  lemma MissingFromSelf(store: Store, peer: Digest -> bool, instrs: seq<Instr>, limit: nat)
    requires forall d :: peer(d) <==> d in store
    ensures var r := Walk(store, peer, limit, [], RefsOf(instrs));
            && (forall d :: d in r ==> d in RefsOf(instrs) && d !in store)
            && (|r| < limit ==> forall d :: d in RefsOf(instrs) && d !in store ==> d in r)
            && (limit > 0 ==> (r == [] <==> RefsIn(instrs, store.Keys)))
  {
    var r := Walk(store, peer, limit, [], RefsOf(instrs));
    var c := set d | d in RefsOf(instrs) && d !in store;
    MissingIsLeastCover(store, peer, instrs, limit);
    assert Covers(store, peer, c) && Rooted(peer, RefsOf(instrs), c);
    assert Elements(r) <= c;
    assert forall d :: d in r ==> d in Elements(r);
    forall d ensures d in RefsOf(instrs) <==> exists i :: i in instrs && i.Ref? && i.digest == d {
      RefsOfMembers(instrs, d);
    }
    assert r != [] ==> r[0] in r;
    if limit > 0 && r == [] {
      forall i | i in instrs && i.Ref? ensures i.digest in store.Keys {
        assert i.digest in RefsOf(instrs);
      }
    }
  }

  // A peer that can expand everything it claims, once given what the walk
  // reports: whatever the blocks say, however deep or cyclic they nest and
  // whatever changes between lookups, no block is missing.
  lemma PushingMissingSuffices(store: Store, peer: Digest -> bool, instrs: seq<Instr>, limit: nat,
                               src: Source, claimed: set<Digest>, lim: Limits)
    requires forall d :: peer(d) ==> d in claimed
    requires Available(src, claimed)
    requires var r := Walk(store, peer, limit, [], RefsOf(instrs));
             && |r| < limit
             && forall d :: d in r && d !in claimed ==> d in store && forall n :: src(n, d) == Some(store[d])
    ensures var r := Expansion(src, lim, instrs); r.Err? ==> !r.error.Missing?
  {
    var r := Walk(store, peer, limit, [], RefsOf(instrs));
    MissingIsLeastCover(store, peer, instrs, limit);
    var pushed := Elements(r);
    var live := claimed + pushed;
    forall n, d | d in live
      ensures src(n, d).Some? &&
              (src(n, d).value.body.ProgramBody? ==> RefsIn(src(n, d).value.body.instrs, live))
    {
      if d in claimed {
        assert RefsIn([], live);
        if src(n, d).value.body.ProgramBody? {
          assert RefsIn(src(n, d).value.body.instrs, claimed);
        }
      } else if src(n, d).Some? && src(n, d).value.body.ProgramBody? {
        NestedRefs(store[d].body.instrs, store, d, peer, pushed, live);
      }
    }
    forall i | i in instrs && i.Ref? ensures i.digest in live {
      RefsOfMembers(instrs, i.digest);
    }
    ExpandNotMissing(src, lim, instrs, 1, Cursor([], 0), live);
  }

  // Over honest blocks it rebuilds the exact body.
  lemma PushingMissingRebuilds(store: Store, peer: Digest -> bool, instrs: seq<Instr>, limit: nat,
                               src: Source, claimed: set<Digest>, lim: Limits, body: Bytes)
    requires forall n, d :: src(n, d).Some? ==> src(n, d).value.digest == d && Honest(src(n, d).value)
    requires Denotes(instrs, body) && |body| <= lim.maxOut && lim.maxDepth >= 2
    requires forall d :: peer(d) ==> d in claimed
    requires Available(src, claimed)
    requires var r := Walk(store, peer, limit, [], RefsOf(instrs));
             && |r| < limit
             && forall d :: d in r && d !in claimed ==> d in store && forall n :: src(n, d) == Some(store[d])
    ensures Expansion(src, lim, instrs) == Ok(body)
  {
    hide *;
    PushingMissingSuffices(store, peer, instrs, limit, src, claimed, lim);
    HonestExpansion(src, lim, instrs, body);
  }

  lemma NestedRefs(p: seq<Instr>, store: Store, d: Digest, peer: Digest -> bool, pushed: set<Digest>,
                   live: set<Digest>)
    requires d in store && store[d].body == ProgramBody(p) && d in pushed && pushed <= live
    requires Covers(store, peer, pushed) && forall e :: peer(e) ==> e in live
    ensures RefsIn(p, live)
  {
    forall i | i in p && i.Ref? ensures i.digest in live {
      RefsOfMembers(p, i.digest);
      assert i.digest in Nested(store, d);
    }
  }

  // ---------- normalize ----------

  function Absorb(out: seq<Instr>, i: Instr): seq<Instr> {
    if i.Lit? && out != [] && out[|out| - 1].Lit? then
      out[..|out| - 1] + [Lit(out[|out| - 1].data + i.data)]
    else if i.Lit? && i.data == [] then out
    else out + [i]
  }

  function NormalizedFrom(out: seq<Instr>, instrs: seq<Instr>): seq<Instr>
    decreases |instrs|
  {
    if instrs == [] then out else NormalizedFrom(Absorb(out, instrs[0]), instrs[1..])
  }

  function Normalized(instrs: seq<Instr>): seq<Instr> { NormalizedFrom([], instrs) }

  method Normalize(instrs: seq<Instr>) returns (out: seq<Instr>)
    ensures out == Normalized(instrs)
  {
    out := [];
    for k := 0 to |instrs|
      invariant NormalizedFrom(out, instrs[k..]) == Normalized(instrs)
    {
      var i := instrs[k];
      assert instrs[k..][1..] == instrs[k + 1..];
      if i.Lit? && out != [] && out[|out| - 1].Lit? {
        var merged := out[|out| - 1].data + i.data;
        out := out[..|out| - 1] + [Lit(merged)];
      } else if i.Lit? {
        if i.data != [] {
          out := out + [i];
        }
      } else {
        out := out + [i];
      }
    }
  }

  // No empty literal, no two literals side by side.
  ghost predicate Canonical(instrs: seq<Instr>) {
    && (forall i :: i in instrs && i.Lit? ==> i.data != [])
    && (forall k :: 0 <= k < |instrs| - 1 ==> instrs[k].Ref? || instrs[k + 1].Ref?)
  }

  lemma {:induction false} NormalizedCanonical(out: seq<Instr>, instrs: seq<Instr>)
    requires Canonical(out)
    ensures Canonical(NormalizedFrom(out, instrs))
    decreases |instrs|
  {
    if instrs != [] {
      NormalizedCanonical(Absorb(out, instrs[0]), instrs[1..]);
    }
  }

  lemma {:induction false} CanonicalFixed(out: seq<Instr>, instrs: seq<Instr>)
    requires Canonical(out + instrs)
    ensures NormalizedFrom(out, instrs) == out + instrs
    decreases |instrs|
  {
    if instrs == [] {
      assert out + instrs == out;
    } else {
      assert (out + instrs)[|out|] == instrs[0];
      assert out != [] ==> (out + instrs)[|out| - 1] == out[|out| - 1];
      assert Absorb(out, instrs[0]) == out + [instrs[0]];
      assert out + [instrs[0]] + instrs[1..] == out + instrs;
      CanonicalFixed(out + [instrs[0]], instrs[1..]);
    }
  }

  // Programs that behave alike everywhere: on every source, under every limit,
  // from every cursor within the limit, the same result or the same first
  // error, whatever runs next.
  lemma {:induction false} ExpandConcat(src: Source, lim: Limits, a: seq<Instr>, b: seq<Instr>, depth: nat, c: Cursor)
    ensures ExpandAll(src, lim, a + b, depth, c) ==
            var r := ExpandAll(src, lim, a, depth, c);
            if r.Ok? then ExpandAll(src, lim, b, depth, r.value) else r
    decreases |a|
  {
    if a == [] {
      assert a + b == b;
    } else {
      assert (a + b)[1..] == a[1..] + b;
      var r := ExpandInstr(src, lim, a[0], depth, c);
      if r.Ok? {
        ExpandConcat(src, lim, a[1..], b, depth, r.value);
      }
    }
  }

  lemma ExpandOne(src: Source, lim: Limits, i: Instr, depth: nat, c: Cursor)
    ensures ExpandAll(src, lim, [i], depth, c) == ExpandInstr(src, lim, i, depth, c)
  {
    var r := ExpandInstr(src, lim, i, depth, c);
    if r.Ok? {
      assert ExpandAll(src, lim, [i][1..], depth, r.value) == Ok(r.value);
    }
  }

  lemma AbsorbExpands(src: Source, lim: Limits, out: seq<Instr>, i: Instr, depth: nat, c: Cursor)
    requires Resident(src) && lim.maxOut < ALLOC_LIMIT && |c.out| <= lim.maxOut
    ensures ExpandAll(src, lim, Absorb(out, i), depth, c) == ExpandAll(src, lim, out + [i], depth, c)
  {
    ExpandConcat(src, lim, out, [i], depth, c);
    ExpandBounded(src, lim, out, depth, c);
    if i.Lit? && out != [] && out[|out| - 1].Lit? {
      var init, last := out[..|out| - 1], out[|out| - 1];
      var r := ExpandAll(src, lim, init, depth, c);
      assert out == init + [last];
      ExpandConcat(src, lim, init, [last], depth, c);
      ExpandConcat(src, lim, init, [Lit(last.data + i.data)], depth, c);
      ExpandBounded(src, lim, init, depth, c);
      if r.Ok? {
        ExpandOne(src, lim, last, depth, r.value);
        ExpandOne(src, lim, Lit(last.data + i.data), depth, r.value);
        ExpandOne(src, lim, i, depth, r.value.(out := r.value.out + last.data));
        assert r.value.out + (last.data + i.data) == r.value.out + last.data + i.data;
      }
    } else if i.Lit? && i.data == [] {
      var r := ExpandAll(src, lim, out, depth, c);
      if r.Ok? {
        ExpandOne(src, lim, i, depth, r.value);
        assert r.value.out + i.data == r.value.out;
      }
    }
  }

  lemma {:induction false} NormalizedFromExpands(src: Source, lim: Limits, out: seq<Instr>, instrs: seq<Instr>,
                                                 depth: nat, c: Cursor)
    requires Resident(src) && lim.maxOut < ALLOC_LIMIT && |c.out| <= lim.maxOut
    ensures ExpandAll(src, lim, NormalizedFrom(out, instrs), depth, c) ==
            ExpandAll(src, lim, out + instrs, depth, c)
    decreases |instrs|
  {
    if instrs == [] {
      assert out + instrs == out;
    } else {
      var next := Absorb(out, instrs[0]);
      NormalizedFromExpands(src, lim, next, instrs[1..], depth, c);
      AbsorbExpands(src, lim, out, instrs[0], depth, c);
      ExpandConcat(src, lim, next, instrs[1..], depth, c);
      ExpandConcat(src, lim, out + [instrs[0]], instrs[1..], depth, c);
      assert out + [instrs[0]] + instrs[1..] == out + instrs;
    }
  }

  // Merging literals changes nothing anyone can observe, and is done once.
  lemma NormalizePreservesMeaning(src: Source, lim: Limits, instrs: seq<Instr>, depth: nat, c: Cursor)
    requires Resident(src) && lim.maxOut < ALLOC_LIMIT && |c.out| <= lim.maxOut
    ensures ExpandAll(src, lim, Normalized(instrs), depth, c) == ExpandAll(src, lim, instrs, depth, c)
    ensures Canonical(Normalized(instrs))
    ensures Normalized(Normalized(instrs)) == Normalized(instrs)
    ensures Canonical(instrs) ==> Normalized(instrs) == instrs
  {
    NormalizedFromExpands(src, lim, [], instrs, depth, c);
    assert [] + instrs == instrs;
    NormalizedCanonical([], instrs);
    var n := Normalized(instrs);
    assert [] + n == n;
    CanonicalFixed([], n);
    if Canonical(instrs) {
      CanonicalFixed([], instrs);
    }
  }

  // ---------- Sizes on the wire ----------

  const DIGEST_LEN := 16
  const REF_WIRE: nat := 1 + DIGEST_LEN + 3
  const LIT_HDR: nat := 1 + 3

  function InstrCost<D>(i: InstrOf<D>): nat {
    if i.Lit? then |i.data| + LIT_HDR else REF_WIRE
  }

  function ProgramWireCost<D>(instrs: seq<InstrOf<D>>): nat {
    if instrs == [] then 0 else InstrCost(instrs[0]) + ProgramWireCost(instrs[1..])
  }

  function WireCost<D>(b: BlockOf<D>): nat {
    match b.body
    case BytesBody(x) => |x|
    case ProgramBody(p) => ProgramWireCost(p)
  }

  // Literal bytes, reference count and reference bytes of a program.
  function LitBytes(instrs: seq<Instr>): nat {
    if instrs == [] then 0 else (if instrs[0].Lit? then |instrs[0].data| else 0) + LitBytes(instrs[1..])
  }

  lemma {:induction false} LitBytesConcat(a: seq<Instr>, b: seq<Instr>)
    ensures LitBytes(a + b) == LitBytes(a) + LitBytes(b)
  {
    if a == [] {
      assert a + b == b;
    } else {
      assert (a + b)[1..] == a[1..] + b;
      LitBytesConcat(a[1..], b);
    }
  }

  lemma {:induction false} LitBytesWithinCost(a: seq<Instr>)
    ensures LitBytes(a) <= ProgramWireCost(a)
  {
    if a != [] {
      LitBytesWithinCost(a[1..]);
    }
  }

  lemma MergeLits(init: seq<Instr>, x: Bytes, y: Bytes)
    ensures Flat(init + [Lit(x + y)]) == Flat(init + [Lit(x)] + [Lit(y)])
    ensures LitBytes(init + [Lit(x + y)]) == LitBytes(init + [Lit(x)] + [Lit(y)])
  {
    FlatConcat(init, [Lit(x + y)]);
    FlatConcat(init + [Lit(x)], [Lit(y)]);
    FlatConcat(init, [Lit(x)]);
    LitBytesConcat(init, [Lit(x + y)]);
    LitBytesConcat(init + [Lit(x)], [Lit(y)]);
    LitBytesConcat(init, [Lit(x)]);
    FlatLit(x);
    FlatLit(y);
    FlatLit(x + y);
    assert Flat(init) + (x + y) == Flat(init) + x + y;
  }

  lemma FlatLit(x: Bytes)
    ensures Flat([Lit(x)]) == x && LitBytes([Lit(x)]) == |x|
  {
    assert Flat([Lit(x)][1..]) == [];
  }

  lemma AbsorbDenotes(out: seq<Instr>, i: Instr)
    ensures Flat(Absorb(out, i)) == Flat(out + [i])
    ensures LitBytes(Absorb(out, i)) == LitBytes(out + [i])
    ensures forall j :: j in Absorb(out, i) && j.Ref? ==> j in out + [i]
  {
    if i.Lit? && out != [] && out[|out| - 1].Lit? {
      var init := out[..|out| - 1];
      assert out == init + [Lit(out[|out| - 1].data)];
      MergeLits(init, out[|out| - 1].data, i.data);
    } else if i == Lit([]) {
      FlatConcat(out, [i]);
      LitBytesConcat(out, [i]);
      FlatLit([]);
    }
  }

  // Merging literals keeps what the program denotes, byte by byte.
  lemma {:induction false} NormalizedFromDenotes(out: seq<Instr>, instrs: seq<Instr>)
    requires LensMatch(out + instrs)
    ensures Denotes(NormalizedFrom(out, instrs), Flat(out + instrs))
    ensures LitBytes(NormalizedFrom(out, instrs)) == LitBytes(out + instrs)
    ensures forall i :: i in NormalizedFrom(out, instrs) && i.Ref? ==> i in out + instrs
    decreases |instrs|
  {
    if instrs == [] {
      assert out + instrs == out;
    } else {
      var i, rest := instrs[0], instrs[1..];
      var next := Absorb(out, i);
      assert out + instrs == out + [i] + rest;
      assert forall j :: j in out + [i] ==> j in out + instrs;
      AbsorbDenotes(out, i);
      FlatConcat(out + [i], rest);
      FlatConcat(next, rest);
      LitBytesConcat(out + [i], rest);
      LitBytesConcat(next, rest);
      assert forall j: Instr :: j in next + rest && j.Ref? ==> j in out + instrs;
      NormalizedFromDenotes(next, rest);
    }
  }

  lemma NormalizedDenotes(instrs: seq<Instr>)
    requires LensMatch(instrs)
    ensures Denotes(Normalized(instrs), Flat(instrs))
    ensures LitBytes(Normalized(instrs)) == LitBytes(instrs)
    ensures forall i :: i in Normalized(instrs) && i.Ref? ==> i in instrs
  {
    assert [] + instrs == instrs;
    NormalizedFromDenotes([], instrs);
  }
}

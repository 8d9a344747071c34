// Expanding a block program: the recursive meaning, and the explicit-stack
// machine that computes it under size and depth limits.

module Resolve {
  import opened Results
  import opened Blocks

  datatype ResolveError =
    | Missing(digest: Digest)
    | TooDeep(maxDepth: nat)
    | TooLarge(maxOut: nat)
    | Corrupt

  // What the n-th lookup answers. Lookups are numbered because a shared store
  // may gain and lose blocks while one expansion is running.
  type Source = (nat, Digest) -> Option<Block>

  datatype Limits = Limits(maxOut: u64, maxDepth: u64)

  // Bytes produced so far, and lookups made so far.
  datatype Cursor = Cursor(out: Bytes, gets: nat)

  type Outcome = Result<Cursor, ResolveError>

  function Room(depth: nat, lim: Limits): nat {
    if depth > lim.maxDepth then 0 else lim.maxDepth - depth + 1
  }

  // ---------- The reference: recursive left-to-right expansion ----------

  function ExpandInstr(src: Source, lim: Limits, i: Instr, depth: nat, c: Cursor): Outcome
    decreases Room(depth, lim), 0
  {
    match i
    case Lit(b) =>
      if |c.out| + |b| > lim.maxOut then Err(TooLarge(lim.maxOut))
      else Ok(c.(out := c.out + b))
    case Ref(d, len) =>
      if depth > lim.maxDepth then Err(TooDeep(lim.maxDepth))
      else if (|c.out| + len) % TWO64 > lim.maxOut then Err(TooLarge(lim.maxOut))
      else match src(c.gets, d)
        case None => Err(Missing(d))
        case Some(block) =>
          if block.len != len then Err(Corrupt)
          else match block.body
            case BytesBody(b) =>
              if |b| != len then Err(Corrupt) else Ok(Cursor(c.out + b, c.gets + 1))
            case ProgramBody(p) =>
              if p == [] then Err(Corrupt)
              else ExpandAll(src, lim, p, depth + 1, c.(gets := c.gets + 1))
  }

  function ExpandAll(src: Source, lim: Limits, instrs: seq<Instr>, depth: nat, c: Cursor): Outcome
    decreases Room(depth, lim), 1 + |instrs|
  {
    if instrs == [] then Ok(c)
    else
      var next :- ExpandInstr(src, lim, instrs[0], depth, c);
      ExpandAll(src, lim, instrs[1..], depth, next)
  }

  function Expansion(src: Source, lim: Limits, instrs: seq<Instr>): Result<Bytes, ResolveError> {
    var c :- ExpandAll(src, lim, instrs, 1, Cursor([], 0));
    Ok(c.out)
  }

  // ---------- The machine: a stack whose top is its last element ----------

  datatype Task = Task(instr: Instr, depth: nat)

  // A program as it is pushed: first instruction on top.
  function Pushed(instrs: seq<Instr>, depth: nat): seq<Task> {
    if instrs == [] then [] else Pushed(instrs[1..], depth) + [Task(instrs[0], depth)]
  }

  ghost function ExpandStack(src: Source, lim: Limits, stack: seq<Task>, c: Cursor): Outcome {
    if stack == [] then Ok(c)
    else
      var top := stack[|stack| - 1];
      var next :- ExpandInstr(src, lim, top.instr, top.depth, c);
      ExpandStack(src, lim, stack[..|stack| - 1], next)
  }

  // How many pops the machine makes. Well defined because the expansion is:
  // the depth left bounds it on every source, cyclic ones included.
  ghost function Pops(src: Source, lim: Limits, i: Instr, depth: nat, c: Cursor): nat
    decreases Room(depth, lim), 0
  {
    1 + match i
        case Lit(_) => 0
        case Ref(d, len) =>
          if depth > lim.maxDepth || src(c.gets, d).None? then 0
          else match src(c.gets, d).value.body
            case BytesBody(_) => 0
            case ProgramBody(p) => PopsAll(src, lim, p, depth + 1, c.(gets := c.gets + 1))
  }

  ghost function PopsAll(src: Source, lim: Limits, instrs: seq<Instr>, depth: nat, c: Cursor): nat
    decreases Room(depth, lim), 1 + |instrs|
  {
    if instrs == [] then 0
    else Pops(src, lim, instrs[0], depth, c) +
         match ExpandInstr(src, lim, instrs[0], depth, c)
         case Ok(next) => PopsAll(src, lim, instrs[1..], depth, next)
         case Err(_) => 0
  }

  ghost function PopsStack(src: Source, lim: Limits, stack: seq<Task>, c: Cursor): nat {
    if stack == [] then 0
    else
      var top := stack[|stack| - 1];
      Pops(src, lim, top.instr, top.depth, c) +
      match ExpandInstr(src, lim, top.instr, top.depth, c)
      case Ok(next) => PopsStack(src, lim, stack[..|stack| - 1], next)
      case Err(_) => 0
  }

  // Going on with the stack `base` after `r`.
  ghost function Resume(src: Source, lim: Limits, base: seq<Task>, r: Outcome): Outcome {
    if r.Ok? then ExpandStack(src, lim, base, r.value) else r
  }

  ghost function PopsAfter(src: Source, lim: Limits, base: seq<Task>, r: Outcome): nat {
    if r.Ok? then PopsStack(src, lim, base, r.value) else 0
  }

  // Pushing a program on the stack and running on is expanding it first.
  lemma {:induction false} PushExpands(src: Source, lim: Limits, base: seq<Task>, p: seq<Instr>,
                                       depth: nat, c: Cursor)
    ensures ExpandStack(src, lim, base + Pushed(p, depth), c) ==
            Resume(src, lim, base, ExpandAll(src, lim, p, depth, c))
    ensures PopsStack(src, lim, base + Pushed(p, depth), c) ==
            PopsAll(src, lim, p, depth, c) +
            PopsAfter(src, lim, base, ExpandAll(src, lim, p, depth, c))
    decreases |p|
  {
    var stack := base + Pushed(p, depth);
    if p == [] {
      assert stack == base;
    } else {
      var top := Task(p[0], depth);
      assert stack[|stack| - 1] == top;
      assert stack[..|stack| - 1] == base + Pushed(p[1..], depth);
      var r := ExpandInstr(src, lim, p[0], depth, c);
      if r.Ok? {
        PushExpands(src, lim, base, p[1..], depth, r.value);
      }
    }
  }

  // Popping an instruction goes on with its own outcome.
  lemma PopExpands(src: Source, lim: Limits, base: seq<Task>, top: Task, c: Cursor)
    ensures ExpandStack(src, lim, base + [top], c) ==
            Resume(src, lim, base, ExpandInstr(src, lim, top.instr, top.depth, c))
    ensures PopsStack(src, lim, base + [top], c) ==
            Pops(src, lim, top.instr, top.depth, c) +
            PopsAfter(src, lim, base, ExpandInstr(src, lim, top.instr, top.depth, c))
    ensures Pops(src, lim, top.instr, top.depth, c) > 0
  {
    var stack := base + [top];
    assert stack[|stack| - 1] == top && stack[..|stack| - 1] == base;
  }

  predicate FindsProgram(src: Source, lim: Limits, d: Digest, len: u64, depth: nat, c: Cursor, p: seq<Instr>) {
    && depth <= lim.maxDepth && (|c.out| + len) % TWO64 <= lim.maxOut && p != []
    && src(c.gets, d).Some? && src(c.gets, d).value.len == len
    && src(c.gets, d).value.body == ProgramBody(p)
  }

  lemma RefExpands(src: Source, lim: Limits, d: Digest, len: u64, depth: nat, c: Cursor, p: seq<Instr>)
    requires FindsProgram(src, lim, d, len, depth, c, p)
    ensures var next := c.(gets := c.gets + 1);
            && ExpandInstr(src, lim, Ref(d, len), depth, c) == ExpandAll(src, lim, p, depth + 1, next)
            && Pops(src, lim, Ref(d, len), depth, c) == 1 + PopsAll(src, lim, p, depth + 1, next)
  {
  }

  // Popping a reference to a program block is replacing it by that program.
  lemma PopProgram(src: Source, lim: Limits, base: seq<Task>, d: Digest, len: u64, depth: nat, c: Cursor,
                   p: seq<Instr>)
    requires FindsProgram(src, lim, d, len, depth, c, p)
    ensures var stack := base + [Task(Ref(d, len), depth)];
            var pushed := base + Pushed(p, depth + 1);
            var next := c.(gets := c.gets + 1);
            && ExpandStack(src, lim, stack, c) == ExpandStack(src, lim, pushed, next)
            && PopsStack(src, lim, stack, c) > PopsStack(src, lim, pushed, next)
  {
    PopExpands(src, lim, base, Task(Ref(d, len), depth), c);
    RefExpands(src, lim, d, len, depth, c, p);
    PushExpands(src, lim, base, p, depth + 1, c.(gets := c.gets + 1));
  }

  method PushProgram(base: seq<Task>, p: seq<Instr>, depth: nat) returns (stack: seq<Task>)
    ensures stack == base + Pushed(p, depth)
  {
    stack := base;
    var k := |p|;
    while k > 0
      invariant 0 <= k <= |p|
      invariant stack == base + Pushed(p[k..], depth)
    {
      k := k - 1;
      assert p[k..][1..] == p[k + 1..];
      stack := stack + [Task(p[k], depth)];
    }
    assert p[0..] == p;
  }

  // The checks on one reference, and the body behind it.
  method Fetch(src: Source, lim: Limits, d: Digest, len: u64, depth: nat, c: Cursor)
    returns (r: Result<Body, ResolveError>)
    ensures r.Err? ==> ExpandInstr(src, lim, Ref(d, len), depth, c) == Err(r.error)
    ensures r.Ok? && r.value.BytesBody? ==>
              ExpandInstr(src, lim, Ref(d, len), depth, c) == Ok(Cursor(c.out + r.value.data, c.gets + 1))
    ensures r.Ok? && r.value.ProgramBody? ==> FindsProgram(src, lim, d, len, depth, c, r.value.instrs)
  {
    if depth > lim.maxDepth {
      return Err(TooDeep(lim.maxDepth));
    }
    if (|c.out| + len) % TWO64 > lim.maxOut {
      return Err(TooLarge(lim.maxOut));
    }
    var found := src(c.gets, d);
    if found.None? {
      return Err(Missing(d));
    }
    var block := found.value;
    if block.len != len {
      return Err(Corrupt);
    }
    match block.body {
      case BytesBody(b) =>
        if |b| != len {
          return Err(Corrupt);
        }
      case ProgramBody(p) =>
        if p == [] {
          return Err(Corrupt);
        }
    }
    return Ok(block.body);
  }

  method Run(src: Source, lim: Limits, instrs: seq<Instr>) returns (r: Result<Bytes, ResolveError>)
    ensures r == Expansion(src, lim, instrs)
  {
    var c := Cursor([], 0);
    var stack := Pushed(instrs, 1);
    PushExpands(src, lim, [], instrs, 1, c);
    assert [] + Pushed(instrs, 1) == stack;
    ghost var goal := ExpandAll(src, lim, instrs, 1, c);
    while stack != []
      invariant goal == ExpandStack(src, lim, stack, c)
      decreases PopsStack(src, lim, stack, c)
    {
      var Task(instr, depth) := stack[|stack| - 1];
      var base := stack[..|stack| - 1];
      assert stack == base + [Task(instr, depth)];
      PopExpands(src, lim, base, Task(instr, depth), c);
      match instr {
        case Lit(b) =>
          if |c.out| + |b| > lim.maxOut {
            return Err(TooLarge(lim.maxOut));
          }
          c := c.(out := c.out + b);
          stack := base;
        case Ref(d, len) =>
          var found := Fetch(src, lim, d, len, depth, c);
          if found.Err? {
            return Err(found.error);
          }
          match found.value {
            case BytesBody(b) =>
              c := Cursor(c.out + b, c.gets + 1);
              stack := base;
            case ProgramBody(p) =>
              PopProgram(src, lim, base, d, len, depth, c, p);
              c := c.(gets := c.gets + 1);
              stack := PushProgram(base, p, depth + 1);
          }
      }
    }
    return Ok(c.out);
  }

  // ---------- What expansion guarantees ----------

  // Every byte string handed out fits in memory.
  ghost predicate Resident(src: Source) {
    forall n, d :: src(n, d).Some? && src(n, d).value.body.BytesBody? ==>
                     |src(n, d).value.body.data| < ALLOC_LIMIT
  }

  // Every block handed out once passed the check made on insertion. Nothing is
  // said about what a program block really expands to.
  ghost predicate AllVerify(src: Source) {
    forall n, d :: src(n, d).Some? ==> src(n, d).value.digest == d && Verifies(src(n, d).value)
  }

  ghost predicate Sound(src: Source) {
    forall n, d :: src(n, d).Some? ==> StandsFor(src(n, d).value, d)
  }

  // Nesting follows a ranking of the digests, so it has no cycles.
  ghost predicate Ranked(src: Source, rank: Digest -> nat) {
    forall n, d :: src(n, d).Some? && src(n, d).value.body.ProgramBody? ==>
                     RanksUnder(src(n, d).value.body.instrs, rank, rank(d))
  }

  ghost predicate RanksUnder(instrs: seq<Instr>, rank: Digest -> nat, bound: int) {
    forall i :: i in instrs && i.Ref? ==> rank(i.digest) < bound
  }

  // Output only ever grows, and never past the limit, on every source.
  lemma {:induction false} ExpandBounded(src: Source, lim: Limits, instrs: seq<Instr>, depth: nat, c: Cursor)
    requires Resident(src) && lim.maxOut < ALLOC_LIMIT && |c.out| <= lim.maxOut
    ensures var r := ExpandAll(src, lim, instrs, depth, c);
            r.Ok? ==> c.out <= r.value.out && |r.value.out| <= lim.maxOut && c.gets <= r.value.gets
    decreases Room(depth, lim), 1 + |instrs|
  {
    if instrs != [] {
      InstrBounded(src, lim, instrs[0], depth, c);
      var r := ExpandInstr(src, lim, instrs[0], depth, c);
      if r.Ok? {
        ExpandBounded(src, lim, instrs[1..], depth, r.value);
      }
    }
  }

  lemma {:induction false} InstrBounded(src: Source, lim: Limits, i: Instr, depth: nat, c: Cursor)
    requires Resident(src) && lim.maxOut < ALLOC_LIMIT && |c.out| <= lim.maxOut
    ensures var r := ExpandInstr(src, lim, i, depth, c);
            r.Ok? ==> c.out <= r.value.out && |r.value.out| <= lim.maxOut && c.gets <= r.value.gets
    decreases Room(depth, lim), 0
  {
    if i.Ref? && depth <= lim.maxDepth && src(c.gets, i.digest).Some? {
      var block := src(c.gets, i.digest).value;
      if block.body.ProgramBody? {
        ExpandBounded(src, lim, block.body.instrs, depth + 1, c.(gets := c.gets + 1));
      }
    }
  }

  // On any source whose blocks passed the insertion check, even one whose
  // programs stand for the wrong bytes, success has the declared length.
  lemma {:induction false} ExpandLength(src: Source, lim: Limits, instrs: seq<Instr>, depth: nat, c: Cursor)
    requires Resident(src) && AllVerify(src) && lim.maxOut < ALLOC_LIMIT && |c.out| <= lim.maxOut
    ensures var r := ExpandAll(src, lim, instrs, depth, c);
            r.Ok? ==> |r.value.out| == |c.out| + SumLen(instrs)
    decreases Room(depth, lim), 1 + |instrs|
  {
    if instrs != [] {
      InstrLength(src, lim, instrs[0], depth, c);
      InstrBounded(src, lim, instrs[0], depth, c);
      var r := ExpandInstr(src, lim, instrs[0], depth, c);
      if r.Ok? {
        ExpandLength(src, lim, instrs[1..], depth, r.value);
      }
    }
  }

  lemma {:induction false} InstrLength(src: Source, lim: Limits, i: Instr, depth: nat, c: Cursor)
    requires Resident(src) && AllVerify(src) && lim.maxOut < ALLOC_LIMIT && |c.out| <= lim.maxOut
    ensures var r := ExpandInstr(src, lim, i, depth, c);
            r.Ok? ==> |r.value.out| == |c.out| + OutLen(i)
    decreases Room(depth, lim), 0
  {
    var r := ExpandInstr(src, lim, i, depth, c);
    if r.Ok? && i.Ref? {
      var block := src(c.gets, i.digest).value;
      if block.body.ProgramBody? {
        var p := block.body.instrs;
        var c' := c.(gets := c.gets + 1);
        ExpandBounded(src, lim, p, depth + 1, c');
        ExpandLength(src, lim, p, depth + 1, c');
        TotalLenWraps(p);
      }
    }
  }

  lemma ExactLength(src: Source, lim: Limits, instrs: seq<Instr>)
    requires Resident(src) && AllVerify(src) && lim.maxOut < ALLOC_LIMIT
    ensures var r := Expansion(src, lim, instrs);
            r.Ok? ==> |r.value| == SumLen(instrs) == TotalLen(instrs) && |r.value| <= lim.maxOut
  {
    var c := Cursor([], 0);
    ExpandBounded(src, lim, instrs, 1, c);
    ExpandLength(src, lim, instrs, 1, c);
    TotalLenWraps(instrs);
  }

  // On sound sources a program with room for its meaning yields exactly that
  // meaning, or stops at an absent block, or at the depth limit: nothing else.
  ghost predicate ExactOrStopped(src: Source, lim: Limits, c: Cursor, meaning: Bytes, r: Outcome) {
    match r
    case Ok(q) => q.out == c.out + meaning && c.gets <= q.gets
    case Err(Missing(d)) => exists n: nat :: src(n, d).None?
    case Err(e) => e == TooDeep(lim.maxDepth)
  }

  lemma {:induction false} ExpandSound(src: Source, lim: Limits, instrs: seq<Instr>, depth: nat, c: Cursor)
    requires Sound(src) && LensMatch(instrs)
    requires |c.out| + |Flat(instrs)| <= lim.maxOut
    ensures ExactOrStopped(src, lim, c, Flat(instrs), ExpandAll(src, lim, instrs, depth, c))
    decreases Room(depth, lim), 1 + |instrs|
  {
    if instrs != [] {
      InstrSound(src, lim, instrs[0], depth, c);
      var r := ExpandInstr(src, lim, instrs[0], depth, c);
      if r.Ok? {
        assert forall i :: i in instrs[1..] ==> i in instrs;
        ExpandSound(src, lim, instrs[1..], depth, r.value);
        assert c.out + Meaning(instrs[0]) + Flat(instrs[1..]) == c.out + (Meaning(instrs[0]) + Flat(instrs[1..]));
      }
    }
  }

  lemma {:induction false} InstrSound(src: Source, lim: Limits, i: Instr, depth: nat, c: Cursor)
    requires Sound(src) && LensMatch([i])
    requires |c.out| + |Meaning(i)| <= lim.maxOut
    ensures ExactOrStopped(src, lim, c, Meaning(i), ExpandInstr(src, lim, i, depth, c))
    decreases Room(depth, lim), 0
  {
    if i.Ref? {
      assert i in [i];
      var found := src(c.gets, i.digest);
      if depth <= lim.maxDepth && found.Some? && found.value.body.ProgramBody? {
        ExpandSound(src, lim, found.value.body.instrs, depth + 1, c.(gets := c.gets + 1));
      }
    }
  }

  // Under a ranking that fits the depth limit, the limit is never what stops it.
  lemma {:induction false} ExpandNotTooDeep(src: Source, lim: Limits, instrs: seq<Instr>, depth: nat, c: Cursor,
                                            rank: Digest -> nat)
    requires Ranked(src, rank) && RanksUnder(instrs, rank, lim.maxDepth + 1 - depth)
    ensures ExpandAll(src, lim, instrs, depth, c) != Err(TooDeep(lim.maxDepth))
    decreases Room(depth, lim), 1 + |instrs|
  {
    if instrs != [] {
      var i := instrs[0];
      if i.Ref? && depth <= lim.maxDepth {
        var found := src(c.gets, i.digest);
        if found.Some? && found.value.body.ProgramBody? {
          ExpandNotTooDeep(src, lim, found.value.body.instrs, depth + 1, c.(gets := c.gets + 1), rank);
        }
      }
      var r := ExpandInstr(src, lim, i, depth, c);
      if r.Ok? {
        ExpandNotTooDeep(src, lim, instrs[1..], depth, r.value, rank);
      }
    }
  }

  // A source nothing changes while it is read.
  ghost predicate Stable(src: Source) {
    forall n, d :: src(n, d) == src(0, d)
  }

  // No chain of references through program blocks is longer than `room`.
  ghost predicate DepthWithin(src: Source, instrs: seq<Instr>, room: nat)
    decreases room
  {
    forall i :: i in instrs && i.Ref? ==>
      room > 0 && (Program(src(0, i.digest)).Some? ==>
                     DepthWithin(src, Program(src(0, i.digest)).value, room - 1))
  }

  function Program(found: Option<Block>): Option<seq<Instr>> {
    if found.Some? && found.value.body.ProgramBody? then Some(found.value.body.instrs) else None
  }

  // What expands at all nests no deeper than there is room.
  lemma {:induction false} OkIsWithin(src: Source, lim: Limits, instrs: seq<Instr>, depth: nat, c: Cursor)
    requires Stable(src) && ExpandAll(src, lim, instrs, depth, c).Ok?
    ensures DepthWithin(src, instrs, Room(depth, lim))
    decreases Room(depth, lim), 1 + |instrs|
  {
    if instrs != [] {
      var i := instrs[0];
      var r := ExpandInstr(src, lim, i, depth, c);
      assert instrs == [i] + instrs[1..];
      OkIsWithin(src, lim, instrs[1..], depth, r.value);
      if i.Ref? {
        assert src(c.gets, i.digest) == src(0, i.digest);
        if src(0, i.digest).value.body.ProgramBody? {
          OkIsWithin(src, lim, src(0, i.digest).value.body.instrs, depth + 1, c.(gets := c.gets + 1));
        }
      }
    }
  }

  // And what nests no deeper never stops at the depth limit.
  lemma {:induction false} WithinIsNotTooDeep(src: Source, lim: Limits, instrs: seq<Instr>, depth: nat, c: Cursor)
    requires Stable(src) && DepthWithin(src, instrs, Room(depth, lim))
    ensures ExpandAll(src, lim, instrs, depth, c) != Err(TooDeep(lim.maxDepth))
    decreases Room(depth, lim), 1 + |instrs|
  {
    if instrs != [] {
      var i := instrs[0];
      assert i in instrs && forall j :: j in instrs[1..] ==> j in instrs;
      if i.Ref? {
        assert src(c.gets, i.digest) == src(0, i.digest);
        if depth <= lim.maxDepth && Program(src(0, i.digest)).Some? {
          WithinIsNotTooDeep(src, lim, src(0, i.digest).value.body.instrs, depth + 1, c.(gets := c.gets + 1));
        }
      }
      var r := ExpandInstr(src, lim, i, depth, c);
      if r.Ok? {
        WithinIsNotTooDeep(src, lim, instrs[1..], depth, r.value);
      }
    }
  }

  // A set of digests that the source always has, together with all they nest.
  ghost predicate Available(src: Source, live: set<Digest>) {
    forall n, d :: d in live ==>
      src(n, d).Some? &&
      (src(n, d).value.body.ProgramBody? ==> RefsIn(src(n, d).value.body.instrs, live))
  }

  predicate RefsIn(instrs: seq<Instr>, live: set<Digest>) {
    forall i :: i in instrs && i.Ref? ==> i.digest in live
  }

  lemma {:induction false} ExpandNotMissing(src: Source, lim: Limits, instrs: seq<Instr>, depth: nat, c: Cursor,
                                            live: set<Digest>)
    requires Available(src, live) && RefsIn(instrs, live)
    ensures var r := ExpandAll(src, lim, instrs, depth, c);
            r.Err? ==> !r.error.Missing?
    decreases Room(depth, lim), 1 + |instrs|
  {
    if instrs != [] {
      var i := instrs[0];
      if i.Ref? && depth <= lim.maxDepth {
        var found := src(c.gets, i.digest);
        assert i.digest in live;
        if found.value.body.ProgramBody? {
          ExpandNotMissing(src, lim, found.value.body.instrs, depth + 1, c.(gets := c.gets + 1), live);
        }
      }
      var r := ExpandInstr(src, lim, i, depth, c);
      if r.Ok? {
        ExpandNotMissing(src, lim, instrs[1..], depth, r.value, live);
      }
    }
  }

  // Blocks come and go between lookups, but every one handed out is honest:
  // the result is the exact bytes or a block that really was absent.
  lemma HonestExpansion(src: Source, lim: Limits, instrs: seq<Instr>, body: Bytes)
    requires forall n, d :: src(n, d).Some? ==> src(n, d).value.digest == d && Honest(src(n, d).value)
    requires Denotes(instrs, body) && |body| <= lim.maxOut && lim.maxDepth >= 2
    ensures var r := Expansion(src, lim, instrs);
            || r == Ok(body)
            || (r.Err? && r.error.Missing? && exists n: nat :: src(n, r.error.digest).None?)
  {
    var c := Cursor([], 0);
    ExpandSound(src, lim, instrs, 1, c);
    ExpandNotTooDeep(src, lim, instrs, 1, c, Level);
    assert [] + body == body;
  }

  // With everything reachable in place as well, the result is the exact bytes.
  lemma CompleteExpansion(src: Source, lim: Limits, instrs: seq<Instr>, body: Bytes, live: set<Digest>)
    requires forall n, d :: src(n, d).Some? ==> src(n, d).value.digest == d && Honest(src(n, d).value)
    requires Denotes(instrs, body) && |body| <= lim.maxOut && lim.maxDepth >= 2
    requires Available(src, live) && RefsIn(instrs, live)
    ensures Expansion(src, lim, instrs) == Ok(body)
  {
    HonestExpansion(src, lim, instrs, body);
    ExpandNotMissing(src, lim, instrs, 1, Cursor([], 0), live);
  }
}

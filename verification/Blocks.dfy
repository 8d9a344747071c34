// The block-program data model: instructions, blocks, and what they denote.

module Results {
  datatype Option<+T> = None | Some(value: T)

  datatype Result<+T, +E> = Ok(value: T) | Err(error: E) {
    predicate IsFailure() { Err? }
    function PropagateFailure<U>(): Result<U, E>
      requires Err?
    {
      Err(error)
    }
    function Extract(): T
      requires Ok?
    {
      value
    }
  }
}

module Blocks {
  const TWO64: int := 0x1_0000_0000_0000_0000
  // No allocation exceeds isize::MAX bytes.
  const ALLOC_LIMIT: int := 0x8000_0000_0000_0000

  type Byte = x: int | 0 <= x < 256
  type Bytes = seq<Byte>
  type u64 = x: int | 0 <= x < 0x1_0000_0000_0000_0000

  datatype BlockKind = Raw | JsonMember | Media | Chunk | Text

  // A digest stands for the role and the exact bytes it was computed from;
  // being a datatype value, it is injective in both.
  datatype Digest = Digest(kind: BlockKind, data: Bytes)

  // Generic in the digest, so that the wire codec can be stated over the
  // sixteen bytes that travel and everything else over what they stand for.
  datatype InstrOf<+D> = Lit(data: Bytes) | Ref(digest: D, len: u64)
  datatype BodyOf<+D> = BytesBody(data: Bytes) | ProgramBody(instrs: seq<InstrOf<D>>)
  datatype BlockOf<+D> = Block(digest: D, kind: BlockKind, len: u64, body: BodyOf<D>)

  type Instr = InstrOf<Digest>
  type Body = BodyOf<Digest>
  type Block = BlockOf<Digest>

  // The block of some bytes under their own digest.
  function BytesBlock(kind: BlockKind, data: Bytes): Block
    requires |data| < ALLOC_LIMIT
  {
    Block(Digest(kind, data), kind, |data|, BytesBody(data))
  }

  function OutLen<D>(i: InstrOf<D>): nat {
    match i
    case Lit(b) => |b|
    case Ref(_, len) => len
  }

  // The u64 sum of the declared lengths: it wraps.
  function TotalLen<D>(instrs: seq<InstrOf<D>>): u64 {
    if instrs == [] then 0 else (OutLen(instrs[0]) + TotalLen(instrs[1..])) % TWO64
  }

  // The same sum without wrap-around.
  function SumLen<D>(instrs: seq<InstrOf<D>>): nat {
    if instrs == [] then 0 else OutLen(instrs[0]) + SumLen(instrs[1..])
  }

  lemma {:induction false} TotalLenWraps<D>(instrs: seq<InstrOf<D>>)
    ensures TotalLen(instrs) == SumLen(instrs) % TWO64
  {
    if instrs != [] {
      TotalLenWraps(instrs[1..]);
    }
  }

  // What the store can check about a block before it keeps it: bytes hash to
  // the digest, a program only has the right declared size.
  predicate Verifies(b: Block) {
    match b.body
    case BytesBody(x) => Digest(b.kind, x) == b.digest && |x| == b.len
    case ProgramBody(p) => TotalLen(p) == b.len
  }

  // The bytes an instruction stands for, by content rather than by store.
  function Meaning(i: Instr): Bytes {
    match i
    case Lit(b) => b
    case Ref(d, _) => d.data
  }

  function Flat(instrs: seq<Instr>): Bytes {
    if instrs == [] then [] else Meaning(instrs[0]) + Flat(instrs[1..])
  }

  // The declared length of a reference is the length of what it stands for.
  predicate LensMatch(instrs: seq<Instr>) {
    forall i :: i in instrs && i.Ref? ==> i.len == |i.digest.data|
  }

  // `instrs` is a program for exactly the bytes `data`.
  predicate Denotes(instrs: seq<Instr>, data: Bytes) {
    LensMatch(instrs) && Flat(instrs) == data
  }

  // A block that, handed out for digest `d`, stands for exactly the bytes of `d`.
  predicate StandsFor(b: Block, d: Digest) {
    && b.len == |d.data|
    && match b.body
       case BytesBody(x) => x == d.data
       case ProgramBody(p) => p != [] && Denotes(p, d.data)
  }

  // Only whole JSON values are stored as programs, and only over payloads.
  function Level(d: Digest): nat {
    if d.kind == JsonMember then 1 else 0
  }

  predicate RefsBelow(instrs: seq<Instr>, level: nat) {
    forall i :: i in instrs && i.Ref? ==> Level(i.digest) < level
  }

  // A block under its own digest, standing for its bytes, whatever it nests.
  predicate Denoting(b: Block) {
    b.digest.kind == b.kind && StandsFor(b, b.digest)
  }

  // What an honest end makes: such a block, nesting only payloads.
  predicate Honest(b: Block) {
    && Denoting(b)
    && (b.body.ProgramBody? ==> RefsBelow(b.body.instrs, Level(b.digest)))
  }

  lemma {:induction false} FlatConcat(a: seq<Instr>, b: seq<Instr>)
    ensures Flat(a + b) == Flat(a) + Flat(b)
  {
    if a == [] {
      assert a + b == b;
    } else {
      assert (a + b)[1..] == a[1..] + b;
      FlatConcat(a[1..], b);
      assert Meaning(a[0]) + (Flat(a[1..]) + Flat(b)) == Meaning(a[0]) + Flat(a[1..]) + Flat(b);
    }
  }

  lemma {:induction false} FlatLength(instrs: seq<Instr>)
    requires LensMatch(instrs)
    ensures |Flat(instrs)| == SumLen(instrs)
  {
    if instrs != [] {
      assert forall i :: i in instrs[1..] ==> i in instrs;
      FlatLength(instrs[1..]);
    }
  }

  lemma DenotesConcat(a: seq<Instr>, x: Bytes, b: seq<Instr>, y: Bytes)
    requires Denotes(a, x) && Denotes(b, y)
    ensures Denotes(a + b, x + y)
  {
    FlatConcat(a, b);
  }

  // Whatever stands for its digest passes the check a store makes on insertion.
  lemma DenotingVerifies(b: Block)
    requires Denoting(b)
    ensures Verifies(b)
  {
    match b.body
    case BytesBody(x) =>
    case ProgramBody(p) =>
      FlatLength(p);
      TotalLenWraps(p);
  }
}

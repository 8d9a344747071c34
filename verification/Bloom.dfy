// The membership snapshot a peer sends with every response, and the view the
// sender keeps of what the peer holds.

module Blooms {
  import opened Results
  import opened Blocks
  import Varints
  import Chunking

  const MAX_BITS: nat := 0x400_0000

  // Two words of a hash of the digest; nothing is assumed about them.
  type Hasher = Digest -> (u64, u64)

  datatype Filter = Filter(mBits: nat, k: nat, words: seq<u64>)

  // ---------- Bits of a word ----------

  predicate Bit(w: nat, j: nat)
    decreases j
  {
    if j == 0 then w % 2 == 1 else Bit(w / 2, j - 1)
  }

  // The word with bit j set as well.
  function WithBit(w: nat, j: nat): nat
    decreases j
  {
    if j == 0 then (if w % 2 == 1 then w else w + 1) else w % 2 + 2 * WithBit(w / 2, j - 1)
  }

  lemma {:induction false} WithBitSets(w: nat, j: nat, i: nat)
    ensures Bit(WithBit(w, j), i) <==> i == j || Bit(w, i)
    decreases j
  {
    if j > 0 && i > 0 {
      WithBitSets(w / 2, j - 1, i - 1);
    }
  }

  lemma {:induction false} WithBitFits(w: nat, j: nat, n: nat)
    requires j < n && w < Chunking.Pow2(n)
    ensures WithBit(w, j) < Chunking.Pow2(n)
    decreases n
  {
    var p := Chunking.Pow2(n - 1);
    assert Chunking.Pow2(n) == 2 * p;
    hide Chunking.Pow2;
    if j > 0 {
      WithBitFits(w / 2, j - 1, n - 1);
      assert WithBit(w, j) == w % 2 + 2 * WithBit(w / 2, j - 1);
    } else {
      assert WithBit(w, 0) == if w % 2 == 1 then w else w + 1;
    }
  }

  function OrBit(w: u64, j: nat): u64
    requires j < 64
  {
    Chunking.Pow2Is64();
    WithBitFits(w, j, 64);
    WithBit(w, j)
  }

  // ---------- The filter ----------

  // As many words as the bits need.
  predicate Shaped(f: Filter) {
    f.mBits % 64 == 0 && |f.words| == f.mBits / 64
  }

  // And at least one.
  predicate Sized(f: Filter) {
    f.mBits > 0 && Shaped(f)
  }

  // No index is ever computed modulo zero.
  predicate Askable(f: Filter) {
    Shaped(f) && (f.mBits > 0 || f.k == 0)
  }

  // The i-th of a digest's bits, in wrapping 64-bit arithmetic.
  function Index(hash: Hasher, f: Filter, d: Digest, i: nat): (n: nat)
    requires f.mBits > 0
    ensures n < f.mBits
  {
    var (a, c) := hash(d);
    ((a + (c * (i + 1)) % TWO64) % TWO64) % f.mBits
  }

  // Every index is in range: its word is there, and its bit is one of 64.
  lemma IndexInRange(hash: Hasher, f: Filter, d: Digest, i: nat)
    requires Sized(f)
    ensures Index(hash, f, d, i) / 64 < |f.words| && Index(hash, f, d, i) % 64 < 64
  {
    InRange(Index(hash, f, d, i), f.mBits, |f.words|);
  }

  lemma InRange(n: nat, bits: nat, words: nat)
    requires n < bits && bits % 64 == 0 && words == bits / 64
    ensures n / 64 < words
  {
  }

  function SetAt(f: Filter, n: nat): Filter
    requires Sized(f) && n < f.mBits
  {
    InRange(n, f.mBits, |f.words|);
    f.(words := f.words[n / 64 := OrBit(f.words[n / 64], n % 64)])
  }

  predicate IsSet(f: Filter, n: nat)
    requires Sized(f) && n < f.mBits
  {
    InRange(n, f.mBits, |f.words|);
    Bit(f.words[n / 64], n % 64)
  }

  function AddFrom(hash: Hasher, f: Filter, d: Digest, i: nat): (r: Filter)
    requires Sized(f)
    ensures Sized(r) && r.mBits == f.mBits && r.k == f.k
    decreases if i < f.k then f.k - i else 0
  {
    if i >= f.k then f else AddFrom(hash, SetAt(f, Index(hash, f, d, i)), d, i + 1)
  }

  function Added(hash: Hasher, f: Filter, d: Digest): Filter
    requires Sized(f)
  {
    AddFrom(hash, f, d, 0)
  }

  ghost predicate Has(hash: Hasher, f: Filter, d: Digest)
    requires Askable(f)
  {
    forall i :: 0 <= i < f.k ==> IsSet(f, Index(hash, f, d, i))
  }

  // Setting a bit sets that bit and no other.
  lemma SetAtSets(f: Filter, n: nat, m: nat)
    requires Sized(f) && n < f.mBits && m < f.mBits
    ensures Sized(SetAt(f, n)) && (IsSet(SetAt(f, n), m) <==> m == n || IsSet(f, m))
  {
    InRange(n, f.mBits, |f.words|);
    InRange(m, f.mBits, |f.words|);
    if m / 64 == n / 64 {
      WithBitSets(f.words[n / 64], n % 64, m % 64);
    }
  }

  // Adding a digest sets its bits, clears none, and sets no bit of its own choosing.
  lemma {:induction false} AddFromSets(hash: Hasher, f: Filter, d: Digest, i: nat, m: nat)
    requires Sized(f) && m < f.mBits
    ensures IsSet(AddFrom(hash, f, d, i), m) <==>
            IsSet(f, m) || exists j :: i <= j < f.k && Index(hash, f, d, j) == m
    decreases if i < f.k then f.k - i else 0
  {
    if i < f.k {
      var n := Index(hash, f, d, i);
      SetAtSets(f, n, m);
      var g := SetAt(f, n);
      AddFromSets(hash, g, d, i + 1, m);
      assert forall j :: Index(hash, g, d, j) == Index(hash, f, d, j);
    }
  }

  // What was added is found, and whatever was found stays found.
  lemma AddedIsFound(hash: Hasher, f: Filter, d: Digest, e: Digest)
    requires Sized(f)
    ensures Has(hash, Added(hash, f, d), d)
    ensures Has(hash, f, e) ==> Has(hash, Added(hash, f, d), e)
  {
    var g := Added(hash, f, d);
    forall x, i | (x == d || (x == e && Has(hash, f, e))) && 0 <= i < f.k ensures IsSet(g, Index(hash, g, x, i)) {
      var m := Index(hash, f, x, i);
      assert Index(hash, g, x, i) == m;
      AddFromSets(hash, f, d, 0, m);
    }
  }

  // ---------- Making one ----------

  function NextPow2From(p: nat, n: nat): nat
    requires p > 0
    decreases if p < n then n - p else 0
  {
    if p >= n then p else NextPow2From(2 * p, n)
  }

  function NextPow2(n: nat): nat { NextPow2From(1, n) }

  function Bits(capacity: nat): nat { NextPow2((if capacity > 64 then capacity else 64) * 10) }

  function Clamp(k: nat): nat { if k < 1 then 1 else if k > 12 then 12 else k }

  function Empty(capacity: nat, k: nat): Filter {
    Filter(Bits(capacity), Clamp(k), seq(Bits(capacity) / 64, i => 0))
  }

  lemma {:induction false} NextPow2Above(p: nat, n: nat)
    requires p > 0
    ensures NextPow2From(p, n) >= n && NextPow2From(p, n) >= p
    ensures p % 64 == 0 ==> NextPow2From(p, n) % 64 == 0
    decreases if p < n then n - p else 0
  {
    if p < n {
      NextPow2Above(2 * p, n);
    }
  }

  lemma {:induction false} NextPow2Within(j: nat, n: nat, m: nat)
    requires j <= m
    ensures NextPow2From(Chunking.Pow2(j), n) <= Chunking.Pow2(m) <==> n <= Chunking.Pow2(m)
    decreases m - j
  {
    var p := Chunking.Pow2(j);
    NextPow2Above(p, n);
    if p < n {
      if j == m {
        NextPow2Above(2 * p, n);
      } else {
        assert 2 * p == Chunking.Pow2(j + 1);
        NextPow2Within(j + 1, n, m);
      }
    } else {
      Pow2Grows(j, m);
    }
  }

  lemma {:induction false} Pow2Grows(j: nat, m: nat)
    requires j <= m
    ensures Chunking.Pow2(j) <= Chunking.Pow2(m)
  {
    if j < m {
      Pow2Grows(j, m - 1);
    }
  }

  lemma SixtyFourFirst(n: nat)
    requires n >= 64
    ensures NextPow2(n) == NextPow2From(64, n)
  {
    assert NextPow2From(1, n) == NextPow2From(2, n) == NextPow2From(4, n) == NextPow2From(8, n);
    assert NextPow2From(8, n) == NextPow2From(16, n) == NextPow2From(32, n) == NextPow2From(64, n);
  }

  lemma WithinLimit(n: nat)
    ensures NextPow2(n) <= MAX_BITS <==> n <= MAX_BITS
  {
    assert Chunking.Pow2(0) == 1;
    NextPow2Within(0, n, 26);
    Chunking.Pow2Sum(13, 13);
    assert Chunking.Pow2(13) == 0x2000;
  }

  // A new filter is well sized, and fits the decoder's limit exactly when ten
  // bits for each block do: up to 6,710,886 blocks, so for every store of at
  // most two million.
  lemma EmptyIsSized(capacity: nat, k: nat)
    ensures Sized(Empty(capacity, k)) && 1 <= Empty(capacity, k).k <= 12
    ensures Empty(capacity, k).mBits <= MAX_BITS <==> (if capacity > 64 then capacity else 64) <= 6_710_886
  {
    hide NextPow2From, NextPow2;
    var n := (if capacity > 64 then capacity else 64) * 10;
    SixtyFourFirst(n);
    NextPow2Above(64, n);
    WithinLimit(n);
  }

  ghost function AllAdded(hash: Hasher, f: Filter, ds: seq<Digest>): (r: Filter)
    requires Sized(f)
    ensures Sized(r) && r.mBits == f.mBits && r.k == f.k
    decreases |ds|
  {
    if ds == [] then f else AllAdded(hash, Added(hash, f, ds[0]), ds[1..])
  }

  lemma {:induction false} AllAreFound(hash: Hasher, f: Filter, ds: seq<Digest>, e: Digest)
    requires Sized(f) && (e in ds || Has(hash, f, e))
    ensures Has(hash, AllAdded(hash, f, ds), e)
    decreases |ds|
  {
    if ds != [] {
      AddedIsFound(hash, f, ds[0], e);
      AllAreFound(hash, Added(hash, f, ds[0]), ds[1..], e);
    }
  }

  class Bloom {
    var mBits: nat
    var k: nat
    var words: seq<u64>
    const hash: Hasher

    ghost function State(): Filter
      reads this
    {
      Filter(mBits, k, words)
    }

    constructor (hash: Hasher, capacity: nat, k: nat)
      ensures this.hash == hash && State() == Empty(capacity, k) && Sized(State())
    {
      EmptyIsSized(capacity, k);
      var bits := Bits(capacity);
      this.hash, this.mBits, this.k, this.words := hash, bits, Clamp(k), seq(bits / 64, i => 0);
    }

    method Add(d: Digest)
      requires Sized(State())
      modifies this
      ensures State() == Added(hash, old(State()), d) && Sized(State())
    {
      ghost var goal := Added(hash, State(), d);
      for i := 0 to k
        invariant Sized(State()) && k == old(k) && mBits == old(mBits)
        invariant goal == AddFrom(hash, State(), d, i)
      {
        var (a, c) := hash(d);
        var n := ((a + (c * (i + 1)) % TWO64) % TWO64) % mBits;
        assert n == Index(hash, State(), d, i);
        InRange(n, mBits, |words|);
        words := words[n / 64 := OrBit(words[n / 64], n % 64)];
      }
    }

    method Query(d: Digest) returns (yes: Option<bool>)
      requires Shaped(State())
      ensures yes == Answer(hash, State(), d)
    {
      yes := Lookup(hash, Filter(mBits, k, words), d);
    }
  }

  // What a filter answers; none is a remainder by zero.
  ghost function Answer(hash: Hasher, f: Filter, d: Digest): Option<bool>
    requires Shaped(f)
  {
    if Askable(f) then Some(Has(hash, f, d)) else None
  }

  method Lookup(hash: Hasher, f: Filter, d: Digest) returns (yes: Option<bool>)
    requires Shaped(f)
    ensures yes == Answer(hash, f, d)
  {
    for i := 0 to f.k
      invariant i > 0 ==> f.mBits > 0
      invariant forall j :: 0 <= j < i ==> IsSet(f, Index(hash, f, d, j))
    {
      if f.mBits == 0 {
        return None;
      }
      var n := Index(hash, f, d, i);
      InRange(n, f.mBits, |f.words|);
      if !Bit(f.words[n / 64], n % 64) {
        assert !IsSet(f, Index(hash, f, d, i));
        return Some(false);
      }
    }
    return Some(true);
  }

  // The snapshot of a store: every digest it holds, in any order.
  method Snapshot(hash: Hasher, held: set<Digest>) returns (b: Bloom)
    ensures fresh(b) && b.hash == hash && Sized(b.State()) && 1 <= b.k <= 12
    ensures forall d :: d in held ==> Has(hash, b.State(), d)
    ensures b.mBits <= MAX_BITS <==> |held| <= 6_710_886
  {
    var capacity := if |held| > 1024 then |held| else 1024;
    EmptyIsSized(capacity, 6);
    b := new Bloom(hash, capacity, 6);
    var left := held;
    ghost var done: seq<Digest> := [];
    ghost var start := b.State();
    while left != {}
      invariant left <= held && forall d :: d in held ==> d in left || d in done
      invariant b.hash == hash && Sized(b.State()) && b.State() == AllAdded(hash, start, done)
      decreases |left|
    {
      var d :| d in left;
      AddedLast(hash, start, done, d);
      b.Add(d);
      done := done + [d];
      left := left - {d};
    }
    forall d | d in held ensures Has(hash, b.State(), d) {
      AllAreFound(hash, start, done, d);
    }
  }

  lemma {:induction false} AddedLast(hash: Hasher, f: Filter, ds: seq<Digest>, d: Digest)
    requires Sized(f)
    ensures AllAdded(hash, f, ds + [d]) == Added(hash, AllAdded(hash, f, ds), d)
    decreases |ds|
  {
    if ds == [] {
      assert ds + [d] == [d];
      assert AllAdded(hash, Added(hash, f, d), [d][1..]) == Added(hash, f, d);
    } else {
      assert (ds + [d])[1..] == ds[1..] + [d];
      AddedLast(hash, Added(hash, f, ds[0]), ds[1..], d);
    }
  }

  // ---------- On the wire ----------

  function LeBytes(v: nat, n: nat): (b: Bytes)
    ensures |b| == n
    decreases n
  {
    if n == 0 then [] else [v % 256] + LeBytes(v / 256, n - 1)
  }

  function FromLe(b: Bytes): nat {
    if b == [] then 0 else b[0] + 256 * FromLe(b[1..])
  }

  lemma {:induction false} LeRoundTrip(v: nat, n: nat)
    requires v < Chunking.Pow2(8 * n)
    ensures FromLe(LeBytes(v, n)) == v
    decreases n
  {
    if n == 0 {
      assert Chunking.Pow2(0) == 1;
    } else {
      Chunking.Pow2Sum(8, 8 * (n - 1));
      assert Chunking.Pow2(8) == 256;
      Shrinks(v, Chunking.Pow2(8 * (n - 1)));
      LeRoundTrip(v / 256, n - 1);
      assert LeBytes(v, n)[1..] == LeBytes(v / 256, n - 1);
    }
  }

  lemma Shrinks(v: nat, p: nat)
    requires v < 256 * p
    ensures v / 256 < p
  {
  }

  lemma {:induction false} FromLeFits(b: Bytes)
    ensures FromLe(b) < Chunking.Pow2(8 * |b|)
  {
    if b == [] {
      assert Chunking.Pow2(0) == 1;
    } else {
      FromLeFits(b[1..]);
      Chunking.Pow2Sum(8, 8 * (|b| - 1));
      assert Chunking.Pow2(8) == 256;
    }
  }

  lemma U64RoundTrip(v: u64)
    ensures FromLe(LeBytes(v, 8)) == v
  {
    Chunking.Pow2Is64();
    LeRoundTrip(v, 8);
  }

  function FromLe64(b: Bytes): u64
    requires |b| == 8
  {
    FromLeFits(b);
    Chunking.Pow2Is64();
    FromLe(b)
  }

  function WordsBytes(ws: seq<u64>): Bytes {
    if ws == [] then [] else LeBytes(ws[0], 8) + WordsBytes(ws[1..])
  }

  // Whole words only; bytes left over at the end are ignored.
  function WordsIn(raw: Bytes): seq<u64>
    decreases |raw|
  {
    if |raw| < 8 then [] else [FromLe64(raw[..8])] + WordsIn(raw[8..])
  }

  function ToBytes(f: Filter): Bytes { LeBytes(f.mBits, 8) + LeBytes(f.k, 8) + WordsBytes(f.words) }

  function FromBytes(raw: Bytes): Option<Filter> {
    if |raw| < 16 then None
    else
      var mBits, k, words := FromLe64(raw[..8]), FromLe64(raw[8..16]), WordsIn(raw[16..]);
      if mBits % 64 != 0 || mBits / 64 != |words| || mBits > MAX_BITS || k == 0 then None
      else Some(Filter(mBits, k, words))
  }

  lemma DecodedIsShaped(raw: Bytes)
    ensures FromBytes(raw).Some? ==> Shaped(FromBytes(raw).value)
  {
  }

  // Every filter the decoder accepts answers, except one of no bits: which it
  // accepts as well.
  lemma DecodedAnswers(raw: Bytes, hash: Hasher, d: Digest)
    requires FromBytes(raw).Some?
    ensures var f := FromBytes(raw).value;
            && Shaped(f) && (Answer(hash, f, d).Some? <==> f.mBits > 0)
            && (f.mBits == 0 <==> |raw| < 24)
  {
  }

  lemma NoBitsIsAccepted(k: u64)
    requires k > 0
    ensures FromBytes(LeBytes(0, 8) + LeBytes(k, 8)) == Some(Filter(0, k, []))
  {
    var raw := LeBytes(0, 8) + LeBytes(k, 8);
    assert raw[..8] == LeBytes(0, 8) && raw[8..16] == LeBytes(k, 8) && raw[16..] == [];
    U64RoundTrip(0);
    U64RoundTrip(k);
  }

  lemma {:induction false} WordsRoundTrip(ws: seq<u64>)
    ensures WordsIn(WordsBytes(ws)) == ws
  {
    if ws != [] {
      var raw := WordsBytes(ws);
      assert raw[..8] == LeBytes(ws[0], 8) && raw[8..] == WordsBytes(ws[1..]);
      U64RoundTrip(ws[0]);
      WordsRoundTrip(ws[1..]);
    }
  }

  // A well-sized filter survives its bytes unchanged exactly when it is within
  // the decoder's limit.
  lemma BytesRoundTrip(f: Filter)
    requires Sized(f) && 0 < f.k < TWO64 && f.mBits < TWO64
    ensures FromBytes(ToBytes(f)) == (if f.mBits <= MAX_BITS then Some(f) else None)
  {
    var raw := ToBytes(f);
    assert raw[..8] == LeBytes(f.mBits, 8) && raw[8..16] == LeBytes(f.k, 8) && raw[16..] == WordsBytes(f.words);
    U64RoundTrip(f.mBits);
    U64RoundTrip(f.k);
    WordsRoundTrip(f.words);
  }

  method ReadWords(raw: Bytes) returns (ws: seq<u64>)
    ensures ws == WordsIn(raw)
  {
    ws := [];
    var i := 0;
    assert raw[0..] == raw;
    while |raw| - i >= 8
      invariant i <= |raw|
      invariant ws + WordsIn(raw[i..]) == WordsIn(raw)
    {
      assert raw[i..][..8] == raw[i..i + 8] && raw[i..][8..] == raw[i + 8..];
      ws := ws + [FromLe64(raw[i..i + 8])];
      i := i + 8;
    }
  }

  method WriteWords(ws: seq<u64>) returns (out: Bytes)
    ensures out == WordsBytes(ws)
  {
    hide LeBytes;
    out := [];
    for i := 0 to |ws|
      invariant out + WordsBytes(ws[i..]) == WordsBytes(ws)
    {
      assert ws[i..][0] == ws[i] && ws[i..][1..] == ws[i + 1..];
      out := out + LeBytes(ws[i], 8);
    }
  }

  // Epoch, number of blocks, filter.
  function BloomBytes(epoch: u64, blocks: u64, f: Filter): Bytes {
    Varints.Uvarint(epoch) + (Varints.Uvarint(blocks) + ToBytes(f))
  }

  function BloomIn(raw: Bytes): Result<(u64, u64, Filter), Varints.CodecError> {
    var (epoch, p) :- Varints.UvarintAt(raw, 0);
    var (blocks, q) :- Varints.UvarintAt(raw, p);
    if q > |raw| then Err(Varints.BrokenLink)
    else
      var f := FromBytes(raw[q..]);
      if f.None? then Err(Varints.Bad("bad bloom")) else Ok((epoch, blocks, f.value))
  }

  method EncodeBloom(epoch: u64, blocks: u64, f: Filter) returns (out: Bytes)
    ensures out == BloomBytes(epoch, blocks, f)
  {
    hide ToBytes, Varints.Uvarint;
    out := Varints.WriteUvarint([], epoch);
    out := Varints.WriteUvarint(out, blocks);
    var bytes := EncodeFilter(f);
    out := out + bytes;
    assert out == BloomBytes(epoch, blocks, f);
  }

  method EncodeFilter(f: Filter) returns (out: Bytes)
    ensures out == ToBytes(f)
  {
    out := LeBytes(f.mBits, 8) + LeBytes(f.k, 8);
    var ws := WriteWords(f.words);
    out := out + ws;
  }

  method DecodeBloom(raw: Bytes) returns (r: Result<(u64, u64, Filter), Varints.CodecError>)
    ensures r == BloomIn(raw)
  {
    hide Varints.UvarintAt;
    var rd := new Varints.Reader(raw);
    var epoch :- rd.Uvarint();
    var blocks :- rd.Uvarint();
    var rest := rd.Rest();
    var f := DecodeFilter(rest);
    if f.None? {
      return Err(Varints.Bad("bad bloom"));
    }
    return Ok((epoch, blocks, f.value));
  }

  method DecodeFilter(raw: Bytes) returns (f: Option<Filter>)
    ensures f == FromBytes(raw)
  {
    if |raw| < 16 {
      return None;
    }
    var mBits, k := FromLe64(raw[..8]), FromLe64(raw[8..16]);
    var words := ReadWords(raw[16..]);
    if mBits % 64 != 0 || mBits / 64 != |words| || mBits > MAX_BITS || k == 0 {
      return None;
    }
    return Some(Filter(mBits, k, words));
  }

  lemma BloomRoundTrip(epoch: u64, blocks: u64, f: Filter)
    requires Sized(f) && 0 < f.k < TWO64 && f.mBits <= MAX_BITS
    ensures BloomIn(BloomBytes(epoch, blocks, f)) == Ok((epoch, blocks, f))
  {
    hide Varints.UvarintAt, Varints.Uvarint, ToBytes, FromBytes;
    var raw, a, b := BloomBytes(epoch, blocks, f), Varints.Uvarint(epoch), Varints.Uvarint(blocks);
    Varints.WholeStands(raw);
    Varints.StandsSplit(raw, 0, a, b + ToBytes(f));
    Varints.StandsSplit(raw, |a|, b, ToBytes(f));
    Varints.UvarintRoundTrip(raw, 0, epoch);
    Varints.UvarintRoundTrip(raw, |a|, blocks);
    assert raw[|a| + |b|..] == ToBytes(f);
    BytesRoundTrip(f);
  }

  lemma LeOf(v: nat, n: nat)
    requires n > 0
    ensures LeBytes(v, n) == [v % 256] + LeBytes(v / 256, n - 1)
  {
  }

  lemma {:induction false} LeZero(n: nat)
    ensures LeBytes(0, n) == seq(n, i => 0)
  {
    if n > 0 {
      LeZero(n - 1);
    }
  }

  // The message byte by byte, of small values: epoch, blocks, bits, hashes, words,
  // the last three in eight bytes each, the lowest first.
  lemma SnapshotBytes()
    ensures LeBytes(64, 8) == [64, 0, 0, 0, 0, 0, 0, 0] && LeBytes(6, 8) == [6, 0, 0, 0, 0, 0, 0, 0]
    ensures LeBytes(258, 8) == [2, 1, 0, 0, 0, 0, 0, 0]
    ensures BloomBytes(300, 1, Filter(64, 6, [258])) ==
            [0xAC, 0x02, 1] + (LeBytes(64, 8) + LeBytes(6, 8) + LeBytes(258, 8))
  {
    SmallUvarints();
    SmallBytes();
    var w: seq<u64> := [258];
    OneWord(258);
    hide LeBytes, Varints.Uvarint, WordsBytes;
    assert ToBytes(Filter(64, 6, w)) == LeBytes(64, 8) + LeBytes(6, 8) + LeBytes(258, 8);
  }

  lemma SmallUvarints()
    ensures Varints.Uvarint(300) == [0xAC, 0x02] && Varints.Uvarint(1) == [1]
  {
  }

  lemma SmallBytes()
    ensures LeBytes(64, 8) == [64, 0, 0, 0, 0, 0, 0, 0] && LeBytes(6, 8) == [6, 0, 0, 0, 0, 0, 0, 0]
    ensures LeBytes(258, 8) == [2, 1, 0, 0, 0, 0, 0, 0]
  {
    LeOf(64, 8);
    LeOf(6, 8);
    LeOf(258, 8);
    LeOf(1, 7);
    LeZero(7);
    LeZero(6);
    hide LeBytes;
  }

  lemma OneWord(w: u64)
    ensures WordsBytes([w]) == LeBytes(w, 8)
  {
    hide LeBytes;
    var ws: seq<u64> := [w];
    assert ws[1..] == [] && WordsBytes([]) == [];
  }

  // ---------- The sender's view ----------

  // What the peer last reported, widened by what was pushed since.
  class Optimistic {
    const hash: Hasher
    var base: Filter
    var sent: set<Digest>

    ghost predicate Valid()
      reads this
    {
      Shaped(base)
    }

    constructor (hash: Hasher)
      ensures Valid() && sent == {} && this.hash == hash
    {
      EmptyIsSized(64, 6);
      this.hash, this.base, this.sent := hash, Empty(64, 6), {};
    }

    method NotePushed(ds: seq<Digest>)
      modifies this`sent
      ensures sent == old(sent) + set d | d in ds
    {
      for i := 0 to |ds|
        invariant sent == old(sent) + set d | d in ds[..i]
      {
        assert ds[..i + 1] == ds[..i] + [ds[i]];
        sent := sent + {ds[i]};
      }
      assert ds[..|ds|] == ds;
    }

    method Clear()
      modifies this`sent
      ensures sent == {}
    {
      sent := {};
    }

    method Replace(f: Filter)
      requires Shaped(f)
      modifies this`base
      ensures base == f
    {
      base := f;
    }

    // `readable` is false when the snapshot is just being swapped: an unknown
    // answer counts as absent.
    method Query(d: Digest, readable: bool) returns (yes: Option<bool>)
      requires Valid()
      ensures yes == if d in sent then Some(true) else if readable then Answer(hash, base, d) else Some(false)
    {
      if d in sent {
        return Some(true);
      }
      if !readable {
        return Some(false);
      }
      yes := Lookup(hash, base, d);
    }
  }

  // Across the link: the snapshot of a store of at most 6,710,886 blocks,
  // encoded, decoded and put under the sender's view, never denies a block
  // the store held.
  method NoFalseNegatives(hash: Hasher, held: set<Digest>, epoch: u64, view: Optimistic, d: Digest)
    returns (yes: Option<bool>)
    requires view.Valid() && view.hash == hash && |held| <= 6_710_886
    modifies view`base
    ensures view.Valid() && yes.Some? && (d in held ==> yes.value)
  {
    var b := Snapshot(hash, held);
    var f := Filter(b.mBits, b.k, b.words);
    var wire := EncodeBloom(epoch, |held|, f);
    BloomRoundTrip(epoch, |held|, f);
    var got := DecodeBloom(wire);
    view.Replace(got.value.2);
    yes := view.Query(d, true);
  }
}

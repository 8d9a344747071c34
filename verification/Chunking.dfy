// Content-defined chunking: a rolling hash whose cuts depend on the last few
// bytes only, so that two bodies with a common ending fall back in step.

module Chunking {
  import opened Blocks
  import opened Policies

  // The table of the rolling hash; nothing is assumed about its values.
  type Gear = Byte -> u64

  function Pow2(n: nat): (p: nat)
    ensures p > 0
  {
    if n == 0 then 1 else 2 * Pow2(n - 1)
  }

  // The mask keeps at most 40 bits.
  function MaskBits(bits: nat): nat { if bits < 40 then bits else 40 }

  // One step of the hash, in 64-bit wrapping arithmetic.
  function Roll(gear: Gear, h: u64, c: Byte): u64 { (2 * h + gear(c)) % TWO64 }

  // The bits under the mask 2^b - 1 are all zero.
  predicate Masked(h: nat, b: nat) { h % Pow2(b) == 0 }

  datatype Cutter = Cutter(gear: Gear, min: nat, max: nat, b: nat)

  predicate CutsAt(ct: Cutter, h: u64, len: nat) {
    len >= ct.min && (Masked(h, ct.b) || len >= ct.max)
  }

  // The chunks from `i` on, when the current one started at `start`.
  function Cuts(ct: Cutter, body: Bytes, end: nat, start: nat, i: nat, h: u64): seq<Span>
    requires start <= i <= end <= |body|
    decreases end - i
  {
    if i == end then
      if start < end then [Span(start, end)] else []
    else
      var h' := Roll(ct.gear, h, body[i]);
      if CutsAt(ct, h', i + 1 - start) then [Span(start, i + 1)] + Cuts(ct, body, end, i + 1, i + 1, h')
      else Cuts(ct, body, end, start, i + 1, h')
  }

  function Chunks(ct: Cutter, body: Bytes, range: Span): seq<Span>
    requires InBounds(range, body)
  {
    Cuts(ct, body, range.end, range.start, range.start, 0)
  }

  function ChunkCands(spans: seq<Span>, floor: nat): seq<Cand> {
    if spans == [] then [] else [Cand(spans[0], Chunk, floor)] + ChunkCands(spans[1..], floor)
  }

  lemma {:induction false} ChunkCandsConcat(a: seq<Span>, b: seq<Span>, floor: nat)
    ensures ChunkCands(a + b, floor) == ChunkCands(a, floor) + ChunkCands(b, floor)
  {
    if a == [] {
      assert a + b == b;
    } else {
      assert (a + b)[1..] == a[1..] + b;
      ChunkCandsConcat(a[1..], b, floor);
    }
  }

  lemma CutsStep(ct: Cutter, body: Bytes, end: nat, start: nat, i: nat, h: u64)
    requires start <= i < end <= |body|
    ensures var h', len := Roll(ct.gear, h, body[i]), i + 1 - start;
            Cuts(ct, body, end, start, i, h) ==
            if len >= ct.min && (Masked(h', ct.b) || len >= ct.max)
            then [Span(start, i + 1)] + Cuts(ct, body, end, i + 1, i + 1, h')
            else Cuts(ct, body, end, start, i + 1, h')
  {
  }

  lemma CutsEnd(ct: Cutter, body: Bytes, end: nat, start: nat, h: u64)
    requires start <= end <= |body|
    ensures Cuts(ct, body, end, start, end, h) == if start < end then [Span(start, end)] else []
  {
  }

  lemma CutsStart(ct: Cutter, body: Bytes, range: Span, min: nat)
    requires InBounds(range, body)
    ensures range.start <= range.end <= |body| && ChunkCands([], min) == []
    ensures Chunks(ct, body, range) == Cuts(ct, body, range.end, range.start, range.start, 0)
    ensures forall bits: nat :: MaskBits(bits) == if bits < 40 then bits else 40
  {
  }

  method CdcCandidates(gear: Gear, body: Bytes, range: Span, min: nat, max: nat, bits: nat)
    returns (out: seq<Cand>)
    requires InBounds(range, body)
    ensures out == ChunkCands(Chunks(Cutter(gear, min, max, MaskBits(bits)), body, range), min)
  {
    hide *;
    var b := if bits < 40 then bits else 40;
    ghost var ct := Cutter(gear, min, max, b);
    ghost var done: seq<Span> := [];
    out := [];
    CutsStart(ct, body, range, min);
    var start := range.start;
    var h: u64 := 0;
    var i := start;
    ghost var all := Cuts(ct, body, range.end, start, i, h);
    while i < range.end
      invariant range.start <= start <= i <= range.end
      invariant out == ChunkCands(done, min)
      invariant all == done + Cuts(ct, body, range.end, start, i, h)
    {
      CutsStep(ct, body, range.end, start, i, h);
      h := Roll(gear, h, body[i]);
      i := i + 1;
      var len := i - start;
      if len >= min && (Masked(h, b) || len >= max) {
        OneChunk(done, Span(start, i), min);
        out := out + [Cand(Span(start, i), Chunk, min)];
        done := done + [Span(start, i)];
        start := i;
      }
    }
    CutsEnd(ct, body, range.end, start, h);
    if start < range.end {
      OneChunk(done, Span(start, range.end), min);
      out := out + [Cand(Span(start, range.end), Chunk, min)];
    } else {
      assert done + [] == done;
    }
  }

  lemma OneChunk(done: seq<Span>, s: Span, floor: nat)
    ensures ChunkCands(done + [s], floor) == ChunkCands(done, floor) + [Cand(s, Chunk, floor)]
  {
    ChunkCandsConcat(done, [s], floor);
    assert ChunkCands([s][1..], floor) == [];
  }

  // ---------- Tiling and lengths ----------

  // Chunks that follow each other from `start` to `end` without gap or overlap.
  predicate Tiles(cs: seq<Span>, start: nat, end: nat) {
    if cs == [] then start == end
    else cs[0].start == start < cs[0].end <= end && Tiles(cs[1..], cs[0].end, end)
  }

  function Larger(a: nat, b: nat): nat { if a < b then b else a }

  // All but the last have a length between the floor and the ceiling.
  predicate Sized(cs: seq<Span>, lo: nat, hi: nat) {
    |cs| <= 1 ||
    (cs[0].start <= cs[0].end && lo <= SpanLen(cs[0]) <= hi && Sized(cs[1..], lo, hi))
  }

  predicate AtMost(cs: seq<Span>, hi: nat) {
    forall c :: c in cs ==> c.start <= c.end && SpanLen(c) <= hi
  }

  lemma {:induction false} CutsTile(ct: Cutter, body: Bytes, end: nat, start: nat, i: nat, h: u64)
    requires start <= i <= end <= |body|
    requires i - start < Larger(1, Larger(ct.min, ct.max))
    ensures var cs := Cuts(ct, body, end, start, i, h);
            && Tiles(cs, start, end)
            && Sized(cs, Larger(1, ct.min), Larger(1, Larger(ct.min, ct.max)))
            && AtMost(cs, Larger(1, Larger(ct.min, ct.max)))
    decreases end - i
  {
    if i < end {
      var h' := Roll(ct.gear, h, body[i]);
      if CutsAt(ct, h', i + 1 - start) {
        CutsTile(ct, body, end, i + 1, i + 1, h');
        var rest := Cuts(ct, body, end, i + 1, i + 1, h');
        assert ([Span(start, i + 1)] + rest)[1..] == rest;
      } else {
        CutsTile(ct, body, end, start, i + 1, h');
      }
    }
  }

  // The chunks tile the range; none is longer than max(1, min, max), and every
  // one but the last has at least max(1, min).
  lemma ChunksTile(ct: Cutter, body: Bytes, range: Span)
    requires InBounds(range, body)
    ensures Tiles(Chunks(ct, body, range), range.start, range.end)
    ensures Sized(Chunks(ct, body, range), Larger(1, ct.min), Larger(1, Larger(ct.min, ct.max)))
    ensures AtMost(Chunks(ct, body, range), Larger(1, Larger(ct.min, ct.max)))
  {
    CutsTile(ct, body, range.end, range.start, range.start, 0);
  }

  // ---------- Locality ----------

  function HashOf(gear: Gear, h: u64, s: Bytes): u64
    decreases |s|
  {
    if s == [] then h else HashOf(gear, Roll(gear, h, s[0]), s[1..])
  }

  predicate Congruent(x: int, y: int, m: nat)
    requires m > 0
  {
    (x - y) % m == 0
  }

  lemma MultipleMod(q: int, m: nat)
    requires m > 0
    ensures (q * m) % m == 0 && (q * m) / m == q
  {
    var x := q * m;
    var d := q - x / m;
    assert x == m * (x / m) + x % m;
    assert x % m == d * m by {
      Ring(q, x / m, m);
    }
    assert (-d) * m == -(d * m);
    if d >= 1 {
      MulAtLeast(d, m);
    } else if d <= -1 {
      MulAtLeast(-d, m);
    }
  }

  lemma Ring(a: int, b: int, m: int)
    ensures a * m - m * b == (a - b) * m
  {
  }

  lemma MulAtLeast(d: int, m: nat)
    requires d >= 1
    ensures d * m >= m
  {
    assert d * m == (d - 1) * m + m;
  }

  lemma Divides(x: int, m: nat)
    requires m > 0 && x % m == 0
    ensures x == (x / m) * m
  {
    assert x == m * (x / m) + x % m;
  }

  lemma Pow2Divides(n: nat) returns (q: nat)
    requires n <= 64
    ensures TWO64 == q * Pow2(n)
  {
    Pow2Sum(64 - n, n);
    Pow2Is64();
    q := Pow2(64 - n);
  }

  lemma Pow2Is64()
    ensures Pow2(64) == TWO64
  {
    assert Pow2(8) == 256;
    Pow2Sum(8, 8);
    Pow2Sum(16, 16);
    Pow2Sum(32, 32);
  }

  lemma {:induction false} Pow2Sum(a: nat, b: nat)
    ensures Pow2(a + b) == Pow2(a) * Pow2(b)
  {
    if a > 0 {
      Pow2Sum(a - 1, b);
      MulTwice(Pow2(a - 1), Pow2(b));
    }
  }

  lemma MulTwice(x: int, y: int)
    ensures 2 * (x * y) == (2 * x) * y
  {
  }

  lemma Factor(k: int, e: int, q: int, p: int)
    ensures 2 * (k * p) - e * (q * (2 * p)) == (k - e * q) * (2 * p)
  {
  }

  // Rolling the same byte over two hashes that agree modulo 2^n makes them
  // agree modulo 2^(n+1), wrap-around included.
  lemma RollSpreads(gear: Gear, h: u64, g: u64, c: Byte, n: nat)
    requires n < 64 && Congruent(h, g, Pow2(n))
    ensures Congruent(Roll(gear, h, c), Roll(gear, g, c), Pow2(n + 1))
  {
    var p := Pow2(n);
    var k := (h - g) / p;
    Divides(h - g, p);
    var q := Pow2Divides(n + 1);
    var x, y := 2 * h + gear(c), 2 * g + gear(c);
    var e := x / TWO64 - y / TWO64;
    Wraps(x);
    Wraps(y);
    assert Roll(gear, h, c) - Roll(gear, g, c) == 2 * (k * p) - e * (q * (2 * p)) by {
      Ring(x / TWO64, y / TWO64, TWO64);
    }
    Factor(k, e, q, p);
    MultipleMod(k - e * q, 2 * p);
  }

  lemma Wraps(x: nat)
    ensures x % TWO64 == x - (x / TWO64) * TWO64
  {
  }

  lemma {:induction false} HashSpreads(gear: Gear, h: u64, g: u64, s: Bytes, n: nat)
    requires n + |s| <= 64 && Congruent(h, g, Pow2(n))
    ensures Congruent(HashOf(gear, h, s), HashOf(gear, g, s), Pow2(n + |s|))
    decreases |s|
  {
    if s != [] {
      RollSpreads(gear, h, g, s[0], n);
      HashSpreads(gear, Roll(gear, h, s[0]), Roll(gear, g, s[0]), s[1..], n + 1);
    }
  }

  // A roll keeps agreement modulo 2^b.
  lemma RollKeeps(gear: Gear, h: u64, g: u64, c: Byte, b: nat)
    requires b <= 40 && Congruent(h, g, Pow2(b))
    ensures Congruent(Roll(gear, h, c), Roll(gear, g, c), Pow2(b))
  {
    RollSpreads(gear, h, g, c, b);
    var x := Roll(gear, h, c) - Roll(gear, g, c);
    var p := Pow2(b);
    assert Pow2(b + 1) == 2 * p;
    HalfDivides(x, p);
  }

  lemma HalfDivides(x: int, p: nat)
    requires p > 0 && x % (2 * p) == 0
    ensures x % p == 0
  {
    var k := x / (2 * p);
    Divides(x, 2 * p);
    Halve(k, p);
    MultipleMod(2 * k, p);
  }

  lemma Halve(k: int, p: int)
    ensures k * (2 * p) == (2 * k) * p
  {
  }

  lemma CongruentMasks(h: nat, g: nat, b: nat)
    requires Congruent(h, g, Pow2(b))
    ensures Masked(h, b) <==> Masked(g, b)
  {
    var m := Pow2(b);
    Divides(h - g, m);
    var k := (h - g) / m;
    if Masked(h, b) {
      Divides(h, m);
      Ring(h / m, k, m);
      MultipleMod(h / m - k, m);
    }
    if Masked(g, b) {
      Divides(g, m);
      Ring(g / m, -k, m);
      MultipleMod(g / m + k, m);
    }
  }

  // Whatever came before, the masked bits of the hash depend on the last b
  // bytes only.
  lemma CutDependsOnLastBytes(gear: Gear, h: u64, g: u64, s: Bytes, b: nat)
    requires |s| == b <= 40
    ensures Congruent(HashOf(gear, h, s), HashOf(gear, g, s), Pow2(b))
    ensures Masked(HashOf(gear, h, s), b) <==> Masked(HashOf(gear, g, s), b)
  {
    HashSpreads(gear, h, g, s, 0);
    CongruentMasks(HashOf(gear, h, s), HashOf(gear, g, s), b);
  }

  // ---------- Where the cuts are ----------

  // The last byte counts once, the one before twice, and so on.
  function GearSum(gear: Gear, s: Bytes): nat
    decreases |s|
  {
    if s == [] then 0 else gear(s[0]) * Pow2(|s| - 1) + GearSum(gear, s[1..])
  }

  lemma AddedTurns(x: nat, t: nat, z: int)
    requires t > 0
    ensures (x + z * t) % t == x % t
  {
    var a, b := x / t, (x + z * t) / t;
    assert x == t * a + x % t;
    assert x + z * t == t * b + (x + z * t) % t;
    var d := (x + z * t) % t - x % t;
    assert d == (z + a - b) * t by {
      Ring(z + a, b, t);
      Ring(z, -a, t);
    }
    var k := z + a - b;
    if k >= 1 {
      MulAtLeast(k, t);
    } else if k <= -1 {
      MulAtLeast(-k, t);
    }
  }

  // Wrapping first, and then shifting and adding, wraps to the same.
  lemma WrapsLater(x: nat, p: nat, y: nat)
    ensures ((x % TWO64) * p + y) % TWO64 == (x * p + y) % TWO64
  {
    var k := x / TWO64;
    Wraps(x);
    assert x * p + y == (x % TWO64) * p + y + (k * p) * TWO64 by {
      Spread(x % TWO64, k, TWO64, p);
    }
    AddedTurns((x % TWO64) * p + y, TWO64, k * p);
  }

  lemma Spread(r: int, k: int, t: int, p: int)
    ensures (r + k * t) * p == r * p + (k * p) * t
  {
  }

  lemma Shift(h: nat, g: nat, p: nat)
    ensures (2 * h + g) * p == h * (2 * p) + g * p
  {
  }

  // The rolling hash is that sum, modulo 2^64.
  lemma {:induction false} HashIsSum(gear: Gear, h: u64, s: Bytes)
    ensures HashOf(gear, h, s) == (h * Pow2(|s|) + GearSum(gear, s)) % TWO64
    decreases |s|
  {
    if s != [] {
      var p := Pow2(|s| - 1);
      HashIsSum(gear, Roll(gear, h, s[0]), s[1..]);
      WrapsLater(2 * h + gear(s[0]), p, GearSum(gear, s[1..]));
      Shift(h, gear(s[0]), p);
    }
  }

  // Where a chunk that began at `start` may end, in a range that began at `from`.
  predicate MayEnd(gear: Gear, body: Bytes, from: nat, start: nat, q: nat, min: nat, max: nat, bits: nat)
    requires from <= start <= q <= |body|
  {
    && q - start >= min
    && (|| GearSum(gear, body[from..q]) % TWO64 % Pow2(if bits < 40 then bits else 40) == 0
        || q - start >= max)
  }

  // The chunk ends at the first place where it may, or at the end of the range.
  ghost predicate EndsRight(gear: Gear, body: Bytes, range: Span, c: Span, min: nat, max: nat, bits: nat) {
    && range.start <= c.start < c.end <= range.end <= |body|
    && (c.end < range.end ==> MayEnd(gear, body, range.start, c.start, c.end, min, max, bits))
    && forall q :: c.start < q < c.end ==> !MayEnd(gear, body, range.start, c.start, q, min, max, bits)
  }

  lemma CutsWhereMayEnd(gear: Gear, body: Bytes, from: nat, start: nat, q: nat, min: nat, max: nat, bits: nat)
    requires from <= start < q <= |body|
    ensures MayEnd(gear, body, from, start, q, min, max, bits) <==>
            CutsAt(Cutter(gear, min, max, MaskBits(bits)), HashOf(gear, 0, body[from..q]), q - start)
  {
    HashIsSum(gear, 0, body[from..q]);
  }

  lemma HashOn(gear: Gear, body: Bytes, from: nat, i: nat)
    requires from <= i < |body|
    ensures HashOf(gear, 0, body[from..i + 1]) == Roll(gear, HashOf(gear, 0, body[from..i]), body[i])
  {
    assert body[from..i + 1] == body[from..i] + [body[i]];
    HashExtends(gear, 0, body[from..i], body[i]);
  }

  lemma {:induction false} CutsEndRight(gear: Gear, body: Bytes, range: Span, start: nat, i: nat, min: nat, max: nat,
                                        bits: nat)
    requires range.start <= start <= i <= range.end <= |body|
    requires forall q :: start < q <= i ==> !MayEnd(gear, body, range.start, start, q, min, max, bits)
    ensures var ct := Cutter(gear, min, max, MaskBits(bits));
            forall c :: c in Cuts(ct, body, range.end, start, i, HashOf(gear, 0, body[range.start..i])) ==>
              EndsRight(gear, body, range, c, min, max, bits)
    decreases range.end - i
  {
    hide MayEnd, CutsAt, HashOf, Roll, MaskBits;
    if i < range.end {
      HashOn(gear, body, range.start, i);
      CutsWhereMayEnd(gear, body, range.start, start, i + 1, min, max, bits);
      if MayEnd(gear, body, range.start, start, i + 1, min, max, bits) {
        CutsEndRight(gear, body, range, i + 1, i + 1, min, max, bits);
      } else {
        CutsEndRight(gear, body, range, start, i + 1, min, max, bits);
      }
    }
  }

  // Two ways to go on from one boundary come to the same end of the chunk.
  lemma SameEnd(gear: Gear, body: Bytes, range: Span, c: Span, d: Span, min: nat, max: nat, bits: nat)
    requires EndsRight(gear, body, range, c, min, max, bits) && EndsRight(gear, body, range, d, min, max, bits)
    requires c.start == d.start
    ensures c == d
  {
  }

  lemma {:induction false} OneTiling(gear: Gear, body: Bytes, range: Span, start: nat, cs: seq<Span>, ds: seq<Span>,
                                     min: nat, max: nat, bits: nat)
    requires Tiles(cs, start, range.end) && Tiles(ds, start, range.end)
    requires forall c :: c in cs || c in ds ==> EndsRight(gear, body, range, c, min, max, bits)
    ensures cs == ds
    decreases |cs|
  {
    if cs != [] {
      assert ds != [] && cs[0] in cs && ds[0] in ds;
      SameEnd(gear, body, range, cs[0], ds[0], min, max, bits);
      OneTiling(gear, body, range, cs[0].end, cs[1..], ds[1..], min, max, bits);
    }
  }

  // Chunking, without the rolling hash: of all ways to cut a range up, it is the
  // one whose every chunk ends at the first place where it may. That is where
  // it is at least `min` long and the low bits of the sum over all bytes of the
  // range so far are zero, or it is at least `max` long.
  lemma ChunksExactly(gear: Gear, body: Bytes, range: Span, min: nat, max: nat, bits: nat, cs: seq<Span>)
    requires InBounds(range, body)
    ensures cs == Chunks(Cutter(gear, min, max, MaskBits(bits)), body, range) <==>
            && Tiles(cs, range.start, range.end)
            && forall c :: c in cs ==> EndsRight(gear, body, range, c, min, max, bits)
  {
    hide EndsRight, Tiles, HashOf;
    var ct := Cutter(gear, min, max, MaskBits(bits));
    ChunksTile(ct, body, range);
    HashOfNothing(gear);
    assert body[range.start..range.start] == [];
    CutsEndRight(gear, body, range, range.start, range.start, min, max, bits);
    var ds := Chunks(ct, body, range);
    if Tiles(cs, range.start, range.end) && forall c :: c in cs ==> EndsRight(gear, body, range, c, min, max, bits) {
      OneTiling(gear, body, range, range.start, cs, ds, min, max, bits);
    }
  }

  lemma HashOfNothing(gear: Gear)
    ensures HashOf(gear, 0, []) == 0
  {
  }

  // ---------- Falling back in step ----------

  function Shifted(cs: seq<Span>, from: nat, to: nat): seq<(int, int)> {
    if cs == [] then []
    else [(cs[0].start - from + to, cs[0].end - from + to)] + Shifted(cs[1..], from, to)
  }

  // Two scans in agreeing states over the same remaining bytes make the same cuts.
  lemma {:induction false} SameCuts(ct: Cutter, x: Bytes, y: Bytes, sx: nat, ix: nat, hx: u64, sy: nat, iy: nat,
                                    hy: u64)
    requires sx <= ix <= |x| && sy <= iy <= |y| && ix - sx == iy - sy && x[ix..] == y[iy..]
    requires ct.b <= 40 && Congruent(hx, hy, Pow2(ct.b))
    ensures Shifted(Cuts(ct, x, |x|, sx, ix, hx), sx, 0) == Shifted(Cuts(ct, y, |y|, sy, iy, hy), sy, 0)
    decreases |x| - ix
  {
    assert |x[ix..]| == |y[iy..]|;
    if ix < |x| {
      assert x[ix] == x[ix..][0] == y[iy..][0] == y[iy];
      assert x[ix + 1..] == x[ix..][1..] && y[iy + 1..] == y[iy..][1..];
      var hx', hy' := Roll(ct.gear, hx, x[ix]), Roll(ct.gear, hy, y[iy]);
      RollKeeps(ct.gear, hx, hy, x[ix], ct.b);
      CongruentMasks(hx', hy', ct.b);
      if CutsAt(ct, hx', ix + 1 - sx) {
        SameCuts(ct, x, y, ix + 1, ix + 1, hx', iy + 1, iy + 1, hy');
        var rx := Cuts(ct, x, |x|, ix + 1, ix + 1, hx');
        var ry := Cuts(ct, y, |y|, iy + 1, iy + 1, hy');
        ShiftedAgain(rx, ix + 1, sx);
        ShiftedAgain(ry, iy + 1, sy);
        MovedAlike(rx, ry, ix + 1, iy + 1, sx, sy);
        assert ([Span(sx, ix + 1)] + rx)[1..] == rx && ([Span(sy, iy + 1)] + ry)[1..] == ry;
      } else {
        SameCuts(ct, x, y, sx, ix + 1, hx', sy, iy + 1, hy');
      }
    }
  }

  lemma {:induction false} ShiftedAgain(cs: seq<Span>, from: nat, to: nat)
    ensures |Shifted(cs, from, 0)| == |cs| && |Shifted(cs, to, 0)| == |cs|
    ensures forall k :: 0 <= k < |cs| ==>
              && Shifted(cs, from, 0)[k] == (cs[k].start - from, cs[k].end - from)
              && Shifted(cs, to, 0)[k] == (cs[k].start - to, cs[k].end - to)
  {
    if cs != [] {
      ShiftedAgain(cs[1..], from, to);
    }
  }

  lemma MovedAlike(rx: seq<Span>, ry: seq<Span>, fx: nat, fy: nat, tx: nat, ty: nat)
    requires Shifted(rx, fx, 0) == Shifted(ry, fy, 0) && fx - tx == fy - ty
    ensures Shifted(rx, tx, 0) == Shifted(ry, ty, 0)
  {
    ShiftedAgain(rx, fx, tx);
    ShiftedAgain(ry, fy, ty);
    forall k | 0 <= k < |rx| ensures Shifted(rx, tx, 0)[k] == Shifted(ry, ty, 0)[k] {
      assert Shifted(rx, fx, 0)[k] == Shifted(ry, fy, 0)[k];
    }
  }

  // The scan from a boundary on is the scan that starts there, with the hash
  // of everything before.
  lemma {:induction false} CutsFromBoundary(ct: Cutter, body: Bytes, start: nat, i: nat, h: u64, k: nat, pre: Bytes)
    requires start <= i <= |body| && 0 < k <= |Cuts(ct, body, |body|, start, i, h)|
    requires pre == body[..i] && h == HashOf(ct.gear, 0, pre)
    ensures var cs := Cuts(ct, body, |body|, start, i, h);
            var q := cs[k - 1].end;
            i <= q <= |body| && cs[k..] == Cuts(ct, body, |body|, q, q, HashOf(ct.gear, 0, body[..q]))
    decreases |body| - i
  {
    if i < |body| {
      var h' := Roll(ct.gear, h, body[i]);
      var pre' := body[..i + 1];
      assert pre == body[..i] && pre' == pre + [body[i]];
      HashExtends(ct.gear, 0, pre, body[i]);
      if CutsAt(ct, h', i + 1 - start) {
        var rest := Cuts(ct, body, |body|, i + 1, i + 1, h');
        var cs := [Span(start, i + 1)] + rest;
        if k == 1 {
          assert cs[1..] == rest;
        } else {
          CutsFromBoundary(ct, body, i + 1, i + 1, h', k - 1, pre');
          assert cs[k - 1] == rest[k - 2] && cs[k..] == rest[k - 1..];
        }
      } else {
        CutsFromBoundary(ct, body, start, i + 1, h', k, pre');
      }
    }
  }

  lemma {:induction false} HashExtends(gear: Gear, h: u64, s: Bytes, c: Byte)
    ensures HashOf(gear, h, s + [c]) == Roll(gear, HashOf(gear, h, s), c)
    decreases |s|
  {
    if s == [] {
      assert s + [c] == [c];
      assert HashOf(gear, Roll(gear, h, c), [c][1..]) == Roll(gear, h, c);
    } else {
      assert (s + [c])[1..] == s[1..] + [c];
      HashExtends(gear, Roll(gear, h, s[0]), s[1..], c);
    }
  }

  lemma {:induction false} HashConcat(gear: Gear, h: u64, s: Bytes, t: Bytes)
    ensures HashOf(gear, h, s + t) == HashOf(gear, HashOf(gear, h, s), t)
    decreases |s|
  {
    if s == [] {
      assert s + t == t;
    } else {
      assert (s + t)[1..] == s[1..] + t;
      HashConcat(gear, Roll(gear, h, s[0]), s[1..], t);
    }
  }

  // Two bodies that end alike, and that both have a boundary at the same
  // distance from the end with at least b common bytes before it, have the
  // same boundaries from there to the end.
  lemma Resynchronises(ct: Cutter, x: Bytes, y: Bytes, kx: nat, ky: nat)
    requires ct.b <= 40
    requires var cx, cy := Chunks(ct, x, Span(0, |x|)), Chunks(ct, y, Span(0, |y|));
             && 0 < kx <= |cx| && 0 < ky <= |cy|
             && var qx, qy := cx[kx - 1].end, cy[ky - 1].end;
                ct.b <= qx <= |x| && ct.b <= qy <= |y| && x[qx - ct.b..] == y[qy - ct.b..]
    ensures var cx, cy := Chunks(ct, x, Span(0, |x|)), Chunks(ct, y, Span(0, |y|));
            var qx, qy := cx[kx - 1].end, cy[ky - 1].end;
            Shifted(cx[kx..], qx, 0) == Shifted(cy[ky..], qy, 0)
  {
    var b := ct.b;
    var cx, cy := Chunks(ct, x, Span(0, |x|)), Chunks(ct, y, Span(0, |y|));
    var qx, qy := cx[kx - 1].end, cy[ky - 1].end;
    CutsFromBoundary(ct, x, 0, 0, 0, kx, []);
    CutsFromBoundary(ct, y, 0, 0, 0, ky, []);
    var last := x[qx - b..qx];
    assert last == x[qx - b..][..b] == y[qy - b..][..b] == y[qy - b..qy];
    assert x[qx..] == x[qx - b..][b..] && y[qy..] == y[qy - b..][b..];
    assert x[..qx] == x[..qx - b] + last && y[..qy] == y[..qy - b] + last;
    var px, py := HashOf(ct.gear, 0, x[..qx - b]), HashOf(ct.gear, 0, y[..qy - b]);
    HashConcat(ct.gear, 0, x[..qx - b], last);
    HashConcat(ct.gear, 0, y[..qy - b], last);
    CutDependsOnLastBytes(ct.gear, px, py, last, b);
    SameCuts(ct, x, y, qx, qx, HashOf(ct.gear, 0, x[..qx]), qy, qy, HashOf(ct.gear, 0, y[..qy]));
  }
}

// Unsigned LEB128 varints (section 7.6 of DWARF 5), and the bounded reader.

module Varints {
  import opened Results
  import opened Blocks

  datatype CodecError =
    | VarintTooLong
    | Eof(at: nat)
    | Bad(what: string)
    | TooLarge(n: nat)
    | UnknownTag(tag: Byte)
    | UnknownKind
    | BrokenLink

  // A parse at a position gives a value and the position after it.
  type Parsed<T> = Result<(T, nat), CodecError>

  function Uvarint(v: nat): (r: Bytes)
    ensures |r| > 0
  {
    if v < 128 then [v] else [v % 128 + 128] + Uvarint(v / 128)
  }

  function VarintLen(v: nat): nat { |Uvarint(v)| }

  method WriteUvarint(buf: Bytes, v: u64) returns (out: Bytes)
    ensures out == buf + Uvarint(v)
  {
    out := buf;
    var x: nat := v;
    while true
      invariant out + Uvarint(x) == buf + Uvarint(v)
      decreases x
    {
      var byte := x % 128;
      var rest := x / 128;
      if rest == 0 {
        return out + [byte];
      }
      out := out + [byte + 128];
      x := rest;
    }
  }

  method CountVarint(v: u64) returns (n: nat)
    ensures n == VarintLen(v)
  {
    n := 1;
    var x: nat := v / 128;
    ghost var left: nat := v;
    while x != 0
      invariant x == left / 128
      invariant n - 1 + VarintLen(left) == VarintLen(v)
      decreases x
    {
      left := x;
      n := n + 1;
      x := x / 128;
    }
  }

  function Pow128(i: nat): (p: nat)
    ensures p > 0
  {
    if i == 0 then 1 else 128 * Pow128(i - 1)
  }

  // The seven low bits of the i-th byte, shifted into place in 64 bits; at the
  // tenth byte all but one of them fall off.
  function Shifted(b: Byte, i: nat): u64 {
    ((b % 128) * Pow128(i)) % TWO64
  }

  function UvarintFrom(buf: Bytes, pos: nat, i: nat, acc: u64): Parsed<u64>
    requires i <= 10
    decreases 10 - i
  {
    if i == 10 then Err(VarintTooLong)
    else if pos >= |buf| then Err(Eof(pos))
    else
      var sum := acc + Shifted(buf[pos], i);
      if sum >= TWO64 then Err(VarintTooLong)
      else if buf[pos] < 128 then Ok((sum, pos + 1))
      else UvarintFrom(buf, pos + 1, i + 1, sum)
  }

  function UvarintAt(buf: Bytes, pos: nat): Parsed<u64> { UvarintFrom(buf, pos, 0, 0) }

  // `part` stands at `pos` in `buf`.
  predicate StandsAt(buf: Bytes, pos: nat, part: Bytes) {
    pos + |part| <= |buf| && buf[pos..pos + |part|] == part
  }

  lemma StandsSplit(buf: Bytes, pos: nat, a: Bytes, b: Bytes)
    requires StandsAt(buf, pos, a + b)
    ensures StandsAt(buf, pos, a) && StandsAt(buf, pos + |a|, b)
  {
    assert (a + b)[..|a|] == a && (a + b)[|a|..] == b;
    assert buf[pos..pos + |a|] == buf[pos..pos + |a + b|][..|a|];
    assert buf[pos + |a|..pos + |a| + |b|] == buf[pos..pos + |a + b|][|a|..];
  }

  lemma StandsHead(buf: Bytes, pos: nat, x: Byte, rest: Bytes)
    requires StandsAt(buf, pos, [x] + rest)
    ensures pos < |buf| && buf[pos] == x && StandsAt(buf, pos + 1, rest)
  {
    assert buf[pos..pos + 1 + |rest|][0] == x;
    StandsSplit(buf, pos, [x], rest);
  }

  lemma WholeStands(buf: Bytes)
    ensures StandsAt(buf, 0, buf)
  {
    assert buf[0..|buf|] == buf;
  }

  lemma Pow128Ten()
    ensures Pow128(9) == 0x8000_0000_0000_0000 && Pow128(10) > TWO64
  {
    assert Pow128(3) == 128 * 128 * 128;
    assert Pow128(6) == 128 * 128 * 128 * Pow128(3);
    assert Pow128(9) == 128 * 128 * 128 * Pow128(6);
  }

  lemma {:induction false} Pow128Grows(i: nat, j: nat)
    requires i <= j
    ensures Pow128(i) <= Pow128(j)
  {
    if i < j {
      Pow128Grows(i, j - 1);
    }
  }

  // Low digit and the rest, at their places.
  lemma Digit(v: nat, p: nat)
    ensures v * p == (v % 128) * p + (v / 128) * (128 * p)
  {
    assert v == v % 128 + 128 * (v / 128);
    assert (v % 128 + 128 * (v / 128)) * p == (v % 128) * p + (128 * (v / 128)) * p by {
      Spread(v % 128, 128 * (v / 128), p);
    }
    assert (128 * (v / 128)) * p == (v / 128) * (128 * p) by {
      Swap(v / 128, p);
    }
  }

  lemma Spread(a: int, b: int, p: int)
    ensures (a + b) * p == a * p + b * p
  {
  }

  lemma Swap(a: int, p: int)
    ensures (128 * a) * p == a * (128 * p)
  {
  }

  lemma AtLeast(a: nat, p: nat)
    requires a >= 1
    ensures a * p >= p
  {
    assert a * p == (a - 1) * p + p;
    assert (a - 1) * p >= 0;
  }

  // The next digit fits in 64 bits, and what is left is one place further up.
  lemma NextDigit(b: Byte, i: nat, acc: u64, v: nat, whole: u64)
    requires acc + v * Pow128(i) == whole && b % 128 == v % 128
    ensures var low := Shifted(b, i);
            acc + low < TWO64 && acc + low + (v / 128) * Pow128(i + 1) == whole
    ensures v >= 128 ==> i < 9
  {
    var p := Pow128(i);
    Digit(v, p);
    NonNegative(v / 128, 128 * p);
    NonNegative(v % 128, p);
    if v >= 128 {
      AtLeast(v / 128, 128 * p);
      Pow128Ten();
      if i >= 9 {
        Pow128Grows(10, i + 1);
      }
    }
  }

  lemma NonNegative(a: nat, b: nat)
    ensures a * b >= 0
  {
  }

  // One more byte of a varint, the last one or not.
  lemma OneByteOn(buf: Bytes, pos: nat, i: nat, acc: u64)
    requires i < 10 && pos < |buf| && acc + Shifted(buf[pos], i) < TWO64
    ensures UvarintFrom(buf, pos, i, acc) ==
            if buf[pos] < 128 then Ok((acc + Shifted(buf[pos], i), pos + 1))
            else UvarintFrom(buf, pos + 1, i + 1, acc + Shifted(buf[pos], i))
  {
    hide Shifted;
  }

  // Reading back what was written, from any place among the digits.
  lemma {:induction false} ReadsDigits(buf: Bytes, pos: nat, i: nat, acc: u64, v: nat, whole: u64)
    requires i < 10 && StandsAt(buf, pos, Uvarint(v)) && acc + v * Pow128(i) == whole
    ensures UvarintFrom(buf, pos, i, acc) == Ok((whole, pos + |Uvarint(v)|))
    decreases v
  {
    hide Shifted, Pow128, UvarintFrom, StandsAt;
    if v < 128 {
      assert [v] + [] == Uvarint(v);
      StandsHead(buf, pos, v, []);
      NextDigit(v, i, acc, v, whole);
      NoDigitLeft(v, i);
      OneByteOn(buf, pos, i, acc);
    } else {
      StandsHead(buf, pos, v % 128 + 128, Uvarint(v / 128));
      NextDigit(v % 128 + 128, i, acc, v, whole);
      OneByteOn(buf, pos, i, acc);
      ReadsDigits(buf, pos + 1, i + 1, acc + Shifted(v % 128 + 128, i), v / 128, whole);
    }
  }

  lemma NoDigitLeft(v: nat, i: nat)
    requires v < 128
    ensures (v / 128) * Pow128(i + 1) == 0
  {
    assert v / 128 == 0;
  }

  // Decoding what was encoded gives the value back and stops right after it,
  // whatever follows.
  lemma UvarintRoundTrip(buf: Bytes, pos: nat, v: u64)
    requires StandsAt(buf, pos, Uvarint(v))
    ensures UvarintAt(buf, pos) == Ok((v, pos + VarintLen(v)))
  {
    ReadsDigits(buf, pos, 0, 0, v, v);
  }

  // How many bytes a value takes: at most k exactly when it is below 128^k.
  lemma {:induction false} VarintLenBound(v: nat, k: nat)
    requires k > 0
    ensures VarintLen(v) <= k <==> v < Pow128(k)
    decreases k
  {
    if k == 1 {
      assert Pow128(1) == 128;
    } else {
      assert Pow128(k) == 128 * Pow128(k - 1);
      VarintLenBound(v / 128, k - 1);
      if v < 128 {
        Pow128Grows(1, k);
        assert Pow128(1) == 128;
      }
    }
  }

  // ---------- Which accepted encodings the encoder writes ----------

  // The low digit of a byte below the tenth never wraps.
  lemma ShiftedLow(b: Byte, i: nat, acc: nat)
    requires i < 9 && acc < Pow128(i)
    ensures Shifted(b, i) == (b % 128) * Pow128(i) && acc + Shifted(b, i) < Pow128(i + 1)
  {
    Pow128Ten();
    Pow128Grows(i + 1, 9);
    var p := Pow128(i);
    assert Pow128(i + 1) == 128 * p;
    Spread(128 - b % 128 - 1, b % 128, p);
    NonNegative(128 - b % 128 - 1, p);
    NonNegative(b % 128, p);
    Spread(127, 1, p);
  }

  // Of the tenth byte one bit is kept.
  lemma ShiftedTen(b: Byte)
    ensures Shifted(b, 9) == (b % 2) * Pow128(9)
  {
    Pow128Ten();
    assert b % 128 == 2 * (b % 128 / 2) + b % 2;
    assert (b % 128) * 0x8000_0000_0000_0000 == (b % 128 / 2) * TWO64 + (b % 2) * 0x8000_0000_0000_0000;
  }

  // `buf[pos..e]`, from the i-th byte of a varint to its end, adds `v` to
  // `acc` in units of its first digit, and is what the encoder writes for `v`
  // exactly when no byte of it is wasted.
  predicate Tail(buf: Bytes, pos: nat, i: nat, acc: nat, w: nat, e: nat, v: nat) {
    && w == acc + v * Pow128(i)
    && pos < e <= |buf| && e - pos + i <= 10
    && (buf[pos..e] == Uvarint(v) <==> (e == pos + 1 || buf[e - 1] != 0) && (e - pos + i == 10 ==> buf[e - 1] < 2))
    && (buf[e - 1] != 0 && (e - pos + i == 10 ==> buf[e - 1] < 2) ==> v > 0)
    && (e == pos + 1 && buf[e - 1] == 0 ==> v == 0)
  }

  lemma {:induction false} TailValue(buf: Bytes, pos: nat, i: nat, acc: u64) returns (v: nat)
    requires i < 10 && acc < Pow128(i) && UvarintFrom(buf, pos, i, acc).Ok?
    ensures var (w, e) := UvarintFrom(buf, pos, i, acc).value; Tail(buf, pos, i, acc, w, e, v)
    decreases 10 - i
  {
    hide *;
    OkGoesOn(buf, pos, i, acc);
    var b := buf[pos];
    if b < 128 {
      v := if i == 9 then b % 2 else b;
      LastByte(buf, pos, i, acc);
    } else {
      ShiftedLow(b, i, acc);
      var tail := TailValue(buf, pos + 1, i + 1, acc + Shifted(b, i));
      v := b % 128 + 128 * tail;
      var (w, e) := UvarintFrom(buf, pos, i, acc).value;
      MoreBytes(buf, pos, i, acc, w, e, tail);
    }
  }

  lemma OkGoesOn(buf: Bytes, pos: nat, i: nat, acc: u64)
    requires i < 10 && UvarintFrom(buf, pos, i, acc).Ok?
    ensures pos < |buf| && acc + Shifted(buf[pos], i) < 0x1_0000_0000_0000_0000
    ensures buf[pos] < 128 ==> UvarintFrom(buf, pos, i, acc).value == (acc + Shifted(buf[pos], i), pos + 1)
    ensures buf[pos] >= 128 ==> i < 9 && UvarintFrom(buf, pos, i, acc) ==
                                         UvarintFrom(buf, pos + 1, i + 1, acc + Shifted(buf[pos], i))
  {
    hide Shifted;
  }

  lemma LastByte(buf: Bytes, pos: nat, i: nat, acc: nat)
    requires i < 10 && acc < Pow128(i) && pos < |buf| && buf[pos] < 128
    ensures Tail(buf, pos, i, acc, acc + Shifted(buf[pos], i), pos + 1, if i == 9 then buf[pos] % 2 else buf[pos])
  {
    var b := buf[pos];
    var v := if i == 9 then b % 2 else b;
    if i == 9 {
      ShiftedTen(b);
    } else {
      ShiftedLow(b, i, acc);
    }
    hide Shifted, Pow128, Uvarint;
    OneDigit(buf, pos, v);
  }

  lemma OneDigit(buf: Bytes, pos: nat, v: nat)
    requires pos < |buf| && v < 128
    ensures buf[pos..pos + 1] == Uvarint(v) <==> buf[pos] == v
  {
    assert buf[pos..pos + 1] == [buf[pos]] && Uvarint(v) == [v];
  }

  lemma MoreBytes(buf: Bytes, pos: nat, i: nat, acc: nat, w: nat, e: nat, tail: nat)
    requires pos < |buf| && buf[pos] >= 128
    requires Tail(buf, pos + 1, i + 1, acc + (buf[pos] % 128) * Pow128(i), w, e, tail)
    ensures Tail(buf, pos, i, acc, w, e, buf[pos] % 128 + 128 * tail)
  {
    var low, p := buf[pos] % 128, Pow128(i);
    assert Pow128(i + 1) == 128 * p;
    hide Pow128;
    var v := low + 128 * tail;
    Spread(low, 128 * tail, p);
    Swap(tail, p);
    FirstDigit(buf, pos, e, tail);
  }

  lemma FirstDigit(buf: Bytes, pos: nat, e: nat, tail: nat)
    requires pos + 1 < e <= |buf| && buf[pos] >= 128
    ensures buf[pos..e] == Uvarint(buf[pos] % 128 + 128 * tail) <==> tail > 0 && buf[pos + 1..e] == Uvarint(tail)
  {
    var v := buf[pos] % 128 + 128 * tail;
    assert v % 128 == buf[pos] % 128 && v / 128 == tail;
    var s := buf[pos..e];
    assert s[0] == buf[pos] && s[1..] == buf[pos + 1..e] && s == [buf[pos]] + s[1..];
    if tail > 0 {
      assert Uvarint(v)[1..] == Uvarint(tail) && Uvarint(v)[0] == buf[pos];
    }
  }

  // Decoding then encoding gives the same bytes back exactly when no byte was
  // wasted: the last is not zero, unless it is the only one, and a tenth byte
  // has no bit above the one that is kept.
  lemma CanonicalExactly(buf: Bytes, pos: nat)
    requires UvarintAt(buf, pos).Ok?
    ensures var (v, e) := UvarintAt(buf, pos).value;
            && pos < e <= |buf| && e <= pos + 10
            && (buf[pos..e] == Uvarint(v) <==>
                (e == pos + 1 || buf[e - 1] != 0) && (e == pos + 10 ==> buf[e - 1] < 2))
  {
    var v := TailValue(buf, pos, 0, 0);
    assert Pow128(0) == 1;
  }

  // The encoder does not write this for zero, but it is read as zero.
  lemma OverlongIsAccepted()
    ensures UvarintAt([0x80, 0x00], 0) == Ok((0, 2)) && Uvarint(0) != [0x80, 0x00]
  {
    var buf: Bytes := [0x80, 0x00];
    assert Pow128(0) == 1 && Pow128(1) == 128;
    assert UvarintFrom(buf, 1, 1, 0) == Ok((0, 2));
  }

  // Nor does anything complain about the six bits of a tenth byte that fall
  // off: whichever they are, only the lowest counts.
  lemma TenthByteIsCut(b: Byte)
    requires b < 128
    ensures UvarintAt(seq(9, i => 0x80) + [b], 0) == Ok(((b % 2) * 0x8000_0000_0000_0000, 10))
  {
    var buf: Bytes := seq(9, i => 0x80) + [b];
    SkipsZeroDigits(buf, 9);
    OneByteOn(buf, 9, 9, 0);
    ShiftedTen(b);
    Pow128Ten();
  }

  lemma {:induction false} SkipsZeroDigits(buf: Bytes, n: nat)
    requires n < 10 && n <= |buf| && forall k :: 0 <= k < n ==> buf[k] == 0x80
    ensures UvarintAt(buf, 0) == UvarintFrom(buf, n, n, 0)
  {
    if n > 0 {
      SkipsZeroDigits(buf, n - 1);
      hide UvarintFrom, Shifted;
      ShiftedNothing(n - 1);
      OneByteOn(buf, n - 1, n - 1, 0);
    }
  }

  lemma ShiftedNothing(i: nat)
    ensures Shifted(0x80, i) == 0
  {
    hide Pow128;
  }

  // ---------- The reader ----------

  function TakeAt(buf: Bytes, pos: nat, n: nat): Parsed<Bytes> {
    if pos + n > |buf| then Err(Eof(pos)) else Ok((buf[pos..pos + n], pos + n))
  }

  class Reader {
    const buf: Bytes
    var pos: nat

    ghost predicate Valid()
      reads this
    {
      pos <= |buf|
    }

    constructor (buf: Bytes)
      ensures Valid() && this.buf == buf && pos == 0
    {
      this.buf, this.pos := buf, 0;
    }

    method Uvarint() returns (r: Result<u64, CodecError>)
      requires Valid()
      modifies this
      ensures Valid()
      ensures r.Ok? ==> UvarintAt(buf, old(pos)) == Ok((r.value, pos))
      ensures r.Err? ==> UvarintAt(buf, old(pos)) == Err(r.error)
    {
      var out: u64 := 0;
      for i := 0 to 10
        invariant Valid() && pos >= old(pos)
        invariant UvarintAt(buf, old(pos)) == UvarintFrom(buf, pos, i, out)
      {
        if pos == |buf| {
          return Err(Eof(pos));
        }
        var b := buf[pos];
        var sum := out + Shifted(b, i);
        if sum >= TWO64 {
          return Err(VarintTooLong);
        }
        pos := pos + 1;
        out := sum;
        if b < 128 {
          return Ok(out);
        }
      }
      return Err(VarintTooLong);
    }

    method Take(n: nat) returns (r: Result<Bytes, CodecError>)
      requires Valid()
      modifies this
      ensures Valid()
      ensures r.Ok? ==> TakeAt(buf, old(pos), n) == Ok((r.value, pos))
      ensures r.Err? ==> TakeAt(buf, old(pos), n) == Err(r.error) && pos == old(pos)
    {
      if |buf| - pos < n {
        return Err(Eof(pos));
      }
      var s := buf[pos..pos + n];
      pos := pos + n;
      return Ok(s);
    }

    method Rest() returns (s: Bytes)
      requires Valid()
      modifies this
      ensures Valid() && s == buf[old(pos)..] && pos == |buf|
    {
      s := buf[pos..];
      pos := |buf|;
    }
  }
}

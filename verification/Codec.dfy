// Frames, programs, blocks and digest lists on the wire.

module Codec {
  import opened Results
  import opened Blocks
  import opened Varints
  import Programs

  const MAX_FRAME_PAYLOAD: nat := 64 * 1024 * 1024
  const HEADER: nat := 12
  const PROG_MARK: Byte := 0xFF

  // Frame tags are the bytes 1 to 23.
  type Tag = t: Byte | 1 <= t <= 23 witness 1

  // A digest as it travels.
  type Digest16 = d: Bytes | |d| == 16 witness seq(16, i => 0)

  type WireInstr = InstrOf<Digest16>
  type WireBlock = BlockOf<Digest16>

  datatype Frame = Frame(tag: Tag, stream: u64, payload: Bytes)

  // ---------- Frames ----------

  function Encoded(f: Frame): Bytes {
    [f.tag] + (Uvarint(f.stream) + (Uvarint(|f.payload|) + f.payload))
  }

  function TagAt(buf: Bytes, pos: nat): Parsed<Tag> {
    var (b, p) :- TakeAt(buf, pos, 1);
    if 1 <= b[0] <= 23 then Ok((b[0], p)) else Err(UnknownTag(b[0]))
  }

  function FrameAt(buf: Bytes, pos: nat): Parsed<Frame> {
    var (tag, p) :- TagAt(buf, pos);
    var (stream, q) :- UvarintAt(buf, p);
    var (len, r) :- UvarintAt(buf, q);
    if len > MAX_FRAME_PAYLOAD then Err(TooLarge(len))
    else
      var (payload, e) :- TakeAt(buf, r, len);
      Ok((Frame(tag, stream, payload), e))
  }

  function Decoded(raw: Bytes): Result<Frame, CodecError> {
    var (f, e) :- FrameAt(raw, 0);
    if e != |raw| then Err(Bad("trailing frame bytes")) else Ok(f)
  }

  method Encode(f: Frame) returns (out: Bytes)
    requires |f.payload| < TWO64
    ensures out == Encoded(f)
  {
    out := [f.tag];
    out := WriteUvarint(out, f.stream);
    out := WriteUvarint(out, |f.payload|);
    out := out + f.payload;
    assert out == Encoded(f);
  }

  method Decode(raw: Bytes) returns (r: Result<Frame, CodecError>)
    ensures r == Decoded(raw)
  {
    var rd := new Reader(raw);
    var b :- rd.Take(1);
    if !(1 <= b[0] <= 23) {
      return Err(UnknownTag(b[0]));
    }
    var stream :- rd.Uvarint();
    var len :- rd.Uvarint();
    if len > MAX_FRAME_PAYLOAD {
      return Err(TooLarge(len));
    }
    var payload :- rd.Take(len);
    if |raw| - rd.pos != 0 {
      return Err(Bad("trailing frame bytes"));
    }
    return Ok(Frame(b[0], stream, payload));
  }

  lemma TagReads(buf: Bytes, pos: nat, tag: Tag)
    requires StandsAt(buf, pos, [tag])
    ensures TagAt(buf, pos) == Ok((tag, pos + 1))
  {
  }

  // A frame written anywhere reads back as itself and ends where it ends.
  lemma FrameReads(buf: Bytes, pos: nat, f: Frame)
    requires StandsAt(buf, pos, Encoded(f)) && |f.payload| <= MAX_FRAME_PAYLOAD
    ensures FrameAt(buf, pos) == Ok((f, pos + |Encoded(f)|))
  {
    hide UvarintAt, Uvarint, TagAt;
    var s, n := Uvarint(f.stream), Uvarint(|f.payload|);
    StandsSplit(buf, pos, [f.tag], s + (n + f.payload));
    StandsSplit(buf, pos + 1, s, n + f.payload);
    StandsSplit(buf, pos + 1 + |s|, n, f.payload);
    TagReads(buf, pos, f.tag);
    UvarintRoundTrip(buf, pos + 1, f.stream);
    UvarintRoundTrip(buf, pos + 1 + |s|, |f.payload|);
  }

  lemma FrameRoundTrip(f: Frame)
    requires |f.payload| <= MAX_FRAME_PAYLOAD
    ensures Decoded(Encoded(f)) == Ok(f)
  {
    WholeStands(Encoded(f));
    FrameReads(Encoded(f), 0, f);
  }

  // ---------- A link full of frames ----------

  function OnTheWire(fs: seq<Frame>): Bytes {
    if fs == [] then [] else Encoded(fs[0]) + OnTheWire(fs[1..])
  }

  // Frames read until the link is cleanly empty, or something is wrong.
  function ReadAll(buf: Bytes, pos: nat): Result<seq<Frame>, CodecError>
    decreases if pos < |buf| then |buf| - pos else 0
  {
    if pos >= |buf| then Ok([])
    else
      var (f, e) :- FrameAt(buf, pos);
      if e <= pos then Err(BrokenLink)
      else
        var rest :- ReadAll(buf, e);
        Ok([f] + rest)
  }

  // Any sequence of frames written back to back reads back as the same
  // sequence: the encoding delimits itself.
  lemma {:induction false} WireIsSelfDelimiting(buf: Bytes, pos: nat, fs: seq<Frame>)
    requires StandsAt(buf, pos, OnTheWire(fs)) && pos + |OnTheWire(fs)| == |buf|
    requires forall f :: f in fs ==> |f.payload| <= MAX_FRAME_PAYLOAD
    ensures ReadAll(buf, pos) == Ok(fs)
    decreases |fs|
  {
    hide *;
    WireCons(fs);
    if fs != [] {
      var f := fs[0];
      assert f in fs && forall g :: g in fs[1..] ==> g in fs;
      StandsSplit(buf, pos, Encoded(f), OnTheWire(fs[1..]));
      FrameReads(buf, pos, f);
      WireIsSelfDelimiting(buf, pos + |Encoded(f)|, fs[1..]);
      ReadStep(buf, pos, f, pos + |Encoded(f)|, fs[1..]);
      assert fs == [f] + fs[1..];
    } else {
      ReadNothing(buf, pos);
    }
  }

  lemma WireCons(fs: seq<Frame>)
    ensures OnTheWire(fs) == if fs == [] then [] else Encoded(fs[0]) + OnTheWire(fs[1..])
    ensures fs != [] ==> |Encoded(fs[0])| > 0
  {
  }

  lemma ReadStep(buf: Bytes, pos: nat, f: Frame, e: nat, rest: seq<Frame>)
    requires pos < e <= |buf| && FrameAt(buf, pos) == Ok((f, e)) && ReadAll(buf, e) == Ok(rest)
    ensures ReadAll(buf, pos) == Ok([f] + rest)
  {
    hide FrameAt;
  }

  lemma ReadNothing(buf: Bytes, pos: nat)
    requires pos >= |buf|
    ensures ReadAll(buf, pos) == Ok([])
  {
  }

  // ---------- Writing and reading on the link ----------

  // What fits the fixed header of twelve bytes.
  predicate HeaderFits(f: Frame) {
    1 + VarintLen(f.stream) + VarintLen(|f.payload|) <= HEADER
  }

  method WriteVarintInto(dst: array<Byte>, at: nat, v: u64) returns (n: nat)
    requires at + VarintLen(v) <= dst.Length
    modifies dst
    ensures n == at + VarintLen(v) && dst[at..n] == Uvarint(v)
    ensures dst[..at] == old(dst[..at])
  {
    n := at;
    var x: nat := v;
    while true
      invariant at <= n <= dst.Length
      invariant dst[at..n] + Uvarint(x) == Uvarint(v)
      invariant n + VarintLen(x) == at + VarintLen(v)
      invariant dst[..at] == old(dst[..at])
      decreases x
    {
      var byte := x % 128;
      var rest := x / 128;
      ghost var done := dst[at..n];
      dst[n] := if rest == 0 then byte else byte + 128;
      assert dst[at..n + 1] == done + [dst[n]];
      n := n + 1;
      if rest == 0 {
        return;
      }
      x := rest;
    }
  }

  // Writing a frame through a header buffer of twelve bytes puts on the link
  // exactly its encoding. A header that does not fit is an index out of range.
  method WriteFrame(f: Frame) returns (wire: Bytes)
    requires |f.payload| < TWO64 && HeaderFits(f)
    ensures wire == Encoded(f)
  {
    var hdr := new Byte[HEADER](i => 0);
    hdr[0] := f.tag;
    var n := WriteVarintInto(hdr, 1, f.stream);
    assert hdr[..1] == [f.tag];
    ghost var start := hdr[..n];
    assert start == [f.tag] + Uvarint(f.stream);
    var m := WriteVarintInto(hdr, n, |f.payload|);
    assert hdr[..m] == start + Uvarint(|f.payload|);
    wire := hdr[..m] + f.payload;
    hide Uvarint;
    assert wire == Encoded(f);
  }

  function FrameCharge(f: Frame): nat { |f.payload| + 12 }

  // The header fits, and the flat charge per frame never understates, for
  // every stream below 2^49 and every payload within the limit; and whether it
  // fits is the same as whether the charge covers the frame.
  lemma HeaderNeverOverflows(f: Frame)
    ensures f.stream < 0x2_0000_0000_0000 && |f.payload| <= MAX_FRAME_PAYLOAD ==> HeaderFits(f)
    ensures HeaderFits(f) <==> |Encoded(f)| <= FrameCharge(f)
  {
    assert Pow128(2) == 128 * Pow128(1) && Pow128(1) == 128;
    assert Pow128(4) == 128 * 128 * Pow128(2);
    assert Pow128(6) == 128 * 128 * Pow128(4) && Pow128(7) == 128 * Pow128(6);
    VarintLenBound(f.stream, 7);
    VarintLenBound(|f.payload|, 4);
  }

  // Exactly how far: the longer the payload, the fewer bytes its length leaves
  // for the stream number. From 2^49 on a payload of 2 MiB overflows it.
  lemma HeaderFitsExactly(f: Frame)
    requires |f.payload| < 0x1000_0000
    ensures |f.payload| < 0x80 ==> HeaderFits(f)
    ensures 0x80 <= |f.payload| < 0x4000 ==> (HeaderFits(f) <==> f.stream < 0x8000_0000_0000_0000)
    ensures 0x4000 <= |f.payload| < 0x20_0000 ==> (HeaderFits(f) <==> f.stream < 0x100_0000_0000_0000)
    ensures 0x20_0000 <= |f.payload| ==> (HeaderFits(f) <==> f.stream < 0x2_0000_0000_0000)
  {
    Powers();
    hide Uvarint, Pow128;
    var n := |f.payload|;
    VarintLenBound(n, 1);
    VarintLenBound(n, 2);
    VarintLenBound(n, 3);
    VarintLenBound(n, 4);
    VarintLenBound(f.stream, 7);
    VarintLenBound(f.stream, 8);
    VarintLenBound(f.stream, 9);
    VarintLenBound(f.stream, 10);
  }

  lemma Powers()
    ensures Pow128(1) == 0x80 && Pow128(2) == 0x4000 && Pow128(3) == 0x20_0000 && Pow128(4) == 0x1000_0000
    ensures Pow128(7) == 0x2_0000_0000_0000 && Pow128(8) == 0x100_0000_0000_0000
    ensures Pow128(9) == 0x8000_0000_0000_0000 && Pow128(10) > TWO64
  {
    Pow128Ten();
    assert Pow128(2) == 128 * Pow128(1) && Pow128(1) == 128;
    assert Pow128(4) == 128 * 128 * Pow128(2) && Pow128(3) == 128 * Pow128(2);
    assert Pow128(6) == 128 * 128 * Pow128(4);
    assert Pow128(8) == 128 * 128 * Pow128(6) && Pow128(7) == 128 * Pow128(6);
  }

  // Reading one byte at a time from the link. Running out inside a varint is a
  // broken link.
  method ReadVarint(wire: Bytes, pos: nat) returns (r: Parsed<u64>)
    requires pos <= |wire|
    ensures r.Ok? <==> UvarintAt(wire, pos).Ok?
    ensures r.Ok? ==> r == UvarintAt(wire, pos) && pos < r.value.1 <= |wire|
  {
    var out: u64 := 0;
    var p := pos;
    for i := 0 to 10
      invariant pos <= p <= |wire|
      invariant UvarintAt(wire, pos) == UvarintFrom(wire, p, i, out)
    {
      if p == |wire| {
        return Err(BrokenLink);
      }
      var b := wire[p];
      p := p + 1;
      var sum := out + Shifted(b, i);
      if sum >= TWO64 {
        return Err(VarintTooLong);
      }
      out := sum;
      if b < 128 {
        return Ok((out, p));
      }
    }
    return Err(VarintTooLong);
  }

  // One frame, or none on a clean end between frames.
  method ReadFrame(wire: Bytes, pos: nat) returns (r: Result<Option<(Frame, nat)>, CodecError>)
    requires pos <= |wire|
    ensures pos == |wire| ==> r == Ok(None)
    ensures pos < |wire| ==> (r.Ok? <==> FrameAt(wire, pos).Ok?)
    ensures pos < |wire| && r.Ok? ==> r.value == Some(FrameAt(wire, pos).value) && pos < r.value.value.1 <= |wire|
  {
    hide UvarintAt;
    if pos == |wire| {
      return Ok(None);
    }
    assert wire[pos..pos + 1] == [wire[pos]];
    if !(1 <= wire[pos] <= 23) {
      return Err(UnknownTag(wire[pos]));
    }
    var first :- ReadVarint(wire, pos + 1);
    var (stream, p) := first;
    var second :- ReadVarint(wire, p);
    var (len, q) := second;
    if len > MAX_FRAME_PAYLOAD {
      return Err(TooLarge(len));
    }
    if q + len > |wire| {
      return Err(BrokenLink);
    }
    return Ok(Some((Frame(wire[pos], stream, wire[q..q + len]), q + len)));
  }

  function AfterFrames(done: seq<Frame>, r: Result<seq<Frame>, CodecError>): Result<seq<Frame>, CodecError> {
    if r.Ok? then Ok(done + r.value) else r
  }

  // Frame after frame until the link is empty.
  method ReadLink(wire: Bytes) returns (r: Result<seq<Frame>, CodecError>)
    ensures r.Ok? <==> ReadAll(wire, 0).Ok?
    ensures r.Ok? ==> r == ReadAll(wire, 0)
  {
    hide FrameAt;
    var out: seq<Frame> := [];
    var pos := 0;
    ghost var goal := ReadAll(wire, 0);
    assert goal.Ok? ==> out + goal.value == goal.value;
    while pos < |wire|
      invariant pos <= |wire| && goal == AfterFrames(out, ReadAll(wire, pos))
      decreases |wire| - pos
    {
      var got := ReadFrame(wire, pos);
      if got.Err? {
        return Err(got.error);
      }
      var (f, e) := got.value.value;
      ghost var rest := ReadAll(wire, e);
      assert rest.Ok? ==> out + ([f] + rest.value) == out + [f] + rest.value;
      out := out + [f];
      pos := e;
    }
    assert out + [] == out;
    return Ok(out);
  }

  // ---------- Programs ----------

  function InstrBytes(i: WireInstr): Bytes {
    match i
    case Lit(b) => [0] + (Uvarint(|b|) + b)
    case Ref(d, len) => [1] + (d + Uvarint(len))
  }

  function InstrsBytes(p: seq<WireInstr>): Bytes {
    if p == [] then [] else InstrBytes(p[0]) + InstrsBytes(p[1..])
  }

  function ProgramBytes(p: seq<WireInstr>): Bytes { Uvarint(|p|) + InstrsBytes(p) }

  function LitAt(buf: Bytes, pos: nat): Parsed<WireInstr> {
    var (len, q) :- UvarintAt(buf, pos);
    if len > MAX_FRAME_PAYLOAD then Err(TooLarge(len))
    else
      var (b, r) :- TakeAt(buf, q, len);
      Ok((Lit(b), r))
  }

  function RefAt(buf: Bytes, pos: nat): Parsed<WireInstr> {
    var (d, q) :- TakeAt(buf, pos, 16);
    var (len, r) :- UvarintAt(buf, q);
    Ok((Ref(d, len), r))
  }

  function InstrAt(buf: Bytes, pos: nat): Parsed<WireInstr> {
    var (kind, p) :- TakeAt(buf, pos, 1);
    if kind[0] == 0 then LitAt(buf, p)
    else if kind[0] == 1 then RefAt(buf, p)
    else Err(Bad("unknown instr tag"))
  }

  function InstrsAt(buf: Bytes, pos: nat, n: nat): Parsed<seq<WireInstr>>
    decreases n
  {
    if n == 0 then Ok(([], pos))
    else
      var (i, q) :- InstrAt(buf, pos);
      var (rest, e) :- InstrsAt(buf, q, n - 1);
      Ok(([i] + rest, e))
  }

  function ProgramIn(raw: Bytes, max: nat): Result<seq<WireInstr>, CodecError> {
    var (n, p) :- UvarintAt(raw, 0);
    if n > max then Err(TooLarge(n))
    else
      var (instrs, e) :- InstrsAt(raw, p, n);
      if e != |raw| then Err(Bad("trailing program bytes")) else Ok(instrs)
  }

  method EncodeInstr(buf: Bytes, i: WireInstr) returns (out: Bytes)
    requires i.Lit? ==> |i.data| < TWO64
    ensures out == buf + InstrBytes(i)
  {
    hide Uvarint;
    match i {
      case Lit(b) =>
        out := WriteUvarint(buf + [0], |b|);
        out := out + b;
      case Ref(d, len) =>
        out := WriteUvarint(buf + [1] + d, len);
    }
    assert out == buf + InstrBytes(i);
  }

  method EncodeProgram(p: seq<WireInstr>) returns (out: Bytes)
    requires |p| < TWO64 && forall i :: i in p && i.Lit? ==> |i.data| < TWO64
    ensures out == ProgramBytes(p)
  {
    hide InstrBytes, Uvarint;
    out := WriteUvarint([], |p|);
    for k := 0 to |p|
      invariant out + InstrsBytes(p[k..]) == ProgramBytes(p)
    {
      assert p[k..][0] == p[k] && p[k..][1..] == p[k + 1..];
      out := EncodeInstr(out, p[k]);
    }
  }

  method DecodeInstr(rd: Reader) returns (r: Result<WireInstr, CodecError>)
    requires rd.Valid()
    modifies rd
    ensures rd.Valid()
    ensures r.Ok? ==> InstrAt(rd.buf, old(rd.pos)) == Ok((r.value, rd.pos))
    ensures r.Err? ==> InstrAt(rd.buf, old(rd.pos)) == Err(r.error)
  {
    hide UvarintAt;
    var kind :- rd.Take(1);
    if kind[0] == 0 {
      var len :- rd.Uvarint();
      if len > MAX_FRAME_PAYLOAD {
        return Err(TooLarge(len));
      }
      var b :- rd.Take(len);
      return Ok(Lit(b));
    }
    if kind[0] == 1 {
      var d :- rd.Take(16);
      var len :- rd.Uvarint();
      return Ok(Ref(d, len));
    }
    return Err(Bad("unknown instr tag"));
  }

  function AfterInstrs(done: seq<WireInstr>, r: Parsed<seq<WireInstr>>): Parsed<seq<WireInstr>> {
    if r.Ok? then Ok((done + r.value.0, r.value.1)) else r
  }

  method DecodeProgram(raw: Bytes, max: nat) returns (r: Result<seq<WireInstr>, CodecError>)
    ensures r == ProgramIn(raw, max)
  {
    hide UvarintAt, InstrAt;
    var rd := new Reader(raw);
    var n :- rd.Uvarint();
    if n > max {
      return Err(TooLarge(n));
    }
    var out: seq<WireInstr> := [];
    ghost var goal := InstrsAt(raw, rd.pos, n);
    assert goal.Ok? ==> out + goal.value.0 == goal.value.0;
    for k := 0 to n
      invariant rd.Valid() && rd.buf == raw
      invariant goal == AfterInstrs(out, InstrsAt(raw, rd.pos, n - k))
    {
      var i :- DecodeInstr(rd);
      ghost var rest := InstrsAt(raw, rd.pos, n - k - 1);
      assert rest.Ok? ==> out + ([i] + rest.value.0) == out + [i] + rest.value.0;
      out := out + [i];
    }
    assert out + [] == out;
    if |raw| - rd.pos != 0 {
      return Err(Bad("trailing program bytes"));
    }
    return Ok(out);
  }

  predicate LitsFit(p: seq<WireInstr>) {
    forall i :: i in p && i.Lit? ==> |i.data| <= MAX_FRAME_PAYLOAD
  }

  lemma KindReads(buf: Bytes, pos: nat, x: Byte)
    requires StandsAt(buf, pos, [x])
    ensures TakeAt(buf, pos, 1) == Ok(([x], pos + 1))
  {
  }

  lemma InstrReads(buf: Bytes, pos: nat, i: WireInstr)
    requires StandsAt(buf, pos, InstrBytes(i)) && LitsFit([i])
    ensures InstrAt(buf, pos) == Ok((i, pos + |InstrBytes(i)|))
  {
    hide UvarintAt, Uvarint;
    assert i in [i];
    match i {
      case Lit(b) =>
        var n := Uvarint(|b|);
        StandsSplit(buf, pos, [0], n + b);
        StandsSplit(buf, pos + 1, n, b);
        KindReads(buf, pos, 0);
        UvarintRoundTrip(buf, pos + 1, |b|);
      case Ref(d, len) =>
        StandsSplit(buf, pos, [1], d + Uvarint(len));
        StandsSplit(buf, pos + 1, d, Uvarint(len));
        KindReads(buf, pos, 1);
        UvarintRoundTrip(buf, pos + 17, len);
    }
  }

  lemma {:induction false} InstrsRead(buf: Bytes, pos: nat, p: seq<WireInstr>)
    requires StandsAt(buf, pos, InstrsBytes(p)) && LitsFit(p)
    ensures InstrsAt(buf, pos, |p|) == Ok((p, pos + |InstrsBytes(p)|))
    decreases |p|
  {
    hide InstrAt, InstrBytes;
    if p != [] {
      var i := p[0];
      assert i in p && forall j :: j in p[1..] ==> j in p;
      StandsSplit(buf, pos, InstrBytes(i), InstrsBytes(p[1..]));
      assert LitsFit([i]);
      InstrReads(buf, pos, i);
      InstrsRead(buf, pos + |InstrBytes(i)|, p[1..]);
      assert p == [i] + p[1..];
    }
  }

  // A program within the limits decodes to itself.
  lemma ProgramRoundTrip(p: seq<WireInstr>, max: nat)
    requires |p| <= max && |p| < TWO64 && LitsFit(p)
    ensures ProgramIn(ProgramBytes(p), max) == Ok(p)
  {
    hide UvarintAt, InstrsAt;
    var raw := ProgramBytes(p);
    WholeStands(raw);
    StandsSplit(raw, 0, Uvarint(|p|), InstrsBytes(p));
    UvarintRoundTrip(raw, 0, |p|);
    InstrsRead(raw, VarintLen(|p|), p);
  }

  // By how much an instruction's length field differs from the three bytes the
  // cost model charges for it.
  function LenField(i: WireInstr): int {
    VarintLen(OutLen(i)) - 3
  }

  function LenFields(p: seq<WireInstr>): int {
    if p == [] then 0 else LenField(p[0]) + LenFields(p[1..])
  }

  // The encoding's exact size: the modelled cost, the count the model leaves
  // out, and the length fields it takes to be three bytes.
  lemma {:induction false} EncodedCost(p: seq<WireInstr>)
    ensures |InstrsBytes(p)| == Programs.ProgramWireCost(p) + LenFields(p)
  {
    hide Uvarint;
    if p != [] {
      EncodedCost(p[1..]);
    }
  }

  lemma {:induction false} ShortLengths(p: seq<WireInstr>)
    requires forall i :: i in p ==> OutLen(i) < 0x20_0000
    ensures LenFields(p) <= 0
  {
    if p != [] {
      assert p[0] in p;
      assert Pow128(1) == 128 && Pow128(3) == 128 * 128 * Pow128(1);
      VarintLenBound(OutLen(p[0]), 3);
      assert forall i :: i in p[1..] ==> i in p;
      ShortLengths(p[1..]);
    }
  }

  // The cost model understates a program by its instruction count at most, when
  // every length is below 2^21; in general its error is exactly the count and
  // the length fields.
  lemma CostModelError(p: seq<WireInstr>)
    ensures |ProgramBytes(p)| == Programs.ProgramWireCost(p) + VarintLen(|p|) + LenFields(p)
    ensures (forall i :: i in p ==> OutLen(i) < 0x20_0000) ==>
              |ProgramBytes(p)| <= Programs.ProgramWireCost(p) + VarintLen(|p|)
  {
    EncodedCost(p);
    if forall i :: i in p ==> OutLen(i) < 0x20_0000 {
      ShortLengths(p);
    }
  }

  // Reached already by one reference: 21 bytes against a modelled 20, whenever
  // its length takes three bytes.
  lemma CostModelUnderstates(d: Digest16, len: u64)
    requires 0x4000 <= len < 0x20_0000
    ensures |ProgramBytes([Ref(d, len)])| == 21 && Programs.ProgramWireCost<Digest16>([Ref(d, len)]) == 20
  {
    var p: seq<WireInstr> := [Ref(d, len)];
    Powers();
    hide Uvarint, Pow128;
    VarintLenBound(len, 2);
    VarintLenBound(len, 3);
    VarintLenBound(1, 1);
    CostModelError(p);
    assert p[1..] == [];
  }

  // ---------- Blocks ----------

  function KindByte(k: BlockKind): Byte {
    match k
    case Raw => 0
    case JsonMember => 1
    case Media => 2
    case Chunk => 3
    case Text => 4
  }

  function KindOf(b: Byte): Option<BlockKind> {
    if b == 0 then Some(Raw)
    else if b == 1 then Some(JsonMember)
    else if b == 2 then Some(Media)
    else if b == 3 then Some(Chunk)
    else if b == 4 then Some(Text)
    else None
  }

  function BodyBytes(b: WireBlock): Bytes {
    match b.body
    case BytesBody(x) => x
    case ProgramBody(p) => ProgramBytes(p)
  }

  // Kind and length, then the body.
  function BlockTail(b: WireBlock): Bytes {
    [KindByte(b.kind)] + (Uvarint(b.len) + BodyBytes(b))
  }

  function BlockBytes(b: WireBlock): Bytes {
    b.digest + ((if b.body.ProgramBody? then [PROG_MARK] else []) + BlockTail(b))
  }

  // Kind and length of a block, and where its body starts.
  function BlockHead(buf: Bytes): Result<(BlockKind, u64, nat), CodecError> {
    var (k, p) :- TakeAt(buf, 0, 1);
    if KindOf(k[0]).None? then Err(UnknownKind)
    else
      var (len, q) :- UvarintAt(buf, p);
      if q > |buf| then Err(BrokenLink) else Ok((KindOf(k[0]).value, len, q))
  }

  function RawBlockIn(d: Digest16, raw: Bytes): Result<WireBlock, CodecError> {
    var (kind, len, q) :- BlockHead(raw);
    var body := raw[q..];
    if |body| != len then Err(Bad("block length mismatch")) else Ok(Block(d, kind, len, BytesBody(body)))
  }

  function ProgramBlockIn(d: Digest16, raw: Bytes, max: nat): Result<WireBlock, CodecError> {
    var (kind, len, q) :- BlockHead(raw);
    var p :- ProgramIn(raw[q..], max);
    Ok(Block(d, kind, len, ProgramBody(p)))
  }

  function BlockIn(raw: Bytes, max: nat): Result<WireBlock, CodecError> {
    if |raw| < 18 then Err(Bad("short block frame"))
    else if raw[16] == PROG_MARK then ProgramBlockIn(raw[..16], raw[17..], max)
    else RawBlockIn(raw[..16], raw[16..])
  }

  method EncodeBody(b: WireBlock) returns (out: Bytes)
    requires b.body.ProgramBody? ==>
               |b.body.instrs| < TWO64 && forall i :: i in b.body.instrs && i.Lit? ==> |i.data| < TWO64
    ensures out == BodyBytes(b)
  {
    hide ProgramBytes;
    match b.body {
      case BytesBody(x) =>
        out := x;
      case ProgramBody(p) =>
        out := EncodeProgram(p);
    }
  }

  method EncodeBlock(b: WireBlock) returns (out: Bytes)
    requires b.body.ProgramBody? ==>
               |b.body.instrs| < TWO64 && forall i :: i in b.body.instrs && i.Lit? ==> |i.data| < TWO64
    ensures out == BlockBytes(b)
  {
    hide Uvarint, BodyBytes, KindByte;
    out := b.digest;
    if b.body.ProgramBody? {
      out := out + [PROG_MARK];
    }
    ghost var before := out;
    out := WriteUvarint(out + [KindByte(b.kind)], b.len);
    var body := EncodeBody(b);
    out := out + body;
    assert out == before + BlockTail(b);
  }

  method DecodeHead(rd: Reader) returns (r: Result<(BlockKind, u64), CodecError>)
    requires rd.Valid() && rd.pos == 0
    modifies rd
    ensures rd.Valid()
    ensures r.Ok? ==> BlockHead(rd.buf) == Ok((r.value.0, r.value.1, rd.pos))
    ensures r.Err? ==> BlockHead(rd.buf) == Err(r.error)
  {
    hide UvarintAt;
    var k :- rd.Take(1);
    var kind := KindOf(k[0]);
    if kind.None? {
      return Err(UnknownKind);
    }
    var len :- rd.Uvarint();
    return Ok((kind.value, len));
  }

  method DecodeBlock(raw: Bytes, max: nat) returns (r: Result<WireBlock, CodecError>)
    ensures r == BlockIn(raw, max)
  {
    hide UvarintAt, ProgramIn, BlockHead;
    if |raw| < 18 {
      return Err(Bad("short block frame"));
    }
    var digest: Digest16 := raw[..16];
    var body := raw[16..];
    if body[0] == PROG_MARK {
      assert body[1..] == raw[17..];
      var rd := new Reader(body[1..]);
      var head :- DecodeHead(rd);
      var rest := rd.Rest();
      var p :- DecodeProgram(rest, max);
      return Ok(Block(digest, head.0, head.1, ProgramBody(p)));
    }
    var rd := new Reader(body);
    var head :- DecodeHead(rd);
    var rest := rd.Rest();
    if |rest| != head.1 {
      return Err(Bad("block length mismatch"));
    }
    return Ok(Block(digest, head.0, head.1, BytesBody(rest)));
  }

  lemma KindsRead(k: BlockKind)
    ensures KindOf(KindByte(k)) == Some(k)
  {
  }

  lemma HeadReads(b: WireBlock)
    ensures BlockHead(BlockTail(b)) == Ok((b.kind, b.len, 1 + VarintLen(b.len)))
    ensures BlockTail(b)[1 + VarintLen(b.len)..] == BodyBytes(b)
  {
    hide UvarintAt, Uvarint, KindOf, KindByte, BodyBytes;
    var raw, body := BlockTail(b), BodyBytes(b);
    WholeStands(raw);
    StandsSplit(raw, 0, [KindByte(b.kind)], Uvarint(b.len) + body);
    StandsSplit(raw, 1, Uvarint(b.len), body);
    KindReads(raw, 0, KindByte(b.kind));
    KindsRead(b.kind);
    UvarintRoundTrip(raw, 1, b.len);
  }

  // A block frame decodes to the block: always for a program within the
  // limits, and for bytes exactly when the declared length is right.
  lemma BlockRoundTrip(b: WireBlock, max: nat)
    requires b.body.ProgramBody? ==>
               |b.body.instrs| <= max && |b.body.instrs| < TWO64 && LitsFit(b.body.instrs)
    ensures BlockIn(BlockBytes(b), max) == Ok(b) <==> b.body.ProgramBody? || |b.body.data| == b.len
  {
    hide UvarintAt, Uvarint, BlockHead, ProgramIn, ProgramBytes, BlockTail;
    var raw, tail := BlockBytes(b), BlockTail(b);
    HeadReads(b);
    TailStarts(b);
    if b.body.ProgramBody? {
      assert raw == b.digest + ([PROG_MARK] + tail);
      assert raw[..16] == b.digest && raw[16] == PROG_MARK && raw[17..] == tail;
      ProgramRoundTrip(b.body.instrs, max);
    } else {
      assert [] + tail == tail;
      assert raw[..16] == b.digest && raw[16..] == tail && raw[16] == tail[0];
    }
  }

  lemma TailStarts(b: WireBlock)
    ensures |BlockTail(b)| >= 2 && BlockTail(b)[0] == KindByte(b.kind) != PROG_MARK
  {
  }

  // ---------- What gets across ----------

  // The sizes of the encodings, whatever stands for the digests that travel.
  function InstrSize<D>(i: InstrOf<D>): nat {
    match i
    case Lit(b) => 1 + VarintLen(|b|) + |b|
    case Ref(_, len) => 17 + VarintLen(len)
  }

  function InstrsSize<D>(p: seq<InstrOf<D>>): nat {
    if p == [] then 0 else InstrSize(p[0]) + InstrsSize(p[1..])
  }

  function ProgramSize<D>(p: seq<InstrOf<D>>): nat { VarintLen(|p|) + InstrsSize(p) }

  function BlockSize<D>(b: BlockOf<D>): nat {
    17 + VarintLen(b.len) + match b.body
                            case BytesBody(x) => |x|
                            case ProgramBody(p) => 1 + ProgramSize(p)
  }

  // Which programs and blocks reach the other end: a frame's payload is limited,
  // and so is the number of instructions.
  predicate ProgramPasses<D>(p: seq<InstrOf<D>>, max: nat) {
    |p| <= max && ProgramSize(p) <= MAX_FRAME_PAYLOAD
  }

  predicate BlockPasses<D>(b: BlockOf<D>, max: nat) {
    && BlockSize(b) <= MAX_FRAME_PAYLOAD
    && match b.body
       case BytesBody(x) => |x| == b.len
       case ProgramBody(p) => |p| <= max
  }

  lemma {:induction false} InstrsSizeIs(p: seq<WireInstr>)
    ensures |InstrsBytes(p)| == InstrsSize(p)
    ensures InstrsSize(p) <= MAX_FRAME_PAYLOAD ==> LitsFit(p)
  {
    hide Uvarint, LitsFit;
    if p != [] {
      InstrsSizeIs(p[1..]);
      LitsCons(p);
    } else {
      NoLits();
    }
  }

  lemma LitsCons(p: seq<WireInstr>)
    requires p != []
    ensures LitsFit(p) <==> (p[0].Lit? ==> |p[0].data| <= MAX_FRAME_PAYLOAD) && LitsFit(p[1..])
  {
    assert p == [p[0]] + p[1..];
  }

  lemma NoLits()
    ensures LitsFit([])
  {
  }

  // The two predicates say exactly what the encoder, the frame limit and the
  // decoder together let through.
  lemma ProgramPassesExactly(p: seq<WireInstr>, max: nat)
    requires |p| < TWO64
    ensures ProgramPasses(p, max) <==>
            |ProgramBytes(p)| <= MAX_FRAME_PAYLOAD && ProgramIn(ProgramBytes(p), max) == Ok(p)
  {
    InstrsSizeIs(p);
    assert |ProgramBytes(p)| == ProgramSize(p);
    if |p| <= max && ProgramSize(p) <= MAX_FRAME_PAYLOAD {
      ProgramRoundTrip(p, max);
    } else if |p| > max {
      CountRefused(p, max);
    }
  }

  lemma BlockPassesExactly(b: WireBlock, max: nat)
    requires b.body.ProgramBody? ==> |b.body.instrs| < TWO64
    ensures BlockPasses(b, max) <==> |BlockBytes(b)| <= MAX_FRAME_PAYLOAD && BlockIn(BlockBytes(b), max) == Ok(b)
  {
    match b.body
    case BytesBody(x) =>
      BlockRoundTrip(b, max);
    case ProgramBody(p) =>
      InstrsSizeIs(p);
      if |p| <= max && InstrsSize(p) <= MAX_FRAME_PAYLOAD {
        BlockRoundTrip(b, max);
      }
      if |p| > max {
        TooManyRefused(b, max);
      }
  }

  lemma TooManyRefused(b: WireBlock, max: nat)
    requires b.body.ProgramBody? && max < |b.body.instrs| < TWO64
    ensures BlockIn(BlockBytes(b), max) != Ok(b)
  {
    hide UvarintAt, Uvarint, BlockHead, ProgramIn, ProgramBytes, BlockTail;
    var raw, tail, p := BlockBytes(b), BlockTail(b), b.body.instrs;
    HeadReads(b);
    assert raw == b.digest + ([PROG_MARK] + tail);
    assert raw[16..] == [PROG_MARK] + tail && raw[17..] == tail;
    CountRefused(p, max);
  }

  lemma CountRefused(p: seq<WireInstr>, max: nat)
    requires max < |p| < TWO64
    ensures ProgramIn(ProgramBytes(p), max).Err?
  {
    hide UvarintAt, Uvarint, InstrsBytes;
    var raw := ProgramBytes(p);
    WholeStands(raw);
    StandsSplit(raw, 0, Uvarint(|p|), InstrsBytes(p));
    UvarintRoundTrip(raw, 0, |p|);
  }

  // ---------- Digest lists ----------

  function DigestsBytes(ds: seq<Digest16>): Bytes {
    if ds == [] then [] else ds[0] + DigestsBytes(ds[1..])
  }

  function NeedsBytes(ds: seq<Digest16>): Bytes { Uvarint(|ds|) + DigestsBytes(ds) }

  function DigestsAt(buf: Bytes, pos: nat, n: nat): Parsed<seq<Digest16>>
    decreases n
  {
    if n == 0 then Ok(([], pos))
    else
      var (d, q) :- TakeAt(buf, pos, 16);
      var (rest, e) :- DigestsAt(buf, q, n - 1);
      Ok(([d] + rest, e))
  }

  function NeedsIn(raw: Bytes, max: nat): Result<seq<Digest16>, CodecError> {
    var (n, p) :- UvarintAt(raw, 0);
    if n > max then Err(TooLarge(n))
    else
      var (ds, e) :- DigestsAt(raw, p, n);
      Ok(ds)
  }

  method EncodeNeeds(ds: seq<Digest16>) returns (out: Bytes)
    requires |ds| < TWO64
    ensures out == NeedsBytes(ds)
  {
    out := WriteUvarint([], |ds|);
    for k := 0 to |ds|
      invariant out + DigestsBytes(ds[k..]) == NeedsBytes(ds)
    {
      assert ds[k..][0] == ds[k] && ds[k..][1..] == ds[k + 1..];
      out := out + ds[k];
    }
  }

  method DecodeNeeds(raw: Bytes, max: nat) returns (r: Result<seq<Digest16>, CodecError>)
    ensures r == NeedsIn(raw, max)
  {
    hide UvarintAt;
    var rd := new Reader(raw);
    var n :- rd.Uvarint();
    if n > max {
      return Err(TooLarge(n));
    }
    var out: seq<Digest16> := [];
    ghost var goal := DigestsAt(raw, rd.pos, n);
    assert goal.Ok? ==> out + goal.value.0 == goal.value.0;
    for k := 0 to n
      invariant rd.Valid() && rd.buf == raw
      invariant var rest := DigestsAt(raw, rd.pos, n - k);
                if rest.Ok? then goal == Ok((out + rest.value.0, rest.value.1)) else goal == Err(rest.error)
    {
      var d :- rd.Take(16);
      ghost var rest := DigestsAt(raw, rd.pos, n - k - 1);
      assert rest.Ok? ==> out + ([d] + rest.value.0) == out + [d] + rest.value.0;
      out := out + [d];
    }
    assert out + [] == out;
    return Ok(out);
  }

  lemma {:induction false} DigestsRead(buf: Bytes, pos: nat, ds: seq<Digest16>)
    requires StandsAt(buf, pos, DigestsBytes(ds))
    ensures DigestsAt(buf, pos, |ds|) == Ok((ds, pos + |DigestsBytes(ds)|))
    decreases |ds|
  {
    if ds != [] {
      StandsSplit(buf, pos, ds[0], DigestsBytes(ds[1..]));
      DigestsRead(buf, pos + 16, ds[1..]);
      assert ds == [ds[0]] + ds[1..];
    }
  }

  // A digest list decodes to itself, whatever is appended to it, exactly when
  // it is within the limit.
  lemma NeedsRoundTrip(ds: seq<Digest16>, max: nat, more: Bytes)
    requires |ds| < TWO64
    ensures NeedsIn(NeedsBytes(ds) + more, max) == Ok(ds) <==> |ds| <= max
  {
    hide UvarintAt, DigestsAt;
    var raw := NeedsBytes(ds) + more;
    WholeStands(raw);
    StandsSplit(raw, 0, NeedsBytes(ds), more);
    StandsSplit(raw, 0, Uvarint(|ds|), DigestsBytes(ds));
    UvarintRoundTrip(raw, 0, |ds|);
    DigestsRead(raw, VarintLen(|ds|), ds);
  }

  // ---------- Bytes on the wire ----------

  lemma SomeUvarints()
    ensures Uvarint(1) == [1] && Uvarint(2) == [2] && Uvarint(300) == [0xAC, 0x02]
  {
  }

  lemma RefBytes(d: Digest16)
    ensures InstrBytes(WireInstr.Ref(d, 300)) == [1] + d + [0xAC, 0x02]
    ensures InstrsBytes([WireInstr.Ref(d, 300)]) == [1] + d + [0xAC, 0x02]
  {
    SomeUvarints();
    hide Uvarint;
    var p: seq<WireInstr> := [WireInstr.Ref(d, 300)];
    assert p[1..] == [] && InstrsBytes([]) == [];
  }

  lemma PairBytes(d: Digest16)
    ensures ProgramBytes([WireInstr.Lit([9]), WireInstr.Ref(d, 300)]) == [2, 0, 1, 9, 1] + d + [0xAC, 0x02]
  {
    SomeUvarints();
    RefBytes(d);
    hide Uvarint;
    var p: seq<WireInstr> := [WireInstr.Lit([9]), WireInstr.Ref(d, 300)];
    assert p[1..] == [WireInstr.Ref(d, 300)];
    assert InstrBytes(p[0]) == [0, 1, 9];
    hide InstrBytes;
    assert InstrsBytes(p) == [0, 1, 9] + ([1] + d + [0xAC, 0x02]);
  }

  lemma OneRefProgram(e: Digest16)
    ensures ProgramBytes([WireInstr.Ref(e, 300)]) == [1] + ([1] + e + [0xAC, 0x02])
  {
    SomeUvarints();
    RefBytes(e);
    hide Uvarint, InstrsBytes;
  }

  lemma ProgramBlockParts(d: Digest16, p: seq<WireInstr>)
    ensures BlockBytes(Block(d, JsonMember, 300, ProgramBody(p))) ==
            d + ([0xFF] + ([1] + (Uvarint(300) + ProgramBytes(p))))
  {
    hide Uvarint, ProgramBytes;
  }

  lemma Joined(d: Bytes, e: Bytes)
    ensures d + ([0xFF] + ([1] + ([0xAC, 0x02] + ([1] + ([1] + e + [0xAC, 0x02]))))) ==
            d + [0xFF, 1, 0xAC, 0x02, 1, 1] + e + [0xAC, 0x02]
  {
  }

  lemma ProgramBlockBytes(d: Digest16, e: Digest16)
    ensures BlockBytes(Block(d, JsonMember, 300, ProgramBody([WireInstr.Ref(e, 300)]))) ==
            d + [0xFF, 1, 0xAC, 0x02, 1, 1] + e + [0xAC, 0x02]
  {
    hide *;
    SomeUvarints();
    OneRefProgram(e);
    ProgramBlockParts(d, [WireInstr.Ref(e, 300)]);
    Joined(d, e);
  }

  lemma TwoNeeds(d: Digest16, e: Digest16)
    ensures NeedsBytes([d, e]) == [2] + d + e
  {
    SomeUvarints();
    hide Uvarint;
    var ds: seq<Digest16> := [d, e];
    assert ds[1..] == [e] && [e][1..] == [] && DigestsBytes([]) == [];
    assert DigestsBytes([e]) == e;
  }

  // The formats byte by byte, of one small value each: 300 takes two bytes, its
  // low seven bits first; a frame is tag, stream, length, payload; a program is
  // its count, then a literal as 0, length, bytes and a reference as 1, digest,
  // length; a block is digest, a mark if it holds a program, kind, length, body.
  lemma WireBytes(d: Digest16, e: Digest16)
    ensures Encoded(Frame(7, 300, [5, 6])) == [7, 0xAC, 0x02, 2, 5, 6]
    ensures ProgramBytes([WireInstr.Lit([9]), WireInstr.Ref(d, 300)]) == [2, 0, 1, 9, 1] + d + [0xAC, 0x02]
    ensures BlockBytes(Block(d, Media, 1, BytesBody([9]))) == d + [2, 1, 9]
    ensures BlockBytes(Block(d, JsonMember, 300, ProgramBody([WireInstr.Ref(e, 300)]))) ==
            d + [0xFF, 1, 0xAC, 0x02, 1, 1] + e + [0xAC, 0x02]
    ensures NeedsBytes([d, e]) == [2] + d + e
  {
    SomeUvarints();
    hide Uvarint, ProgramBytes, NeedsBytes;
    PairBytes(d);
    ProgramBlockBytes(d, e);
    TwoNeeds(d, e);
  }
}

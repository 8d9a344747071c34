// The JSON span scanner. Each scan is a function of the buffer and the index
// it starts from, and a loop that computes it.

module Scan {
  import opened Results
  import opened Blocks
  import opened Policies

  const QUOTE: Byte := 0x22
  const BACKSLASH: Byte := 0x5C
  const OPEN_BRACE: Byte := 0x7B
  const CLOSE_BRACE: Byte := 0x7D
  const OPEN_BRACKET: Byte := 0x5B
  const CLOSE_BRACKET: Byte := 0x5D
  const COMMA: Byte := 0x2C
  const COLON: Byte := 0x3A
  const MINUS: Byte := 0x2D
  const PLUS: Byte := 0x2B
  const DOT: Byte := 0x2E
  const LETTER_U: Byte := 0x75

  const TRUE_TEXT: Bytes := [0x74, 0x72, 0x75, 0x65]
  const FALSE_TEXT: Bytes := [0x66, 0x61, 0x6C, 0x73, 0x65]
  const NULL_TEXT: Bytes := [0x6E, 0x75, 0x6C, 0x6C]

  const MAX_DEPTH: nat := 128

  datatype ScanError = Eof(at: nat) | Syntax(what: string, at: nat) | TooDeep(at: nat)

  datatype ValueKind = KString | KNumber | KObject | KArray | KBool | KNull

  datatype ValueSpan = ValueSpan(span: Span, kind: ValueKind)

  datatype Member = Member(key: Bytes, keySpan: Span, value: ValueSpan)

  type Scanned<T> = Result<T, ScanError>

  predicate IsWs(c: Byte) { c == 0x20 || c == 0x09 || c == 0x0D || c == 0x0A }
  predicate IsDigit(c: Byte) { 0x30 <= c <= 0x39 }
  predicate IsHex(c: Byte) { IsDigit(c) || 0x41 <= c <= 0x46 || 0x61 <= c <= 0x66 }
  predicate IsExp(c: Byte) { c == 0x65 || c == 0x45 }
  // One of " \ / b f n r t
  predicate IsEscape(c: Byte) {
    c == QUOTE || c == BACKSLASH || c == 0x2F || c == 0x62 || c == 0x66 || c == 0x6E || c == 0x72 || c == 0x74
  }

  function At(buf: Bytes, i: nat): Scanned<Byte> {
    if i < |buf| then Ok(buf[i]) else Err(Eof(i))
  }

  // ---------- Whitespace ----------

  function SkipWs(buf: Bytes, i: nat): (r: nat)
    ensures i <= r && (i <= |buf| ==> r <= |buf|)
    ensures forall k :: i <= k < r && k < |buf| ==> IsWs(buf[k])
    ensures r < |buf| ==> !IsWs(buf[r])
    decreases |buf| - i
  {
    if i < |buf| && IsWs(buf[i]) then SkipWs(buf, i + 1) else i
  }

  method SkipWhitespace(buf: Bytes, start: nat) returns (i: nat)
    ensures i == SkipWs(buf, start)
  {
    i := start;
    while i < |buf| && IsWs(buf[i])
      invariant SkipWs(buf, start) == SkipWs(buf, i)
      decreases |buf| - i
    {
      i := i + 1;
    }
  }

  // ---------- Strings ----------

  // Checks hex digits k..4 of the escape whose digits start at `j`.
  function HexFault(buf: Bytes, j: nat, k: nat): Option<ScanError>
    decreases 4 - k
  {
    if k >= 4 then None
    else if j + k >= |buf| then Some(Eof(j + k))
    else if !IsHex(buf[j + k]) then Some(Syntax("bad \\u escape", j + k))
    else HexFault(buf, j, k + 1)
  }

  // From inside a string, the index just past its closing quote.
  function StringEnd(buf: Bytes, i: nat): (r: Scanned<nat>)
    ensures r.Ok? ==> i < r.value <= |buf|
    decreases |buf| - i
  {
    if i >= |buf| then Err(Eof(i))
    else if buf[i] == QUOTE then Ok(i + 1)
    else if buf[i] == BACKSLASH then
      if i + 1 >= |buf| then Err(Eof(i + 1))
      else if IsEscape(buf[i + 1]) then StringEnd(buf, i + 2)
      else if buf[i + 1] == LETTER_U then
        match HexFault(buf, i + 2, 0)
        case Some(e) => Err(e)
        case None => StringEnd(buf, i + 6)
      else Err(Syntax("bad escape", i + 1))
    else if buf[i] < 0x20 then Err(Syntax("raw control byte in string", i))
    else StringEnd(buf, i + 1)
  }

  function StringSpan(buf: Bytes, pos: nat): (r: Scanned<Span>)
    ensures r.Ok? ==> r.value.start == pos && pos + 1 < r.value.end <= |buf|
  {
    var c :- At(buf, pos);
    if c != QUOTE then Err(Syntax("expected string", pos))
    else
      var e :- StringEnd(buf, pos + 1);
      Ok(Span(pos, e))
  }

  method ScanString(buf: Bytes, pos: nat) returns (r: Scanned<Span>)
    ensures r == StringSpan(buf, pos)
  {
    var q :- At(buf, pos);
    if q != QUOTE {
      return Err(Syntax("expected string", pos));
    }
    var i := pos + 1;
    while true
      invariant pos < i
      invariant StringEnd(buf, pos + 1) == StringEnd(buf, i)
      decreases |buf| - i
    {
      var c :- At(buf, i);
      if c == QUOTE {
        return Ok(Span(pos, i + 1));
      } else if c == BACKSLASH {
        var e :- At(buf, i + 1);
        if IsEscape(e) {
          i := i + 2;
        } else if e == LETTER_U {
          for k := 0 to 4
            invariant HexFault(buf, i + 2, 0) == HexFault(buf, i + 2, k)
          {
            var h :- At(buf, i + 2 + k);
            if !IsHex(h) {
              return Err(Syntax("bad \\u escape", i + 2 + k));
            }
          }
          i := i + 6;
        } else {
          return Err(Syntax("bad escape", i + 1));
        }
      } else if c < 0x20 {
        return Err(Syntax("raw control byte in string", i));
      } else {
        i := i + 1;
      }
    }
  }

  // ---------- Numbers and literals ----------

  function DigitsEnd(buf: Bytes, i: nat): (r: nat)
    ensures i <= r && (i <= |buf| ==> r <= |buf|)
    ensures forall k :: i <= k < r && k < |buf| ==> IsDigit(buf[k])
    ensures r < |buf| ==> !IsDigit(buf[r])
    decreases |buf| - i
  {
    if i < |buf| && IsDigit(buf[i]) then DigitsEnd(buf, i + 1) else i
  }

  method SkipDigits(buf: Bytes, start: nat) returns (i: nat)
    ensures i == DigitsEnd(buf, start)
  {
    i := start;
    while i < |buf| && IsDigit(buf[i])
      invariant DigitsEnd(buf, start) == DigitsEnd(buf, i)
      decreases |buf| - i
    {
      i := i + 1;
    }
  }

  function IntEnd(buf: Bytes, i: nat): Scanned<nat> {
    var c :- At(buf, i);
    if c == 0x30 then Ok(i + 1)
    else if IsDigit(c) then Ok(DigitsEnd(buf, i))
    else Err(Syntax("bad number", i))
  }

  function FracEnd(buf: Bytes, i: nat): Scanned<nat> {
    if i < |buf| && buf[i] == DOT then
      var e := DigitsEnd(buf, i + 1);
      if e == i + 1 then Err(Syntax("bad fraction", e)) else Ok(e)
    else Ok(i)
  }

  function ExpEnd(buf: Bytes, i: nat): Scanned<nat> {
    if i < |buf| && IsExp(buf[i]) then
      var j := if i + 1 < |buf| && (buf[i + 1] == PLUS || buf[i + 1] == MINUS) then i + 2 else i + 1;
      var e := DigitsEnd(buf, j);
      if e == j then Err(Syntax("bad exponent", e)) else Ok(e)
    else Ok(i)
  }

  function NumberSpan(buf: Bytes, start: nat): (r: Scanned<Span>)
    ensures r.Ok? ==> r.value.start == start < r.value.end <= |buf|
  {
    var c :- At(buf, start);
    var i :- IntEnd(buf, if c == MINUS then start + 1 else start);
    var j :- FracEnd(buf, i);
    var e :- ExpEnd(buf, j);
    Ok(Span(start, e))
  }

  method ScanFraction(buf: Bytes, i: nat) returns (r: Scanned<nat>)
    ensures r == FracEnd(buf, i)
  {
    if i < |buf| && buf[i] == DOT {
      var e := SkipDigits(buf, i + 1);
      if e == i + 1 {
        return Err(Syntax("bad fraction", e));
      }
      return Ok(e);
    }
    return Ok(i);
  }

  method ScanExponent(buf: Bytes, i: nat) returns (r: Scanned<nat>)
    ensures r == ExpEnd(buf, i)
  {
    if i < |buf| && IsExp(buf[i]) {
      var j := i + 1;
      if j < |buf| && (buf[j] == PLUS || buf[j] == MINUS) {
        j := j + 1;
      }
      var e := SkipDigits(buf, j);
      if e == j {
        return Err(Syntax("bad exponent", e));
      }
      return Ok(e);
    }
    return Ok(i);
  }

  method ScanNumber(buf: Bytes, start: nat) returns (r: Scanned<Span>)
    ensures r == NumberSpan(buf, start)
  {
    var i := start;
    var sign :- At(buf, i);
    if sign == MINUS {
      i := i + 1;
    }
    var first :- At(buf, i);
    if first == 0x30 {
      i := i + 1;
    } else if IsDigit(first) {
      i := SkipDigits(buf, i);
    } else {
      return Err(Syntax("bad number", i));
    }
    i :- ScanFraction(buf, i);
    i :- ScanExponent(buf, i);
    return Ok(Span(start, i));
  }

  function LiteralSpan(buf: Bytes, start: nat, lit: Bytes): Scanned<Span> {
    if |buf| < start + |lit| || buf[start..start + |lit|] != lit then Err(Syntax("bad literal", start))
    else Ok(Span(start, start + |lit|))
  }

  // ---------- Values ----------

  predicate IsOpen(c: Byte) { c == OPEN_BRACE || c == OPEN_BRACKET }
  predicate IsClose(c: Byte) { c == CLOSE_BRACE || c == CLOSE_BRACKET }

  // From inside `d` open brackets, the index just past the one that closes the
  // outermost, which has to be `close`. Only strings are looked into.
  function BracketsEnd(buf: Bytes, j: nat, d: nat, close: Byte): (r: Scanned<nat>)
    requires d > 0
    ensures r.Ok? ==> j < r.value <= |buf| && buf[r.value - 1] == close
    decreases |buf| - j
  {
    if j >= |buf| then Err(Eof(j))
    else if buf[j] == QUOTE then
      var s :- StringSpan(buf, j);
      BracketsEnd(buf, s.end, d, close)
    else if IsOpen(buf[j]) then
      if d + 1 > MAX_DEPTH then Err(TooDeep(j)) else BracketsEnd(buf, j + 1, d + 1, close)
    else if IsClose(buf[j]) then
      if d > 1 then BracketsEnd(buf, j + 1, d - 1, close)
      else if buf[j] != close then Err(Syntax("mismatched bracket", j))
      else Ok(j + 1)
    else BracketsEnd(buf, j + 1, d, close)
  }

  method ScanBrackets(buf: Bytes, start: nat, close: Byte) returns (r: Scanned<nat>)
    ensures r == BracketsEnd(buf, start, 1, close)
  {
    var j := start;
    var d := 1;
    while true
      invariant d > 0
      invariant BracketsEnd(buf, start, 1, close) == BracketsEnd(buf, j, d, close)
      decreases |buf| - j
    {
      var b :- At(buf, j);
      if b == QUOTE {
        var s :- ScanString(buf, j);
        j := s.end;
      } else if IsOpen(b) {
        d := d + 1;
        if d > MAX_DEPTH {
          return Err(TooDeep(j));
        }
        j := j + 1;
      } else if IsClose(b) {
        d := d - 1;
        j := j + 1;
        if d == 0 {
          if b != close {
            return Err(Syntax("mismatched bracket", j - 1));
          }
          return Ok(j);
        }
      } else {
        j := j + 1;
      }
    }
  }

  // A value that starts with the byte `c`, which opens no container.
  function ScalarAt(buf: Bytes, i: nat, c: Byte): (r: Scanned<ValueSpan>)
    ensures r.Ok? ==> r.value.span.start == i < r.value.span.end <= |buf|
    ensures r.Ok? ==> r.value.kind != KObject && r.value.kind != KArray
  {
    if c == QUOTE then
      var s :- StringSpan(buf, i);
      Ok(ValueSpan(s, KString))
    else if c == TRUE_TEXT[0] then
      var s :- LiteralSpan(buf, i, TRUE_TEXT);
      Ok(ValueSpan(s, KBool))
    else if c == FALSE_TEXT[0] then
      var s :- LiteralSpan(buf, i, FALSE_TEXT);
      Ok(ValueSpan(s, KBool))
    else if c == NULL_TEXT[0] then
      var s :- LiteralSpan(buf, i, NULL_TEXT);
      Ok(ValueSpan(s, KNull))
    else if c == MINUS || IsDigit(c) then
      var s :- NumberSpan(buf, i);
      Ok(ValueSpan(s, KNumber))
    else Err(Syntax("unexpected byte", i))
  }

  function ValueAt(buf: Bytes, i: nat): (r: Scanned<ValueSpan>)
    ensures r.Ok? ==> r.value.span.start == i < r.value.span.end <= |buf|
  {
    var c :- At(buf, i);
    if IsOpen(c) then
      var e :- BracketsEnd(buf, i + 1, 1, if c == OPEN_BRACE then CLOSE_BRACE else CLOSE_BRACKET);
      Ok(ValueSpan(Span(i, e), if c == OPEN_BRACE then KObject else KArray))
    else ScalarAt(buf, i, c)
  }

  function ValueSpanAt(buf: Bytes, pos: nat, depth: nat): (r: Scanned<ValueSpan>)
    ensures r.Ok? ==> r.value.span.start == SkipWs(buf, pos) && pos <= r.value.span.start < r.value.span.end <= |buf|
  {
    if depth > MAX_DEPTH then Err(TooDeep(pos)) else ValueAt(buf, SkipWs(buf, pos))
  }

  method ScanValue(buf: Bytes, pos: nat, depth: nat) returns (r: Scanned<ValueSpan>)
    ensures r == ValueSpanAt(buf, pos, depth)
  {
    if depth > MAX_DEPTH {
      return Err(TooDeep(pos));
    }
    var i := SkipWhitespace(buf, pos);
    var c :- At(buf, i);
    if c == QUOTE {
      var s :- ScanString(buf, i);
      return Ok(ValueSpan(s, KString));
    } else if IsOpen(c) {
      var close := if c == OPEN_BRACE then CLOSE_BRACE else CLOSE_BRACKET;
      var j :- ScanBrackets(buf, i + 1, close);
      return Ok(ValueSpan(Span(i, j), if c == OPEN_BRACE then KObject else KArray));
    } else if c == TRUE_TEXT[0] {
      var s :- LiteralSpan(buf, i, TRUE_TEXT);
      return Ok(ValueSpan(s, KBool));
    } else if c == FALSE_TEXT[0] {
      var s :- LiteralSpan(buf, i, FALSE_TEXT);
      return Ok(ValueSpan(s, KBool));
    } else if c == NULL_TEXT[0] {
      var s :- LiteralSpan(buf, i, NULL_TEXT);
      return Ok(ValueSpan(s, KNull));
    } else if c == MINUS || IsDigit(c) {
      var s :- ScanNumber(buf, i);
      return Ok(ValueSpan(s, KNumber));
    } else {
      return Err(Syntax("unexpected byte", i));
    }
  }

  // ---------- Unescaping ----------

  function HexValue(c: Byte): nat
    requires IsHex(c)
  {
    if IsDigit(c) then c - 0x30 else if c <= 0x46 then c - 0x37 else c - 0x57
  }

  function Hex4(h: seq<Byte>): (v: nat)
    requires |h| == 4 && forall k :: 0 <= k < 4 ==> IsHex(h[k])
    ensures v < 0x10000
  {
    ((HexValue(h[0]) * 16 + HexValue(h[1])) * 16 + HexValue(h[2])) * 16 + HexValue(h[3])
  }

  predicate IsHigh(cp: nat) { 0xD800 <= cp < 0xDC00 }
  predicate IsLow(cp: nat) { 0xDC00 <= cp < 0xE000 }

  // A Unicode scalar value, unless the code point is a surrogate or too large.
  function Scalar(cp: nat): Option<nat> {
    if IsHigh(cp) || IsLow(cp) || cp > 0x10FFFF then None else Some(cp)
  }

  function OrReplacement(c: Option<nat>): nat { if c.Some? then c.value else 0xFFFD }

  function Utf8(cp: nat): Bytes
    requires cp <= 0x10FFFF
  {
    if cp < 0x80 then [cp]
    else if cp < 0x800 then [0xC0 + cp / 0x40, 0x80 + cp % 0x40]
    else if cp < 0x10000 then [0xE0 + cp / 0x1000, 0x80 + cp / 0x40 % 0x40, 0x80 + cp % 0x40]
    else [0xF0 + cp / 0x40000, 0x80 + cp / 0x1000 % 0x40, 0x80 + cp / 0x40 % 0x40, 0x80 + cp % 0x40]
  }

  function Combine(hi: nat, lo: nat): nat
    requires IsHigh(hi) && IsLow(lo)
  {
    0x10000 + (hi - 0xD800) * 0x400 + (lo - 0xDC00)
  }

  function Unescaped(e: Byte): Byte
    requires IsEscape(e)
  {
    if e == 0x62 then 0x08 else if e == 0x66 then 0x0C else if e == 0x6E then 0x0A
    else if e == 0x72 then 0x0D else if e == 0x74 then 0x09 else e
  }

  function ReadHex4(body: Bytes, i: nat, base: nat): Scanned<nat> {
    if i + 4 > |body| then Err(Eof(base + i))
    else if !IsHex(body[i]) then Err(Syntax("bad hex in \\u", base + i))
    else if !IsHex(body[i + 1]) then Err(Syntax("bad hex in \\u", base + i + 1))
    else if !IsHex(body[i + 2]) then Err(Syntax("bad hex in \\u", base + i + 2))
    else if !IsHex(body[i + 3]) then Err(Syntax("bad hex in \\u", base + i + 3))
    else Ok(Hex4(body[i..i + 4]))
  }

  // The character of a `\u` escape whose digits start at `i`, and where the
  // text goes on after it.
  function ReadUnicode(body: Bytes, i: nat, base: nat): (r: Scanned<(nat, nat)>)
    ensures r.Ok? ==> r.value.0 <= 0x10FFFF && i < r.value.1 <= |body|
  {
    var cp :- ReadHex4(body, i, base);
    if IsLow(cp) then Err(Syntax("lone low surrogate", base + i + 4))
    else if IsHigh(cp) then
      if i + 6 > |body| || body[i + 4] != BACKSLASH || body[i + 5] != LETTER_U then
        Err(Syntax("unpaired high surrogate", base + i + 4))
      else
        var lo :- ReadHex4(body, i + 6, base);
        if !IsLow(lo) then Err(Syntax("bad surrogate pair", base + i + 10))
        else Ok((OrReplacement(Scalar(Combine(cp, lo))), i + 10))
    else Ok((OrReplacement(Scalar(cp)), i + 4))
  }

  function Prepend(b: Bytes, r: Scanned<Bytes>): Scanned<Bytes> {
    if r.Ok? then Ok(b + r.value) else r
  }

  function DecodeFrom(body: Bytes, i: nat, base: nat): Scanned<Bytes>
    decreases |body| - i
  {
    if i >= |body| then Ok([])
    else if body[i] != BACKSLASH then Prepend([body[i]], DecodeFrom(body, i + 1, base))
    else if i + 1 >= |body| then Err(Eof(base + i + 1))
    else if IsEscape(body[i + 1]) then Prepend([Unescaped(body[i + 1])], DecodeFrom(body, i + 2, base))
    else if body[i + 1] == LETTER_U then
      var u :- ReadUnicode(body, i + 2, base);
      Prepend(Utf8(u.0), DecodeFrom(body, u.1, base))
    else Err(Syntax("bad escape", base + i + 2))
  }

  function Decoded(buf: Bytes, s: Span): Scanned<Bytes>
    requires InBounds(s, buf)
  {
    var raw := Slice(s, buf);
    if |raw| < 2 || raw[0] != QUOTE || raw[|raw| - 1] != QUOTE then Err(Syntax("bad string span", s.start))
    else
      var body := raw[1..|raw| - 1];
      if BACKSLASH !in body then Ok(body) else DecodeFrom(body, 0, s.start)
  }

  method DecodeString(buf: Bytes, s: Span) returns (r: Scanned<Bytes>)
    requires InBounds(s, buf)
    ensures r == Decoded(buf, s)
  {
    var raw := Slice(s, buf);
    if |raw| < 2 || raw[0] != QUOTE || raw[|raw| - 1] != QUOTE {
      return Err(Syntax("bad string span", s.start));
    }
    var body := raw[1..|raw| - 1];
    if BACKSLASH !in body {
      return Ok(body);
    }
    var out: Bytes := [];
    var i := 0;
    PrependNothing(DecodeFrom(body, 0, s.start));
    while i < |body|
      invariant DecodeFrom(body, 0, s.start) == Prepend(out, DecodeFrom(body, i, s.start))
      decreases |body| - i
    {
      var c := body[i];
      if c != BACKSLASH {
        PrependTwice(out, [c], DecodeFrom(body, i + 1, s.start));
        out := out + [c];
        i := i + 1;
        continue;
      }
      if i + 1 >= |body| {
        return Err(Eof(s.start + i + 1));
      }
      var e := body[i + 1];
      if IsEscape(e) {
        PrependTwice(out, [Unescaped(e)], DecodeFrom(body, i + 2, s.start));
        out := out + [Unescaped(e)];
        i := i + 2;
      } else if e == LETTER_U {
        var u :- ReadUnicode(body, i + 2, s.start);
        PrependTwice(out, Utf8(u.0), DecodeFrom(body, u.1, s.start));
        out := out + Utf8(u.0);
        i := u.1;
      } else {
        return Err(Syntax("bad escape", s.start + i + 2));
      }
    }
    assert out + [] == out;
    return Ok(out);
  }

  lemma PrependNothing(r: Scanned<Bytes>)
    ensures Prepend([], r) == r
  {
    if r.Ok? {
      assert [] + r.value == r.value;
    }
  }

  lemma PrependTwice(a: Bytes, b: Bytes, r: Scanned<Bytes>)
    ensures Prepend(a, Prepend(b, r)) == Prepend(a + b, r)
  {
    if r.Ok? {
      assert a + (b + r.value) == a + b + r.value;
    }
  }

  // ---------- Members and elements ----------

  // Values in document order, apart from each other, inside [lo, hi).
  predicate Ordered(vs: seq<ValueSpan>, lo: nat, hi: nat) {
    vs == [] ||
    (lo <= vs[0].span.start < vs[0].span.end <= hi && Ordered(vs[1..], vs[0].span.end, hi))
  }

  lemma {:induction false} OrderedFrom(vs: seq<ValueSpan>, lo: nat, lo': nat, hi: nat)
    requires Ordered(vs, lo', hi) && lo <= lo'
    ensures Ordered(vs, lo, hi)
  {
  }

  function MemberValues(ms: seq<Member>): (vs: seq<ValueSpan>)
    ensures |vs| == |ms|
  {
    if ms == [] then [] else [ms[0].value] + MemberValues(ms[1..])
  }

  function After<T>(out: seq<T>, r: Scanned<seq<T>>): Scanned<seq<T>> {
    if r.Ok? then Ok(out + r.value) else r
  }

  lemma AfterNothing<T>(r: Scanned<seq<T>>)
    ensures After([], r) == r
  {
    if r.Ok? {
      assert [] + r.value == r.value;
    }
  }

  lemma AfterOne<T>(out: seq<T>, x: T, r: Scanned<seq<T>>)
    ensures After(out, After([x], r)) == After(out + [x], r)
  {
    if r.Ok? {
      assert out + ([x] + r.value) == out + [x] + r.value;
    }
  }

  function OneMember(buf: Bytes, obj: Span, i: nat): (r: Scanned<Member>)
    ensures r.Ok? ==> i < r.value.value.span.start < r.value.value.span.end <= obj.end
  {
    var ks :- StringSpan(buf, SkipWs(buf, i));
    var key :- Decoded(buf, ks);
    var j := SkipWs(buf, ks.end);
    var c :- At(buf, j);
    if c != COLON then Err(Syntax("expected colon", j))
    else
      var value :- ValueSpanAt(buf, j + 1, 1);
      if value.span.end > obj.end then Err(Syntax("value overruns object", value.span.start))
      else Ok(Member(key, ks, value))
  }

  // After a member that ends at `e`: where the next one starts, or none.
  function MemberNext(buf: Bytes, obj: Span, e: nat): (r: Scanned<Option<nat>>)
    ensures r.Ok? && r.value.Some? ==> e < r.value.value <= |buf|
  {
    var j := SkipWs(buf, e);
    var c :- At(buf, j);
    if c == COMMA then Ok(Some(j + 1))
    else if c == CLOSE_BRACE then
      if SkipWs(buf, j) + 1 != obj.end then Err(Syntax("trailing bytes in object", j)) else Ok(None)
    else Err(Syntax("expected , or }", j))
  }

  function MembersFrom(buf: Bytes, obj: Span, i: nat): Scanned<seq<Member>>
    decreases |buf| - i
  {
    var m :- OneMember(buf, obj, i);
    var next :- MemberNext(buf, obj, m.value.span.end);
    match next
    case None => Ok([m])
    case Some(i') => After([m], MembersFrom(buf, obj, i'))
  }

  lemma {:induction false} MembersOrdered(buf: Bytes, obj: Span, i: nat)
    requires MembersFrom(buf, obj, i).Ok?
    ensures Ordered(MemberValues(MembersFrom(buf, obj, i).value), i, obj.end)
    decreases |buf| - i
  {
    var m := OneMember(buf, obj, i).value;
    var next := MemberNext(buf, obj, m.value.span.end).value;
    if next.Some? {
      MembersOrdered(buf, obj, next.value);
      var rest := MembersFrom(buf, obj, next.value).value;
      OrderedFrom(MemberValues(rest), m.value.span.end, next.value, obj.end);
      assert ([m] + rest)[1..] == rest;
    }
  }

  function Members(buf: Bytes, obj: Span): (r: Scanned<seq<Member>>)
    requires InBounds(obj, buf)
    ensures r.Ok? ==> Ordered(MemberValues(r.value), obj.start + 1, obj.end)
  {
    var c :- At(buf, obj.start);
    if c != OPEN_BRACE then Err(Syntax("not an object", obj.start))
    else
      var i := SkipWs(buf, obj.start + 1);
      if i < obj.end && buf[i] == CLOSE_BRACE then Ok([])
      else
        var ms :- MembersFrom(buf, obj, i);
        MembersOrdered(buf, obj, i);
        OrderedFrom(MemberValues(ms), obj.start + 1, i, obj.end);
        Ok(ms)
  }

  method ScanMember(buf: Bytes, obj: Span, i: nat) returns (r: Scanned<Member>)
    ensures r == OneMember(buf, obj, i)
  {
    var at := SkipWhitespace(buf, i);
    var ks :- ScanString(buf, at);
    var key :- DecodeString(buf, ks);
    var j := SkipWhitespace(buf, ks.end);
    var c :- At(buf, j);
    if c != COLON {
      return Err(Syntax("expected colon", j));
    }
    var value :- ScanValue(buf, j + 1, 1);
    if value.span.end > obj.end {
      return Err(Syntax("value overruns object", value.span.start));
    }
    return Ok(Member(key, ks, value));
  }

  method ScanMemberNext(buf: Bytes, obj: Span, e: nat) returns (r: Scanned<Option<nat>>)
    ensures r == MemberNext(buf, obj, e)
  {
    var j := SkipWhitespace(buf, e);
    var c :- At(buf, j);
    if c == COMMA {
      return Ok(Some(j + 1));
    } else if c == CLOSE_BRACE {
      var k := SkipWhitespace(buf, j);
      if k + 1 != obj.end {
        return Err(Syntax("trailing bytes in object", j));
      }
      return Ok(None);
    } else {
      return Err(Syntax("expected , or }", j));
    }
  }

  method MembersOfObject(buf: Bytes, obj: Span) returns (r: Scanned<seq<Member>>)
    requires InBounds(obj, buf)
    ensures r == Members(buf, obj)
  {
    var open :- At(buf, obj.start);
    if open != OPEN_BRACE {
      return Err(Syntax("not an object", obj.start));
    }
    var out: seq<Member> := [];
    var i := SkipWhitespace(buf, obj.start + 1);
    if i < obj.end && buf[i] == CLOSE_BRACE {
      return Ok(out);
    }
    ghost var goal := MembersFrom(buf, obj, i);
    AfterNothing(goal);
    while true
      invariant goal == After(out, MembersFrom(buf, obj, i))
      decreases |buf| - i
    {
      var m :- ScanMember(buf, obj, i);
      var next :- ScanMemberNext(buf, obj, m.value.span.end);
      if next.None? {
        return Ok(out + [m]);
      }
      AfterOne(out, m, MembersFrom(buf, obj, next.value));
      out := out + [m];
      i := next.value;
    }
  }

  function OneElement(buf: Bytes, arr: Span, i: nat): (r: Scanned<ValueSpan>)
    ensures r.Ok? ==> i <= r.value.span.start < r.value.span.end <= arr.end
  {
    var v :- ValueSpanAt(buf, i, 1);
    if v.span.end > arr.end then Err(Syntax("element overruns array", v.span.start)) else Ok(v)
  }

  function ElementNext(buf: Bytes, arr: Span, e: nat): (r: Scanned<Option<nat>>)
    ensures r.Ok? && r.value.Some? ==> e < r.value.value <= |buf|
  {
    var j := SkipWs(buf, e);
    var c :- At(buf, j);
    if c == COMMA then Ok(Some(j + 1))
    else if c == CLOSE_BRACKET then
      if j + 1 != arr.end then Err(Syntax("trailing bytes in array", j)) else Ok(None)
    else Err(Syntax("expected , or ]", j))
  }

  function ElementsFrom(buf: Bytes, arr: Span, i: nat): Scanned<seq<ValueSpan>>
    decreases |buf| - i
  {
    var v :- OneElement(buf, arr, i);
    var next :- ElementNext(buf, arr, v.span.end);
    match next
    case None => Ok([v])
    case Some(i') => After([v], ElementsFrom(buf, arr, i'))
  }

  lemma {:induction false} ElementsOrdered(buf: Bytes, arr: Span, i: nat)
    requires ElementsFrom(buf, arr, i).Ok?
    ensures Ordered(ElementsFrom(buf, arr, i).value, i, arr.end)
    decreases |buf| - i
  {
    var v := OneElement(buf, arr, i).value;
    var next := ElementNext(buf, arr, v.span.end).value;
    if next.Some? {
      ElementsOrdered(buf, arr, next.value);
      var rest := ElementsFrom(buf, arr, next.value).value;
      OrderedFrom(rest, v.span.end, next.value, arr.end);
      assert ([v] + rest)[1..] == rest;
    }
  }

  function Elements(buf: Bytes, arr: Span): (r: Scanned<seq<ValueSpan>>)
    requires InBounds(arr, buf)
    ensures r.Ok? ==> Ordered(r.value, arr.start + 1, arr.end)
  {
    var c :- At(buf, arr.start);
    if c != OPEN_BRACKET then Err(Syntax("not an array", arr.start))
    else
      var i := SkipWs(buf, arr.start + 1);
      if i < arr.end && buf[i] == CLOSE_BRACKET then Ok([])
      else
        var vs :- ElementsFrom(buf, arr, i);
        ElementsOrdered(buf, arr, i);
        OrderedFrom(vs, arr.start + 1, i, arr.end);
        Ok(vs)
  }

  method ScanElement(buf: Bytes, arr: Span, i: nat) returns (r: Scanned<ValueSpan>)
    ensures r == OneElement(buf, arr, i)
  {
    var v :- ScanValue(buf, i, 1);
    if v.span.end > arr.end {
      return Err(Syntax("element overruns array", v.span.start));
    }
    return Ok(v);
  }

  method ScanElementNext(buf: Bytes, arr: Span, e: nat) returns (r: Scanned<Option<nat>>)
    ensures r == ElementNext(buf, arr, e)
  {
    var j := SkipWhitespace(buf, e);
    var c :- At(buf, j);
    if c == COMMA {
      return Ok(Some(j + 1));
    } else if c == CLOSE_BRACKET {
      if j + 1 != arr.end {
        return Err(Syntax("trailing bytes in array", j));
      }
      return Ok(None);
    } else {
      return Err(Syntax("expected , or ]", j));
    }
  }

  method ElementsOfArray(buf: Bytes, arr: Span) returns (r: Scanned<seq<ValueSpan>>)
    requires InBounds(arr, buf)
    ensures r == Elements(buf, arr)
  {
    var open :- At(buf, arr.start);
    if open != OPEN_BRACKET {
      return Err(Syntax("not an array", arr.start));
    }
    var out: seq<ValueSpan> := [];
    var i := SkipWhitespace(buf, arr.start + 1);
    if i < arr.end && buf[i] == CLOSE_BRACKET {
      return Ok(out);
    }
    ghost var goal := ElementsFrom(buf, arr, i);
    AfterNothing(goal);
    while true
      invariant goal == After(out, ElementsFrom(buf, arr, i))
      decreases |buf| - i
    {
      var v :- ScanElement(buf, arr, i);
      var next :- ScanElementNext(buf, arr, v.span.end);
      if next.None? {
        return Ok(out + [v]);
      }
      AfterOne(out, v, ElementsFrom(buf, arr, next.value));
      out := out + [v];
      i := next.value;
    }
  }

  // ---------- Documents ----------

  function Document(buf: Bytes): Scanned<ValueSpan> {
    var v :- ValueSpanAt(buf, 0, 0);
    if SkipWs(buf, v.span.end) != |buf| then Err(Syntax("trailing bytes after document", v.span.end))
    else if v.kind != KObject then Err(Syntax("document is not an object", v.span.start))
    else Ok(v)
  }

  method ScanDocument(buf: Bytes) returns (r: Scanned<ValueSpan>)
    ensures r == Document(buf)
  {
    var v :- ScanValue(buf, 0, 0);
    var e := SkipWhitespace(buf, v.span.end);
    if e != |buf| {
      return Err(Syntax("trailing bytes after document", v.span.end));
    }
    if v.kind != KObject {
      return Err(Syntax("document is not an object", v.span.start));
    }
    return Ok(v);
  }

  function Room(depth: nat): nat {
    if depth > MAX_DEPTH then 0 else MAX_DEPTH + 1 - depth
  }

  // Full recursive validation: every level is descended into.
  function Validity(buf: Bytes, v: ValueSpan, depth: nat): Scanned<()>
    requires InBounds(v.span, buf)
    decreases Room(depth), 0
  {
    if depth > MAX_DEPTH then Err(TooDeep(v.span.start))
    else match v.kind
      case KObject =>
        var ms :- Members(buf, v.span);
        ValidityAll(buf, MemberValues(ms), v.span, depth + 1)
      case KArray =>
        var es :- Elements(buf, v.span);
        ValidityAll(buf, es, v.span, depth + 1)
      case KString =>
        var s :- Decoded(buf, v.span);
        Ok(())
      case _ => Ok(())
  }

  function ValidityAll(buf: Bytes, vs: seq<ValueSpan>, within: Span, depth: nat): Scanned<()>
    requires InBounds(within, buf) && Ordered(vs, within.start, within.end)
    decreases Room(depth), 1 + |vs|
  {
    if vs == [] then Ok(())
    else
      var u :- Validity(buf, vs[0], depth);
      OrderedFrom(vs[1..], within.start, vs[0].span.end, within.end);
      ValidityAll(buf, vs[1..], within, depth)
  }

  method Validate(buf: Bytes, v: ValueSpan, depth: nat) returns (r: Scanned<()>)
    requires InBounds(v.span, buf)
    ensures r == Validity(buf, v, depth)
    decreases Room(depth), 0
  {
    hide Members, Elements, Decoded, ValidityAll, MemberValues;
    if depth > MAX_DEPTH {
      return Err(TooDeep(v.span.start));
    }
    match v.kind {
      case KObject =>
        var ms :- MembersOfObject(buf, v.span);
        r := ValidateAll(buf, MemberValues(ms), v.span, depth + 1);
      case KArray =>
        var es :- ElementsOfArray(buf, v.span);
        r := ValidateAll(buf, es, v.span, depth + 1);
      case KString =>
        var s :- DecodeString(buf, v.span);
        return Ok(());
      case _ =>
        return Ok(());
    }
  }

  method ValidateAll(buf: Bytes, vs: seq<ValueSpan>, within: Span, depth: nat) returns (r: Scanned<()>)
    requires InBounds(within, buf) && Ordered(vs, within.start, within.end)
    ensures r == ValidityAll(buf, vs, within, depth)
    decreases Room(depth), 1
  {
    for k := 0 to |vs|
      invariant Ordered(vs[k..], within.start, within.end)
      invariant ValidityAll(buf, vs, within, depth) == ValidityAll(buf, vs[k..], within, depth)
    {
      assert vs[k..][0] == vs[k] && vs[k..][1..] == vs[k + 1..];
      OrderedFrom(vs[k + 1..], within.start, vs[k].span.end, within.end);
      var u :- Validate(buf, vs[k], depth);
    }
    return Ok(());
  }

  function Strict(buf: Bytes): Scanned<ValueSpan> {
    var d :- Document(buf);
    var u :- Validity(buf, d, 0);
    Ok(d)
  }

  method StrictDocument(buf: Bytes) returns (r: Scanned<ValueSpan>)
    ensures r == Strict(buf)
  {
    var d :- ScanDocument(buf);
    var u :- Validate(buf, d, 0);
    return Ok(d);
  }
}

// Unescaping a scanned string: it fails only for surrogates that are not
// paired, and never falls back on a replacement character.

module Unescape {
  import opened Results
  import opened Blocks
  import opened Policies
  import opened Scan
  import opened Rfc8259
  import opened Extents

  predicate SurrogateError(r: Scanned<Bytes>) {
    r.Err? && r.error.Syntax? &&
    (r.error.what == "lone low surrogate" || r.error.what == "unpaired high surrogate"
     || r.error.what == "bad surrogate pair")
  }

  // What decoding a well-formed string gives.
  ghost predicate DecodesAs(chars: seq<StrItem>, r: Scanned<Bytes>)
    requires ValidChars(chars)
  {
    if Paired(chars) then r == Ok(Logical(chars)) else SurrogateError(r)
  }

  lemma HexReads(body: Bytes, i: nat, hex: seq<Byte>, base: nat)
    requires ValidItem(Uni(hex)) && Occurs(body, i, hex)
    ensures ReadHex4(body, i, base) == Ok(Hex4(hex))
  {
    OccursSlice(body, i, hex);
    OccursAt(body, i, hex, 0);
    OccursAt(body, i, hex, 1);
    OccursAt(body, i, hex, 2);
    OccursAt(body, i, hex, 3);
  }

  lemma UniSplit(body: Bytes, i: nat, it: StrItem)
    requires it.Uni? && ValidItem(it) && Occurs(body, i, ItemText(it))
    ensures i + 6 <= |body| && body[i] == BACKSLASH && body[i + 1] == LETTER_U && Occurs(body, i + 2, it.hex)
  {
    OccursAt(body, i, ItemText(it), 0);
    OccursAt(body, i, ItemText(it), 1);
    OccursSplit(body, i, [BACKSLASH, LETTER_U], it.hex);
  }

  // Scalars that are not surrogates are never replaced.
  lemma NoReplacement(cp: nat)
    requires cp < 0x10000 && !IsHigh(cp) && !IsLow(cp)
    ensures OrReplacement(Scalar(cp)) == cp
  {
  }

  lemma NoReplacementForPairs(hi: nat, lo: nat)
    requires IsHigh(hi) && IsLow(lo)
    ensures OrReplacement(Scalar(Combine(hi, lo))) == Combine(hi, lo) <= 0x10FFFF
  {
  }

  // What follows a high surrogate that is not another \u escape.
  lemma NotUnicodeNext(body: Bytes, i: nat, rest: seq<StrItem>)
    requires ValidChars(rest) && Occurs(body, i, CharsText(rest)) && i + |CharsText(rest)| == |body|
    requires rest == [] || !rest[0].Uni?
    ensures i + 2 > |body| || body[i] != BACKSLASH || body[i + 1] != LETTER_U
  {
    if rest != [] {
      assert rest[0] in rest;
      CharsSplit(body, i, rest);
      OccursAt(body, i, ItemText(rest[0]), 0);
      if rest[0].Esc? {
        OccursAt(body, i, ItemText(rest[0]), 1);
      }
    }
  }

  lemma {:induction false} CharsDecode(body: Bytes, i: nat, chars: seq<StrItem>, base: nat)
    requires ValidChars(chars) && Occurs(body, i, CharsText(chars)) && i + |CharsText(chars)| == |body|
    ensures DecodesAs(chars, DecodeFrom(body, i, base))
    decreases |chars|
  {
    if chars != [] {
      var it, rest := chars[0], chars[1..];
      assert it in chars && forall x :: x in rest ==> x in chars;
      CharsSplit(body, i, chars);
      CharsDecode(body, i + |ItemText(it)|, rest, base);
      if it.Uni? {
        UniDecodes(body, i, chars, base);
      } else {
        OccursAt(body, i, ItemText(it), 0);
        if it.Esc? {
          OccursAt(body, i, ItemText(it), 1);
        }
      }
    }
  }

  lemma {:induction false} UniDecodes(body: Bytes, i: nat, chars: seq<StrItem>, base: nat)
    requires ValidChars(chars) && chars != [] && chars[0].Uni? && ValidItem(chars[0]) && ValidChars(chars[1..])
    requires Occurs(body, i, CharsText(chars)) && i + |CharsText(chars)| == |body|
    requires DecodesAs(chars[1..], DecodeFrom(body, i + 6, base))
    ensures DecodesAs(chars, DecodeFrom(body, i, base))
    decreases |chars|, 1
  {
    var it, rest := chars[0], chars[1..];
    CharsSplit(body, i, chars);
    UniSplit(body, i, it);
    HexReads(body, i + 2, it.hex, base);
    var cp := CodePoint(it);
    if IsHigh(cp) {
      if rest == [] || !rest[0].Uni? {
        NotUnicodeNext(body, i + 6, rest);
      } else {
        PairDecodes(body, i, chars, base);
      }
    } else if !IsLow(cp) {
      NoReplacement(cp);
    }
  }

  lemma {:induction false} PairDecodes(body: Bytes, i: nat, chars: seq<StrItem>, base: nat)
    requires ValidChars(chars) && |chars| >= 2 && chars[0].Uni? && chars[1].Uni?
    requires ValidItem(chars[0]) && IsHigh(CodePoint(chars[0]))
    requires Occurs(body, i, CharsText(chars)) && i + |CharsText(chars)| == |body|
    ensures DecodesAs(chars, DecodeFrom(body, i, base))
    decreases |chars|, 0
  {
    var hi, lo, rest := chars[0], chars[1], chars[2..];
    assert lo in chars && forall x :: x in rest ==> x in chars;
    CharsSplit(body, i, chars);
    assert chars[1..][0] == lo && chars[1..][1..] == rest;
    CharsSplit(body, i + 6, chars[1..]);
    UniSplit(body, i, hi);
    UniSplit(body, i + 6, lo);
    HexReads(body, i + 2, hi.hex, base);
    HexReads(body, i + 8, lo.hex, base);
    CharsDecode(body, i + 12, rest, base);
    if IsLow(CodePoint(lo)) {
      NoReplacementForPairs(CodePoint(hi), CodePoint(lo));
    }
  }

  lemma {:induction false} PlainDecodes(chars: seq<StrItem>)
    requires ValidChars(chars) && BACKSLASH !in CharsText(chars)
    ensures Paired(chars) && Logical(chars) == CharsText(chars)
  {
    if chars != [] {
      var it, rest := chars[0], chars[1..];
      assert it in chars && forall x :: x in rest ==> x in chars;
      assert CharsText(chars)[0] == ItemText(it)[0];
      assert forall c :: c in CharsText(rest) ==> c in CharsText(chars);
      PlainDecodes(rest);
    }
  }

  // A scanned string decodes to exactly the bytes it stands for, unless its
  // surrogates are not paired, and that is the only way it can fail.
  lemma StringDecodes(buf: Bytes, i: nat, chars: seq<StrItem>)
    requires ValidChars(chars) && Occurs(buf, i, StrText(chars))
    ensures DecodesAs(chars, Decoded(buf, Span(i, i + |StrText(chars)|)))
  {
    var s := Span(i, i + |StrText(chars)|);
    OccursSlice(buf, i, StrText(chars));
    var raw := Slice(s, buf);
    var body := raw[1..|raw| - 1];
    assert body == CharsText(chars);
    if BACKSLASH in body {
      CharsDecode(body, 0, chars, i);
    } else {
      PlainDecodes(chars);
    }
  }

  // ---------- Every scanned string is a string text ----------

  lemma HexClean(buf: Bytes, j: nat)
    requires HexFault(buf, j, 0).None?
    ensures j + 4 <= |buf| && ValidItem(Uni(buf[j..j + 4]))
  {
    assert HexFault(buf, j, 1).None? && HexFault(buf, j, 2).None? && HexFault(buf, j, 3).None?;
    var hex := buf[j..j + 4];
    assert hex[0] == buf[j] && hex[1] == buf[j + 1] && hex[2] == buf[j + 2] && hex[3] == buf[j + 3];
  }

  lemma OneChar(buf: Bytes, i: nat) returns (it: StrItem)
    requires StringEnd(buf, i).Ok? && i < |buf| && buf[i] != QUOTE
    ensures ValidItem(it) && Occurs(buf, i, ItemText(it))
    ensures StringEnd(buf, i) == StringEnd(buf, i + |ItemText(it)|)
  {
    hide HexFault;
    if buf[i] != BACKSLASH {
      it := Plain(buf[i]);
    } else if IsEscape(buf[i + 1]) {
      it := Esc(buf[i + 1]);
    } else {
      HexClean(buf, i + 2);
      it := Uni(buf[i + 2..i + 6]);
    }
  }

  lemma {:induction false} CharsOf(buf: Bytes, i: nat) returns (chars: seq<StrItem>)
    requires StringEnd(buf, i).Ok?
    ensures ValidChars(chars) && Occurs(buf, i, CharsText(chars) + [QUOTE])
    ensures StringEnd(buf, i) == Ok(i + |CharsText(chars)| + 1)
    decreases |buf| - i
  {
    if buf[i] == QUOTE {
      chars := [];
    } else {
      var it := OneChar(buf, i);
      var rest := CharsOf(buf, i + |ItemText(it)|);
      chars := [it] + rest;
      assert chars[1..] == rest;
      OccursSplit(buf, i, ItemText(it), CharsText(rest) + [QUOTE]);
      assert CharsText(chars) + [QUOTE] == ItemText(it) + (CharsText(rest) + [QUOTE]);
    }
  }

  lemma ScannedStringIsText(buf: Bytes, i: nat) returns (chars: seq<StrItem>)
    requires StringSpan(buf, i).Ok?
    ensures ValidChars(chars) && Occurs(buf, i, StrText(chars))
    ensures StringSpan(buf, i) == Ok(Span(i, i + |StrText(chars)|))
  {
    chars := CharsOf(buf, i + 1);
    OccursSplit(buf, i, [QUOTE], CharsText(chars) + [QUOTE]);
    assert StrText(chars) == [QUOTE] + (CharsText(chars) + [QUOTE]);
  }

  // Whatever the string scanner accepts, unescaping can only reject for its
  // surrogates.
  lemma OnlySurrogatesFail(buf: Bytes, i: nat)
    requires StringSpan(buf, i).Ok?
    ensures var r := Decoded(buf, StringSpan(buf, i).value); r.Ok? || SurrogateError(r)
  {
    var chars := ScannedStringIsText(buf, i);
    StringDecodes(buf, i, chars);
  }
}

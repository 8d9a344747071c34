// Scanning a JSON text finds exactly the text: every RFC 8259 value, embedded
// anywhere, has its extent and kind found, although containers are only
// searched for brackets outside strings.

module Extents {
  import opened Results
  import opened Blocks
  import opened Policies
  import opened Scan
  import opened Rfc8259

  // `text` occurs in `buf` at `i`.
  predicate Occurs(buf: Bytes, i: nat, text: Bytes) {
    i + |text| <= |buf| && forall k :: 0 <= k < |text| ==> text[k] == buf[i + k]
  }

  lemma OccursSplit(buf: Bytes, i: nat, a: Bytes, b: Bytes)
    ensures Occurs(buf, i, a + b) <==> Occurs(buf, i, a) && Occurs(buf, i + |a|, b)
  {
    if Occurs(buf, i, a + b) {
      assert forall k :: 0 <= k < |a| ==> (a + b)[k] == a[k];
      assert forall k :: 0 <= k < |b| ==> (a + b)[|a| + k] == b[k];
    }
  }

  lemma OccursSplit4(buf: Bytes, i: nat, a: Bytes, b: Bytes, c: Bytes, d: Bytes)
    requires Occurs(buf, i, a + b + c + d)
    ensures Occurs(buf, i, a) && Occurs(buf, i + |a|, b)
    ensures Occurs(buf, i + |a| + |b|, c) && Occurs(buf, i + |a| + |b| + |c|, d)
  {
    OccursSplit(buf, i, a + b + c, d);
    OccursSplit(buf, i, a + b, c);
    OccursSplit(buf, i, a, b);
  }

  lemma OccursAt(buf: Bytes, i: nat, text: Bytes, k: nat)
    requires Occurs(buf, i, text) && k < |text|
    ensures buf[i + k] == text[k]
  {
  }

  lemma OccursTail(buf: Bytes, i: nat, text: Bytes)
    requires Occurs(buf, i, text) && text != []
    ensures i < |buf| && buf[i] == text[0] && Occurs(buf, i + 1, text[1..])
  {
    assert text[0] == buf[i + 0];
    forall k | 0 <= k < |text[1..]| ensures text[1..][k] == buf[i + 1 + k] {
      assert text[1..][k] == text[k + 1];
    }
  }

  lemma OccursSlice(buf: Bytes, i: nat, text: Bytes)
    ensures Occurs(buf, i, text) <==> i + |text| <= |buf| && buf[i..i + |text|] == text
  {
    if i + |text| <= |buf| && buf[i..i + |text|] == text {
      forall k | 0 <= k < |text| ensures text[k] == buf[i + k] {
        assert buf[i..i + |text|][k] == text[k];
      }
    }
  }

  // ---------- Strings ----------

  lemma HexPasses(buf: Bytes, j: nat, hex: seq<Byte>, k: nat)
    requires Occurs(buf, j, hex) && ValidItem(Uni(hex)) && k <= 4
    ensures HexFault(buf, j, k) == None
    decreases 4 - k
  {
    if k < 4 {
      OccursAt(buf, j, hex, k);
      HexPasses(buf, j, hex, k + 1);
    }
  }

  lemma ItemPasses(buf: Bytes, i: nat, it: StrItem)
    requires ValidItem(it) && Occurs(buf, i, ItemText(it))
    ensures StringEnd(buf, i) == StringEnd(buf, i + |ItemText(it)|)
  {
    OccursAt(buf, i, ItemText(it), 0);
    if it.Esc? {
      OccursAt(buf, i, ItemText(it), 1);
    } else if it.Uni? {
      OccursAt(buf, i, ItemText(it), 1);
      OccursSplit(buf, i, [BACKSLASH, LETTER_U], it.hex);
      HexPasses(buf, i + 2, it.hex, 0);
    }
  }

  lemma {:induction false} CharsPass(buf: Bytes, i: nat, chars: seq<StrItem>)
    requires ValidChars(chars) && Occurs(buf, i, CharsText(chars))
    ensures StringEnd(buf, i) == StringEnd(buf, i + |CharsText(chars)|)
    decreases |chars|
  {
    if chars != [] {
      assert ValidItem(chars[0]) by {
        assert chars[0] in chars;
      }
      assert ValidChars(chars[1..]) by {
        assert forall x :: x in chars[1..] ==> x in chars;
      }
      CharsSplit(buf, i, chars);
      var k := i + |ItemText(chars[0])|;
      CharsPass(buf, k, chars[1..]);
      assert StringEnd(buf, i) == StringEnd(buf, k) by {
        ItemPasses(buf, i, chars[0]);
      }
    }
  }

  lemma CharsSplit(buf: Bytes, i: nat, chars: seq<StrItem>)
    requires chars != [] && Occurs(buf, i, CharsText(chars))
    ensures Occurs(buf, i, ItemText(chars[0])) && Occurs(buf, i + |ItemText(chars[0])|, CharsText(chars[1..]))
    ensures |CharsText(chars)| == |ItemText(chars[0])| + |CharsText(chars[1..])|
  {
    OccursSplit(buf, i, ItemText(chars[0]), CharsText(chars[1..]));
  }

  // A string text anywhere is scanned to its closing quote.
  lemma StringExact(buf: Bytes, i: nat, chars: seq<StrItem>)
    requires ValidChars(chars) && Occurs(buf, i, StrText(chars))
    ensures StringSpan(buf, i) == Ok(Span(i, i + |StrText(chars)|))
  {
    var inner := CharsText(chars);
    OccursSplit(buf, i, [QUOTE] + inner, [QUOTE]);
    OccursSplit(buf, i, [QUOTE], inner);
    OccursAt(buf, i, [QUOTE], 0);
    OccursAt(buf, i + 1 + |inner|, [QUOTE], 0);
    CharsPass(buf, i + 1, chars);
  }

  // ---------- Numbers and literals ----------

  lemma {:induction false} DigitsRun(buf: Bytes, i: nat, digits: Bytes)
    requires AllDigits(digits) && Occurs(buf, i, digits)
    ensures DigitsEnd(buf, i) == DigitsEnd(buf, i + |digits|)
    decreases |digits|
  {
    if digits != [] {
      OccursTail(buf, i, digits);
      DigitsRun(buf, i + 1, digits[1..]);
    }
  }

  // What comes after a number does not prolong it.
  predicate NumberStops(buf: Bytes, e: nat) {
    e < |buf| ==> !IsDigit(buf[e]) && buf[e] != DOT && !IsExp(buf[e])
  }

  lemma ExpExact(buf: Bytes, i: nat, exp: Option<ExpText>)
    requires ValidNumber(NumText(false, [0x30], None, exp)) && Occurs(buf, i, ExpTail(exp))
    requires NumberStops(buf, i + |ExpTail(exp)|)
    ensures ExpEnd(buf, i) == Ok(i + |ExpTail(exp)|)
  {
    if exp.Some? {
      var e := exp.value;
      var head := [e.letter] + SignText(e.sign);
      OccursSplit(buf, i, head, e.digits);
      OccursSplit(buf, i, [e.letter], SignText(e.sign));
      OccursAt(buf, i, [e.letter], 0);
      OccursAt(buf, i + |head|, e.digits, 0);
      assert e.digits[0] in e.digits;
      if e.sign.Some? {
        OccursAt(buf, i + 1, SignText(e.sign), 0);
      }
      DigitsRun(buf, i + |head|, e.digits);
    }
  }

  lemma FracExact(buf: Bytes, i: nat, frac: Option<Bytes>)
    requires frac.Some? ==> frac.value != [] && AllDigits(frac.value)
    requires Occurs(buf, i, FracText(frac))
    requires var e := i + |FracText(frac)|; e < |buf| ==> !IsDigit(buf[e]) && (frac.None? ==> buf[e] != DOT)
    ensures FracEnd(buf, i) == Ok(i + |FracText(frac)|)
  {
    if frac.Some? {
      OccursSplit(buf, i, [DOT], frac.value);
      OccursAt(buf, i, [DOT], 0);
      DigitsRun(buf, i + 1, frac.value);
    }
  }

  lemma WholeExact(buf: Bytes, i: nat, whole: Bytes)
    requires ValidWhole(whole) && Occurs(buf, i, whole)
    requires i + |whole| < |buf| ==> !IsDigit(buf[i + |whole|])
    ensures IntEnd(buf, i) == Ok(i + |whole|)
  {
    OccursAt(buf, i, whole, 0);
    if whole != [0x30] {
      assert whole[0] in whole;
      DigitsRun(buf, i, whole);
    }
  }

  lemma NumberExact(buf: Bytes, i: nat, n: NumText)
    requires ValidNumber(n) && Occurs(buf, i, NumberText(n)) && NumberStops(buf, i + |NumberText(n)|)
    ensures NumberSpan(buf, i) == Ok(Span(i, i + |NumberText(n)|))
  {
    var sign: Bytes := if n.neg then [MINUS] else [];
    var frac, exp := FracText(n.frac), ExpTail(n.exp);
    OccursSplit4(buf, i, sign, n.whole, frac, exp);
    var w := i + |sign|;
    NumberParts(buf, w, n);
    NumberHead(buf, i, n);
    NumberJoin(buf, i, n.neg, w + |n.whole|, w + |n.whole| + |frac|, w + |n.whole| + |frac| + |exp|);
  }

  lemma NumberJoin(buf: Bytes, i: nat, neg: bool, f: nat, e: nat, z: nat)
    requires i < |buf| && (buf[i] == MINUS <==> neg)
    requires IntEnd(buf, if neg then i + 1 else i) == Ok(f) && FracEnd(buf, f) == Ok(e) && ExpEnd(buf, e) == Ok(z)
    ensures NumberSpan(buf, i) == Ok(Span(i, z))
  {
  }

  lemma NumberHead(buf: Bytes, i: nat, n: NumText)
    requires ValidNumber(n) && Occurs(buf, i, NumberText(n))
    ensures i < |buf| && (buf[i] == MINUS <==> n.neg)
  {
    var sign: Bytes := if n.neg then [MINUS] else [];
    OccursSplit4(buf, i, sign, n.whole, FracText(n.frac), ExpTail(n.exp));
    OccursAt(buf, i + |sign|, n.whole, 0);
    assert n.whole[0] in n.whole;
    if n.neg {
      OccursAt(buf, i, sign, 0);
    }
  }

  lemma NumberParts(buf: Bytes, w: nat, n: NumText)
    requires ValidNumber(n)
    requires Occurs(buf, w, n.whole) && Occurs(buf, w + |n.whole|, FracText(n.frac))
    requires Occurs(buf, w + |n.whole| + |FracText(n.frac)|, ExpTail(n.exp))
    requires NumberStops(buf, w + |n.whole| + |FracText(n.frac)| + |ExpTail(n.exp)|)
    ensures IntEnd(buf, w) == Ok(w + |n.whole|)
    ensures FracEnd(buf, w + |n.whole|) == Ok(w + |n.whole| + |FracText(n.frac)|)
    ensures ExpEnd(buf, w + |n.whole| + |FracText(n.frac)|)
            == Ok(w + |n.whole| + |FracText(n.frac)| + |ExpTail(n.exp)|)
  {
    var f := w + |n.whole|;
    var e := f + |FracText(n.frac)|;
    if n.exp.Some? {
      OccursAt(buf, e, ExpTail(n.exp), 0);
    }
    if n.frac.Some? {
      OccursAt(buf, f, FracText(n.frac), 0);
    }
    WholeExact(buf, w, n.whole);
    FracExact(buf, f, n.frac);
    ExpExact(buf, e, n.exp);
  }

  // ---------- Containers ----------

  predicate Bracketless(s: Bytes) {
    forall c :: c in s ==> c != QUOTE && !IsOpen(c) && !IsClose(c)
  }

  lemma {:induction false} FlatPasses(buf: Bytes, j: nat, d: nat, close: Byte, s: Bytes)
    requires d > 0 && Bracketless(s) && Occurs(buf, j, s)
    ensures BracketsEnd(buf, j, d, close) == BracketsEnd(buf, j + |s|, d, close)
    decreases |s|
  {
    if s != [] {
      OccursTail(buf, j, s);
      hide Occurs;
      FlatPasses(buf, j + 1, d, close, s[1..]);
    }
  }

  lemma StringPasses(buf: Bytes, j: nat, d: nat, close: Byte, chars: seq<StrItem>)
    requires d > 0 && ValidChars(chars) && Occurs(buf, j, StrText(chars))
    ensures BracketsEnd(buf, j, d, close) == BracketsEnd(buf, j + |StrText(chars)|, d, close)
  {
    StringExact(buf, j, chars);
  }

  lemma NumberIsFlat(n: NumText)
    requires ValidNumber(n)
    ensures Bracketless(NumberText(n))
  {
    DigitsAreFlat(n.whole);
    if n.frac.Some? {
      DigitsAreFlat(n.frac.value);
    }
    if n.exp.Some? {
      DigitsAreFlat(n.exp.value.digits);
    }
    assert Bracketless(FracText(n.frac)) && Bracketless(ExpTail(n.exp));
  }

  lemma DigitsAreFlat(s: Bytes)
    requires AllDigits(s)
    ensures Bracketless(s)
  {
  }

  // Where the parts of a container are.
  lemma ContSplit(buf: Bytes, i: nat, obj: bool, gap: Bytes, items: Items)
    requires Occurs(buf, i, JsonText(Cont(obj, gap, items)))
    ensures |JsonText(Cont(obj, gap, items))| == |Inside(gap, items)| + 2
    ensures i + |Inside(gap, items)| + 1 < |buf| && buf[i] == Open(obj)
    ensures Occurs(buf, i + 1, Inside(gap, items)) && buf[i + 1 + |Inside(gap, items)|] == Close(obj)
  {
    var inside := Inside(gap, items);
    OccursSplit(buf, i, [Open(obj)] + inside, [Close(obj)]);
    OccursSplit(buf, i, [Open(obj)], inside);
    OccursAt(buf, i, [Open(obj)], 0);
    OccursAt(buf, i + 1 + |inside|, [Close(obj)], 0);
  }

  lemma OpenStep(buf: Bytes, j: nat, d: nat, close: Byte)
    requires 0 < d < MAX_DEPTH && j < |buf| && IsOpen(buf[j])
    ensures BracketsEnd(buf, j, d, close) == BracketsEnd(buf, j + 1, d + 1, close)
  {
  }

  lemma CloseStep(buf: Bytes, j: nat, d: nat, close: Byte)
    requires d > 1 && j < |buf| && IsClose(buf[j])
    ensures BracketsEnd(buf, j, d, close) == BracketsEnd(buf, j + 1, d - 1, close)
  {
  }

  // Bracket counting gets over a whole nested value, at any depth that fits.
  lemma {:induction false} ValuePasses(buf: Bytes, j: nat, d: nat, close: Byte, t: Json)
    requires d > 0 && Valid(t) && Occurs(buf, j, JsonText(t)) && d + Depth(t) <= MAX_DEPTH
    ensures BracketsEnd(buf, j, d, close) == BracketsEnd(buf, j + |JsonText(t)|, d, close)
    decreases t, 1
  {
    hide BracketsEnd, Occurs, ValidNumber, ValidItems;
    match t {
      case Str(chars) => StringPasses(buf, j, d, close, chars);
      case Num(n) =>
        NumberIsFlat(n);
        FlatPasses(buf, j, d, close, JsonText(t));
      case Cont(obj, gap, items) =>
        ContSplit(buf, j, obj, gap, items);
        OpenStep(buf, j, d, close);
        InsidePasses(buf, j + 1, d + 1, close, obj, gap, items);
        CloseStep(buf, j + 1 + |Inside(gap, items)|, d + 1, close);
      case _ => FlatPasses(buf, j, d, close, JsonText(t));
    }
  }

  lemma {:induction false} InsidePasses(buf: Bytes, j: nat, d: nat, close: Byte, obj: bool, gap: Bytes, items: Items)
    requires d > 0 && AllWs(gap) && ValidItems(obj, items) && Occurs(buf, j, Inside(gap, items))
    requires d + ItemsDepth(items) <= MAX_DEPTH
    ensures BracketsEnd(buf, j, d, close) == BracketsEnd(buf, j + |Inside(gap, items)|, d, close)
    decreases items, 1
  {
    if items.Nil? {
      FlatPasses(buf, j, d, close, gap);
    } else {
      ItemsPass(buf, j, d, close, obj, items);
    }
  }

  lemma KeyPasses(buf: Bytes, j: nat, d: nat, close: Byte, key: Option<Key>)
    requires d > 0 && Occurs(buf, j, KeyText(key))
    requires key.Some? ==> AllWs(key.value.before) && ValidChars(key.value.text) && AllWs(key.value.after)
    ensures BracketsEnd(buf, j, d, close) == BracketsEnd(buf, j + |KeyText(key)|, d, close)
  {
    if key.Some? {
      var k := key.value;
      OccursSplit(buf, j, k.before + StrText(k.text) + k.after, [COLON]);
      OccursSplit(buf, j, k.before + StrText(k.text), k.after);
      OccursSplit(buf, j, k.before, StrText(k.text));
      FlatPasses(buf, j, d, close, k.before);
      StringPasses(buf, j + |k.before|, d, close, k.text);
      FlatPasses(buf, j + |k.before| + |StrText(k.text)|, d, close, k.after);
      FlatPasses(buf, j + |k.before| + |StrText(k.text)| + |k.after|, d, close, [COLON]);
    }
  }

  lemma KeyThenWs(buf: Bytes, j: nat, d: nat, close: Byte, key: Option<Key>, ws: Bytes)
    requires d > 0 && Occurs(buf, j, KeyText(key))
    requires key.Some? ==> AllWs(key.value.before) && ValidChars(key.value.text) && AllWs(key.value.after)
    requires AllWs(ws) && Occurs(buf, j + |KeyText(key)|, ws)
    ensures BracketsEnd(buf, j, d, close) == BracketsEnd(buf, j + |KeyText(key)| + |ws|, d, close)
  {
    KeyPasses(buf, j, d, close, key);
    FlatPasses(buf, j + |KeyText(key)|, d, close, ws);
  }

  // The parts of the first item, one after the other.
  predicate PartsOccur(buf: Bytes, j: nat, items: Items)
    requires items.Cons?
  {
    var b := j + |KeyText(items.key)|;
    var v := b + |items.before|;
    var a := v + |JsonText(items.v)|;
    && Occurs(buf, j, KeyText(items.key)) && Occurs(buf, b, items.before) && Occurs(buf, v, JsonText(items.v))
    && Occurs(buf, a, items.after) && Occurs(buf, a + |items.after|, TailText(items.rest))
  }

  // Where the last part of the first item is.
  function RestAt(j: nat, items: Items): nat
    requires items.Cons?
  {
    j + |KeyText(items.key)| + |items.before| + |JsonText(items.v)| + |items.after|
  }

  lemma ItemsSplit(buf: Bytes, j: nat, items: Items)
    requires items.Cons? && Occurs(buf, j, ItemsText(items))
    ensures PartsOccur(buf, j, items)
    ensures j + |ItemsText(items)| == RestAt(j, items) + |TailText(items.rest)|
  {
    var k, b, v, a, r := KeyText(items.key), items.before, JsonText(items.v), items.after, TailText(items.rest);
    OccursSplit(buf, j, k + b + v + a, r);
    OccursSplit4(buf, j, k, b, v, a);
  }

  lemma {:induction false} ItemsPass(buf: Bytes, j: nat, d: nat, close: Byte, obj: bool, items: Items)
    requires d > 0 && items.Cons? && ValidItems(obj, items) && Occurs(buf, j, ItemsText(items))
    requires d + ItemsDepth(items) <= MAX_DEPTH
    ensures BracketsEnd(buf, j, d, close) == BracketsEnd(buf, j + |ItemsText(items)|, d, close)
    decreases items, 0
  {
    hide BracketsEnd, JsonText, KeyText, Occurs;
    ItemsSplit(buf, j, items);
    FirstPasses(buf, j, d, close, obj, items);
    TailPasses(buf, RestAt(j, items), d, close, obj, items.rest);
  }

  lemma {:induction false} FirstPasses(buf: Bytes, j: nat, d: nat, close: Byte, obj: bool, items: Items)
    requires d > 0 && items.Cons? && ValidItems(obj, items) && PartsOccur(buf, j, items)
    requires d + Depth(items.v) <= MAX_DEPTH
    ensures BracketsEnd(buf, j, d, close) == BracketsEnd(buf, RestAt(j, items), d, close)
    decreases items.v, 3
  {
    hide BracketsEnd, JsonText, KeyText, Occurs;
    KeyThenWs(buf, j, d, close, items.key, items.before);
    ValueThenWs(buf, j + |KeyText(items.key)| + |items.before|, d, close, items.v, items.after);
  }

  lemma {:induction false} ValueThenWs(buf: Bytes, j: nat, d: nat, close: Byte, t: Json, after: Bytes)
    requires d > 0 && Valid(t) && Occurs(buf, j, JsonText(t)) && d + Depth(t) <= MAX_DEPTH
    requires AllWs(after) && Occurs(buf, j + |JsonText(t)|, after)
    ensures BracketsEnd(buf, j, d, close) == BracketsEnd(buf, j + |JsonText(t)| + |after|, d, close)
    decreases t, 2
  {
    ValuePasses(buf, j, d, close, t);
    FlatPasses(buf, j + |JsonText(t)|, d, close, after);
  }

  lemma {:induction false} TailPasses(buf: Bytes, j: nat, d: nat, close: Byte, obj: bool, rest: Items)
    requires d > 0 && ValidItems(obj, rest) && Occurs(buf, j, TailText(rest))
    requires d + ItemsDepth(rest) <= MAX_DEPTH
    ensures BracketsEnd(buf, j, d, close) == BracketsEnd(buf, j + |TailText(rest)|, d, close)
    decreases rest, 1
  {
    if rest.Cons? {
      OccursSplit(buf, j, [COMMA], ItemsText(rest));
      FlatPasses(buf, j, d, close, [COMMA]);
      ItemsPass(buf, j + 1, d, close, obj, rest);
    }
  }

  // ---------- The exact extent of a value ----------

  lemma FirstByte(t: Json)
    requires Valid(t)
    ensures |JsonText(t)| > 0 && !IsWs(JsonText(t)[0]) && !IsClose(JsonText(t)[0]) && JsonText(t)[0] != COMMA
  {
    if t.Num? {
      assert t.n.whole[0] in t.n.whole;
      assert NumberText(t.n)[0] == if t.n.neg then MINUS else t.n.whole[0];
    }
  }

  lemma ContainerExact(buf: Bytes, i: nat, obj: bool, gap: Bytes, items: Items)
    requires AllWs(gap) && ValidItems(obj, items) && Occurs(buf, i, JsonText(Cont(obj, gap, items)))
    requires 1 + ItemsDepth(items) <= MAX_DEPTH
    ensures ValueAt(buf, i) == Ok(ValueSpan(Span(i, i + |Inside(gap, items)| + 2), if obj then KObject else KArray))
  {
    ContSplit(buf, i, obj, gap, items);
    InsidePasses(buf, i + 1, 1, Close(obj), obj, gap, items);
    ContainerJoin(buf, i, obj, i + 1 + |Inside(gap, items)|);
  }

  lemma ContainerJoin(buf: Bytes, i: nat, obj: bool, e: nat)
    requires i < e < |buf| && buf[i] == Open(obj) && buf[e] == Close(obj)
    requires BracketsEnd(buf, i + 1, 1, Close(obj)) == BracketsEnd(buf, e, 1, Close(obj))
    ensures ValueAt(buf, i) == Ok(ValueSpan(Span(i, e + 1), if obj then KObject else KArray))
  {
    hide ScalarAt;
  }

  // For every value text within the depth limit, wherever it is embedded and
  // whatever follows it (as long as it does not prolong a number).
  lemma ValueExact(buf: Bytes, i: nat, t: Json)
    requires Valid(t) && Occurs(buf, i, JsonText(t)) && Depth(t) <= MAX_DEPTH
    requires t.Num? ==> NumberStops(buf, i + |JsonText(t)|)
    ensures ValueAt(buf, i) == Ok(ValueSpan(Span(i, i + |JsonText(t)|), Kind(t)))
  {
    if t.Cont? {
      assert AllWs(t.gap) && ValidItems(t.obj, t.items) && 1 + ItemsDepth(t.items) <= MAX_DEPTH by {
        ContainerShape(t.obj, t.gap, t.items);
      }
      hide ValueAt, Occurs, Valid, Depth;
      ContainerExact(buf, i, t.obj, t.gap, t.items);
    } else {
      FirstByte(t);
      OccursAt(buf, i, JsonText(t), 0);
      assert ScalarAt(buf, i, JsonText(t)[0]) == Ok(ValueSpan(Span(i, i + |JsonText(t)|), Kind(t))) by {
        ScalarExact(buf, i, t);
      }
      hide ScalarAt, Occurs, Valid;
    }
  }

  lemma ScalarExact(buf: Bytes, i: nat, t: Json)
    requires !t.Cont? && Valid(t) && Occurs(buf, i, JsonText(t))
    requires t.Num? ==> NumberStops(buf, i + |JsonText(t)|)
    ensures |JsonText(t)| > 0 && !IsOpen(JsonText(t)[0])
    ensures ScalarAt(buf, i, JsonText(t)[0]) == Ok(ValueSpan(Span(i, i + |JsonText(t)|), Kind(t)))
  {
    FirstByte(t);
    if t.Str? {
      StringExact(buf, i, t.chars);
      hide StringSpan, Occurs, CharsText;
    } else if t.Num? {
      NumberExact(buf, i, t.n);
      assert t.n.whole[0] in t.n.whole;
      assert NumberText(t.n)[0] == if t.n.neg then MINUS else t.n.whole[0];
    } else {
      OccursSlice(buf, i, JsonText(t));
    }
  }

  lemma ContainerShape(obj: bool, gap: Bytes, items: Items)
    ensures Valid(Cont(obj, gap, items)) <==> AllWs(gap) && ValidItems(obj, items)
    ensures Depth(Cont(obj, gap, items)) == 1 + ItemsDepth(items)
  {
  }

  lemma {:induction false} WsRun(buf: Bytes, i: nat, ws: Bytes)
    requires AllWs(ws) && Occurs(buf, i, ws)
    requires i + |ws| < |buf| ==> !IsWs(buf[i + |ws|])
    ensures SkipWs(buf, i) == i + |ws|
    decreases |ws|
  {
    if ws != [] {
      OccursTail(buf, i, ws);
      WsRun(buf, i + 1, ws[1..]);
    }
  }

  // The same through leading whitespace, as every caller scans it.
  lemma ScannedExact(buf: Bytes, pos: nat, ws: Bytes, t: Json, depth: nat)
    requires AllWs(ws) && Valid(t) && Occurs(buf, pos, ws + JsonText(t)) && Depth(t) <= MAX_DEPTH && depth <= MAX_DEPTH
    requires t.Num? ==> NumberStops(buf, pos + |ws| + |JsonText(t)|)
    ensures ValueSpanAt(buf, pos, depth) ==
            Ok(ValueSpan(Span(pos + |ws|, pos + |ws| + |JsonText(t)|), Kind(t)))
  {
    OccursSplit(buf, pos, ws, JsonText(t));
    FirstByte(t);
    OccursAt(buf, pos + |ws|, JsonText(t), 0);
    hide JsonText, Valid, ValueAt, Depth;
    WsRun(buf, pos, ws);
    ValueExact(buf, pos + |ws|, t);
  }
}

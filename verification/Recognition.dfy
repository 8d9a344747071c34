// The converse: whatever strict validation accepts is the text of a document.

module Recognition {
  import opened Results
  import opened Blocks
  import opened Policies
  import opened Scan
  import opened Rfc8259
  import opened Extents
  import opened Unescape
  import opened Strictness

  lemma DigitsOf(buf: Bytes, i: nat)
    requires i <= |buf|
    ensures Occurs(buf, i, buf[i..DigitsEnd(buf, i)]) && AllDigits(buf[i..DigitsEnd(buf, i)])
  {
  }

  lemma WsOf(buf: Bytes, i: nat)
    requires i <= |buf|
    ensures Occurs(buf, i, buf[i..SkipWs(buf, i)]) && AllWs(buf[i..SkipWs(buf, i)])
  {
  }

  lemma FracOf(buf: Bytes, i: nat) returns (frac: Option<Bytes>)
    requires i <= |buf| && FracEnd(buf, i).Ok?
    ensures frac.Some? ==> frac.value != [] && AllDigits(frac.value)
    ensures Occurs(buf, i, FracText(frac)) && FracEnd(buf, i) == Ok(i + |FracText(frac)|)
  {
    if i < |buf| && buf[i] == DOT {
      DigitsOf(buf, i + 1);
      frac := Some(buf[i + 1..DigitsEnd(buf, i + 1)]);
      OccursSplit(buf, i, [DOT], frac.value);
    } else {
      frac := None;
    }
  }

  lemma ExpOf(buf: Bytes, i: nat) returns (exp: Option<ExpText>)
    requires i <= |buf| && ExpEnd(buf, i).Ok?
    ensures ValidNumber(NumText(false, [0x30], None, exp))
    ensures Occurs(buf, i, ExpTail(exp)) && ExpEnd(buf, i) == Ok(i + |ExpTail(exp)|)
  {
    if i < |buf| && IsExp(buf[i]) {
      var signed := i + 1 < |buf| && (buf[i + 1] == PLUS || buf[i + 1] == MINUS);
      var sign := if signed then Some(buf[i + 1]) else None;
      var j := if signed then i + 2 else i + 1;
      DigitsOf(buf, j);
      var e := ExpText(buf[i], sign, buf[j..DigitsEnd(buf, j)]);
      exp := Some(e);
      assert Occurs(buf, i, [e.letter] + SignText(e.sign)) by {
        OccursSplit(buf, i, [e.letter], SignText(e.sign));
      }
      assert Occurs(buf, i, ExpTail(exp)) by {
        OccursSplit(buf, i, [e.letter] + SignText(e.sign), e.digits);
      }
    } else {
      exp := None;
    }
  }

  lemma WholeOf(buf: Bytes, i: nat) returns (whole: Bytes)
    requires IntEnd(buf, i).Ok?
    ensures ValidWhole(whole) && Occurs(buf, i, whole) && IntEnd(buf, i) == Ok(i + |whole|)
  {
    DigitsOf(buf, i);
    whole := if buf[i] == 0x30 then [0x30] else buf[i..DigitsEnd(buf, i)];
  }

  lemma NumberOf(buf: Bytes, i: nat) returns (n: NumText)
    requires NumberSpan(buf, i).Ok?
    ensures ValidNumber(n) && Occurs(buf, i, NumberText(n)) && NumberSpan(buf, i) == Ok(Span(i, i + |NumberText(n)|))
  {
    hide IntEnd, FracEnd, ExpEnd, Occurs, ValidWhole;
    var neg := buf[i] == MINUS;
    var w := if neg then i + 1 else i;
    var whole := WholeOf(buf, w);
    var frac := FracOf(buf, w + |whole|);
    var exp := ExpOf(buf, w + |whole| + |FracText(frac)|);
    n := NumText(neg, whole, frac, exp);
    NumberGlue(buf, i, n);
  }

  lemma SignOccurs(buf: Bytes, i: nat, neg: bool)
    requires i < |buf| && (neg ==> buf[i] == MINUS)
    ensures Occurs(buf, i, if neg then [MINUS] else [])
  {
  }

  lemma NumberGlue(buf: Bytes, i: nat, n: NumText)
    requires i < |buf| && (n.neg <==> buf[i] == MINUS)
    requires var w := if n.neg then i + 1 else i;
             && Occurs(buf, w, n.whole) && Occurs(buf, w + |n.whole|, FracText(n.frac))
             && Occurs(buf, w + |n.whole| + |FracText(n.frac)|, ExpTail(n.exp))
    ensures Occurs(buf, i, NumberText(n))
    ensures |NumberText(n)| == (if n.neg then 1 else 0) + |n.whole| + |FracText(n.frac)| + |ExpTail(n.exp)|
  {
    var sign: Bytes := if n.neg then [MINUS] else [];
    hide Occurs, FracText, ExpTail;
    assert Occurs(buf, i, sign) by {
      SignOccurs(buf, i, n.neg);
    }
    OccursSplit(buf, i, sign, n.whole);
    OccursSplit(buf, i, sign + n.whole, FracText(n.frac));
    OccursSplit(buf, i, sign + n.whole + FracText(n.frac), ExpTail(n.exp));
  }

  // ---------- Containers ----------

  lemma ItemsGlue(buf: Bytes, j: nat, items: Items)
    requires items.Cons? && PartsOccur(buf, j, items)
    ensures Occurs(buf, j, ItemsText(items))
    ensures j + |ItemsText(items)| == RestAt(j, items) + |TailText(items.rest)|
  {
    hide Occurs;
    var k, b, v, a, r := KeyText(items.key), items.before, JsonText(items.v), items.after, TailText(items.rest);
    OccursSplit(buf, j, k, b);
    OccursSplit(buf, j, k + b, v);
    OccursSplit(buf, j, k + b + v, a);
    OccursSplit(buf, j, k + b + v + a, r);
  }

  lemma KeyGlue(buf: Bytes, j: nat, key: Key)
    requires Occurs(buf, j, key.before) && Occurs(buf, KeyAt(j, key).start, StrText(key.text))
    requires Occurs(buf, KeyAt(j, key).end, key.after) && Occurs(buf, KeyAt(j, key).end + |key.after|, [COLON])
    ensures Occurs(buf, j, KeyText(Some(key)))
    ensures j + |KeyText(Some(key))| == KeyAt(j, key).end + |key.after| + 1
  {
    hide Occurs;
    OccursSplit(buf, j, key.before, StrText(key.text));
    OccursSplit(buf, j, key.before + StrText(key.text), key.after);
    OccursSplit(buf, j, key.before + StrText(key.text) + key.after, [COLON]);
  }

  lemma ContGlue(buf: Bytes, i: nat, obj: bool, gap: Bytes, items: Items)
    requires i < |buf| && buf[i] == Open(obj) && Occurs(buf, i + 1, Inside(gap, items))
    requires i + 1 + |Inside(gap, items)| < |buf| && buf[i + 1 + |Inside(gap, items)|] == Close(obj)
    ensures Occurs(buf, i, JsonText(Cont(obj, gap, items)))
    ensures |JsonText(Cont(obj, gap, items))| == |Inside(gap, items)| + 2
  {
    OccursSplit(buf, i, [Open(obj)], Inside(gap, items));
    OccursSplit(buf, i, [Open(obj)] + Inside(gap, items), [Close(obj)]);
  }

  // The key of a member that was scanned and unescaped.
  lemma KeyOf(buf: Bytes, obj: Span, i: nat) returns (key: Key)
    requires i <= |buf| && OneMember(buf, obj, i).Ok?
    ensures ValidKey(key) && Paired(key.text) && Occurs(buf, i, KeyText(Some(key)))
    ensures var v := i + |KeyText(Some(key))|;
            && v <= |buf| && ValueSpanAt(buf, v, 1) == Ok(OneMember(buf, obj, i).value.value)
  {
    hide Occurs, KeyText, StrText, ValueSpanAt;
    var ks := OneMember(buf, obj, i).value.keySpan;
    var chars := ScannedStringIsText(buf, SkipWs(buf, i));
    assert Paired(chars) by {
      StringDecodes(buf, ks.start, chars);
    }
    WsOf(buf, i);
    WsOf(buf, ks.end);
    key := Key(buf[i..ks.start], chars, buf[ks.end..SkipWs(buf, ks.end)]);
    assert KeyAt(i, key) == ks;
    assert Occurs(buf, SkipWs(buf, ks.end), [COLON]) by {
      ColonOccurs(buf, SkipWs(buf, ks.end));
    }
    KeyGlue(buf, i, key);
  }

  lemma ColonOccurs(buf: Bytes, j: nat)
    requires j < |buf| && buf[j] == COLON
    ensures Occurs(buf, j, [COLON])
  {
  }

  // What a validated value is the text of.
  ghost predicate IsTextOf(buf: Bytes, v: ValueSpan, t: Json) {
    Valid(t) && AllPaired(t) && Occurs(buf, v.span.start, JsonText(t)) && v == SpanOf(v.span.start, t)
  }

  ghost predicate AreItemsOf(buf: Bytes, cont: Span, i: nat, obj: bool, items: Items) {
    && items.Cons? && ValidItems(obj, items) && ItemsPaired(obj, items)
    && Occurs(buf, i, ItemsText(items)) && i + |ItemsText(items)| + 1 == cont.end
  }

  // The empty object or array: nothing but blanks up to the closing bracket.
  lemma EmptyContainer(buf: Bytes, v: ValueSpan, obj: bool) returns (t: Json)
    requires ValueAt(buf, v.span.start) == Ok(v) && v.kind == (if obj then KObject else KArray)
    requires var i := SkipWs(buf, v.span.start + 1); i < |buf| && buf[i] == Close(obj)
    ensures IsTextOf(buf, v, t)
  {
    var s := v.span.start;
    var i := SkipWs(buf, s + 1);
    ContainerScanned(buf, v, obj);
    BlanksToClose(buf, s + 1, obj);
    hide ValueAt, BracketsEnd, Occurs;
    var gap := buf[s + 1..i];
    assert Inside(gap, Nil) == gap;
    ContGlue(buf, s, obj, gap, Nil);
    t := Cont(obj, gap, Nil);
    assert ValidItems(obj, Nil) && ItemsPaired(obj, Nil);
    assert Valid(t) && AllPaired(t);
    assert v == SpanOf(s, t);
  }

  lemma BlanksToClose(buf: Bytes, j: nat, obj: bool)
    requires j <= |buf|
    requires var i := SkipWs(buf, j); i < |buf| && buf[i] == Close(obj)
    ensures Occurs(buf, j, buf[j..SkipWs(buf, j)]) && AllWs(buf[j..SkipWs(buf, j)])
    ensures BracketsEnd(buf, j, 1, Close(obj)) == Ok(SkipWs(buf, j) + 1)
  {
    var gap := buf[j..SkipWs(buf, j)];
    WsOf(buf, j);
    FlatPasses(buf, j, 1, Close(obj), gap);
  }

  lemma ContainerScanned(buf: Bytes, v: ValueSpan, obj: bool)
    requires ValueAt(buf, v.span.start) == Ok(v) && v.kind == (if obj then KObject else KArray)
    ensures v.span.start < |buf| && buf[v.span.start] == Open(obj)
    ensures BracketsEnd(buf, v.span.start + 1, 1, Close(obj)) == Ok(v.span.end)
  {
    hide BracketsEnd, ScalarAt;
  }

  // One item and the items after it.
  lemma ItemGlue(buf: Bytes, cont: Span, i: nat, obj: bool, key: Option<Key>, v: ValueSpan, t: Json, rest: Items)
      returns (items: Items)
    requires InBounds(cont, buf) && i <= |buf|
    requires (key.Some? <==> obj) && (key.Some? ==> ValidKey(key.value) && Paired(key.value.text))
    requires Occurs(buf, i, KeyText(key)) && SkipWs(buf, i + |KeyText(key)|) == v.span.start
    requires IsTextOf(buf, v, t)
    requires var j := SkipWs(buf, v.span.end);
             && (rest.Nil? ==> j + 1 == cont.end)
             && (rest.Cons? ==> j < |buf| && buf[j] == COMMA && AreItemsOf(buf, cont, j + 1, obj, rest))
    ensures items.Cons? && AreItemsOf(buf, cont, i, obj, items)
  {
    hide Occurs, ItemsText, KeyText, JsonText, TailText;
    var b := i + |KeyText(key)|;
    var j := SkipWs(buf, v.span.end);
    WsOf(buf, b);
    WsOf(buf, v.span.end);
    items := Cons(key, buf[b..v.span.start], t, buf[v.span.end..j], rest);
    assert RestAt(i, items) == j;
    TailGlue(buf, cont, j, obj, rest);
    ItemsGlue(buf, i, items);
    assert ValidItems(obj, items);
    assert ItemsPaired(obj, items);
  }

  lemma TailGlue(buf: Bytes, cont: Span, j: nat, obj: bool, rest: Items)
    requires InBounds(cont, buf) && (rest.Nil? ==> j + 1 == cont.end)
    requires rest.Cons? ==> j < |buf| && buf[j] == COMMA && AreItemsOf(buf, cont, j + 1, obj, rest)
    ensures Occurs(buf, j, TailText(rest)) && j + |TailText(rest)| + 1 == cont.end
  {
    if rest.Cons? {
      OccursSplit(buf, j, [COMMA], ItemsText(rest));
    }
  }

  lemma {:induction false} TreeOf(buf: Bytes, v: ValueSpan, depth: nat) returns (t: Json)
    requires ValueAt(buf, v.span.start) == Ok(v) && InBounds(v.span, buf) && Validity(buf, v, depth).Ok?
    ensures IsTextOf(buf, v, t)
    decreases v.span.end - v.span.start, 1
  {
    var i := v.span.start;
    hide Occurs, BracketsEnd, Decoded, StrText, NumberText, StringEnd;
    match v.kind {
      case KString =>
        var chars := ScannedStringIsText(buf, i);
        StringDecodes(buf, i, chars);
        t := Str(chars);
      case KNumber =>
        var n := NumberOf(buf, i);
        t := Num(n);
      case KObject => t := ObjectOf(buf, v, depth);
      case KArray => t := ArrayOf(buf, v, depth);
      case KNull => t := Null;
        OccursSlice(buf, i, NULL_TEXT);
      case KBool =>
        t := if buf[i] == TRUE_TEXT[0] then True else False;
        OccursSlice(buf, i, JsonText(t));
    }
  }

  lemma {:induction false} ObjectOf(buf: Bytes, v: ValueSpan, depth: nat) returns (t: Json)
    requires v.kind == KObject
    requires ValueAt(buf, v.span.start) == Ok(v) && InBounds(v.span, buf) && Validity(buf, v, depth).Ok?
    ensures IsTextOf(buf, v, t)
    decreases v.span.end - v.span.start, 0
  {
    hide MembersFrom;
    var s := v.span;
    var i := SkipWs(buf, s.start + 1);
    if i < s.end && buf[i] == CLOSE_BRACE {
      t := EmptyContainer(buf, v, true);
    } else {
      MembersSkip(buf, s, s.start + 1);
      hide *;
      var items := ItemsOfMembers(buf, s, s.start + 1, depth + 1);
      t := WrapItems(buf, v, true, items);
    }
  }

  lemma WrapItems(buf: Bytes, v: ValueSpan, obj: bool, items: Items) returns (t: Json)
    requires ValueAt(buf, v.span.start) == Ok(v) && v.kind == (if obj then KObject else KArray)
    requires InBounds(v.span, buf) && AreItemsOf(buf, v.span, v.span.start + 1, obj, items)
    ensures IsTextOf(buf, v, t)
  {
    hide Occurs, ItemsText;
    ContGlue(buf, v.span.start, obj, [], items);
    t := Cont(obj, [], items);
  }

  lemma MemberValueScanned(buf: Bytes, obj: Span, i: nat)
    requires OneMember(buf, obj, i).Ok?
    ensures var v := OneMember(buf, obj, i).value.value;
            i < v.span.start < v.span.end <= obj.end && ValueAt(buf, v.span.start) == Ok(v)
  {
    hide ValueAt, StringSpan, Decoded;
  }

  lemma MemberNextFacts(buf: Bytes, obj: Span, e: nat)
    requires MemberNext(buf, obj, e).Ok?
    ensures var next, j := MemberNext(buf, obj, e).value, SkipWs(buf, e);
            if next.None? then j + 1 == obj.end else next.value == j + 1 <= |buf| && buf[j] == COMMA
  {
    SkipTwice(buf, e);
  }

  // What a successful scan of members says about the first of them.
  lemma MembersUnfold(buf: Bytes, obj: Span, i: nat)
    requires MembersFrom(buf, obj, i).Ok?
    ensures OneMember(buf, obj, i).Ok?
    ensures var m := OneMember(buf, obj, i).value;
            && MemberNext(buf, obj, m.value.span.end).Ok?
            && var next := MemberNext(buf, obj, m.value.span.end).value;
               if next.None? then MembersFrom(buf, obj, i) == Ok([m])
               else
                 && MembersFrom(buf, obj, next.value).Ok?
                 && MembersFrom(buf, obj, i) == Ok([m] + MembersFrom(buf, obj, next.value).value)
  {
    hide OneMember, MemberNext;
  }

  lemma {:induction false} ItemsOfMembers(buf: Bytes, obj: Span, i: nat, depth: nat) returns (items: Items)
    requires InBounds(obj, buf) && obj.start < i <= |buf| && MembersFrom(buf, obj, i).Ok?
    requires var vs := MemberValues(MembersFrom(buf, obj, i).value);
             Ordered(vs, obj.start, obj.end) && ValidityAll(buf, vs, obj, depth).Ok?
    ensures items.Cons? && AreItemsOf(buf, obj, i, true, items)
    decreases obj.end - i, 2
  {
    hide OneMember, MemberNext, MembersFrom, ValueAt, IsTextOf, Paired, ValidKey, KeyText, AreItemsOf;
    MembersUnfold(buf, obj, i);
    MemberValueScanned(buf, obj, i);
    var m := OneMember(buf, obj, i).value;
    MemberNextFacts(buf, obj, m.value.span.end);
    var key := KeyOf(buf, obj, i);
    var next := MemberNext(buf, obj, m.value.span.end).value;
    FirstIsValid(buf, MembersFrom(buf, obj, i).value, m, obj, depth);
    var t := TreeOf(buf, m.value, depth);
    var rest := Nil;
    if next.Some? {
      var ms := MembersFrom(buf, obj, next.value).value;
      RestIsValid(buf, m, ms, obj, depth);
      rest := ItemsOfMembers(buf, obj, next.value, depth);
    }
    SkipValue(buf, obj, i, key);
    items := ItemGlue(buf, obj, i, true, Some(key), m.value, t, rest);
  }

  lemma SkipValue(buf: Bytes, obj: Span, i: nat, key: Key)
    requires i <= |buf| && OneMember(buf, obj, i).Ok?
    requires ValueSpanAt(buf, i + |KeyText(Some(key))|, 1) == Ok(OneMember(buf, obj, i).value.value)
    ensures SkipWs(buf, i + |KeyText(Some(key))|) == OneMember(buf, obj, i).value.value.span.start
  {
    hide OneMember, KeyText, ValueAt;
  }

  lemma FirstIsValid(buf: Bytes, ms: seq<Member>, m: Member, obj: Span, depth: nat)
    requires InBounds(obj, buf) && ms != [] && ms[0] == m && Ordered(MemberValues(ms), obj.start, obj.end)
    requires ValidityAll(buf, MemberValues(ms), obj, depth).Ok?
    ensures InBounds(m.value.span, buf) && Validity(buf, m.value, depth).Ok?
  {
    hide Validity;
  }

  lemma RestIsValid(buf: Bytes, m: Member, ms: seq<Member>, obj: Span, depth: nat)
    requires InBounds(obj, buf) && Ordered(MemberValues([m] + ms), obj.start, obj.end)
    requires ValidityAll(buf, MemberValues([m] + ms), obj, depth).Ok?
    ensures Ordered(MemberValues(ms), obj.start, obj.end)
    ensures ValidityAll(buf, MemberValues(ms), obj, depth).Ok?
  {
    hide Validity;
    assert ([m] + ms)[1..] == ms;
    assert MemberValues([m] + ms) == [m.value] + MemberValues(ms);
    assert MemberValues([m] + ms)[1..] == MemberValues(ms);
    OrderedFrom(MemberValues(ms), obj.start, m.value.span.end, obj.end);
  }

  lemma {:induction false} ArrayOf(buf: Bytes, v: ValueSpan, depth: nat) returns (t: Json)
    requires v.kind == KArray
    requires ValueAt(buf, v.span.start) == Ok(v) && InBounds(v.span, buf) && Validity(buf, v, depth).Ok?
    ensures IsTextOf(buf, v, t)
    decreases v.span.end - v.span.start, 0
  {
    hide ElementsFrom;
    var s := v.span;
    var i := SkipWs(buf, s.start + 1);
    if i < s.end && buf[i] == CLOSE_BRACKET {
      t := EmptyContainer(buf, v, false);
    } else {
      ElementsSkip(buf, s, s.start + 1);
      hide *;
      var items := ItemsOfElements(buf, s, s.start + 1, depth + 1);
      t := WrapItems(buf, v, false, items);
    }
  }

  lemma ElementNextFacts(buf: Bytes, arr: Span, e: nat)
    requires ElementNext(buf, arr, e).Ok?
    ensures var next, j := ElementNext(buf, arr, e).value, SkipWs(buf, e);
            if next.None? then j + 1 == arr.end else next.value == j + 1 <= |buf| && buf[j] == COMMA
  {
  }

  lemma ElementValueScanned(buf: Bytes, arr: Span, i: nat)
    requires OneElement(buf, arr, i).Ok?
    ensures var v := OneElement(buf, arr, i).value;
            SkipWs(buf, i) == v.span.start < v.span.end <= arr.end && ValueAt(buf, v.span.start) == Ok(v)
  {
    hide ValueAt;
  }

  lemma ElementsUnfold(buf: Bytes, arr: Span, i: nat)
    requires ElementsFrom(buf, arr, i).Ok?
    ensures OneElement(buf, arr, i).Ok?
    ensures var v := OneElement(buf, arr, i).value;
            && ElementNext(buf, arr, v.span.end).Ok?
            && var next := ElementNext(buf, arr, v.span.end).value;
               if next.None? then ElementsFrom(buf, arr, i) == Ok([v])
               else
                 && ElementsFrom(buf, arr, next.value).Ok?
                 && ElementsFrom(buf, arr, i) == Ok([v] + ElementsFrom(buf, arr, next.value).value)
  {
    hide OneElement, ElementNext;
  }

  lemma {:induction false} ItemsOfElements(buf: Bytes, arr: Span, i: nat, depth: nat) returns (items: Items)
    requires InBounds(arr, buf) && arr.start < i <= |buf| && ElementsFrom(buf, arr, i).Ok?
    requires var vs := ElementsFrom(buf, arr, i).value;
             Ordered(vs, arr.start, arr.end) && ValidityAll(buf, vs, arr, depth).Ok?
    ensures items.Cons? && AreItemsOf(buf, arr, i, false, items)
    decreases arr.end - i, 2
  {
    hide OneElement, ElementNext, ElementsFrom, ValueAt, IsTextOf, AreItemsOf;
    ElementsUnfold(buf, arr, i);
    ElementValueScanned(buf, arr, i);
    var v := OneElement(buf, arr, i).value;
    ElementNextFacts(buf, arr, v.span.end);
    var next := ElementNext(buf, arr, v.span.end).value;
    ElementIsValid(buf, ElementsFrom(buf, arr, i).value, arr, depth);
    var t := TreeOf(buf, v, depth);
    var rest := Nil;
    if next.Some? {
      assert ElementsFrom(buf, arr, i).value[1..] == ElementsFrom(buf, arr, next.value).value;
      rest := ItemsOfElements(buf, arr, next.value, depth);
    }
    assert KeyText(None) == [];
    items := ItemGlue(buf, arr, i, false, None, v, t, rest);
  }

  lemma ElementIsValid(buf: Bytes, vs: seq<ValueSpan>, arr: Span, depth: nat)
    requires InBounds(arr, buf) && vs != [] && Ordered(vs, arr.start, arr.end)
    requires ValidityAll(buf, vs, arr, depth).Ok?
    ensures InBounds(vs[0].span, buf) && Validity(buf, vs[0], depth).Ok?
    ensures Ordered(vs[1..], arr.start, arr.end) && ValidityAll(buf, vs[1..], arr, depth).Ok?
  {
    hide Validity;
    OrderedFrom(vs[1..], arr.start, vs[0].span.end, arr.end);
  }

  // ---------- The depth limit ----------

  predicate Fails(buf: Bytes, j: nat, d: nat, close: Byte)
    requires d > 0
  {
    BracketsEnd(buf, j, d, close).Err?
  }

  lemma {:induction false} ValueOverflows(buf: Bytes, j: nat, d: nat, close: Byte, t: Json)
    requires 0 < d <= MAX_DEPTH && Valid(t) && Occurs(buf, j, JsonText(t)) && d + Depth(t) > MAX_DEPTH
    ensures Fails(buf, j, d, close)
    decreases t, 1
  {
    ContSplit(buf, j, t.obj, t.gap, t.items);
    if d < MAX_DEPTH {
      OpenStep(buf, j, d, close);
      ItemsOverflow(buf, j + 1, d + 1, close, t.obj, t.items);
    }
  }

  lemma {:induction false} ItemsOverflow(buf: Bytes, j: nat, d: nat, close: Byte, obj: bool, items: Items)
    requires 0 < d <= MAX_DEPTH && items.Cons? && ValidItems(obj, items) && Occurs(buf, j, ItemsText(items))
    requires d + ItemsDepth(items) > MAX_DEPTH
    ensures Fails(buf, j, d, close)
    decreases items, 0
  {
    hide BracketsEnd, KeyText, JsonText;
    ItemsSplit(buf, j, items);
    if d + Depth(items.v) > MAX_DEPTH {
      KeyThenWs(buf, j, d, close, items.key, items.before);
      ValueOverflows(buf, ValueIndex(j, items), d, close, items.v);
    } else {
      FirstPasses(buf, j, d, close, obj, items);
      var r := RestAt(j, items);
      OccursSplit(buf, r, [COMMA], ItemsText(items.rest));
      FlatPasses(buf, r, d, close, [COMMA]);
      ItemsOverflow(buf, r + 1, d, close, obj, items.rest);
    }
  }

  lemma ScannedFits(buf: Bytes, i: nat, t: Json)
    requires t.Cont? && Valid(t) && Occurs(buf, i, JsonText(t)) && ValueAt(buf, i).Ok?
    ensures Depth(t) <= MAX_DEPTH
  {
    if Depth(t) > MAX_DEPTH {
      assert Depth(t) == 1 + ItemsDepth(t.items) && t.items.Cons?;
      ContSplit(buf, i, t.obj, t.gap, t.items);
      ItemsOverflow(buf, i + 1, 1, Close(t.obj), t.obj, t.items);
    }
  }

  // ---------- Both directions ----------

  lemma StrictParts(buf: Bytes)
    requires Strict(buf).Ok?
    ensures Document(buf).Ok?
    ensures var v := Document(buf).value;
            && v.span.start < v.span.end <= |buf| && v.kind == KObject && ValueAt(buf, v.span.start) == Ok(v)
            && v.span.start == SkipWs(buf, 0) && SkipWs(buf, v.span.end) == |buf| && Validity(buf, v, 0).Ok?
  {
    hide ValueAt, Validity;
  }

  lemma AcceptedIsDocument(buf: Bytes) returns (lead: Bytes, t: Json, trail: Bytes)
    requires Strict(buf).Ok?
    ensures IsDocument(buf, lead, t, trail)
  {
    hide Document, Strict, Validity, ValueAt, ValueSpanAt;
    StrictParts(buf);
    var v := Document(buf).value;
    var s := v.span;
    t := TreeOf(buf, v, 0);
    ScannedFits(buf, s.start, t);
    lead, trail := buf[..s.start], buf[s.end..];
    WsOf(buf, 0);
    WsOf(buf, s.end);
    OccursSlice(buf, s.start, JsonText(t));
    hide *;
    assert buf == buf[..s.start] + buf[s.start..s.end] + buf[s.end..];
  }

  // Strict validation accepts a buffer if and only if it is an object text
  // between blanks, nested within the limit, with its surrogates paired; and
  // then it reports the exact extent of that object.
  lemma StrictExactly(buf: Bytes)
    ensures Strict(buf).Ok? <==> exists lead, t, trail :: IsDocument(buf, lead, t, trail)
    ensures forall lead, t, trail :: IsDocument(buf, lead, t, trail) ==> Strict(buf) == Ok(SpanOf(|lead|, t))
  {
    forall lead, t, trail | IsDocument(buf, lead, t, trail)
      ensures Strict(buf) == Ok(SpanOf(|lead|, t))
    {
      DocumentAccepted(buf, lead, t, trail);
    }
    if Strict(buf).Ok? {
      var lead, t, trail := AcceptedIsDocument(buf);
    }
  }
}

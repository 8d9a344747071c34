// Strict validation accepts exactly the RFC 8259 object texts, within the depth
// limit, whose surrogates are paired.

module Strictness {
  import opened Results
  import opened Blocks
  import opened Policies
  import opened Scan
  import opened Rfc8259
  import opened Extents
  import opened Unescape

  // `buf` is the document `t` between whitespace.
  predicate IsDocument(buf: Bytes, lead: Bytes, t: Json, trail: Bytes) {
    && AllWs(lead) && AllWs(trail) && buf == lead + JsonText(t) + trail
    && Valid(t) && t.Cont? && t.obj && Depth(t) <= MAX_DEPTH && AllPaired(t)
  }

  // ---------- Texts are accepted ----------

  function SpanOf(i: nat, t: Json): ValueSpan { ValueSpan(Span(i, i + |JsonText(t)|), Kind(t)) }

  // Where the values of an item list that starts at `j` are.
  function ValuesAt(j: nat, items: Items): seq<ValueSpan>
    decreases items
  {
    if items.Nil? then []
    else [SpanOf(ValueIndex(j, items), items.v)] + ValuesAt(RestAt(j, items) + 1, items.rest)
  }

  function MembersAt(j: nat, items: Items): seq<Member>
    requires ValidItems(true, items) && ItemsPaired(true, items)
    decreases items
  {
    if items.Nil? then []
    else [FirstMember(j, items)] + MembersAt(RestAt(j, items) + 1, items.rest)
  }

  lemma {:induction false} MemberValuesAt(j: nat, items: Items)
    requires ValidItems(true, items) && ItemsPaired(true, items)
    ensures MemberValues(MembersAt(j, items)) == ValuesAt(j, items)
    decreases items
  {
    if items.Cons? {
      MemberValuesAt(RestAt(j, items) + 1, items.rest);
      assert MembersAt(j, items)[1..] == MembersAt(RestAt(j, items) + 1, items.rest);
    }
  }

  // An item list occurs at `j`, right before the bracket that closes `cont`.
  ghost predicate Listed(buf: Bytes, cont: Span, j: nat, obj: bool, items: Items) {
    && InBounds(cont, buf) && items.Cons? && ValidItems(obj, items) && Occurs(buf, j, ItemsText(items))
    && ItemsDepth(items) <= MAX_DEPTH
    && j + |ItemsText(items)| + 1 == cont.end && buf[cont.end - 1] == Close(obj)
  }

  lemma ListedParts(buf: Bytes, cont: Span, j: nat, obj: bool, items: Items)
    requires Listed(buf, cont, j, obj, items)
    ensures PartsOccur(buf, j, items)
    ensures var r := RestAt(j, items);
            && r < cont.end && buf[r] == (if items.rest.Nil? then Close(obj) else COMMA)
            && (items.rest.Nil? ==> r + 1 == cont.end)
            && (items.rest.Cons? ==> Listed(buf, cont, r + 1, obj, items.rest))
  {
    ItemsSplit(buf, j, items);
    if items.rest.Cons? {
      var r := RestAt(j, items);
      OccursSplit(buf, r, [COMMA], ItemsText(items.rest));
      OccursAt(buf, r, [COMMA], 0);
    }
  }

  function ValueIndex(j: nat, items: Items): nat
    requires items.Cons?
  {
    j + |KeyText(items.key)| + |items.before|
  }

  function ValueEnd(j: nat, items: Items): nat
    requires items.Cons?
  {
    ValueIndex(j, items) + |JsonText(items.v)|
  }

  // What follows the value of the first item is blanks, then its separator.
  lemma AfterFirstValue(buf: Bytes, cont: Span, j: nat, obj: bool, items: Items)
    requires Listed(buf, cont, j, obj, items)
    ensures ValueEnd(j, items) < cont.end && NumberStops(buf, ValueEnd(j, items))
    ensures SkipWs(buf, ValueEnd(j, items)) == RestAt(j, items)
  {
    ListedParts(buf, cont, j, obj, items);
    var e := ValueEnd(j, items);
    if |items.after| > 0 {
      OccursAt(buf, e, items.after, 0);
      assert items.after[0] in items.after;
    }
    WsRun(buf, e, items.after);
  }

  // The value of the first item is scanned exactly.
  lemma FirstValueExact(buf: Bytes, cont: Span, j: nat, obj: bool, items: Items)
    requires Listed(buf, cont, j, obj, items)
    ensures ValueSpanAt(buf, j + |KeyText(items.key)|, 1) == Ok(SpanOf(ValueIndex(j, items), items.v))
  {
    hide ValueSpanAt, Occurs, JsonText, KeyText;
    AfterFirstValue(buf, cont, j, obj, items);
    var b := j + |KeyText(items.key)|;
    assert Occurs(buf, b, items.before + JsonText(items.v)) by {
      ListedParts(buf, cont, j, obj, items);
      OccursSplit(buf, b, items.before, JsonText(items.v));
    }
    ScannedExact(buf, b, items.before, items.v, 1);
  }

  function KeyAt(j: nat, key: Key): Span {
    Span(j + |key.before|, j + |key.before| + |StrText(key.text)|)
  }

  predicate ValidKey(key: Key) {
    AllWs(key.before) && ValidChars(key.text) && AllWs(key.after)
  }

  // Where the parts of a key are.
  predicate KeyOccurs(buf: Bytes, j: nat, key: Key) {
    && ValidKey(key) && Occurs(buf, j, key.before) && Occurs(buf, KeyAt(j, key).start, StrText(key.text))
    && Occurs(buf, KeyAt(j, key).end, key.after) && KeyAt(j, key).end + |key.after| < |buf|
    && buf[KeyAt(j, key).start] == QUOTE && buf[KeyAt(j, key).end + |key.after|] == COLON
  }

  lemma KeySplit(buf: Bytes, j: nat, key: Option<Key>)
    requires key.Some? && ValidKey(key.value) && Occurs(buf, j, KeyText(key))
    ensures KeyOccurs(buf, j, key.value) && KeyAt(j, key.value).end + |key.value.after| + 1 == j + |KeyText(key)|
  {
    var k := key.value;
    OccursSplit4(buf, j, k.before, StrText(k.text), k.after, [COLON]);
    OccursAt(buf, KeyAt(j, k).start, StrText(k.text), 0);
    OccursAt(buf, KeyAt(j, k).end + |k.after|, [COLON], 0);
  }

  lemma KeyScans(buf: Bytes, j: nat, key: Key)
    requires KeyOccurs(buf, j, key)
    ensures SkipWs(buf, j) == KeyAt(j, key).start && SkipWs(buf, KeyAt(j, key).end) == KeyAt(j, key).end + |key.after|
    ensures StringSpan(buf, KeyAt(j, key).start) == Ok(KeyAt(j, key))
  {
    WsRun(buf, j, key.before);
    WsRun(buf, KeyAt(j, key).end, key.after);
    StringExact(buf, KeyAt(j, key).start, key.text);
  }

  lemma KeyDecodes(buf: Bytes, j: nat, key: Key)
    requires KeyOccurs(buf, j, key) && Paired(key.text)
    ensures InBounds(KeyAt(j, key), buf) && Decoded(buf, KeyAt(j, key)) == Ok(Logical(key.text))
  {
    StringDecodes(buf, KeyAt(j, key).start, key.text);
  }

  // The member that the key and the value of the first item make.
  function FirstMember(j: nat, items: Items): Member
    requires items.Cons? && ValidItems(true, items) && ItemsPaired(true, items)
  {
    var k := items.key.value;
    Member(Logical(k.text), KeyAt(j, k), SpanOf(ValueIndex(j, items), items.v))
  }

  lemma MemberJoin(buf: Bytes, obj: Span, j: nat, ks: Span, key: Bytes, colon: nat, v: ValueSpan)
    requires StringSpan(buf, SkipWs(buf, j)) == Ok(ks) && Decoded(buf, ks) == Ok(key)
    requires SkipWs(buf, ks.end) == colon < |buf| && buf[colon] == COLON
    requires ValueSpanAt(buf, colon + 1, 1) == Ok(v) && v.span.end <= obj.end
    ensures OneMember(buf, obj, j) == Ok(Member(key, ks, v))
  {
    hide StringSpan, Decoded, ValueSpanAt, SkipWs;
  }

  lemma ListedKey(buf: Bytes, obj: Span, j: nat, items: Items)
    requires Listed(buf, obj, j, true, items) && ItemsPaired(true, items)
    ensures InBounds(obj, buf) && items.Cons? && items.key.Some? && ValidItems(true, items)
    ensures ValidKey(items.key.value) && ValidChars(items.key.value.text) && Paired(items.key.value.text)
  {
    hide Occurs, JsonText, ItemsText;
  }

  lemma FirstIs(j: nat, items: Items)
    requires items.Cons? && ValidItems(true, items) && ItemsPaired(true, items)
    ensures var k := items.key.value;
            FirstMember(j, items) == Member(Logical(k.text), KeyAt(j, k), SpanOf(ValueIndex(j, items), items.v))
    ensures SpanOf(ValueIndex(j, items), items.v).span.end == ValueEnd(j, items)
  {
    hide JsonText, KeyText, StrText, Logical, Valid, AllPaired;
  }

  lemma KeyOfFirst(buf: Bytes, obj: Span, j: nat, items: Items)
    requires Listed(buf, obj, j, true, items) && items.Cons? && items.key.Some? && ValidKey(items.key.value)
    ensures var key := items.key.value;
            && KeyOccurs(buf, j, key) && KeyAt(j, key).end + |key.after| + 1 == j + |KeyText(items.key)|
            && KeyAt(j, key).end + |key.after| < |buf| && buf[KeyAt(j, key).end + |key.after|] == COLON
  {
    hide JsonText, KeyText, Occurs, Listed, StrText, ItemsText, ValidChars;
    ListedParts(buf, obj, j, true, items);
    KeySplit(buf, j, items.key);
  }

  lemma MemberExact(buf: Bytes, obj: Span, j: nat, items: Items)
    requires Listed(buf, obj, j, true, items) && ItemsPaired(true, items)
    ensures OneMember(buf, obj, j) == Ok(FirstMember(j, items))
  {
    hide *;
    ListedKey(buf, obj, j, items);
    FirstIs(j, items);
    var key := items.key.value;
    KeyOfFirst(buf, obj, j, items);
    KeyScans(buf, j, key);
    KeyDecodes(buf, j, key);
    AfterFirstValue(buf, obj, j, true, items);
    FirstValueExact(buf, obj, j, true, items);
    MemberJoin(buf, obj, j, KeyAt(j, key), Logical(key.text), j + |KeyText(items.key)| - 1,
               SpanOf(ValueIndex(j, items), items.v));
  }

  lemma MemberNextJoin(buf: Bytes, obj: Span, e: nat, r: nat)
    requires SkipWs(buf, e) == r < |buf| && (buf[r] == COMMA || (buf[r] == CLOSE_BRACE && r + 1 == obj.end))
    ensures MemberNext(buf, obj, e) == Ok(if buf[r] == COMMA then Some(r + 1) else None)
  {
  }

  lemma MemberNextExact(buf: Bytes, obj: Span, j: nat, items: Items)
    requires Listed(buf, obj, j, true, items)
    ensures MemberNext(buf, obj, ValueEnd(j, items))
            == Ok(if items.rest.Nil? then None else Some(RestAt(j, items) + 1))
    ensures items.rest.Cons? ==> Listed(buf, obj, RestAt(j, items) + 1, true, items.rest)
  {
    ListedParts(buf, obj, j, true, items);
    assert SkipWs(buf, ValueEnd(j, items)) == RestAt(j, items) by {
      AfterFirstValue(buf, obj, j, true, items);
    }
    MemberNextJoin(buf, obj, ValueEnd(j, items), RestAt(j, items));
  }

  lemma MembersJoin(buf: Bytes, obj: Span, j: nat, m: Member, next: Option<nat>)
    requires OneMember(buf, obj, j) == Ok(m) && MemberNext(buf, obj, m.value.span.end) == Ok(next)
    ensures MembersFrom(buf, obj, j)
            == if next.None? then Ok([m]) else After([m], MembersFrom(buf, obj, next.value))
  {
  }

  lemma {:induction false} MembersExact(buf: Bytes, obj: Span, j: nat, items: Items)
    requires Listed(buf, obj, j, true, items) && ItemsPaired(true, items)
    ensures MembersFrom(buf, obj, j) == Ok(MembersAt(j, items))
    decreases items
  {
    hide MembersFrom, OneMember, MemberNext, JsonText, KeyText, ItemsText, StrText, Occurs, Valid, AllPaired, Logical;
    MembersUnfold(buf, obj, j, items);
    var m := FirstMember(j, items);
    if items.rest.Cons? {
      assert Listed(buf, obj, RestAt(j, items) + 1, true, items.rest) by {
        ListedParts(buf, obj, j, true, items);
      }
      MembersExact(buf, obj, RestAt(j, items) + 1, items.rest);
    } else {
      assert MembersAt(j, items) == [m];
    }
  }

  lemma MembersUnfold(buf: Bytes, obj: Span, j: nat, items: Items)
    requires Listed(buf, obj, j, true, items) && ItemsPaired(true, items)
    ensures var m := FirstMember(j, items);
            MembersFrom(buf, obj, j) ==
            if items.rest.Nil? then Ok([m]) else After([m], MembersFrom(buf, obj, RestAt(j, items) + 1))
  {
    hide MembersFrom, OneMember, MemberNext;
    var m := FirstMember(j, items);
    assert OneMember(buf, obj, j) == Ok(m) by {
      MemberExact(buf, obj, j, items);
    }
    MemberNextExact(buf, obj, j, items);
    MembersJoin(buf, obj, j, m, if items.rest.Nil? then None else Some(RestAt(j, items) + 1));
  }

  lemma ElementExact(buf: Bytes, arr: Span, j: nat, items: Items)
    requires Listed(buf, arr, j, false, items)
    ensures OneElement(buf, arr, j) == Ok(SpanOf(ValueIndex(j, items), items.v))
  {
    hide JsonText, ItemsText, Occurs, Valid, ValueSpanAt;
    assert KeyText(items.key) == [];
    FirstValueExact(buf, arr, j, false, items);
    assert ValueEnd(j, items) <= arr.end by {
      AfterFirstValue(buf, arr, j, false, items);
    }
  }

  lemma ElementNextExact(buf: Bytes, arr: Span, j: nat, items: Items)
    requires Listed(buf, arr, j, false, items)
    ensures ElementNext(buf, arr, ValueEnd(j, items))
            == Ok(if items.rest.Nil? then None else Some(RestAt(j, items) + 1))
    ensures items.rest.Cons? ==> Listed(buf, arr, RestAt(j, items) + 1, false, items.rest)
  {
    AfterFirstValue(buf, arr, j, false, items);
    ListedParts(buf, arr, j, false, items);
  }

  lemma ElementsJoin(buf: Bytes, arr: Span, j: nat, v: ValueSpan, next: Option<nat>)
    requires OneElement(buf, arr, j) == Ok(v) && ElementNext(buf, arr, v.span.end) == Ok(next)
    ensures ElementsFrom(buf, arr, j)
            == if next.None? then Ok([v]) else After([v], ElementsFrom(buf, arr, next.value))
  {
  }

  lemma {:induction false} ElementsExact(buf: Bytes, arr: Span, j: nat, items: Items)
    requires Listed(buf, arr, j, false, items)
    ensures ElementsFrom(buf, arr, j) == Ok(ValuesAt(j, items))
    decreases items
  {
    hide ElementsFrom, OneElement, ElementNext, JsonText, KeyText, ItemsText, Occurs, Valid;
    ElementsUnfold(buf, arr, j, items);
    var v := SpanOf(ValueIndex(j, items), items.v);
    if items.rest.Cons? {
      assert Listed(buf, arr, RestAt(j, items) + 1, false, items.rest) by {
        ListedParts(buf, arr, j, false, items);
      }
      ElementsExact(buf, arr, RestAt(j, items) + 1, items.rest);
      assert ValuesAt(j, items) == [v] + ValuesAt(RestAt(j, items) + 1, items.rest);
    } else {
      assert ValuesAt(j, items) == [v];
    }
  }

  lemma ElementsUnfold(buf: Bytes, arr: Span, j: nat, items: Items)
    requires Listed(buf, arr, j, false, items)
    ensures var v := SpanOf(ValueIndex(j, items), items.v);
            ElementsFrom(buf, arr, j) ==
            if items.rest.Nil? then Ok([v]) else After([v], ElementsFrom(buf, arr, RestAt(j, items) + 1))
  {
    hide ElementsFrom, OneElement, ElementNext;
    var v := SpanOf(ValueIndex(j, items), items.v);
    assert OneElement(buf, arr, j) == Ok(v) by {
      ElementExact(buf, arr, j, items);
    }
    assert ElementNext(buf, arr, v.span.end) == Ok(if items.rest.Nil? then None else Some(RestAt(j, items) + 1)) by {
      ElementNextExact(buf, arr, j, items);
    }
    ElementsJoin(buf, arr, j, v, if items.rest.Nil? then None else Some(RestAt(j, items) + 1));
  }

  // The first byte of an item list is not whitespace followed by a closer, so
  // a container with items is never taken for an empty one.
  lemma FirstItemByte(buf: Bytes, cont: Span, j: nat, obj: bool, items: Items)
    requires Listed(buf, cont, j, obj, items)
    ensures SkipWs(buf, j) < cont.end && !IsClose(buf[SkipWs(buf, j)])
  {
    AfterFirstValue(buf, cont, j, obj, items);
    ListedParts(buf, cont, j, obj, items);
    if items.key.Some? {
      KeySplit(buf, j, items.key);
      WsRun(buf, j, items.key.value.before);
    } else {
      FirstElementByte(buf, j, items);
    }
  }

  lemma FirstElementByte(buf: Bytes, j: nat, items: Items)
    requires items.Cons? && items.key.None? && PartsOccur(buf, j, items) && AllWs(items.before) && Valid(items.v)
    ensures SkipWs(buf, j) < ValueEnd(j, items) <= |buf| && !IsClose(buf[SkipWs(buf, j)])
  {
    assert KeyText(items.key) == [];
    var v := ValueIndex(j, items);
    FirstByte(items.v);
    OccursAt(buf, v, JsonText(items.v), 0);
    WsRun(buf, j, items.before);
  }

  // An item list scanned from its first non-blank byte is the one scanned from
  // before the blanks.
  lemma SkipTwice(buf: Bytes, i: nat)
    ensures SkipWs(buf, SkipWs(buf, i)) == SkipWs(buf, i)
  {
  }

  lemma MembersSkip(buf: Bytes, obj: Span, i: nat)
    ensures MembersFrom(buf, obj, SkipWs(buf, i)) == MembersFrom(buf, obj, i)
  {
    hide ValueSpanAt, StringSpan, Decoded, MemberNext;
    SkipTwice(buf, i);
    assert OneMember(buf, obj, SkipWs(buf, i)) == OneMember(buf, obj, i);
  }

  lemma ElementsSkip(buf: Bytes, arr: Span, i: nat)
    ensures ElementsFrom(buf, arr, SkipWs(buf, i)) == ElementsFrom(buf, arr, i)
  {
    SkipTwice(buf, i);
    assert OneElement(buf, arr, SkipWs(buf, i)) == OneElement(buf, arr, i);
  }

  ghost predicate ContainerAt(buf: Bytes, i: nat, t: Json) {
    t.Cont? && Valid(t) && Occurs(buf, i, JsonText(t)) && Depth(t) <= MAX_DEPTH
  }

  lemma ContainerListed(buf: Bytes, i: nat, t: Json)
    requires ContainerAt(buf, i, t)
    ensures InBounds(SpanOf(i, t).span, buf) && buf[i] == Open(t.obj)
    ensures t.items.Cons? ==> Listed(buf, SpanOf(i, t).span, i + 1, t.obj, t.items)
    ensures t.items.Nil? ==> SkipWs(buf, i + 1) == SpanOf(i, t).span.end - 1
                             && buf[SkipWs(buf, i + 1)] == Close(t.obj)
  {
    ContSplit(buf, i, t.obj, t.gap, t.items);
    if t.items.Nil? {
      WsRun(buf, i + 1, t.gap);
    }
  }

  lemma ObjectMembers(buf: Bytes, i: nat, t: Json)
    requires ContainerAt(buf, i, t) && t.obj && AllPaired(t)
    ensures InBounds(SpanOf(i, t).span, buf)
    ensures Members(buf, SpanOf(i, t).span) == Ok(MembersAt(i + 1, t.items))
  {
    hide Occurs, MembersFrom, Valid, JsonText, KeyText, ItemsText, Listed, Depth, SkipWs, Logical;
    ContainerListed(buf, i, t);
    var s := SpanOf(i, t).span;
    if t.items.Cons? {
      FirstItemByte(buf, s, i + 1, true, t.items);
      MembersSkip(buf, s, i + 1);
      MembersExact(buf, s, i + 1, t.items);
    }
  }

  lemma ArrayElements(buf: Bytes, i: nat, t: Json)
    requires ContainerAt(buf, i, t) && !t.obj
    ensures InBounds(SpanOf(i, t).span, buf)
    ensures Elements(buf, SpanOf(i, t).span) == Ok(ValuesAt(i + 1, t.items))
  {
    hide Occurs, ElementsFrom, Valid, JsonText, KeyText, ItemsText, Listed, Depth, SkipWs;
    ContainerListed(buf, i, t);
    var s := SpanOf(i, t).span;
    if t.items.Cons? {
      FirstItemByte(buf, s, i + 1, false, t.items);
      ElementsSkip(buf, s, i + 1);
      ElementsExact(buf, s, i + 1, t.items);
    }
  }

  lemma ContainerJoin(buf: Bytes, v: ValueSpan, vs: seq<ValueSpan>, depth: nat)
    requires InBounds(v.span, buf) && depth <= MAX_DEPTH
    requires || (v.kind == KObject && Members(buf, v.span).Ok? && vs == MemberValues(Members(buf, v.span).value))
             || (v.kind == KArray && Elements(buf, v.span) == Ok(vs))
    requires Ordered(vs, v.span.start, v.span.end) && ValidityAll(buf, vs, v.span, depth + 1).Ok?
    ensures Validity(buf, v, depth).Ok?
  {
  }

  // What the scanners report for a container are the values of its items.
  lemma ContainerValues(buf: Bytes, i: nat, t: Json)
    requires ContainerAt(buf, i, t) && AllPaired(t)
    ensures var s := SpanOf(i, t).span;
            && InBounds(s, buf) && Ordered(ValuesAt(i + 1, t.items), s.start, s.end)
            && (t.obj ==> Members(buf, s).Ok? && MemberValues(Members(buf, s).value) == ValuesAt(i + 1, t.items))
            && (!t.obj ==> Elements(buf, s) == Ok(ValuesAt(i + 1, t.items)))
  {
    var s := SpanOf(i, t).span;
    if t.obj {
      ObjectMembers(buf, i, t);
      MemberValuesAt(i + 1, t.items);
    } else {
      ArrayElements(buf, i, t);
    }
    OrderedFrom(ValuesAt(i + 1, t.items), s.start, s.start + 1, s.end);
  }

  lemma {:induction false} TextValidates(buf: Bytes, i: nat, t: Json, depth: nat)
    requires Valid(t) && Occurs(buf, i, JsonText(t)) && AllPaired(t) && depth + Depth(t) <= MAX_DEPTH
    ensures InBounds(SpanOf(i, t).span, buf)
    ensures Validity(buf, SpanOf(i, t), depth).Ok?
    decreases t, 1
  {
    if t.Str? {
      StringDecodes(buf, i, t.chars);
    } else if t.Cont? {
      ContainerValidates(buf, i, t, depth);
    }
  }

  lemma {:induction false} ContainerValidates(buf: Bytes, i: nat, t: Json, depth: nat)
    requires ContainerAt(buf, i, t) && AllPaired(t) && depth + Depth(t) <= MAX_DEPTH
    ensures InBounds(SpanOf(i, t).span, buf)
    ensures Validity(buf, SpanOf(i, t), depth).Ok?
    decreases t, 0
  {
    var v, vs := SpanOf(i, t), ValuesAt(i + 1, t.items);
    ContainerValues(buf, i, t);
    ContainerListed(buf, i, t);
    ContainerPaired(t);
    hide Validity, ValidityAll, Occurs, JsonText, Members, Elements, Valid, AllPaired, Listed, ValuesAt, Ordered;
    if t.items.Cons? {
      ItemsValidate(buf, v.span, i + 1, t.obj, t.items, depth + 1);
    } else {
      NothingToValidate(buf, i + 1, v.span, depth + 1);
    }
    ContainerJoin(buf, v, vs, depth);
  }

  lemma ContainerPaired(t: Json)
    requires t.Cont? && Valid(t) && AllPaired(t)
    ensures ValidItems(t.obj, t.items) && ItemsPaired(t.obj, t.items) && Depth(t) == 1 + ItemsDepth(t.items)
  {
  }

  lemma NothingToValidate(buf: Bytes, j: nat, cont: Span, depth: nat)
    requires InBounds(cont, buf)
    ensures Ordered(ValuesAt(j, Nil), cont.start, cont.end) && ValidityAll(buf, ValuesAt(j, Nil), cont, depth).Ok?
  {
  }

  lemma {:induction false} ItemsValidate(buf: Bytes, cont: Span, j: nat, obj: bool, items: Items, depth: nat)
    requires Listed(buf, cont, j, obj, items) && ItemsPaired(obj, items)
    requires depth + ItemsDepth(items) <= MAX_DEPTH
    requires Ordered(ValuesAt(j, items), cont.start, cont.end)
    ensures ValidityAll(buf, ValuesAt(j, items), cont, depth).Ok?
    decreases items, 0
  {
    hide *;
    ItemParts(buf, cont, j, obj, items);
    var b := ValueIndex(j, items);
    var rest := ValuesAt(RestAt(j, items) + 1, items.rest);
    ValuesUnfold(j, items);
    ValuesApart(cont, SpanOf(b, items.v), rest);
    TextValidates(buf, b, items.v, depth);
    if items.rest.Cons? {
      ItemsValidate(buf, cont, RestAt(j, items) + 1, obj, items.rest, depth);
    }
    ValidityJoin(buf, SpanOf(b, items.v), rest, cont, depth);
  }

  lemma ValuesUnfold(j: nat, items: Items)
    requires items.Cons?
    ensures ValuesAt(j, items) == [SpanOf(ValueIndex(j, items), items.v)] + ValuesAt(RestAt(j, items) + 1, items.rest)
    ensures items.rest.Nil? ==> ValuesAt(RestAt(j, items) + 1, items.rest) == []
  {
    hide JsonText, KeyText, SpanOf;
  }

  lemma ValuesApart(cont: Span, v: ValueSpan, rest: seq<ValueSpan>)
    requires Ordered([v] + rest, cont.start, cont.end)
    ensures Ordered(rest, cont.start, cont.end)
  {
    assert ([v] + rest)[1..] == rest;
    OrderedFrom(rest, cont.start, v.span.end, cont.end);
  }

  lemma ValidityJoin(buf: Bytes, v: ValueSpan, rest: seq<ValueSpan>, cont: Span, depth: nat)
    requires InBounds(cont, buf) && Ordered([v] + rest, cont.start, cont.end) && Ordered(rest, cont.start, cont.end)
    requires InBounds(v.span, buf) && Validity(buf, v, depth).Ok?
    requires rest == [] || ValidityAll(buf, rest, cont, depth).Ok?
    ensures ValidityAll(buf, [v] + rest, cont, depth).Ok?
  {
    hide Validity;
    assert ([v] + rest)[1..] == rest;
  }

  lemma ItemParts(buf: Bytes, cont: Span, j: nat, obj: bool, items: Items)
    requires Listed(buf, cont, j, obj, items) && ItemsPaired(obj, items)
    ensures Valid(items.v) && AllPaired(items.v) && Occurs(buf, ValueIndex(j, items), JsonText(items.v))
    ensures ValidItems(obj, items.rest) && ItemsPaired(obj, items.rest)
    ensures items.rest.Cons? ==> Listed(buf, cont, RestAt(j, items) + 1, obj, items.rest)
    ensures Depth(items.v) <= ItemsDepth(items) && ItemsDepth(items.rest) <= ItemsDepth(items)
    ensures items.Cons? && InBounds(cont, buf) && InBounds(SpanOf(ValueIndex(j, items), items.v).span, buf)
  {
    ListedParts(buf, cont, j, obj, items);
  }

  lemma DocumentAccepted(buf: Bytes, lead: Bytes, t: Json, trail: Bytes)
    requires IsDocument(buf, lead, t, trail)
    ensures Strict(buf) == Ok(SpanOf(|lead|, t))
  {
    var e := |lead| + |JsonText(t)|;
    assert Occurs(buf, 0, lead + JsonText(t)) && Occurs(buf, e, trail) by {
      OccursSlice(buf, 0, buf);
      OccursSplit(buf, 0, lead + JsonText(t), trail);
    }
    assert Occurs(buf, |lead|, JsonText(t)) by {
      OccursSplit(buf, 0, lead, JsonText(t));
    }
    assert ValueSpanAt(buf, 0, 0) == Ok(SpanOf(|lead|, t)) by {
      ScannedExact(buf, 0, lead, t, 0);
    }
    assert SkipWs(buf, e) == |buf| by {
      WsRun(buf, e, trail);
    }
    assert Validity(buf, SpanOf(|lead|, t), 0).Ok? by {
      TextValidates(buf, |lead|, t, 0);
    }
  }
}

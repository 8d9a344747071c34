// Which strings of a document become payloads, which of its values become
// blocks, and so how a document is grouped, said of its text.

module Payloads {
  import opened Results
  import opened Blocks
  import opened Policies
  import opened Scan
  import opened Rfc8259
  import opened Extents
  import opened Strictness
  import opened Grouping
  import LaminarGroups
  import SplitBodies

  // ---------- The strings of a text ----------

  // Where a string stands, its text with its quotes, the key it is the value
  // of, if any, and how many containers it is in.
  datatype Place = Place(at: Span, text: Bytes, under: Option<Bytes>, depth: nat)

  function KeyOf(obj: bool, items: Items): Option<Bytes>
    requires items.Cons? && ValidItems(obj, items) && ItemsPaired(obj, items)
  {
    if items.key.Some? then Some(Logical(items.key.value.text)) else None
  }

  // All the strings that are values in a text, in order.
  function Strings(i: nat, t: Json, under: Option<Bytes>, depth: nat): seq<Place>
    requires Valid(t) && AllPaired(t)
    decreases t, 1
  {
    match t
    case Str(_) => [Place(Span(i, i + |JsonText(t)|), JsonText(t), under, depth)]
    case Cont(obj, _, items) => ItemStrings(i + 1, obj, items, depth + 1)
    case _ => []
  }

  function ItemStrings(j: nat, obj: bool, items: Items, depth: nat): seq<Place>
    requires ValidItems(obj, items) && ItemsPaired(obj, items)
    decreases items, 0
  {
    if items.Nil? then []
    else Strings(ValueIndex(j, items), items.v, KeyOf(obj, items), depth)
         + ItemStrings(RestAt(j, items) + 1, obj, items.rest, depth)
  }

  // ---------- Which of them are payloads ----------

  predicate MediaKey(key: Option<Bytes>) {
    || key == Some(Ascii("url")) || key == Some(Ascii("file_data")) || key == Some(Ascii("data"))
    || key == Some(Ascii("b64_json")) || key == Some(Ascii("image_base64")) || key == Some(Ascii("input_audio"))
  }

  // The text opens with "data: and there is something more in it than that.
  predicate DataUri(text: Bytes) {
    |text| > 7 && text[..6] == [0x22, 0x64, 0x61, 0x74, 0x61, 0x3a]
  }

  // Long enough; and under a media key, or a data URI, or of 4096 bytes or more.
  // Containers below the depth limit are not looked into; a string that is not
  // under a media key must be within it itself.
  predicate IsPayload(s: Place, p: Policy) {
    && |s.text| >= p.minPayloadBytes
    && if MediaKey(s.under) then s.depth <= p.maxDepth + 1
       else s.depth <= p.maxDepth && (DataUri(s.text) || |s.text| >= 4096)
  }

  function AsCand(s: Place, p: Policy): Cand {
    Cand(s.at, if MediaKey(s.under) || DataUri(s.text) then Media else Text, p.minPayloadBytes)
  }

  function Chosen(ss: seq<Place>, p: Policy): seq<Cand> {
    if ss == [] then []
    else (if IsPayload(ss[0], p) then [AsCand(ss[0], p)] else []) + Chosen(ss[1..], p)
  }

  lemma {:induction false} ChosenConcat(a: seq<Place>, b: seq<Place>, p: Policy)
    ensures Chosen(a + b, p) == Chosen(a, p) + Chosen(b, p)
  {
    if a == [] {
      assert a + b == b;
    } else {
      assert (a + b)[1..] == a[1..] + b;
      ChosenConcat(a[1..], b, p);
    }
  }

  lemma ChosenOne(s: Place, p: Policy)
    ensures Chosen([s], p) == if IsPayload(s, p) then [AsCand(s, p)] else []
  {
    assert [s][1..] == [] && Chosen([], p) == [];
  }

  // ---------- Up to a number ----------

  function First(s: seq<Cand>): seq<Cand> { if |s| <= 4096 then s else s[..4096] }

  // All of `base` up to the first 4096, and nothing that is not in it.
  ghost predicate Capped(base: seq<Cand>, r: seq<Cand>) {
    First(r) == First(base) && |r| <= |base| && forall c :: c in r ==> c in base
  }

  lemma CappedAll(base: seq<Cand>, r: seq<Cand>)
    requires Capped(base, r) && |base| <= 4096
    ensures r == base
  {
  }

  lemma CappedSame(s: seq<Cand>, more: seq<Cand>)
    requires more == [] || |s| >= 4096
    ensures Capped(s + more, s)
  {
    assert First(s + more) == First(s);
  }

  lemma CappedTwice(out: seq<Cand>, a: seq<Cand>, b: seq<Cand>, r: seq<Cand>, z: seq<Cand>)
    requires Capped(out + a, r) && Capped(r + b, z)
    ensures Capped(out + (a + b), z)
  {
    assert out + (a + b) == out + a + b;
    if |r| < 4096 {
      assert r == out + a;
    } else {
      assert First(r + b) == First(r);
      assert First(out + a + b) == First(out + a);
    }
  }

  // ---------- Nothing below the limit ----------

  lemma {:induction false} DeepNone(i: nat, t: Json, under: Option<Bytes>, depth: nat, p: Policy)
    requires Valid(t) && AllPaired(t) && depth > p.maxDepth && (t.Cont? || depth > p.maxDepth + 1 || !MediaKey(under))
    ensures Chosen(Strings(i, t, under, depth), p) == []
    decreases t, 1
  {
    hide MediaKey, DataUri, Logical, JsonText;
    match t {
      case Str(_) => ChosenOne(Place(Span(i, i + |JsonText(t)|), JsonText(t), under, depth), p);
      case Cont(obj, _, items) => DeepItems(i + 1, obj, items, depth + 1, p);
      case _ =>
    }
  }

  lemma {:induction false} DeepItems(j: nat, obj: bool, items: Items, depth: nat, p: Policy)
    requires ValidItems(obj, items) && ItemsPaired(obj, items) && depth > p.maxDepth + 1
    ensures Chosen(ItemStrings(j, obj, items, depth), p) == []
    decreases items, 0
  {
    hide MediaKey, DataUri, Logical, JsonText, IsPayload;
    if items.Cons? {
      DeepNone(ValueIndex(j, items), items.v, KeyOf(obj, items), depth, p);
      DeepItems(RestAt(j, items) + 1, obj, items.rest, depth, p);
      ChosenConcat(Strings(ValueIndex(j, items), items.v, KeyOf(obj, items), depth),
                   ItemStrings(RestAt(j, items) + 1, obj, items.rest, depth), p);
    }
  }

  // ---------- What is collected ----------

  lemma MediaKeys(key: Bytes)
    ensures key in MEDIA_KEYS <==> MediaKey(Some(key))
    ensures MAX_PAYLOAD_CANDS == 4096
  {
    hide Ascii;
  }

  lemma PrefixIs()
    ensures DATA_URI_PREFIX == [0x64, 0x61, 0x74, 0x61, 0x3a]
  {
  }

  // How a string looks in the buffer is how its text looks.
  lemma LooksAlike(buf: Bytes, i: nat, t: Json)
    requires t.Str? && Occurs(buf, i, JsonText(t))
    ensures var s := SpanOf(i, t).span;
            && InBounds(s, buf) && SpanLen(s) == |JsonText(t)|
            && (StartsWithDataUri(buf, s) <==> DataUri(JsonText(t)))
            && (LooksLikePayload(buf, s) <==> DataUri(JsonText(t)) || |JsonText(t)| >= 4096)
  {
    var text := JsonText(t);
    OccursSlice(buf, i, text);
    PrefixIs();
    if |text| > 7 {
      assert text[1..][..5] == text[1..6];
      assert text[..6] == [text[0]] + text[1..6];
    }
  }

  ghost predicate Stands(buf: Bytes, i: nat, t: Json) {
    Valid(t) && AllPaired(t) && Occurs(buf, i, JsonText(t)) && Depth(t) <= MAX_DEPTH
  }

  lemma {:induction false} CollectIs(buf: Bytes, i: nat, t: Json, depth: nat, p: Policy, out: seq<Cand>)
    requires Stands(buf, i, t)
    ensures InBounds(SpanOf(i, t).span, buf)
    ensures Capped(out + Chosen(Strings(i, t, None, depth), p), Collect(buf, SpanOf(i, t), depth, p, out))
    decreases t, 2
  {
    hide Capped, Chosen, Strings, JsonText, Occurs, Collect, DataUri, Valid, AllPaired, Members, Elements;
    StandsIn(buf, i, t);
    if depth > p.maxDepth {
      DeepNone(i, t, None, depth, p);
      CappedSame(out, []);
      CollectStops(buf, SpanOf(i, t), depth, p, out);
    } else if |out| >= 4096 {
      CappedSame(out, Chosen(Strings(i, t, None, depth), p));
      CollectStops(buf, SpanOf(i, t), depth, p, out);
    } else if t.Str? {
      StringIs(buf, i, t, None, depth, p, out);
    } else if t.Cont? {
      ContainerIs(buf, i, t, depth, p, out);
    } else {
      OtherIs(buf, i, t, depth, p, out);
    }
  }

  lemma StandsIn(buf: Bytes, i: nat, t: Json)
    requires Stands(buf, i, t)
    ensures Valid(t) && AllPaired(t) && InBounds(SpanOf(i, t).span, buf) && (t.Str? ==> Occurs(buf, i, JsonText(t)))
    ensures t.Cont? ==> ContainerAt(buf, i, t)
  {
  }

  lemma CollectStops(buf: Bytes, v: ValueSpan, depth: nat, p: Policy, out: seq<Cand>)
    requires InBounds(v.span, buf) && (depth > p.maxDepth || |out| >= 4096)
    ensures Collect(buf, v, depth, p, out) == out
  {
    MediaKeys([]);
    hide Members, Elements;
  }

  lemma CappedExact(s: seq<Cand>)
    ensures Capped(s, s)
  {
  }

  lemma StringCollects(buf: Bytes, v: ValueSpan, text: Bytes, depth: nat, p: Policy, out: seq<Cand>)
    requires v.kind == KString && InBounds(v.span, buf) && SpanLen(v.span) == |text|
    requires StartsWithDataUri(buf, v.span) <==> DataUri(text)
    requires LooksLikePayload(buf, v.span) <==> DataUri(text) || |text| >= 4096
    requires depth <= p.maxDepth && |out| < 4096
    ensures Collect(buf, v, depth, p, out) ==
            if |text| >= p.minPayloadBytes && (DataUri(text) || |text| >= 4096)
            then out + [Cand(v.span, if DataUri(text) then Media else Text, p.minPayloadBytes)]
            else out
  {
    MediaKeys([]);
    hide DataUri, StartsWithDataUri, LooksLikePayload, Members, Elements;
  }

  lemma StringChosen(i: nat, t: Json, under: Option<Bytes>, depth: nat, p: Policy)
    requires t.Str? && Valid(t) && AllPaired(t) && !MediaKey(under) && depth <= p.maxDepth
    ensures SpanOf(i, t).kind == KString
    ensures var text := JsonText(t);
            Chosen(Strings(i, t, under, depth), p) ==
            if |text| >= p.minPayloadBytes && (DataUri(text) || |text| >= 4096)
            then [Cand(SpanOf(i, t).span, if DataUri(text) then Media else Text, p.minPayloadBytes)]
            else []
  {
    hide DataUri, JsonText, MediaKey, Chosen;
    ChosenOne(Place(Span(i, i + |JsonText(t)|), JsonText(t), under, depth), p);
  }

  lemma StringIs(buf: Bytes, i: nat, t: Json, under: Option<Bytes>, depth: nat, p: Policy, out: seq<Cand>)
    requires t.Str? && Valid(t) && AllPaired(t) && Occurs(buf, i, JsonText(t)) && !MediaKey(under)
    requires depth <= p.maxDepth && |out| < 4096
    ensures InBounds(SpanOf(i, t).span, buf)
    ensures Capped(out + Chosen(Strings(i, t, under, depth), p), Collect(buf, SpanOf(i, t), depth, p, out))
  {
    hide *;
    LooksAlike(buf, i, t);
    StringChosen(i, t, under, depth, p);
    StringCollects(buf, SpanOf(i, t), JsonText(t), depth, p, out);
    assert out + [] == out;
    CappedExact(out + Chosen(Strings(i, t, under, depth), p));
  }

  lemma OtherIs(buf: Bytes, i: nat, t: Json, depth: nat, p: Policy, out: seq<Cand>)
    requires !t.Str? && !t.Cont? && Valid(t) && AllPaired(t) && InBounds(SpanOf(i, t).span, buf)
    ensures Capped(out + Chosen(Strings(i, t, None, depth), p), Collect(buf, SpanOf(i, t), depth, p, out))
  {
    hide JsonText, Members, Elements, Capped;
    assert out + [] == out;
    CappedExact(out);
  }

  lemma {:induction false} ContainerIs(buf: Bytes, i: nat, t: Json, depth: nat, p: Policy, out: seq<Cand>)
    requires Stands(buf, i, t) && t.Cont? && depth <= p.maxDepth && |out| < 4096
    ensures InBounds(SpanOf(i, t).span, buf)
    ensures Valid(t) && AllPaired(t)
    ensures Capped(out + Chosen(Strings(i, t, None, depth), p), Collect(buf, SpanOf(i, t), depth, p, out))
    decreases t, 1
  {
    hide *;
    StandsIn(buf, i, t);
    ContainerValues(buf, i, t);
    ContainerPaired(t);
    ContainerListed(buf, i, t);
    DepthLimited(buf, i, t);
    var s := SpanOf(i, t).span;
    ContainerStrings(i, t, None, depth);
    if t.obj {
      ObjectMembers(buf, i, t);
      ObjectCollects(buf, i, t, depth, p, out);
      MembersCollect(buf, s, i + 1, t.items, depth + 1, p, out);
    } else {
      ArrayCollects(buf, i, t, depth, p, out);
      ElementsCollect(buf, s, i + 1, t.items, depth + 1, p, out);
    }
  }

  lemma DepthLimited(buf: Bytes, i: nat, t: Json)
    requires Stands(buf, i, t) && t.Cont?
    ensures Depth(t) <= MAX_DEPTH && ItemsDepth(t.items) < MAX_DEPTH
    ensures SpanOf(i, t).kind == if t.obj then KObject else KArray
  {
  }

  lemma ContainerStrings(i: nat, t: Json, under: Option<Bytes>, depth: nat)
    requires t.Cont? && Valid(t) && AllPaired(t)
    ensures ValidItems(t.obj, t.items) && ItemsPaired(t.obj, t.items)
    ensures Strings(i, t, under, depth) == ItemStrings(i + 1, t.obj, t.items, depth + 1)
  {
  }

  lemma ObjectCollects(buf: Bytes, i: nat, t: Json, depth: nat, p: Policy, out: seq<Cand>)
    requires t.Cont? && t.obj && ValidItems(true, t.items) && ItemsPaired(true, t.items)
    requires InBounds(SpanOf(i, t).span, buf) && Members(buf, SpanOf(i, t).span) == Ok(MembersAt(i + 1, t.items))
    requires depth <= p.maxDepth && |out| < 4096
    ensures var s, ms := SpanOf(i, t).span, MembersAt(i + 1, t.items);
            && Ordered(MemberValues(ms), s.start, s.end)
            && Collect(buf, SpanOf(i, t), depth, p, out) == CollectMembers(buf, ms, s, depth + 1, p, out)
  {
    MediaKeys([]);
    var s, ms := SpanOf(i, t).span, MembersAt(i + 1, t.items);
    OrderedFrom(MemberValues(ms), s.start, s.start + 1, s.end);
    hide Members, Elements, CollectMembers, CollectElements, JsonText, MembersAt, Ordered, MemberValues;
  }

  lemma ArrayCollects(buf: Bytes, i: nat, t: Json, depth: nat, p: Policy, out: seq<Cand>)
    requires t.Cont? && !t.obj
    requires InBounds(SpanOf(i, t).span, buf) && Elements(buf, SpanOf(i, t).span) == Ok(ValuesAt(i + 1, t.items))
    requires depth <= p.maxDepth && |out| < 4096
    ensures var s, vs := SpanOf(i, t).span, ValuesAt(i + 1, t.items);
            && Ordered(vs, s.start, s.end)
            && Collect(buf, SpanOf(i, t), depth, p, out) == CollectElements(buf, vs, s, depth + 1, p, out)
  {
    MediaKeys([]);
    var s, vs := SpanOf(i, t).span, ValuesAt(i + 1, t.items);
    OrderedFrom(vs, s.start, s.start + 1, s.end);
    hide Members, Elements, CollectMembers, CollectElements, JsonText, ValuesAt, Ordered;
  }

  // Only for a string does it matter whose value it is.
  lemma UnderMatters(b: nat, v: Json, key: Bytes, depth: nat, p: Policy)
    requires Valid(v) && AllPaired(v)
    ensures !v.Str? || !MediaKey(Some(key)) ==>
              Chosen(Strings(b, v, Some(key), depth), p) == Chosen(Strings(b, v, None, depth), p)
    ensures v.Str? && MediaKey(Some(key)) && depth <= p.maxDepth + 1 ==>
              Chosen(Strings(b, v, Some(key), depth), p) ==
              if |JsonText(v)| >= p.minPayloadBytes then [Cand(SpanOf(b, v).span, Media, p.minPayloadBytes)] else []
  {
    hide MediaKey, DataUri, JsonText, Chosen;
    NoKey();
    if v.Str? {
      ChosenOne(Place(Span(b, b + |JsonText(v)|), JsonText(v), Some(key), depth), p);
      ChosenOne(Place(Span(b, b + |JsonText(v)|), JsonText(v), None, depth), p);
    }
  }

  lemma NoKey()
    ensures !MediaKey(None)
  {
  }

  lemma ShortString(buf: Bytes, b: nat, v: Json, depth: nat, p: Policy, out: seq<Cand>)
    requires v.Str? && InBounds(SpanOf(b, v).span, buf) && |JsonText(v)| < p.minPayloadBytes
    ensures Collect(buf, SpanOf(b, v), depth, p, out) == out
  {
    hide JsonText, Members, Elements;
  }

  lemma MemberCases(buf: Bytes, b: nat, v: Json, m: Member, depth: nat, p: Policy, out: seq<Cand>)
    requires m.value == SpanOf(b, v) && InBounds(m.value.span, buf)
    ensures CollectMember(buf, m, depth, p, out) ==
            if v.Str? && MediaKey(Some(m.key)) && |JsonText(v)| >= p.minPayloadBytes
            then out + [Cand(SpanOf(b, v).span, Media, p.minPayloadBytes)]
            else Collect(buf, SpanOf(b, v), depth, p, out)
  {
    hide JsonText, Collect, MediaKey;
    MediaKeys(m.key);
  }

  lemma {:induction false} MemberIs(buf: Bytes, b: nat, v: Json, m: Member, depth: nat, p: Policy, out: seq<Cand>)
    requires Stands(buf, b, v) && m.value == SpanOf(b, v) && depth <= p.maxDepth + 1
    ensures Valid(v) && AllPaired(v) && InBounds(m.value.span, buf)
    ensures Capped(out + Chosen(Strings(b, v, Some(m.key), depth), p), CollectMember(buf, m, depth, p, out))
    decreases v, 3
  {
    hide *;
    StandsIn(buf, b, v);
    MemberCases(buf, b, v, m, depth, p, out);
    UnderMatters(b, v, m.key, depth, p);
    if v.Str? && MediaKey(Some(m.key)) {
      if |JsonText(v)| < p.minPayloadBytes {
        ShortString(buf, b, v, depth, p, out);
        assert out + [] == out;
      }
      CappedExact(out + Chosen(Strings(b, v, Some(m.key), depth), p));
    } else {
      CollectIs(buf, b, v, depth, p, out);
    }
  }

  lemma MembersStep(buf: Bytes, cont: Span, j: nat, items: Items, depth: nat, p: Policy, out: seq<Cand>)
    requires items.Cons? && ValidItems(true, items) && ItemsPaired(true, items) && InBounds(cont, buf)
    requires Ordered(MemberValues(MembersAt(j, items)), cont.start, cont.end)
    ensures ValidItems(true, items.rest) && ItemsPaired(true, items.rest)
    ensures var m, rest := FirstMember(j, items), MembersAt(RestAt(j, items) + 1, items.rest);
            && m.value == SpanOf(ValueIndex(j, items), items.v) && KeyOf(true, items) == Some(m.key)
            && InBounds(m.value.span, buf) && Ordered(MemberValues(rest), cont.start, cont.end)
            && CollectMembers(buf, MembersAt(j, items), cont, depth, p, out) ==
               CollectMembers(buf, rest, cont, depth, p, CollectMember(buf, m, depth, p, out))
  {
    hide JsonText, CollectMember, KeyText, Logical, Valid, AllPaired;
    var m, rest := FirstMember(j, items), MembersAt(RestAt(j, items) + 1, items.rest);
    assert MembersAt(j, items)[0] == m && MembersAt(j, items)[1..] == rest;
    OrderedFrom(MemberValues(rest), cont.start, m.value.span.end, cont.end);
  }

  lemma ItemStringsStep(j: nat, obj: bool, items: Items, depth: nat, p: Policy)
    requires items.Cons? && ValidItems(obj, items) && ItemsPaired(obj, items)
    ensures Valid(items.v) && AllPaired(items.v) && ValidItems(obj, items.rest) && ItemsPaired(obj, items.rest)
    ensures Chosen(ItemStrings(j, obj, items, depth), p) ==
            Chosen(Strings(ValueIndex(j, items), items.v, KeyOf(obj, items), depth), p)
            + Chosen(ItemStrings(RestAt(j, items) + 1, obj, items.rest, depth), p)
  {
    hide Chosen, Logical, JsonText, KeyText;
    ChosenConcat(Strings(ValueIndex(j, items), items.v, KeyOf(obj, items), depth),
                 ItemStrings(RestAt(j, items) + 1, obj, items.rest, depth), p);
  }

  lemma ItemStands(buf: Bytes, cont: Span, j: nat, obj: bool, items: Items)
    requires Listed(buf, cont, j, obj, items) && ItemsPaired(obj, items) && ItemsDepth(items) <= MAX_DEPTH
    ensures Stands(buf, ValueIndex(j, items), items.v) && ItemsDepth(items.rest) <= MAX_DEPTH
    ensures items.Cons? && InBounds(cont, buf) && ValidItems(obj, items)
    ensures items.rest.Cons? ==> Listed(buf, cont, RestAt(j, items) + 1, obj, items.rest)
  {
    ItemParts(buf, cont, j, obj, items);
    hide Occurs, Valid, AllPaired, JsonText, KeyText, ItemsText;
  }

  lemma NoItems(buf: Bytes, cont: Span, j: nat, obj: bool, items: Items, depth: nat, p: Policy, out: seq<Cand>)
    requires items.Nil? && InBounds(cont, buf)
    ensures ValidItems(obj, items) && ItemsPaired(obj, items) && Chosen(ItemStrings(j, obj, items, depth), p) == []
    ensures MembersAt(j, Nil) == [] && ValuesAt(j, Nil) == [] && MemberValues([]) == [] && out + [] == out
    ensures CollectMembers(buf, [], cont, depth, p, out) == out
    ensures CollectElements(buf, [], cont, depth, p, out) == out
  {
  }

  lemma {:induction false} MembersCollect(buf: Bytes, cont: Span, j: nat, items: Items, depth: nat, p: Policy,
                                          out: seq<Cand>)
    requires ValidItems(true, items) && ItemsPaired(true, items) && InBounds(cont, buf)
    requires items.Cons? ==> Listed(buf, cont, j, true, items)
    requires ItemsDepth(items) <= MAX_DEPTH && depth <= p.maxDepth + 1
    requires Ordered(MemberValues(MembersAt(j, items)), cont.start, cont.end)
    ensures Capped(out + Chosen(ItemStrings(j, true, items, depth), p),
                   CollectMembers(buf, MembersAt(j, items), cont, depth, p, out))
    decreases items, 0
  {
    hide *;
    if items.Nil? {
      NoItems(buf, cont, j, true, items, depth, p, out);
      CappedExact(out);
    } else {
      ItemStands(buf, cont, j, true, items);
      MembersStep(buf, cont, j, items, depth, p, out);
      ItemStringsStep(j, true, items, depth, p);
      var m, b := FirstMember(j, items), ValueIndex(j, items);
      MemberIs(buf, b, items.v, m, depth, p, out);
      var r := CollectMember(buf, m, depth, p, out);
      MembersCollect(buf, cont, RestAt(j, items) + 1, items.rest, depth, p, r);
      CappedTwice(out, Chosen(Strings(b, items.v, Some(m.key), depth), p),
                  Chosen(ItemStrings(RestAt(j, items) + 1, true, items.rest, depth), p), r,
                  CollectMembers(buf, MembersAt(j, items), cont, depth, p, out));
    }
  }

  lemma ElementsStep(buf: Bytes, cont: Span, j: nat, items: Items, depth: nat, p: Policy, out: seq<Cand>)
    requires items.Cons? && ValidItems(false, items) && ItemsPaired(false, items) && InBounds(cont, buf)
    requires Ordered(ValuesAt(j, items), cont.start, cont.end)
    ensures KeyOf(false, items) == None
    ensures var v, rest := SpanOf(ValueIndex(j, items), items.v), ValuesAt(RestAt(j, items) + 1, items.rest);
            && InBounds(v.span, buf) && Ordered(rest, cont.start, cont.end)
            && CollectElements(buf, ValuesAt(j, items), cont, depth, p, out) ==
               CollectElements(buf, rest, cont, depth, p, Collect(buf, v, depth, p, out))
  {
    hide JsonText, Collect, KeyText, Valid, AllPaired;
    var v, rest := SpanOf(ValueIndex(j, items), items.v), ValuesAt(RestAt(j, items) + 1, items.rest);
    assert ValuesAt(j, items)[0] == v && ValuesAt(j, items)[1..] == rest;
    OrderedFrom(rest, cont.start, v.span.end, cont.end);
  }

  lemma {:induction false} ElementsCollect(buf: Bytes, cont: Span, j: nat, items: Items, depth: nat, p: Policy,
                                           out: seq<Cand>)
    requires ValidItems(false, items) && ItemsPaired(false, items) && InBounds(cont, buf)
    requires items.Cons? ==> Listed(buf, cont, j, false, items)
    requires ItemsDepth(items) <= MAX_DEPTH && depth <= p.maxDepth + 1
    requires Ordered(ValuesAt(j, items), cont.start, cont.end)
    ensures Capped(out + Chosen(ItemStrings(j, false, items, depth), p),
                   CollectElements(buf, ValuesAt(j, items), cont, depth, p, out))
    decreases items, 0
  {
    hide *;
    if items.Nil? {
      NoItems(buf, cont, j, false, items, depth, p, out);
      CappedExact(out);
    } else {
      ItemStands(buf, cont, j, false, items);
      ElementsStep(buf, cont, j, items, depth, p, out);
      ItemStringsStep(j, false, items, depth, p);
      var b := ValueIndex(j, items);
      CollectIs(buf, b, items.v, depth, p, out);
      var r := Collect(buf, SpanOf(b, items.v), depth, p, out);
      ElementsCollect(buf, cont, RestAt(j, items) + 1, items.rest, depth, p, r);
      CappedTwice(out, Chosen(Strings(b, items.v, None, depth), p),
                  Chosen(ItemStrings(RestAt(j, items) + 1, false, items.rest, depth), p), r,
                  CollectElements(buf, ValuesAt(j, items), cont, depth, p, out));
    }
  }

  // ---------- Which values become blocks ----------

  // A value of the document itself, or an element of one that is an array.
  datatype Spot = Spot(at: Span, key: Bytes, element: bool)

  function ElementSpots(key: Bytes, j: nat, items: Items): seq<Spot>
    decreases items
  {
    if items.Nil? then []
    else [Spot(SpanOf(ValueIndex(j, items), items.v).span, key, true)]
         + ElementSpots(key, RestAt(j, items) + 1, items.rest)
  }

  function Spots(j: nat, items: Items): seq<Spot>
    requires ValidItems(true, items) && ItemsPaired(true, items)
    decreases items
  {
    if items.Nil? then []
    else
      var (b, v, key) := (ValueIndex(j, items), items.v, Logical(items.key.value.text));
      [Spot(SpanOf(b, v).span, key, false)]
      + (if v.Cont? && !v.obj then ElementSpots(key, b + 1, v.items) else [])
      + Spots(RestAt(j, items) + 1, items.rest)
  }

  predicate HistoryKey(key: Bytes) { key == Ascii("messages") || key == Ascii("input") }

  predicate WholeKey(key: Bytes) {
    || key == Ascii("tools") || key == Ascii("functions") || key == Ascii("response_format") || key == Ascii("prompt")
    || key == Ascii("audio") || key == Ascii("file") || key == Ascii("file_ids") || key == Ascii("tool_choice")
  }

  // History element by element; a few other members as a whole.
  predicate IsBlock(s: Spot, p: Policy) {
    && s.at.start <= s.at.end
    && if s.element then HistoryKey(s.key) && SpanLen(s.at) >= p.minHistoryBlockBytes
       else WholeKey(s.key) && SpanLen(s.at) >= p.minBlockBytes
  }

  function BlockCands(ss: seq<Spot>, p: Policy): seq<Cand> {
    if ss == [] then []
    else (if IsBlock(ss[0], p)
          then [Cand(ss[0].at, JsonMember, if ss[0].element then p.minHistoryBlockBytes else p.minBlockBytes)]
          else [])
         + BlockCands(ss[1..], p)
  }

  lemma {:induction false} BlockCandsConcat(a: seq<Spot>, b: seq<Spot>, p: Policy)
    ensures BlockCands(a + b, p) == BlockCands(a, p) + BlockCands(b, p)
  {
    hide IsBlock;
    if a == [] {
      assert a + b == b;
    } else {
      assert (a + b)[1..] == a[1..] + b;
      BlockCandsConcat(a[1..], b, p);
    }
  }

  lemma BlockCandsOne(s: Spot, p: Policy)
    ensures BlockCands([s], p) ==
            if IsBlock(s, p)
            then [Cand(s.at, JsonMember, if s.element then p.minHistoryBlockBytes else p.minBlockBytes)] else []
  {
    hide IsBlock;
    assert [s][1..] == [] && BlockCands([], p) == [];
  }

  lemma {:induction false} ElementsAreBlocks(key: Bytes, j: nat, items: Items, p: Policy)
    ensures BlockCands(ElementSpots(key, j, items), p) ==
            if HistoryKey(key) then ElementCands(ValuesAt(j, items), p.minHistoryBlockBytes) else []
    decreases items
  {
    hide HistoryKey, WholeKey, JsonText, KeyText;
    if items.Cons? {
      var s := Spot(SpanOf(ValueIndex(j, items), items.v).span, key, true);
      var rest := ElementSpots(key, RestAt(j, items) + 1, items.rest);
      ElementsAreBlocks(key, RestAt(j, items) + 1, items.rest, p);
      BlockCandsOne(s, p);
      BlockCandsConcat([s], rest, p);
      ValuesUnfold(j, items);
      assert ValuesAt(j, items)[1..] == ValuesAt(RestAt(j, items) + 1, items.rest);
    }
  }

  lemma KeysApart(key: Bytes)
    ensures key in ARRAY_MEMBER_KEYS <==> HistoryKey(key)
    ensures key in WHOLE_VALUE_KEYS <==> WholeKey(key)
    ensures !(HistoryKey(key) && WholeKey(key))
  {
    SomeBytes();
    hide Ascii;
  }

  lemma SomeBytes()
    ensures |Ascii("messages")| == 8 && Ascii("messages")[0] == 0x6d
    ensures |Ascii("input")| == 5 && Ascii("input")[0] == 0x69
    ensures |Ascii("tools")| == 5 && Ascii("tools")[0] == 0x74 && |Ascii("functions")| == 9
    ensures |Ascii("response_format")| == 15 && |Ascii("prompt")| == 6 && |Ascii("audio")| == 5
    ensures Ascii("audio")[0] == 0x61 && |Ascii("file")| == 4 && |Ascii("tool_choice")| == 11
    ensures |Ascii("file_ids")| == 8 && Ascii("file_ids")[0] == 0x66
  {
  }

  lemma MemberBlocks(buf: Bytes, b: nat, v: Json, m: Member, p: Policy)
    requires Stands(buf, b, v) && m.value == SpanOf(b, v) && InBounds(m.value.span, buf)
    ensures MemberCands(buf, m, p) ==
            Ok(BlockCands([Spot(m.value.span, m.key, false)]
                          + (if v.Cont? && !v.obj then ElementSpots(m.key, b + 1, v.items) else []), p))
  {
    hide *;
    StandsIn(buf, b, v);
    KeysApart(m.key);
    if v.Cont? && !v.obj {
      ArrayElements(buf, b, v);
      ElementsAreBlocks(m.key, b + 1, v.items, p);
    }
    var s := Spot(m.value.span, m.key, false);
    var es := if v.Cont? && !v.obj then ElementSpots(m.key, b + 1, v.items) else [];
    BlockCandsOne(s, p);
    BlockCandsConcat([s], es, p);
    ArrayKind(b, v);
    MemberIsBlock(m.value.span, m.key, p);
    if m.key in ARRAY_MEMBER_KEYS {
      HistoryCands(buf, m, ValuesAt(b + 1, if v.Cont? then v.items else Nil), p);
    } else {
      WholeCands(buf, m, p);
    }
    NoSpots(p);
    assert [] + BlockCands(es, p) == BlockCands(es, p) && BlockCands([s], p) + [] == BlockCands([s], p);
  }

  lemma NoSpots(p: Policy)
    ensures BlockCands([], p) == []
  {
  }

  lemma HistoryCands(buf: Bytes, m: Member, es: seq<ValueSpan>, p: Policy)
    requires InBounds(m.value.span, buf) && m.key in ARRAY_MEMBER_KEYS
    requires m.value.kind == KArray ==> Elements(buf, m.value.span) == Ok(es)
    ensures MemberCands(buf, m, p) ==
            Ok(if m.value.kind == KArray then ElementCands(es, p.minHistoryBlockBytes) else [])
  {
    hide Elements, ElementCands, ARRAY_MEMBER_KEYS, WHOLE_VALUE_KEYS;
  }

  lemma WholeCands(buf: Bytes, m: Member, p: Policy)
    requires InBounds(m.value.span, buf) && m.key !in ARRAY_MEMBER_KEYS
    ensures MemberCands(buf, m, p) ==
            Ok(if m.key in WHOLE_VALUE_KEYS && SpanLen(m.value.span) >= p.minBlockBytes
               then [Cand(m.value.span, JsonMember, p.minBlockBytes)] else [])
  {
    hide Elements, ElementCands, ARRAY_MEMBER_KEYS, WHOLE_VALUE_KEYS;
  }

  lemma ArrayKind(b: nat, v: Json)
    ensures SpanOf(b, v).kind == KArray <==> v.Cont? && !v.obj
    ensures SpanOf(b, v).span.start <= SpanOf(b, v).span.end
  {
    hide JsonText;
  }

  lemma MemberIsBlock(s: Span, key: Bytes, p: Policy)
    requires s.start <= s.end
    ensures IsBlock(Spot(s, key, false), p) <==> WholeKey(key) && SpanLen(s) >= p.minBlockBytes
  {
    hide WholeKey, HistoryKey;
  }

  lemma DocStep(buf: Bytes, cont: Span, j: nat, items: Items, p: Policy)
    requires items.Cons? && ValidItems(true, items) && ItemsPaired(true, items) && InBounds(cont, buf)
    requires Ordered(MemberValues(MembersAt(j, items)), cont.start, cont.end)
    ensures ValidItems(true, items.rest) && ItemsPaired(true, items.rest)
    ensures var m, rest := FirstMember(j, items), MembersAt(RestAt(j, items) + 1, items.rest);
            && InBounds(m.value.span, buf) && Ordered(MemberValues(rest), cont.start, cont.end)
            && var first, others := MemberCands(buf, m, p), DocCands(buf, rest, cont, p);
               (first.Ok? && others.Ok? ==>
                  DocCands(buf, MembersAt(j, items), cont, p) == Ok(first.value + others.value))
  {
    hide JsonText, MemberCands, KeyText, Logical, Valid, AllPaired;
    var m, rest := FirstMember(j, items), MembersAt(RestAt(j, items) + 1, items.rest);
    assert MembersAt(j, items)[0] == m && MembersAt(j, items)[1..] == rest;
    OrderedFrom(MemberValues(rest), cont.start, m.value.span.end, cont.end);
  }

  lemma SpotsStep(j: nat, items: Items)
    requires items.Cons? && ValidItems(true, items) && ItemsPaired(true, items)
    ensures ValidItems(true, items.rest) && ItemsPaired(true, items.rest)
    ensures var m, b, v := FirstMember(j, items), ValueIndex(j, items), items.v;
            && m.value == SpanOf(b, v)
            && Spots(j, items) ==
               [Spot(m.value.span, m.key, false)]
               + (if v.Cont? && !v.obj then ElementSpots(m.key, b + 1, v.items) else [])
               + Spots(RestAt(j, items) + 1, items.rest)
  {
    hide JsonText, KeyText, Logical, Valid, AllPaired, ElementSpots;
  }

  lemma NoMembers(buf: Bytes, cont: Span, j: nat, p: Policy)
    requires InBounds(cont, buf)
    ensures MembersAt(j, Nil) == [] && MemberValues([]) == [] && DocCands(buf, [], cont, p) == Ok([])
    ensures Spots(j, Nil) == [] && BlockCands([], p) == []
  {
  }

  lemma {:induction false} BlocksAre(buf: Bytes, cont: Span, j: nat, items: Items, p: Policy)
    requires ValidItems(true, items) && ItemsPaired(true, items) && InBounds(cont, buf)
    requires items.Cons? ==> Listed(buf, cont, j, true, items)
    requires ItemsDepth(items) <= MAX_DEPTH
    requires Ordered(MemberValues(MembersAt(j, items)), cont.start, cont.end)
    ensures DocCands(buf, MembersAt(j, items), cont, p) == Ok(BlockCands(Spots(j, items), p))
    decreases items
  {
    hide *;
    if items.Nil? {
      NoMembers(buf, cont, j, p);
    } else {
      ItemStands(buf, cont, j, true, items);
      DocStep(buf, cont, j, items, p);
      SpotsStep(j, items);
      var m, b, v := FirstMember(j, items), ValueIndex(j, items), items.v;
      MemberBlocks(buf, b, v, m, p);
      BlocksAre(buf, cont, RestAt(j, items) + 1, items.rest, p);
      BlockCandsConcat([Spot(m.value.span, m.key, false)]
                       + (if v.Cont? && !v.obj then ElementSpots(m.key, b + 1, v.items) else []),
                       Spots(RestAt(j, items) + 1, items.rest), p);
    }
  }

  // ---------- The plan of a document ----------

  // The values of a document that become blocks, and the strings in it that are
  // payloads, both from its text.
  function BlocksOf(at: nat, t: Json, p: Policy): seq<Cand>
    requires t.Cont? && t.obj && Valid(t) && AllPaired(t)
  {
    BlockCands(Spots(at + 1, t.items), p)
  }

  function PayloadsOf(at: nat, t: Json, p: Policy): seq<Cand>
    requires Valid(t) && AllPaired(t)
  {
    Chosen(Strings(at, t, None, 0), p)
  }

  lemma DocumentFound(buf: Bytes, lead: Bytes, t: Json, trail: Bytes, p: Policy)
    requires IsDocument(buf, lead, t, trail)
    ensures Document(buf) == Ok(SpanOf(|lead|, t)) && InBounds(SpanOf(|lead|, t).span, buf)
    ensures SpanOf(|lead|, t).kind == KObject
    ensures t.Cont? && t.obj && Valid(t) && AllPaired(t)
    ensures var ps := Collect(buf, SpanOf(|lead|, t), 0, p, []);
            && Capped(PayloadsOf(|lead|, t, p), ps)
            && LaminarGroups.Found(buf, SpanOf(|lead|, t).span, p, BlocksOf(|lead|, t, p), ps)
  {
    hide *;
    DocumentAccepted(buf, lead, t, trail);
    AcceptedScan(buf);
    DocumentStands(buf, lead, t, trail);
    var s := SpanOf(|lead|, t).span;
    StandsIn(buf, |lead|, t);
    CollectIs(buf, |lead|, t, 0, p, []);
    ContainerListed(buf, |lead|, t);
    DepthLimited(buf, |lead|, t);
    ContainerPaired(t);
    ObjectMembers(buf, |lead|, t);
    MembersOrdered(buf, s);
    BlocksAre(buf, s, |lead| + 1, t.items, p);
    PlanParts(|lead|, t, p);
    FoundIs(buf, s, p, BlocksOf(|lead|, t, p), Collect(buf, SpanOf(|lead|, t), 0, p, []));
  }

  lemma PlanParts(at: nat, t: Json, p: Policy)
    requires t.Cont? && t.obj && Valid(t) && AllPaired(t)
    ensures ValidItems(true, t.items) && ItemsPaired(true, t.items)
    ensures BlocksOf(at, t, p) == BlockCands(Spots(at + 1, t.items), p)
    ensures [] + Chosen(Strings(at, t, None, 0), p) == PayloadsOf(at, t, p)
  {
    hide Chosen, Strings, BlockCands, Spots;
  }

  lemma AcceptedScan(buf: Bytes)
    requires Strict(buf).Ok?
    ensures Document(buf) == Strict(buf)
  {
    hide Document, Validity;
  }

  lemma DocumentStands(buf: Bytes, lead: Bytes, t: Json, trail: Bytes)
    requires IsDocument(buf, lead, t, trail)
    ensures Stands(buf, |lead|, t) && t.Cont? && t.obj
  {
    hide JsonText, Valid, AllPaired, Occurs, Depth;
    assert buf[|lead|..|lead| + |JsonText(t)|] == JsonText(t);
    OccursSlice(buf, |lead|, JsonText(t));
  }

  lemma MembersOrdered(buf: Bytes, s: Span)
    requires InBounds(s, buf) && Members(buf, s).Ok?
    ensures Ordered(MemberValues(Members(buf, s).value), s.start, s.end)
  {
    OrderedFrom(MemberValues(Members(buf, s).value), s.start, s.start + 1, s.end);
  }

  lemma FoundIs(buf: Bytes, s: Span, p: Policy, cs: seq<Cand>, ps: seq<Cand>)
    requires InBounds(s, buf) && Members(buf, s).Ok?
    requires Ordered(MemberValues(Members(buf, s).value), s.start, s.end)
    requires DocCands(buf, Members(buf, s).value, s, p) == Ok(cs) && ps == Collect(buf, ValueSpan(s, KObject), 0, p, [])
    ensures LaminarGroups.Found(buf, s, p, cs, ps)
  {
    hide Members, DocCands, Collect, Ordered;
  }

  // The payloads of a document are the strings that are payloads, in order: all
  // of them up to 4096, the first 4096 and no others besides from there on.
  lemma PayloadsExactly(buf: Bytes, lead: Bytes, t: Json, trail: Bytes, p: Policy)
    requires IsDocument(buf, lead, t, trail)
    ensures InBounds(SpanOf(|lead|, t).span, buf)
    ensures var q, ps := PayloadsOf(|lead|, t, p), Collect(buf, SpanOf(|lead|, t), 0, p, []);
            && Capped(q, ps) && (|q| <= 4096 ==> ps == q)
  {
    hide *;
    DocumentFound(buf, lead, t, trail, p);
    var q, ps := PayloadsOf(|lead|, t, p), Collect(buf, SpanOf(|lead|, t), 0, p, []);
    if |q| <= 4096 {
      CappedAll(q, ps);
    }
  }

  // The plan of a document, from its text: its blocks, each with the payloads
  // inside it, the payloads inside no block on their own, and nothing else, in
  // document order.
  lemma PlanExactly(buf: Bytes, lead: Bytes, t: Json, trail: Bytes, p: Policy)
    requires IsDocument(buf, lead, t, trail) && |PayloadsOf(|lead|, t, p)| <= 4096
    ensures var cs, q, gs := BlocksOf(|lead|, t, p), PayloadsOf(|lead|, t, p), SplitBodies.StructuralPlan(buf, p);
            && Spaced(LaminarGroups.CandsOf(gs), |lead|, |lead| + |JsonText(t)|)
            && forall g :: g in gs <==>
                 || (g.cand in cs && g.children == LaminarGroups.Inside(g.cand, q))
                 || (g.cand in LaminarGroups.Outside(cs, q) && g.children == [])
  {
    hide *;
    DocumentFound(buf, lead, t, trail, p);
    PayloadsExactly(buf, lead, t, trail, p);
    var cs, q, s := BlocksOf(|lead|, t, p), PayloadsOf(|lead|, t, p), SpanOf(|lead|, t).span;
    LaminarGroups.GroupsAreLaminar(buf, s, p, cs, q);
    PlanIs(buf, |lead|, t, p);
  }

  lemma PlanIs(buf: Bytes, at: nat, t: Json, p: Policy)
    requires Document(buf) == Ok(SpanOf(at, t)) && InBounds(SpanOf(at, t).span, buf)
    ensures SplitBodies.StructuralPlan(buf, p) == Groups(buf, SpanOf(at, t).span, p)
    ensures SpanOf(at, t).span == Span(at, at + |JsonText(t)|)
  {
    hide Document, Groups, JsonText;
  }
}

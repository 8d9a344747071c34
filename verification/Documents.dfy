// Two kinds of request that the splitter, under its default policy, splits
// into something the peer's decoder refuses: a history of equal messages, whose
// program is one too long, and one message of many payloads, whose block is.

module Documents {
  import opened Results
  import opened Blocks
  import opened Policies
  import opened Scan
  import opened Rfc8259
  import opened Extents
  import opened Strictness
  import opened Splitter
  import opened SplitBodies
  import opened LaminarGroups
  import Chunking
  import Codec
  import Grouping
  import Limits
  import Programs
  import Resolve
  import Session
  import Unescape

  // ---------- Texts ----------

  // Bytes that need no escape.
  predicate Simple(s: Bytes) {
    forall c :: c in s ==> c >= 0x20 && c != QUOTE && c != BACKSLASH
  }

  function Plains(s: Bytes): seq<StrItem> { seq(|s|, i requires 0 <= i < |s| => Plain(s[i])) }

  lemma {:induction false} PlainsText(s: Bytes)
    ensures CharsText(Plains(s)) == s
  {
    if s != [] {
      PlainsText(s[1..]);
      assert Plains(s)[1..] == Plains(s[1..]) && s == [s[0]] + s[1..];
    }
  }

  lemma PlainsAre(s: Bytes)
    requires Simple(s)
    ensures ValidChars(Plains(s)) && Paired(Plains(s)) && Logical(Plains(s)) == s
    ensures |StrText(Plains(s))| == |s| + 2
  {
    PlainsText(s);
    forall it | it in Plains(s) ensures ValidItem(it) {
      var i :| 0 <= i < |s| && Plains(s)[i] == it;
      assert s[i] in s;
    }
    Unescape.PlainDecodes(Plains(s));
  }

  function Word(s: Bytes): Json { Str(Plains(s)) }

  function NameKey(name: Bytes): Key { Key([], Plains(name), []) }

  // The same item n times over.
  function Copies(key: Option<Key>, v: Json, n: nat): Items {
    if n == 0 then Nil else Cons(key, [], v, [], Copies(key, v, n - 1))
  }

  predicate Sound(obj: bool, key: Option<Key>, v: Json) {
    && (key.Some? <==> obj) && (key.Some? ==> ValidKey(key.value) && Paired(key.value.text))
    && Valid(v) && AllPaired(v)
  }

  lemma {:induction false} CopiesAreItems(obj: bool, key: Option<Key>, v: Json, n: nat)
    requires Sound(obj, key, v)
    ensures ValidItems(obj, Copies(key, v, n)) && ItemsPaired(obj, Copies(key, v, n))
    ensures ItemsDepth(Copies(key, v, n)) == if n == 0 then 0 else Depth(v)
  {
    if n > 0 {
      CopiesAreItems(obj, key, v, n - 1);
    }
  }

  // From one copy to the next.
  function Pitch(key: Option<Key>, v: Json): nat { |KeyText(key)| + |JsonText(v)| + 1 }

  lemma OneMore(n: nat, step: nat)
    requires n > 0
    ensures n * step == (n - 1) * step + step
  {
  }

  lemma {:induction false} CopiesLength(key: Option<Key>, v: Json, n: nat)
    requires n > 0
    ensures |ItemsText(Copies(key, v, n))| + 1 == n * Pitch(key, v)
  {
    OneMore(n, Pitch(key, v));
    if n > 1 {
      CopiesLength(key, v, n - 1);
    } else {
      assert Copies(key, v, n).rest == Nil;
    }
  }

  // Candidates of one length at equal distances.
  function Stride(kind: BlockKind, floor: nat, at: nat, len: nat, step: nat, n: nat): seq<Cand>
    decreases n
  {
    if n == 0 then []
    else [Cand(Span(at, at + len), kind, floor)] + Stride(kind, floor, at + step, len, step, n - 1)
  }

  lemma {:induction false} StrideLength(kind: BlockKind, floor: nat, at: nat, len: nat, step: nat, n: nat)
    ensures |Stride(kind, floor, at, len, step, n)| == n
    ensures forall c :: c in Stride(kind, floor, at, len, step, n) ==> c.span.start <= c.span.end && c.kind == kind
    decreases n
  {
    if n > 0 {
      StrideLength(kind, floor, at + step, len, step, n - 1);
    }
  }

  // Where the last of them ends.
  function StrideEnd(pos: nat, at: nat, len: nat, step: nat, n: nat): int {
    if n == 0 then pos else at + n * step - step + len
  }

  // All of them fit, with a gap before each and perhaps one after.
  lemma {:induction false} StrideCounts(kind: BlockKind, floor: nat, pos: nat, at: nat, len: nat, step: nat, n: nat,
                                        end: nat)
    requires pos < at && floor <= len < step && StrideEnd(pos, at, len, step, n) <= end && pos <= end
    ensures var cs := Stride(kind, floor, at, len, step, n);
            && Limits.Reached(pos, end, cs) == StrideEnd(pos, at, len, step, n)
            && Pieces(pos, end, cs) == 2 * n + (if StrideEnd(pos, at, len, step, n) < end then 1 else 0)
            && Limits.Taken(pos, end, cs) == n * len
    decreases n
  {
    if n > 0 {
      OneMore(n, step);
      OneMore(n, len);
      assert (n - 1) * step >= 0;
      var cs := Stride(kind, floor, at, len, step, n);
      assert cs[1..] == Stride(kind, floor, at + step, len, step, n - 1);
      assert StrideEnd(at + len, at + step, len, step, n - 1) == StrideEnd(pos, at, len, step, n);
      StrideCounts(kind, floor, at + len, at + step, len, step, n - 1, end);
    }
  }

  // The bytes of every copy.
  lemma {:induction false} CopiesOccur(buf: Bytes, cont: Span, j: nat, obj: bool, key: Option<Key>, v: Json, n: nat,
                                       kind: BlockKind, floor: nat)
    requires Sound(obj, key, v) && (n > 0 ==> Listed(buf, cont, j, obj, Copies(key, v, n)))
    ensures forall c :: c in Stride(kind, floor, j + |KeyText(key)|, |JsonText(v)|, Pitch(key, v), n) ==>
              InBounds(c.span, buf) && Slice(c.span, buf) == JsonText(v)
    decreases n
  {
    hide Listed, Occurs, JsonText, KeyText, Valid, AllPaired;
    if n > 0 {
      var items := Copies(key, v, n);
      CopiesAreItems(obj, key, v, n);
      ItemParts(buf, cont, j, obj, items);
      OccursSlice(buf, ValueIndex(j, items), JsonText(v));
      CopiesOccur(buf, cont, j + Pitch(key, v), obj, key, v, n - 1, kind, floor);
    }
  }

  // ---------- One list of messages ----------

  function MessagesKey(): Key { NameKey(Grouping.Ascii("messages")) }

  function History(items: Items): Json { Cont(false, [], items) }

  function Doc(items: Items): Json { Cont(true, [], Cons(Some(MessagesKey()), [], History(items), [], Nil)) }

  function Body(items: Items): Bytes { JsonText(Doc(items)) }

  lemma MessagesName()
    ensures var name := Grouping.Ascii("messages");
            Simple(name) && |name| == 8 && name in Grouping.ARRAY_MEMBER_KEYS && name !in Grouping.MEDIA_KEYS
  {
    var name := Grouping.Ascii("messages");
    assert name == [0x6D, 0x65, 0x73, 0x73, 0x61, 0x67, 0x65, 0x73];
    assert Grouping.ARRAY_MEMBER_KEYS[0] == name;
    assert |Grouping.Ascii("url")| == 3 && |Grouping.Ascii("file_data")| == 9 && |Grouping.Ascii("data")| == 4;
    assert Grouping.Ascii("b64_json")[0] == 0x62;
    assert |Grouping.Ascii("image_base64")| == 12 && |Grouping.Ascii("input_audio")| == 11;
  }

  lemma UrlName()
    ensures var name := Grouping.Ascii("url"); Simple(name) && |name| == 3 && name in Grouping.MEDIA_KEYS
  {
    assert Grouping.Ascii("url") == [0x75, 0x72, 0x6C];
    assert Grouping.MEDIA_KEYS[0] == Grouping.Ascii("url");
  }

  ghost predicate Listable(items: Items) {
    items.Cons? && ValidItems(false, items) && ItemsPaired(false, items) && ItemsDepth(items) <= 100
  }

  // A container of one item.
  function Single(obj: bool, key: Option<Key>, v: Json): Json { Cont(obj, [], Cons(key, [], v, [], Nil)) }

  lemma SingleIs(obj: bool, key: Option<Key>, v: Json)
    requires Sound(obj, key, v)
    ensures var t := Single(obj, key, v);
            && Valid(t) && AllPaired(t) && Depth(t) == 1 + Depth(v)
            && |JsonText(t)| == 2 + |KeyText(key)| + |JsonText(v)|
  {
    hide *;
    SingleItem(obj, key, v);
    SingleText(obj, key, v);
  }

  lemma SingleItem(obj: bool, key: Option<Key>, v: Json)
    requires Sound(obj, key, v)
    ensures var t := Single(obj, key, v); Valid(t) && AllPaired(t) && Depth(t) == 1 + Depth(v)
  {
    CopiesAreItems(obj, key, v, 1);
    assert Copies(key, v, 0) == Nil;
  }

  lemma SingleText(obj: bool, key: Option<Key>, v: Json)
    ensures |JsonText(Single(obj, key, v))| == 2 + |KeyText(key)| + |JsonText(v)|
  {
    CopiesLength(key, v, 1);
    assert Copies(key, v, 0) == Nil;
    hide KeyText;
    assert Single(obj, key, v) == Cont(obj, [], Copies(key, v, 1));
  }

  lemma DocIs(items: Items)
    requires Listable(items)
    ensures var t := Doc(items);
            && Valid(t) && AllPaired(t) && Depth(t) <= MAX_DEPTH && |Body(items)| == |ItemsText(items)| + 15
            && |KeyText(Some(MessagesKey()))| == 11 && Sound(true, Some(MessagesKey()), History(items))
  {
    MessagesName();
    PlainsAre(Grouping.Ascii("messages"));
    hide Plains, Grouping.Ascii, ItemsText, Paired, Simple;
    assert |KeyText(Some(MessagesKey()))| == 11;
    assert Sound(true, Some(MessagesKey()), History(items));
    hide KeyText, Sound, MessagesKey;
    assert Doc(items) == Single(true, Some(MessagesKey()), History(items));
    SingleIs(true, Some(MessagesKey()), History(items));
  }

  // What the scanner makes of it.
  lemma DocDocument(items: Items)
    requires Listable(items)
    ensures Document(Body(items)) == Ok(ValueSpan(Span(0, |Body(items)|), KObject))
    ensures ContainerAt(Body(items), 0, Doc(items)) && AllPaired(Doc(items))
  {
    DocIs(items);
    var body, t := Body(items), Doc(items);
    hide JsonText, Document, Valid, AllPaired, Depth, Validity, Listable, Occurs, KeyText;
    assert body == [] + JsonText(t) + [];
    DocumentAccepted(body, [], t, []);
    StrictIsDocument(body);
    OccursSlice(body, 0, JsonText(t));
    assert body[0..|body|] == body;
  }

  lemma StrictIsDocument(buf: Bytes)
    requires Strict(buf).Ok?
    ensures Document(buf) == Strict(buf)
  {
    hide Document, Validity;
  }

  lemma ContainerParts(buf: Bytes, i: nat, t: Json)
    ensures ContainerAt(buf, i, t) <==> t.Cont? && Valid(t) && Occurs(buf, i, JsonText(t)) && Depth(t) <= MAX_DEPTH
    ensures MAX_DEPTH == 128
  {
  }

  // A container of one item, from its bracket on.
  lemma SingleScans(buf: Bytes, i: nat, obj: bool, key: Option<Key>, v: Json)
    requires Sound(obj, key, v) && ContainerAt(buf, i, Single(obj, key, v))
    ensures var t := Single(obj, key, v);
            && InBounds(SpanOf(i, t).span, buf) && Listed(buf, SpanOf(i, t).span, i + 1, obj, t.items)
            && Occurs(buf, i + 1 + |KeyText(key)|, JsonText(v)) && Depth(v) <= MAX_DEPTH
            && ValuesAt(i + 1, t.items) == [SpanOf(i + 1 + |KeyText(key)|, v)]
            && (obj ==> Members(buf, SpanOf(i, t).span) ==
                        Ok([Member(Logical(key.value.text), KeyAt(i + 1, key.value),
                                   SpanOf(i + 1 + |KeyText(key)|, v))]))
            && (!obj ==> Elements(buf, SpanOf(i, t).span) == Ok([SpanOf(i + 1 + |KeyText(key)|, v)]))
  {
    hide *;
    var t := Single(obj, key, v);
    SingleItem(obj, key, v);
    SingleItems(i + 1, obj, key, v);
    ContainerParts(buf, i, t);
    ContainerListed(buf, i, t);
    ItemParts(buf, SpanOf(i, t).span, i + 1, obj, t.items);
    if obj {
      ObjectMembers(buf, i, t);
    } else {
      ArrayElements(buf, i, t);
    }
  }

  lemma SingleItems(j: nat, obj: bool, key: Option<Key>, v: Json)
    requires Sound(obj, key, v)
    ensures var items := Single(obj, key, v).items;
            && Single(obj, key, v).Cont? && Single(obj, key, v).obj == obj && items.Cons? && items.v == v
            && ValidItems(obj, items) && ItemsPaired(obj, items)
            && ValueIndex(j, items) == j + |KeyText(key)|
            && ValuesAt(j, items) == [SpanOf(j + |KeyText(key)|, v)]
            && (obj ==> MembersAt(j, items) ==
                        [Member(Logical(key.value.text), KeyAt(j, key.value), SpanOf(j + |KeyText(key)|, v))])
  {
    CopiesAreItems(obj, key, v, 1);
    assert Copies(key, v, 0) == Nil && Copies(key, v, 1) == Single(obj, key, v).items;
    hide JsonText, KeyText;
    var items := Single(obj, key, v).items;
    assert items.rest == Nil && ValuesAt(j, Nil) == [] && MembersAt(j, Nil) == [];
  }

  lemma DocScans(items: Items)
    requires Listable(items)
    ensures var body, arr := Body(items), SpanOf(12, History(items));
            && |body| == |ItemsText(items)| + 15 && arr == ValueSpan(Span(12, |body| - 1), KArray)
            && Document(body) == Ok(ValueSpan(Span(0, |body|), KObject))
            && Listed(body, arr.span, 13, false, items)
            && Elements(body, arr.span) == Ok(ValuesAt(13, items))
            && Members(body, Span(0, |body|)) ==
               Ok([Member(Grouping.Ascii("messages"), KeyAt(1, MessagesKey()), arr)])
  {
    hide *;
    var body, arr := Body(items), History(items);
    DocIs(items);
    DocDocument(items);
    DocSingle(items);
    MessagesLogical();
    HistoryIs(items);
    SingleScans(body, 0, true, Some(MessagesKey()), arr);
    ContainerParts(body, 12, arr);
    ContainerListed(body, 12, arr);
    ArrayElements(body, 12, arr);
  }

  lemma MessagesLogical()
    ensures ValidChars(MessagesKey().text) && Paired(MessagesKey().text)
    ensures Logical(MessagesKey().text) == Grouping.Ascii("messages")
  {
    MessagesName();
    PlainsAre(Grouping.Ascii("messages"));
  }

  lemma DocSingle(items: Items)
    ensures Doc(items) == Single(true, Some(MessagesKey()), History(items)) && Body(items) == JsonText(Doc(items))
    ensures forall i: nat :: i == 0 ==> SpanOf(i, Doc(items)).span == Span(0, |Body(items)|)
  {
    hide JsonText;
  }

  lemma HistoryIs(items: Items)
    requires Listable(items)
    ensures var arr := History(items);
            && arr.Cont? && !arr.obj && arr.items == items && items.Cons?
            && Valid(arr) && Depth(arr) <= MAX_DEPTH
            && |JsonText(arr)| == |ItemsText(items)| + 2
            && SpanOf(12, arr) == ValueSpan(Span(12, 14 + |ItemsText(items)|), KArray)
  {
    HistoryText(items);
    hide JsonText, ItemsText;
  }

  lemma HistoryText(items: Items)
    requires items.Cons?
    ensures |JsonText(History(items))| == |ItemsText(items)| + 2
  {
    hide ItemsText;
  }

  // Its elements are the candidates, and what they hold are the payloads.
  lemma DocGroups(items: Items, p: Policy)
    requires Listable(items) && p.maxDepth >= 1
    ensures var body := Body(items);
            && Ordered(ValuesAt(13, items), 12, |body| - 1)
            && var cs := Grouping.ElementCands(ValuesAt(13, items), p.minHistoryBlockBytes);
               var ps := Grouping.CollectElements(body, ValuesAt(13, items), Span(12, |body| - 1), 2, p, []);
               var a := Grouping.Assign(Grouping.AloneAll(cs), ps);
               StructuralPlan(body, p) == Grouping.Merge(a.groups, a.promoted)
  {
    DocScans(items);
    MessagesName();
    var body := Body(items);
    var arr := SpanOf(12, History(items));
    var m := Member(Grouping.Ascii("messages"), KeyAt(1, MessagesKey()), arr);
    OrderedFrom(ValuesAt(13, items), 12, 13, |body| - 1);
    hide Grouping.Ascii, Document, Elements, Members, ValuesAt, Grouping.CollectElements, Grouping.ElementCands,
         Grouping.Assign, Grouping.Merge, JsonText, Body, Listable, Listed, Ordered;
    OneMember(body, m, p);
  }

  // The groups of a document of one member that holds an array.
  lemma OneMember(buf: Bytes, m: Member, p: Policy)
    requires Document(buf) == Ok(ValueSpan(Span(0, |buf|), KObject)) && Members(buf, Span(0, |buf|)) == Ok([m])
    requires m.key in Grouping.ARRAY_MEMBER_KEYS && m.key !in Grouping.MEDIA_KEYS && m.value.kind == KArray
    requires InBounds(m.value.span, buf) && Elements(buf, m.value.span).Ok? && p.maxDepth >= 1
    ensures var es := Elements(buf, m.value.span).value;
            && Ordered(es, m.value.span.start, m.value.span.end)
            && var a := Grouping.Assign(Grouping.AloneAll(Grouping.ElementCands(es, p.minHistoryBlockBytes)),
                                        Grouping.CollectElements(buf, es, m.value.span, 2, p, []));
               StructuralPlan(buf, p) == Grouping.Merge(a.groups, a.promoted)
  {
    var doc, es := Span(0, |buf|), Elements(buf, m.value.span).value;
    OrderedFrom(es, m.value.span.start, m.value.span.start + 1, m.value.span.end);
    assert MemberValues([m]) == [m.value] by { assert MemberValues([m][1..]) == []; }
    OrderedFrom([m.value], 0, 1, |buf|);
    hide Document, Members, Elements, Grouping.CollectElements, Grouping.ElementCands, Grouping.Assign, Grouping.Merge,
         MemberValues, Ordered;
    OneMemberCands(buf, m, p);
    OneMemberPayloads(buf, m, p);
  }

  lemma OneMemberCands(buf: Bytes, m: Member, p: Policy)
    requires m.key in Grouping.ARRAY_MEMBER_KEYS && m.value.kind == KArray
    requires InBounds(m.value.span, buf) && Elements(buf, m.value.span).Ok? && Ordered(MemberValues([m]), 0, |buf|)
    ensures Grouping.DocCands(buf, [m], Span(0, |buf|), p) ==
            Ok(Grouping.ElementCands(Elements(buf, m.value.span).value, p.minHistoryBlockBytes))
  {
    hide Elements, Grouping.ElementCands;
    assert [m][1..] == [];
    var cs := Grouping.ElementCands(Elements(buf, m.value.span).value, p.minHistoryBlockBytes);
    assert cs + [] == cs;
  }

  lemma OneMemberPayloads(buf: Bytes, m: Member, p: Policy)
    requires Members(buf, Span(0, |buf|)) == Ok([m]) && Ordered(MemberValues([m]), 0, |buf|)
    requires m.key !in Grouping.MEDIA_KEYS && m.value.kind == KArray && p.maxDepth >= 1
    requires InBounds(m.value.span, buf) && Elements(buf, m.value.span).Ok?
    requires var es := Elements(buf, m.value.span).value; Ordered(es, m.value.span.start, m.value.span.end)
    ensures Grouping.Collect(buf, ValueSpan(Span(0, |buf|), KObject), 0, p, []) ==
            Grouping.CollectElements(buf, Elements(buf, m.value.span).value, m.value.span, 2, p, [])
  {
    hide Members, Elements, Grouping.CollectElements, Ordered, MemberValues, Grouping.MEDIA_KEYS;
    ArrayPayloads(buf, m.value, 1, p);
    hide Grouping.Collect;
    assert [m][1..] == [];
    assert Grouping.CollectMembers(buf, [m], Span(0, |buf|), 1, p, []) == Grouping.CollectMember(buf, m, 1, p, []);
    ObjectPayloads(buf, Span(0, |buf|), 0, p, []);
  }

  lemma ArrayPayloads(buf: Bytes, v: ValueSpan, depth: nat, p: Policy)
    requires InBounds(v.span, buf) && v.kind == KArray && Elements(buf, v.span).Ok? && depth <= p.maxDepth
    requires Ordered(Elements(buf, v.span).value, v.span.start, v.span.end)
    ensures Grouping.Collect(buf, v, depth, p, []) ==
            Grouping.CollectElements(buf, Elements(buf, v.span).value, v.span, depth + 1, p, [])
  {
    hide Elements, Grouping.CollectElements, Ordered;
  }

  lemma ObjectPayloads(buf: Bytes, s: Span, depth: nat, p: Policy, out: seq<Cand>)
    requires InBounds(s, buf) && Members(buf, s).Ok? && depth <= p.maxDepth && |out| < Grouping.MAX_PAYLOAD_CANDS
    requires Ordered(MemberValues(Members(buf, s).value), s.start, s.end)
    ensures Grouping.Collect(buf, ValueSpan(s, KObject), depth, p, out) ==
            Grouping.CollectMembers(buf, Members(buf, s).value, s, depth + 1, p, out)
  {
    hide Members, Grouping.CollectMembers, Ordered, MemberValues;
  }

  // ---------- A history of equal messages ----------

  // The first of some copies, and the others.
  lemma FirstCopy(j: nat, key: Option<Key>, v: Json, n: nat)
    requires n > 0
    ensures ValuesAt(j, Copies(key, v, n)) ==
            [SpanOf(j + |KeyText(key)|, v)] + ValuesAt(j + Pitch(key, v), Copies(key, v, n - 1))
  {
    hide KeyText, JsonText;
  }

  lemma WordIs(s: Bytes)
    requires Simple(s)
    ensures Sound(false, None, Word(s)) && |JsonText(Word(s))| == |s| + 2 && KeyText(None) == []
    ensures forall j: nat :: SpanOf(j, Word(s)) == ValueSpan(Span(j, j + |s| + 2), KString)
  {
    PlainsAre(s);
    hide Plains, StrText, Paired;
  }

  lemma {:induction false} WordCands(j: nat, s: Bytes, n: nat, floor: nat)
    requires Simple(s) && floor <= |s| + 2
    ensures Grouping.ElementCands(ValuesAt(j, Copies(None, Word(s), n)), floor) ==
            Stride(JsonMember, floor, j, |s| + 2, |s| + 3, n)
    decreases n
  {
    WordIs(s);
    hide Word, JsonText, KeyText, SpanOf, Sound, ValuesAt, Simple;
    if n > 0 {
      FirstCopy(j, None, Word(s), n);
      var rest := ValuesAt(j + |s| + 3, Copies(None, Word(s), n - 1));
      WordCands(j + |s| + 3, s, n - 1, floor);
      assert ([SpanOf(j, Word(s))] + rest)[1..] == rest;
    } else {
      NoCopies(j, None, Word(s));
    }
  }

  lemma NoCopies(j: nat, key: Option<Key>, v: Json)
    ensures ValuesAt(j, Copies(key, v, 0)) == []
  {
  }

  // Short strings are no payloads.
  lemma {:induction false} WordPayloads(buf: Bytes, j: nat, s: Bytes, n: nat, within: Span, p: Policy)
    requires Simple(s) && |s| + 2 < p.minPayloadBytes && InBounds(within, buf)
    requires Ordered(ValuesAt(j, Copies(None, Word(s), n)), within.start, within.end)
    ensures Grouping.CollectElements(buf, ValuesAt(j, Copies(None, Word(s), n)), within, 2, p, []) == []
    decreases n
  {
    WordIs(s);
    hide Word, JsonText, KeyText, SpanOf, Sound, ValuesAt, Simple;
    if n > 0 {
      FirstCopy(j, None, Word(s), n);
      var v, rest := SpanOf(j, Word(s)), ValuesAt(j + |s| + 3, Copies(None, Word(s), n - 1));
      assert ([v] + rest)[1..] == rest;
      OrderedFrom(rest, within.start, v.span.end, within.end);
      assert Grouping.Collect(buf, v, 2, p, []) == [];
      hide Grouping.Collect;
      WordPayloads(buf, j + |s| + 3, s, n - 1, within, p);
    } else {
      NoCopies(j, None, Word(s));
    }
  }

  // `n` messages, each the string `s`.
  function Messages(s: Bytes, n: nat): Bytes { Body(Copies(None, Word(s), n)) }

  lemma MessagesListable(s: Bytes, n: nat)
    requires Simple(s) && n > 0
    ensures Listable(Copies(None, Word(s), n)) && Sound(false, None, Word(s)) && |JsonText(Word(s))| == |s| + 2
    ensures Pitch(None, Word(s)) == |s| + 3 && |ItemsText(Copies(None, Word(s), n))| + 1 == n * (|s| + 3)
  {
    WordIs(s);
    hide JsonText, KeyText, Valid, AllPaired;
    CopiesAreItems(false, None, Word(s), n);
    CopiesLength(None, Word(s), n);
  }

  lemma MessagesPlanned(s: Bytes, n: nat, p: Policy)
    requires Simple(s) && n > 0 && p.maxDepth >= 1 && p.minHistoryBlockBytes <= |s| + 2 < p.minPayloadBytes
    ensures |Messages(s, n)| == n * (|s| + 3) + 14
    ensures StructuralPlan(Messages(s, n), p) ==
            Grouping.AloneAll(Stride(JsonMember, p.minHistoryBlockBytes, 13, |s| + 2, |s| + 3, n))
  {
    var items := Copies(None, Word(s), n);
    MessagesListable(s, n);
    DocScans(items);
    hide *;
    DocGroups(items, p);
    WordCands(13, s, n, p.minHistoryBlockBytes);
    MessagesAre(s, n);
    WordPayloads(Messages(s, n), 13, s, n, Span(12, |Messages(s, n)| - 1), p);
    NothingAssigned(Grouping.AloneAll(Stride(JsonMember, p.minHistoryBlockBytes, 13, |s| + 2, |s| + 3, n)));
  }

  lemma MessagesAre(s: Bytes, n: nat)
    ensures Messages(s, n) == Body(Copies(None, Word(s), n))
  {
  }

  lemma NothingAssigned(gs: seq<Group>)
    ensures Grouping.Assign(gs, []) == Grouping.Assigned(gs, []) && Grouping.Merge(gs, []) == gs
  {
    Grouping.MergeNil(gs);
  }

  // The groups of equal messages push one block at most.
  lemma MessagesPush(cx: Ctx, v: View, s: Bytes, n: nat, floor: nat)
    requires Simple(s) && n > 0 && cx.body == Messages(s, n) && |cx.body| < ALLOC_LIMIT
    requires Inv(cx.body, v) && Claims(cx, v) && v.push == []
    ensures var gs := Grouping.AloneAll(Stride(JsonMember, floor, 13, |s| + 2, |s| + 3, n));
            && AllInBounds(cx.body, gs)
            && Inv(cx.body, CoverAll(cx, v, gs)) && PushCost(CoverAll(cx, v, gs).push) <= 2 * (|s| + 2)
  {
    hide *;
    var body, text := cx.body, JsonText(Word(s));
    var cs := Stride(JsonMember, floor, 13, |s| + 2, |s| + 3, n);
    var gs := Grouping.AloneAll(cs);
    MessagesSlices(s, n, floor);
    AloneGroups(body, cs);
    CoverAllKeeps(cx, v, gs);
    forall b | b in CoverAll(cx, v, gs).push ensures b == BytesBlock(JsonMember, text) {
      CoverAllPushes(cx, v, gs, b);
      NothingIn(v.push, b);
      AloneMade(body, cs, b, JsonMember, text);
    }
    InvOrder(body, CoverAll(cx, v, gs));
    Limits.FewBlocks(CoverAll(cx, v, gs).push, CoverAll(cx, v, gs).claimed, BytesBlock(JsonMember, text),
                     BytesBlock(JsonMember, text));
    BytesCost(JsonMember, text);
  }

  lemma MessagesSlices(s: Bytes, n: nat, floor: nat)
    requires Simple(s) && n > 0
    ensures |JsonText(Word(s))| == |s| + 2 <= |Messages(s, n)|
    ensures forall c :: c in Stride(JsonMember, floor, 13, |s| + 2, |s| + 3, n) ==>
              && InBounds(c.span, Messages(s, n)) && Slice(c.span, Messages(s, n)) == JsonText(Word(s))
              && c.kind == JsonMember
  {
    var body, cs := Messages(s, n), Stride(JsonMember, floor, 13, |s| + 2, |s| + 3, n);
    MessagesAre(s, n);
    MessagesListable(s, n);
    DocScans(Copies(None, Word(s), n));
    WordIs(s);
    StrideLength(JsonMember, floor, 13, |s| + 2, |s| + 3, n);
    hide *;
    CopiesOccur(body, Span(12, |body| - 1), 13, false, None, Word(s), n, JsonMember, floor);
    StrideFirst(JsonMember, floor, 13, |s| + 2, |s| + 3, n);
    FirstFits(cs, body, |s| + 2);
  }

  lemma FirstFits(cs: seq<Cand>, body: Bytes, len: nat)
    requires cs != [] && InBounds(cs[0].span, body) && cs[0].span.start + len == cs[0].span.end
    ensures len <= |body|
  {
  }

  lemma NothingIn(push: seq<Block>, b: Block)
    requires push == []
    ensures b !in push
  {
  }

  lemma BytesCost(kind: BlockKind, data: Bytes)
    requires |data| < ALLOC_LIMIT
    ensures Programs.WireCost(BytesBlock(kind, data)) == |data|
  {
  }

  lemma InvOrder(body: Bytes, v: View)
    requires Inv(body, v)
    ensures PushOrder(v.push, v.claimed) && Resolve.RefsIn(v.instrs, Digests(v.push) + v.claimed)
  {
  }

  lemma AloneGroups(body: Bytes, cs: seq<Cand>)
    requires forall c :: c in cs ==> InBounds(c.span, body)
    ensures AllInBounds(body, Grouping.AloneAll(cs)) && AllShaped(body, Grouping.AloneAll(cs))
    ensures CandsOf(Grouping.AloneAll(cs)) == cs
  {
    AloneAllCands(cs);
    forall g | g in Grouping.AloneAll(cs) ensures g.cand in cs && g.children == [] {
      AloneMember(cs, g);
    }
  }

  lemma AloneMade(body: Bytes, cs: seq<Cand>, b: Block, kind: BlockKind, text: Bytes)
    requires |body| < ALLOC_LIMIT && MadeFrom(body, Grouping.AloneAll(cs), b) && |text| < ALLOC_LIMIT
    requires forall c :: c in cs ==> InBounds(c.span, body) && Slice(c.span, body) == text && c.kind == kind
    ensures b == BytesBlock(kind, text)
  {
    var g :| g in Grouping.AloneAll(cs) && MadeFor(body, g.cand, g.children, b);
    AloneMember(cs, g);
    Limits.AloneIsRaw(body, g.cand);
  }

  lemma TimesApart(n: nat, len: nat)
    requires n >= 2 && len >= 41
    ensures 40 * n + 2 * len <= n * len + 80
  {
    assert (n - 2) * (len - 40) >= 0;
    assert (n - 2) * (len - 40) == n * len - 40 * n - 2 * len + 80;
  }

  // A history of n equal strings fills a program of a limit of 2n to the last
  // instruction, and then there is the end of the document: whatever presence
  // answers, the body is split into one instruction more than the limit.
  lemma OneTooMany(cx: Ctx, gear: Chunking.Gear, s: Bytes, n: nat)
    requires Simple(s) && |s| >= 39 && n >= 2 && cx.body == Messages(s, n) && |cx.body| < ALLOC_LIMIT
    requires var p := cx.policy;
             && p.enabled && p.minBodyBytes <= |cx.body| <= p.maxBodyBytes && p.maxDepth >= 1
             && p.minHistoryBlockBytes <= |s| + 2 < p.minPayloadBytes && p.maxInstrs == 2 * n
    ensures Decision(cx, gear).Split?
    ensures |Decision(cx, gear).out.instrs| == cx.policy.maxInstrs + 1
    ensures !Codec.ProgramPasses(Decision(cx, gear).out.instrs, cx.policy.maxInstrs)
  {
    hide *;
    var p, len, v := cx.policy, |s| + 2, Marked(Start(cx.body), true);
    var cs := Stride(JsonMember, p.minHistoryBlockBytes, 13, len, len + 1, n);
    var gs := Grouping.AloneAll(cs);
    MessagesPlanned(s, n, p);
    StrideLength(JsonMember, p.minHistoryBlockBytes, 13, len, len + 1, n);
    StrideEnds(0, 13, len, len + 1, n);
    StrideCounts(JsonMember, p.minHistoryBlockBytes, 0, 13, len, len + 1, n, |cx.body|);
    TimesApart(n, len);
    AloneAllCands(cs);
    StructuralDecision(cx, gear, gs);
    MessagesPush(cx, v, s, n, p.minHistoryBlockBytes);
    Limits.PlanSplits(cx, v, gs);
    Limits.SplitLength(cx, gear);
    TooLong(Decision(cx, gear).out.instrs, cx.policy.maxInstrs);
  }

  lemma StrideEnds(pos: nat, at: nat, len: nat, step: nat, n: nat)
    ensures StrideEnd(pos, at, len, step, n) == if n == 0 then pos else at + n * step - step + len
  {
  }

  lemma TooLong(p: seq<Instr>, max: nat)
    requires |p| > max
    ensures !Codec.ProgramPasses(p, max)
  {
  }

  // With groups found in it, a body of a size in range is split by them.
  lemma StructuralDecision(cx: Ctx, gear: Chunking.Gear, gs: seq<Group>)
    requires |cx.body| < ALLOC_LIMIT && StructuralPlan(cx.body, cx.policy) == gs && |CandsOf(gs)| > 0
    requires cx.policy.enabled && cx.policy.minBodyBytes <= |cx.body| <= cx.policy.maxBodyBytes
    ensures var v := Marked(Start(cx.body), true);
            && Planned(cx.body, cx.policy, gear) == gs && AllInBounds(cx.body, gs) && AllShaped(cx.body, gs)
            && Decision(cx, gear) == FinishAction(cx, Covered(cx, v, gs))
            && Inv(cx.body, v) && Claims(cx, v) && Limits.Tidy(cx, v)
            && v.push == [] && v.instrs == [] && v.pos == 0 && v.stats.refCovered == 0 && !v.limits
  {
    PlansAreShaped(cx.body, cx.policy, gear);
    StartKeeps(cx);
    hide StructuralPlan, ChunkPlan, Covered, FinishAction, Inv, AllShaped, AllInBounds;
    assert gs != [];
  }

  // ---------- One message of many payloads ----------

  function UrlKey(): Key { NameKey(Grouping.Ascii("url")) }

  function Message(s: Bytes, n: nat): Json { Cont(true, [], Copies(Some(UrlKey()), Word(s), n)) }

  // One message, with `n` members called "url", each the string `s`.
  function Parts(s: Bytes, n: nat): Bytes { Body(Copies(None, Message(s, n), 1)) }

  lemma UrlIs(s: Bytes)
    requires Simple(s)
    ensures Sound(true, Some(UrlKey()), Word(s)) && |KeyText(Some(UrlKey()))| == 6
    ensures Logical(UrlKey().text) in Grouping.MEDIA_KEYS && Pitch(Some(UrlKey()), Word(s)) == |s| + 9
  {
    UrlName();
    PlainsAre(Grouping.Ascii("url"));
    PlainsAre(s);
    hide Grouping.Ascii, Plains, Paired, Simple;
    assert |KeyText(Some(UrlKey()))| == 6;
  }

  lemma MessageIs(s: Bytes, n: nat)
    requires Simple(s) && n > 0
    ensures var m := Message(s, n);
            && Sound(false, None, m) && Depth(m) == 1 && |JsonText(m)| == n * (|s| + 9) + 1
            && Listable(Copies(None, m, 1)) && |Parts(s, n)| == |JsonText(m)| + 15 && |JsonText(m)| >= 1
  {
    var m, items := Message(s, n), Copies(Some(UrlKey()), Word(s), n);
    UrlIs(s);
    hide UrlKey, Word, KeyText, Paired;
    CopiesAreItems(true, Some(UrlKey()), Word(s), n);
    CopiesLength(Some(UrlKey()), Word(s), n);
    MessageText(items);
    assert Sound(false, None, m);
    hide Message, JsonText, Sound, ItemsText;
    SingleItem(false, None, m);
    CopiesAreItems(false, None, m, 1);
    CopiesLength(None, m, 1);
    PlainPitch(m);
    DocIs(Copies(None, m, 1));
  }

  lemma MessageText(items: Items)
    requires items.Cons?
    ensures |JsonText(Cont(true, [], items))| == |ItemsText(items)| + 2
  {
    hide ItemsText;
  }

  lemma PlainPitch(v: Json)
    ensures Pitch(None, v) == |JsonText(v)| + 1
  {
    hide JsonText;
  }

  lemma FirstMemberCopy(j: nat, key: Key, v: Json, n: nat)
    requires n > 0 && Sound(true, Some(key), v)
    ensures ValidItems(true, Copies(Some(key), v, n)) && ItemsPaired(true, Copies(Some(key), v, n))
    ensures ValidItems(true, Copies(Some(key), v, n - 1)) && ItemsPaired(true, Copies(Some(key), v, n - 1))
    ensures MembersAt(j, Copies(Some(key), v, n)) ==
            [Member(Logical(key.text), KeyAt(j, key), SpanOf(j + |KeyText(Some(key))|, v))]
            + MembersAt(j + Pitch(Some(key), v), Copies(Some(key), v, n - 1))
  {
    CopiesAreItems(true, Some(key), v, n);
    CopiesAreItems(true, Some(key), v, n - 1);
    hide KeyText, JsonText;
  }

  lemma UrlPayload(buf: Bytes, m: Member, rest: seq<Member>, within: Span, depth: nat, p: Policy, out: seq<Cand>)
    requires InBounds(within, buf) && Ordered(MemberValues([m] + rest), within.start, within.end)
    requires Ordered(MemberValues(rest), within.start, within.end)
    requires m.value.span.start <= m.value.span.end && Grouping.IsMediaMember(m, p)
    ensures Grouping.CollectMembers(buf, [m] + rest, within, depth, p, out) ==
            Grouping.CollectMembers(buf, rest, within, depth, p, out + [Cand(m.value.span, Media, p.minPayloadBytes)])
  {
    hide Grouping.IsMediaMember, Ordered, MemberValues;
    assert ([m] + rest)[1..] == rest;
  }

  // One more of the members is one more payload.
  lemma UrlStep(buf: Bytes, j: nat, s: Bytes, n: nat, within: Span, depth: nat, p: Policy, out: seq<Cand>)
    requires Simple(s) && |s| + 2 >= p.minPayloadBytes && InBounds(within, buf) && n > 0
    requires UrlsOrdered(j, s, n, within)
    ensures UrlsOrdered(j + |s| + 9, s, n - 1, within)
    ensures Grouping.CollectMembers(buf, UrlsAt(j, s, n), within, depth, p, out) ==
            Grouping.CollectMembers(buf, UrlsAt(j + |s| + 9, s, n - 1), within, depth, p,
                                    out + [Cand(Span(j + 6, j + |s| + 8), Media, p.minPayloadBytes)])
  {
    hide *;
    UrlIs(s);
    FirstMemberCopy(j, UrlKey(), Word(s), n);
    UrlsAre(j, s, n, within);
    UrlsAre(j + |s| + 9, s, n - 1, within);
    var m := UrlMember(j, s, p);
    var rest := UrlsAt(j + |s| + 9, s, n - 1);
    RestOrdered(m, rest, within);
    UrlPayload(buf, m, rest, within, depth, p, out);
  }

  // The members of the message from `j` on.
  function UrlsAt(j: nat, s: Bytes, n: nat): seq<Member>
    requires Simple(s)
  {
    UrlIs(s);
    CopiesAreItems(true, Some(UrlKey()), Word(s), n);
    MembersAt(j, Copies(Some(UrlKey()), Word(s), n))
  }

  predicate UrlsOrdered(j: nat, s: Bytes, n: nat, within: Span)
    requires Simple(s)
  {
    Ordered(MemberValues(UrlsAt(j, s, n)), within.start, within.end)
  }

  lemma UrlsAre(j: nat, s: Bytes, n: nat, within: Span)
    requires Simple(s)
    ensures var items := Copies(Some(UrlKey()), Word(s), n); ValidItems(true, items) && ItemsPaired(true, items)
    ensures UrlsAt(j, s, n) == MembersAt(j, Copies(Some(UrlKey()), Word(s), n))
    ensures UrlsOrdered(j, s, n, within) <==> Ordered(MemberValues(UrlsAt(j, s, n)), within.start, within.end)
    ensures n == 0 ==> UrlsAt(j, s, n) == []
  {
    UrlIs(s);
    CopiesAreItems(true, Some(UrlKey()), Word(s), n);
    hide UrlKey, Word, ValidItems, ItemsPaired, Ordered, MemberValues;
  }

  // Every one of the members is a payload, however many there are.
  lemma {:induction false} UrlPayloads(buf: Bytes, j: nat, s: Bytes, n: nat, within: Span, depth: nat, p: Policy,
                                       out: seq<Cand>)
    requires Simple(s) && |s| + 2 >= p.minPayloadBytes && InBounds(within, buf) && UrlsOrdered(j, s, n, within)
    ensures Grouping.CollectMembers(buf, UrlsAt(j, s, n), within, depth, p, out) ==
            out + Stride(Media, p.minPayloadBytes, j + 6, |s| + 2, |s| + 9, n)
    decreases n
  {
    hide UrlsOrdered, UrlsAt, Simple, Grouping.CollectMembers, Stride, Ordered, MemberValues;
    StrideFirst(Media, p.minPayloadBytes, j + 6, |s| + 2, |s| + 9, n);
    if n > 0 {
      var c := Cand(Span(j + 6, j + |s| + 8), Media, p.minPayloadBytes);
      UrlStep(buf, j, s, n, within, depth, p, out);
      UrlPayloads(buf, j + |s| + 9, s, n - 1, within, depth, p, out + [c]);
      var cs := Stride(Media, p.minPayloadBytes, j + |s| + 15, |s| + 2, |s| + 9, n - 1);
      assert out + [c] + cs == out + ([c] + cs);
    } else {
      UrlsAre(j, s, n, within);
      NoMembers(buf, within, depth, p, out);
      assert out + [] == out;
    }
  }

  lemma NoMembers(buf: Bytes, within: Span, depth: nat, p: Policy, out: seq<Cand>)
    requires InBounds(within, buf)
    ensures MemberValues([]) == []
    ensures Grouping.CollectMembers(buf, [], within, depth, p, out) == out
  {
  }

  lemma StrideFirst(kind: BlockKind, floor: nat, at: nat, len: nat, step: nat, n: nat)
    ensures Stride(kind, floor, at, len, step, n) ==
            if n == 0 then []
            else [Cand(Span(at, at + len), kind, floor)] + Stride(kind, floor, at + step, len, step, n - 1)
  {
  }

  lemma UrlMember(j: nat, s: Bytes, p: Policy) returns (m: Member)
    requires Simple(s) && |s| + 2 >= p.minPayloadBytes
    ensures ValidChars(UrlKey().text) && Paired(UrlKey().text)
    ensures m == Member(Logical(UrlKey().text), KeyAt(j, UrlKey()), SpanOf(j + 6, Word(s)))
    ensures m.value == ValueSpan(Span(j + 6, j + |s| + 8), KString) && Grouping.IsMediaMember(m, p)
  {
    UrlIs(s);
    WordIs(s);
    hide UrlKey, Word, JsonText, KeyText, Simple, Logical, Grouping.MEDIA_KEYS, Valid, AllPaired, Paired;
    m := Member(Logical(UrlKey().text), KeyAt(j, UrlKey()), SpanOf(j + 6, Word(s)));
  }

  lemma RestOrdered(m: Member, rest: seq<Member>, within: Span)
    requires Ordered(MemberValues([m] + rest), within.start, within.end)
    ensures Ordered(MemberValues(rest), within.start, within.end)
    ensures m.value.span.start <= m.value.span.end && within.start <= within.end
  {
    assert ([m] + rest)[1..] == rest;
    assert MemberValues([m] + rest)[1..] == MemberValues(rest);
    OrderedFrom(MemberValues(rest), within.start, m.value.span.end, within.end);
  }

  // A group whose span has all the payloads in it gets them all.
  lemma {:induction false} AllInside(g: Group, ps: seq<Cand>, lo: nat, hi: nat)
    requires Grouping.Spaced(ps, lo, hi) && g.cand.span.start <= lo && hi <= g.cand.span.end
    ensures Grouping.Assign([g], ps) == Grouping.Assigned([g.(children := g.children + ps)], [])
    decreases |ps|
  {
    if ps != [] {
      var next := g.(children := g.children + [ps[0]]);
      AllInside(next, ps[1..], ps[0].span.end, hi);
      assert [g][1..] == [] && [next] + [] == [next];
      assert g.children + [ps[0]] + ps[1..] == g.children + ps;
    } else {
      assert g.children + [] == g.children;
    }
  }

  lemma {:induction false} StrideSpaced(kind: BlockKind, floor: nat, at: nat, len: nat, step: nat, n: nat, lo: nat,
                                        hi: nat)
    requires lo <= at && 0 < len < step && (n > 0 ==> at + n * step - step + len <= hi) && lo <= hi
    ensures Grouping.Spaced(Stride(kind, floor, at, len, step, n), lo, hi)
    decreases n
  {
    if n > 0 {
      OneMore(n, step);
      assert (n - 1) * step >= 0;
      StrideSpaced(kind, floor, at + step, len, step, n - 1, at + len, hi);
    }
  }

  // Where its one message is, and what is in it.
  lemma PartsScan(s: Bytes, n: nat)
    requires Simple(s) && n > 0
    ensures var body, m := Parts(s, n), Message(s, n);
            && |body| == n * (|s| + 9) + 16 && |body| >= 16 && SpanOf(13, m) == ValueSpan(Span(13, |body| - 2), KObject)
            && ValuesAt(13, Copies(None, m, 1)) == [SpanOf(13, m)]
            && ContainerAt(body, 13, m) && AllPaired(m)
  {
    hide *;
    var body, m := Parts(s, n), Message(s, n);
    var items := Copies(None, m, 1);
    MessageIs(s, n);
    PartsAre(s, n);
    DocIs(items);
    DocDocument(items);
    DocSingle(items);
    SingleIsCopy(m);
    HistoryIs(items);
    SingleScans(body, 0, true, Some(MessagesKey()), History(items));
    ContainerParts(body, 12, History(items));
    SingleScans(body, 12, false, None, m);
    ContainerParts(body, 13, m);
  }

  lemma PartsAre(s: Bytes, n: nat)
    requires Simple(s) && n > 0
    ensures var m := Message(s, n);
            && Parts(s, n) == Body(Copies(None, m, 1)) && m.Cont? && m.obj && Valid(m) && AllPaired(m)
            && m.items == Copies(Some(UrlKey()), Word(s), n)
            && SpanOf(13, m) == ValueSpan(Span(13, 13 + |JsonText(m)|), KObject)
  {
    MessageIs(s, n);
    hide JsonText, Valid, AllPaired, Listable;
  }

  lemma SingleIsCopy(m: Json)
    ensures History(Copies(None, m, 1)) == Single(false, None, m) && KeyText(None) == []
    ensures Single(false, None, m).items == Copies(None, m, 1)
  {
    assert Copies(None, m, 0) == Nil;
  }

  lemma PartsPlanned(s: Bytes, n: nat, p: Policy)
    requires Simple(s) && n > 0 && p.maxDepth >= 2 && p.minPayloadBytes <= |s| + 2
    requires p.minHistoryBlockBytes <= n * (|s| + 9) + 1
    ensures |Parts(s, n)| == n * (|s| + 9) + 16
    ensures StructuralPlan(Parts(s, n), p) ==
            [Group(Cand(Span(13, |Parts(s, n)| - 2), JsonMember, p.minHistoryBlockBytes),
                   Stride(Media, p.minPayloadBytes, 20, |s| + 2, |s| + 9, n))]
  {
    hide *;
    var body, m, floor := Parts(s, n), Message(s, n), p.minHistoryBlockBytes;
    var ps := Stride(Media, p.minPayloadBytes, 20, |s| + 2, |s| + 9, n);
    MessageIs(s, n);
    PartsScan(s, n);
    var c := Cand(Span(13, |body| - 2), JsonMember, floor);
    PartsAre(s, n);
    DocGroups(Copies(None, m, 1), p);
    PartsPayloads(s, n, p);
    StrideSpaced(Media, p.minPayloadBytes, 20, |s| + 2, |s| + 9, n, 13, |body| - 2);
    OneGroup(c, ps);
    OneCand(SpanOf(13, m), c);
  }

  lemma OneGroup(c: Cand, ps: seq<Cand>)
    requires Grouping.Spaced(ps, c.span.start, c.span.end)
    ensures var a := Grouping.Assign([Grouping.Alone(c)], ps);
            Grouping.Merge(a.groups, a.promoted) == [Group(c, ps)]
  {
    AllInside(Grouping.Alone(c), ps, c.span.start, c.span.end);
    assert [] + ps == ps;
    NothingAssigned([Group(c, ps)]);
  }

  lemma OneCand(v: ValueSpan, c: Cand)
    requires v.span == c.span && c.span.start + c.floor <= c.span.end && c.kind == JsonMember
    ensures Grouping.AloneAll(Grouping.ElementCands([v], c.floor)) == [Grouping.Alone(c)]
  {
    assert [v][1..] == [];
    assert Grouping.ElementCands([v], c.floor) == [c] + [] == [c];
    assert [c][1..] == [];
  }

  lemma PartsMembers(s: Bytes, n: nat)
    requires Simple(s) && n > 0
    ensures var body := Parts(s, n);
            && |body| >= 16 && SpanOf(13, Message(s, n)) == ValueSpan(Span(13, |body| - 2), KObject)
            && Members(body, Span(13, |body| - 2)) == Ok(UrlsAt(14, s, n))
  {
    hide *;
    PartsScan(s, n);
    PartsAre(s, n);
    ObjectMembers(Parts(s, n), 13, Message(s, n));
    UrlsAre(14, s, n, Span(13, 14));
  }

  lemma SpanIn(start: nat, end: nat, body: Bytes)
    requires start <= end <= |body|
    ensures InBounds(Span(start, end), body)
  {
  }

  lemma PartsPayloads(s: Bytes, n: nat, p: Policy)
    requires Simple(s) && n > 0 && p.maxDepth >= 2 && p.minPayloadBytes <= |s| + 2
    requires var body := Parts(s, n);
             && |body| >= 16 && Ordered([SpanOf(13, Message(s, n))], 12, |body| - 1)
    ensures Grouping.CollectElements(Parts(s, n), [SpanOf(13, Message(s, n))], Span(12, |Parts(s, n)| - 1), 2, p, []) ==
            Stride(Media, p.minPayloadBytes, 20, |s| + 2, |s| + 9, n)
  {
    hide *;
    var body, s0 := Parts(s, n), Span(13, |Parts(s, n)| - 2);
    PartsMembers(s, n);
    UrlsAre(14, s, n, s0);
    SpanIn(13, |body| - 2, body);
    SpanIn(12, |body| - 1, body);
    MembersInOrder(body, s0);
    SomeRoom();
    ObjectPayloads(body, s0, 2, p, []);
    UrlPayloads(body, 14, s, n, s0, 3, p, []);
    NothingBefore(Stride(Media, p.minPayloadBytes, 20, |s| + 2, |s| + 9, n));
    OneElementPayloads(body, ValueSpan(s0, KObject), Span(12, |body| - 1), p);
  }

  lemma MembersInOrder(buf: Bytes, s: Span)
    requires InBounds(s, buf) && Members(buf, s).Ok?
    ensures Ordered(MemberValues(Members(buf, s).value), s.start, s.end)
  {
  }

  lemma SomeRoom()
    ensures 0 < Grouping.MAX_PAYLOAD_CANDS
  {
  }

  lemma NothingBefore(cs: seq<Cand>)
    ensures [] + cs == cs
  {
  }

  lemma OneElementPayloads(buf: Bytes, v: ValueSpan, within: Span, p: Policy)
    requires InBounds(within, buf) && Ordered([v], within.start, within.end)
    ensures Grouping.CollectElements(buf, [v], within, 2, p, []) == Grouping.Collect(buf, v, 2, p, [])
  {
    hide Grouping.Collect;
    assert [v][1..] == [];
  }

  // The group of that message: what it weighs, and which two blocks it can push.
  function PartsGroup(s: Bytes, n: nat, p: Policy): Group
    requires |Parts(s, n)| >= 15
  {
    Group(Cand(Span(13, |Parts(s, n)| - 2), JsonMember, p.minHistoryBlockBytes),
          Stride(Media, p.minPayloadBytes, 20, |s| + 2, |s| + 9, n))
  }

  lemma PartsSlices(s: Bytes, n: nat, floor: nat)
    requires Simple(s) && n > 0
    ensures |JsonText(Word(s))| == |s| + 2 <= |Parts(s, n)|
    ensures forall c :: c in Stride(Media, floor, 20, |s| + 2, |s| + 9, n) ==>
              && InBounds(c.span, Parts(s, n)) && Slice(c.span, Parts(s, n)) == JsonText(Word(s)) && c.kind == Media
  {
    hide *;
    var body, m, cs := Parts(s, n), Message(s, n), Stride(Media, floor, 20, |s| + 2, |s| + 9, n);
    PartsScan(s, n);
    PartsAre(s, n);
    UrlIs(s);
    WordIs(s);
    CopiesCons(Some(UrlKey()), Word(s), n);
    ContainerListed(body, 13, m);
    StrideLength(Media, floor, 20, |s| + 2, |s| + 9, n);
    CopiesOccur(body, SpanOf(13, m).span, 14, true, Some(UrlKey()), Word(s), n, Media, floor);
    StrideFirst(Media, floor, 20, |s| + 2, |s| + 9, n);
    FirstFits(cs, body, |s| + 2);
  }

  lemma CopiesCons(key: Option<Key>, v: Json, n: nat)
    requires n > 0
    ensures Copies(key, v, n).Cons?
  {
  }

  lemma PartsMade(body: Bytes, g: Group, b: Block, text: Bytes)
    requires |body| < ALLOC_LIMIT && |text| < ALLOC_LIMIT && MadeFrom(body, [g], b) && InBounds(g.cand.span, body)
    requires forall c :: c in g.children ==> InBounds(c.span, body) && Slice(c.span, body) == text && c.kind == Media
    ensures b == BlockFor(body, g.cand, g.children) || b == BytesBlock(Media, text)
  {
    hide BlockFor;
    var h :| h in [g] && MadeFor(body, h.cand, h.children, b);
    assert h == g;
  }

  // Its instructions: one a payload, one a gap, and the closing brace.
  lemma PartsCounts(s: Bytes, n: nat, p: Policy)
    requires Simple(s) && n > 0 && p.minPayloadBytes <= |s| + 2
    ensures |Parts(s, n)| == n * (|s| + 9) + 16 && |Parts(s, n)| >= 16
    ensures var g := PartsGroup(s, n, p);
            && Pieces(g.cand.span.start, g.cand.span.end, g.children) == 2 * n + 1
            && Limits.Taken(g.cand.span.start, g.cand.span.end, g.children) == n * (|s| + 2)
            && |g.children| == n && InBounds(g.cand.span, Parts(s, n))
            && forall c :: c in g.children ==> c.span.start <= c.span.end && c.kind == Media
  {
    PartsScan(s, n);
    hide Parts, Stride, Pieces, Limits.Taken, Simple, ContainerAt, SpanOf, ValuesAt, Limits.Reached;
    StrideLength(Media, p.minPayloadBytes, 20, |s| + 2, |s| + 9, n);
    StrideCounts(Media, p.minPayloadBytes, 13, 20, |s| + 2, |s| + 9, n, |Parts(s, n)| - 2);
  }

  lemma OneBig(cx: Ctx, v: View, g: Group)
    requires |cx.body| < ALLOC_LIMIT && AllInBounds(cx.body, [g]) && v.pos == 0 && v.instrs == []
    requires 0 < g.cand.span.start && g.cand.span.end < |cx.body| && SpanLen(g.cand.span) >= g.cand.floor
    ensures CandsOf([g]) == [g.cand]
    ensures Pieces(0, |cx.body|, [g.cand]) == 3 && Limits.Taken(0, |cx.body|, [g.cand]) == SpanLen(g.cand.span)
    ensures Limits.Reached(0, |cx.body|, [g.cand]) == g.cand.span.end
    ensures exists i: Instr :: i in CoverAll(cx, v, [g]).instrs && i.Ref? && i.digest == DigestOf(cx.body, g.cand)
  {
    assert g in [g] && [g][1..] == [] && [g.cand][1..] == [];
    var w := CoverAll(cx, v, [g]);
    assert w == ReferenceStep(cx, v, g.cand, g.children) by {
      assert CoverAll(cx, ReferenceStep(cx, v, g.cand, g.children), []) == ReferenceStep(cx, v, g.cand, g.children);
    }
    hide ProvideStep;
    var i: Instr := Ref(DigestOf(cx.body, g.cand), SpanLen(g.cand.span));
    assert w.instrs[|w.instrs| - 1] == i;
  }

  // What a peer thought to have nothing is pushed of it.
  lemma PartsPush(cx: Ctx, v: View, g: Group, text: Bytes)
    requires |cx.body| < ALLOC_LIMIT && AllInBounds(cx.body, [g]) && AllShaped(cx.body, [g]) && |text| < ALLOC_LIMIT
    requires Inv(cx.body, v) && Claims(cx, v) && v.push == [] && forall k: nat, d :: !cx.peer(k, d)
    requires forall c :: c in g.children ==>
               InBounds(c.span, cx.body) && Slice(c.span, cx.body) == text && c.kind == Media
    requires g.cand.kind == JsonMember
    requires exists i: Instr :: i in CoverAll(cx, v, [g]).instrs && i.Ref? && i.digest == DigestOf(cx.body, g.cand)
    ensures Inv(cx.body, CoverAll(cx, v, [g])) && InBounds(g.cand.span, cx.body)
    ensures var b, push := BlockFor(cx.body, g.cand, g.children), CoverAll(cx, v, [g]).push;
            b in push && PushCost(push) <= Programs.WireCost(b) + |text|
  {
    assert g in [g];
    hide *;
    var b, w := BlockFor(cx.body, g.cand, g.children), CoverAll(cx, v, [g]);
    CoverAllKeeps(cx, v, [g]);
    forall x | x in w.push ensures x == b || x == BytesBlock(Media, text) {
      CoverAllPushes(cx, v, [g], x);
      NothingIn(v.push, x);
      PartsMade(cx.body, g, x, text);
    }
    InvOrder(cx.body, w);
    Limits.FewBlocks(w.push, w.claimed, b, BytesBlock(Media, text));
    BytesCost(Media, text);
    NothingClaimed(cx, w);
    IsPushed(cx.body, w, g, text);
  }

  lemma NothingClaimed(cx: Ctx, v: View)
    requires Claims(cx, v) && forall k: nat, d :: !cx.peer(k, d)
    ensures v.claimed == {}
  {
  }

  lemma IsPushed(body: Bytes, w: View, g: Group, text: Bytes)
    requires |body| < ALLOC_LIMIT && InBounds(g.cand.span, body) && |text| < ALLOC_LIMIT && w.claimed == {}
    requires Resolve.RefsIn(w.instrs, Digests(w.push) + w.claimed) && g.cand.kind == JsonMember
    requires exists i: Instr :: i in w.instrs && i.Ref? && i.digest == DigestOf(body, g.cand)
    requires forall x :: x in w.push ==> x == BlockFor(body, g.cand, g.children) || x == BytesBlock(Media, text)
    ensures BlockFor(body, g.cand, g.children) in w.push
  {
    hide BlockFor;
    var k := DigestsAt(w.push, DigestOf(body, g.cand));
    assert w.push[k] in w.push;
  }

  lemma PartsWeigh(n: nat, len: nat, weight: nat, room: nat)
    requires n >= 1 && len >= 40 && weight + n * len <= room + 20 * (2 * n + 1)
    ensures 60 + weight + len <= room + 1024
  {
    assert (n - 1) * (len - 40) >= 0;
    assert (n - 1) * (len - 40) == n * len - 40 * n - len + 40;
  }

  // One message of n equal payloads, to a peer thought to have nothing: it is
  // split into three instructions, and its block, of 2n + 1, is pushed. From a
  // hundred thousand payloads on the peer's decoder refuses that block.
  lemma ManyPayloadsAreRefused(cx: Ctx, gear: Chunking.Gear, s: Bytes, n: nat)
    requires Simple(s) && |s| >= 38 && n >= 1 && cx.body == Parts(s, n) && |cx.body| < ALLOC_LIMIT
    requires forall k: nat, d :: !cx.peer(k, d)
    requires var p := cx.policy;
             && p.enabled && p.minBodyBytes <= |cx.body| <= p.maxBodyBytes && p.maxDepth >= 2 && p.maxInstrs >= 2
             && p.minHistoryBlockBytes <= |cx.body| - 15 && p.minPayloadBytes <= |s| + 2
    ensures |cx.body| >= 16 && InBounds(PartsGroup(s, n, cx.policy).cand.span, cx.body)
    ensures var g := PartsGroup(s, n, cx.policy);
            var b := BlockFor(cx.body, g.cand, g.children);
            && Planned(cx.body, cx.policy, gear) == [g] && |g.children| == n
            && Decision(cx, gear).Split? && b in Decision(cx, gear).out.toPush && Honest(b)
            && (n >= 100_000 ==> !Session.Decodes(b))
  {
    hide *;
    var p, v := cx.policy, Marked(Start(cx.body), true);
    PartsCounts(s, n, p);
    PartsPlanned(s, n, p);
    PartsGroupIs(s, n, p);
    var g := PartsGroup(s, n, p);
    OneGroupCands(g);
    StructuralDecision(cx, gear, [g]);
    OneBig(cx, v, g);
    PartsSlices(s, n, p.minPayloadBytes);
    PartsPush(cx, v, g, JsonText(Word(s)));
    Limits.GroupWeight(cx.body, g.cand, g.children);
    PartsWeigh(n, |s| + 2, Programs.WireCost(BlockFor(cx.body, g.cand, g.children)), |cx.body| - 15);
    Limits.PlanSplits(cx, v, [g]);
    PartsHonest(cx.body, g);
    Limits.GroupBlockDecodes(cx.body, g.cand, g.children);
    SessionLimit();
  }

  lemma SessionLimit()
    ensures Session.MAX_INSTRS == 200_000
  {
  }

  lemma OneGroupCands(g: Group)
    ensures |CandsOf([g])| == 1
  {
    assert [g][1..] == [];
  }

  lemma PartsGroupIs(s: Bytes, n: nat, p: Policy)
    requires |Parts(s, n)| >= 16
    ensures PartsGroup(s, n, p) == Group(Cand(Span(13, |Parts(s, n)| - 2), JsonMember, p.minHistoryBlockBytes),
                                         Stride(Media, p.minPayloadBytes, 20, |s| + 2, |s| + 9, n))
    ensures SpanLen(PartsGroup(s, n, p).cand.span) == |Parts(s, n)| - 15
  {
  }

  lemma PartsHonest(body: Bytes, g: Group)
    requires |body| < ALLOC_LIMIT && InBounds(g.cand.span, body) && g.cand.span.start < g.cand.span.end
    requires g.cand.kind == JsonMember && forall c :: c in g.children ==> c.span.start <= c.span.end && c.kind == Media
    ensures Honest(BlockFor(body, g.cand, g.children)) && InReach(body, g.cand, g.children)
  {
    hide BlockFor, Honest;
    BlockForHonest(body, g.cand, g.children);
  }

  // ---------- Under the default policy ----------

  function Letters(n: nat): Bytes { seq(n, i => 0x61) }

  lemma SomeLetters(n: nat)
    ensures |Letters(n)| == n && Simple(Letters(n))
  {
  }

  lemma Defaults()
    ensures DEFAULT_POLICY.maxBodyBytes < ALLOC_LIMIT
    ensures var p := DEFAULT_POLICY;
            && p.enabled && p.minBodyBytes == 4096 && p.maxBodyBytes == 536_870_912 && p.maxDepth == 6
            && p.minHistoryBlockBytes == 128 && p.minPayloadBytes == 4096
            && p.maxInstrs == Session.MAX_INSTRS == 200_000
  {
  }

  // A hundred thousand messages of 128 bytes, 13 MB, whatever presence answers.
  lemma DefaultOneTooMany(cx: Ctx, gear: Chunking.Gear, n: nat)
    requires cx.policy == DEFAULT_POLICY && n == 100_000 && cx.body == Messages(Letters(126), n)
    ensures |cx.body| == 12_900_014 && Decision(cx, gear).Split?
    ensures |Decision(cx, gear).out.instrs| == 200_001
    ensures !Codec.ProgramPasses(Decision(cx, gear).out.instrs, Session.MAX_INSTRS)
  {
    hide *;
    var s := Letters(126);
    SomeLetters(126);
    Defaults();
    MessagesPlanned(s, n, cx.policy);
    OneTooMany(cx, gear, s, n);
  }

  // A message of a hundred thousand payloads of 4 KiB, 410 MB, to a peer thought
  // to have nothing.
  lemma DefaultManyPayloads(cx: Ctx, gear: Chunking.Gear, n: nat)
    requires cx.policy == DEFAULT_POLICY && n == 100_000 && cx.body == Parts(Letters(4094), n)
    requires forall k: nat, d :: !cx.peer(k, d)
    ensures |cx.body| == 410_300_016 && Decision(cx, gear).Split?
    ensures exists b :: b in Decision(cx, gear).out.toPush && Honest(b) && !Session.Decodes(b)
  {
    hide *;
    var s := Letters(4094);
    SomeLetters(4094);
    Defaults();
    PartsCounts(s, n, cx.policy);
    ManyPayloadsAreRefused(cx, gear, s, n);
  }
}

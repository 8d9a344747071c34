// From a scanned document to the groups the builder covers: history elements
// and whole values, with the long strings inside them as children.

module Grouping {
  import opened Results
  import opened Blocks
  import opened Policies
  import opened Scan

  function Ascii(s: string): Bytes {
    seq(|s|, i requires 0 <= i < |s| => s[i] as int % 256)
  }

  const ARRAY_MEMBER_KEYS: seq<Bytes> := [Ascii("messages"), Ascii("input")]
  const WHOLE_VALUE_KEYS: seq<Bytes> := [
    Ascii("tools"), Ascii("functions"), Ascii("response_format"), Ascii("prompt"),
    Ascii("audio"), Ascii("file"), Ascii("file_ids"), Ascii("tool_choice")]
  const MEDIA_KEYS: seq<Bytes> := [
    Ascii("url"), Ascii("file_data"), Ascii("data"), Ascii("b64_json"), Ascii("image_base64"), Ascii("input_audio")]
  const DATA_URI_PREFIX: Bytes := Ascii("data:")
  const MAX_PAYLOAD_CANDS: nat := 4096

  // ---------- Candidates apart from each other, in document order ----------

  predicate Spaced(cs: seq<Cand>, lo: nat, hi: nat) {
    if cs == [] then lo <= hi
    else lo <= cs[0].span.start < cs[0].span.end <= hi && Spaced(cs[1..], cs[0].span.end, hi)
  }

  lemma {:induction false} SpacedWidens(cs: seq<Cand>, lo: nat, hi: nat, lo': nat, hi': nat)
    requires Spaced(cs, lo, hi) && lo' <= lo && hi <= hi'
    ensures Spaced(cs, lo', hi')
  {
    if cs != [] {
      SpacedWidens(cs[1..], cs[0].span.end, hi, cs[0].span.end, hi');
    }
  }

  lemma {:induction false} SpacedConcat(a: seq<Cand>, b: seq<Cand>, lo: nat, mid: nat, hi: nat)
    requires Spaced(a, lo, mid) && Spaced(b, mid, hi)
    ensures Spaced(a + b, lo, hi)
  {
    if a == [] {
      assert a + b == b;
      SpacedWidens(b, mid, hi, lo, hi);
    } else {
      assert (a + b)[1..] == a[1..] + b;
      SpacedConcat(a[1..], b, a[0].span.end, mid, hi);
    }
  }

  lemma {:induction false} SpacedMember(cs: seq<Cand>, lo: nat, hi: nat, c: Cand)
    requires Spaced(cs, lo, hi) && c in cs
    ensures lo <= c.span.start < c.span.end <= hi
  {
    if c != cs[0] {
      SpacedMember(cs[1..], cs[0].span.end, hi, c);
    }
  }

  // ---------- Payloads ----------

  predicate StartsWithDataUri(buf: Bytes, s: Span)
    requires InBounds(s, buf)
  {
    var inner := Slice(s, buf);
    |inner| > |DATA_URI_PREFIX| + 2 && inner[0] == QUOTE && DATA_URI_PREFIX <= inner[1..]
  }

  predicate LooksLikePayload(buf: Bytes, s: Span)
    requires InBounds(s, buf)
  {
    StartsWithDataUri(buf, s) || SpanLen(s) >= 4096
  }

  function Room(depth: nat, p: Policy): nat {
    if depth > p.maxDepth then 0 else p.maxDepth - depth + 1
  }

  // The payloads of a value, after those in `out`.
  function Collect(buf: Bytes, v: ValueSpan, depth: nat, p: Policy, out: seq<Cand>): seq<Cand>
    requires InBounds(v.span, buf)
    decreases Room(depth, p), 0
  {
    if depth > p.maxDepth || |out| >= MAX_PAYLOAD_CANDS then out
    else match v.kind
      case KString =>
        if SpanLen(v.span) >= p.minPayloadBytes && LooksLikePayload(buf, v.span) then
          out + [Cand(v.span, if StartsWithDataUri(buf, v.span) then Media else Text, p.minPayloadBytes)]
        else out
      case KObject =>
        var ms := Members(buf, v.span);
        if ms.Err? then out else CollectMembers(buf, ms.value, v.span, depth + 1, p, out)
      case KArray =>
        var es := Elements(buf, v.span);
        if es.Err? then out else CollectElements(buf, es.value, v.span, depth + 1, p, out)
      case _ => out
  }

  // Long strings under a media key are payloads whatever they look like.
  predicate IsMediaMember(m: Member, p: Policy)
    requires m.value.span.start <= m.value.span.end
  {
    m.key in MEDIA_KEYS && m.value.kind == KString && SpanLen(m.value.span) >= p.minPayloadBytes
  }

  function CollectMember(buf: Bytes, m: Member, depth: nat, p: Policy, out: seq<Cand>): seq<Cand>
    requires InBounds(m.value.span, buf)
    decreases Room(depth, p), 1
  {
    if IsMediaMember(m, p) then out + [Cand(m.value.span, Media, p.minPayloadBytes)]
    else Collect(buf, m.value, depth, p, out)
  }

  function CollectMembers(buf: Bytes, ms: seq<Member>, within: Span, depth: nat, p: Policy, out: seq<Cand>): seq<Cand>
    requires InBounds(within, buf) && Ordered(MemberValues(ms), within.start, within.end)
    decreases Room(depth, p), 2 + |ms|
  {
    if ms == [] then out
    else
      OrderedFrom(MemberValues(ms[1..]), within.start, ms[0].value.span.end, within.end);
      CollectMembers(buf, ms[1..], within, depth, p, CollectMember(buf, ms[0], depth, p, out))
  }

  function CollectElements(buf: Bytes, es: seq<ValueSpan>, within: Span, depth: nat, p: Policy, out: seq<Cand>)
    : seq<Cand>
    requires InBounds(within, buf) && Ordered(es, within.start, within.end)
    decreases Room(depth, p), 2 + |es|
  {
    if es == [] then out
    else
      OrderedFrom(es[1..], within.start, es[0].span.end, within.end);
      CollectElements(buf, es[1..], within, depth, p, Collect(buf, es[0], depth, p, out))
  }

  method CollectPayloads(buf: Bytes, v: ValueSpan, depth: nat, p: Policy, out: seq<Cand>) returns (r: seq<Cand>)
    requires InBounds(v.span, buf)
    ensures r == Collect(buf, v, depth, p, out)
    decreases Room(depth, p), 0
  {
    hide Members, Elements, CollectMembers, CollectElements, StartsWithDataUri, LooksLikePayload;
    r := out;
    if depth > p.maxDepth || |out| >= MAX_PAYLOAD_CANDS {
      return;
    }
    match v.kind {
      case KString =>
        if SpanLen(v.span) >= p.minPayloadBytes && LooksLikePayload(buf, v.span) {
          var kind := if StartsWithDataUri(buf, v.span) then Media else Text;
          r := r + [Cand(v.span, kind, p.minPayloadBytes)];
        }
      case KObject =>
        var ms := MembersOfObject(buf, v.span);
        if ms.Ok? {
          r := PayloadsOfMembers(buf, ms.value, v.span, depth + 1, p, r);
        }
      case KArray =>
        var es := ElementsOfArray(buf, v.span);
        if es.Ok? {
          r := PayloadsOfElements(buf, es.value, v.span, depth + 1, p, r);
        }
      case _ =>
    }
  }

  method PayloadsOfMembers(buf: Bytes, ms: seq<Member>, within: Span, depth: nat, p: Policy, out: seq<Cand>)
    returns (r: seq<Cand>)
    requires InBounds(within, buf) && Ordered(MemberValues(ms), within.start, within.end)
    ensures r == CollectMembers(buf, ms, within, depth, p, out)
    decreases Room(depth, p), 2
  {
    r := out;
    for k := 0 to |ms|
      invariant Ordered(MemberValues(ms[k..]), within.start, within.end)
      invariant CollectMembers(buf, ms, within, depth, p, out) == CollectMembers(buf, ms[k..], within, depth, p, r)
    {
      var m := ms[k];
      assert ms[k..][0] == m && ms[k..][1..] == ms[k + 1..];
      OrderedFrom(MemberValues(ms[k + 1..]), within.start, m.value.span.end, within.end);
      if m.key in MEDIA_KEYS && m.value.kind == KString && SpanLen(m.value.span) >= p.minPayloadBytes {
        r := r + [Cand(m.value.span, Media, p.minPayloadBytes)];
        continue;
      }
      r := CollectPayloads(buf, m.value, depth, p, r);
    }
  }

  method PayloadsOfElements(buf: Bytes, es: seq<ValueSpan>, within: Span, depth: nat, p: Policy, out: seq<Cand>)
    returns (r: seq<Cand>)
    requires InBounds(within, buf) && Ordered(es, within.start, within.end)
    ensures r == CollectElements(buf, es, within, depth, p, out)
    decreases Room(depth, p), 2
  {
    r := out;
    for k := 0 to |es|
      invariant Ordered(es[k..], within.start, within.end)
      invariant CollectElements(buf, es, within, depth, p, out) == CollectElements(buf, es[k..], within, depth, p, r)
    {
      assert es[k..][0] == es[k] && es[k..][1..] == es[k + 1..];
      OrderedFrom(es[k + 1..], within.start, es[k].span.end, within.end);
      r := CollectPayloads(buf, es[k], depth, p, r);
    }
  }

  // What collecting adds: payloads of enough bytes, apart from each other and
  // in document order, inside the value.
  ghost predicate Adds(out: seq<Cand>, r: seq<Cand>, p: Policy, lo: nat, hi: nat) {
    && out <= r && Spaced(r[|out|..], lo, hi)
    && forall c :: c in r[|out|..] ==> (c.kind == Media || c.kind == Text) && c.floor == p.minPayloadBytes
                                        && c.span.start <= c.span.end && SpanLen(c.span) >= c.floor
  }

  lemma AddsNothing(out: seq<Cand>, p: Policy, lo: nat, hi: nat)
    requires lo <= hi
    ensures Adds(out, out, p, lo, hi)
  {
    assert out[|out|..] == [];
  }

  lemma AddsTwice(a: seq<Cand>, b: seq<Cand>, c: seq<Cand>, p: Policy, lo: nat, mid: nat, hi: nat)
    requires Adds(a, b, p, lo, mid) && Adds(b, c, p, mid, hi)
    ensures Adds(a, c, p, lo, hi)
    ensures c[|a|..] == b[|a|..] + c[|b|..]
  {
    assert c[|a|..] == b[|a|..] + c[|b|..];
    SpacedConcat(b[|a|..], c[|b|..], lo, mid, hi);
  }

  lemma AddsWidens(a: seq<Cand>, b: seq<Cand>, p: Policy, lo: nat, hi: nat, lo': nat, hi': nat)
    requires Adds(a, b, p, lo, hi) && lo' <= lo && hi <= hi'
    ensures Adds(a, b, p, lo', hi')
  {
    SpacedWidens(b[|a|..], lo, hi, lo', hi');
  }

  lemma AddsOne(out: seq<Cand>, s: Span, kind: BlockKind, p: Policy)
    requires s.start < s.end && SpanLen(s) >= p.minPayloadBytes && (kind == Media || kind == Text)
    ensures Adds(out, out + [Cand(s, kind, p.minPayloadBytes)], p, s.start, s.end)
  {
    var c := Cand(s, kind, p.minPayloadBytes);
    assert (out + [c])[|out|..] == [c];
    assert Spaced([c][1..], s.end, s.end);
  }

  lemma {:induction false} CollectAdds(buf: Bytes, v: ValueSpan, depth: nat, p: Policy, out: seq<Cand>)
    requires InBounds(v.span, buf) && v.span.start < v.span.end
    ensures Adds(out, Collect(buf, v, depth, p, out), p, v.span.start, v.span.end)
    decreases Room(depth, p), 0
  {
    hide Adds, Members, Elements, LooksLikePayload, StartsWithDataUri;
    AddsNothing(out, p, v.span.start, v.span.end);
    if depth <= p.maxDepth && |out| < MAX_PAYLOAD_CANDS {
      match v.kind {
        case KString =>
          if SpanLen(v.span) >= p.minPayloadBytes && LooksLikePayload(buf, v.span) {
            AddsOne(out, v.span, if StartsWithDataUri(buf, v.span) then Media else Text, p);
          }
        case KObject =>
          if Members(buf, v.span).Ok? {
            CollectMembersAdds(buf, Members(buf, v.span).value, v.span, v.span.start, depth + 1, p, out);
          }
        case KArray =>
          if Elements(buf, v.span).Ok? {
            CollectElementsAdds(buf, Elements(buf, v.span).value, v.span, v.span.start, depth + 1, p, out);
          }
        case _ =>
      }
    }
  }

  lemma {:induction false} CollectMemberAdds(buf: Bytes, m: Member, depth: nat, p: Policy, out: seq<Cand>)
    requires InBounds(m.value.span, buf) && m.value.span.start < m.value.span.end
    ensures Adds(out, CollectMember(buf, m, depth, p, out), p, m.value.span.start, m.value.span.end)
    decreases Room(depth, p), 1
  {
    if IsMediaMember(m, p) {
      AddsOne(out, m.value.span, Media, p);
    } else {
      CollectAdds(buf, m.value, depth, p, out);
    }
  }

  lemma {:induction false} CollectMembersAdds(buf: Bytes, ms: seq<Member>, within: Span, lo: nat, depth: nat, p: Policy,
                                              out: seq<Cand>)
    requires InBounds(within, buf) && within.start <= lo <= within.end
    requires Ordered(MemberValues(ms), lo, within.end) && Ordered(MemberValues(ms), within.start, within.end)
    ensures Adds(out, CollectMembers(buf, ms, within, depth, p, out), p, lo, within.end)
    decreases Room(depth, p), 2 + |ms|
  {
    if ms == [] {
      AddsNothing(out, p, lo, within.end);
    } else {
      var m := ms[0];
      var next := CollectMember(buf, m, depth, p, out);
      CollectMemberAdds(buf, m, depth, p, out);
      OrderedFrom(MemberValues(ms[1..]), within.start, m.value.span.end, within.end);
      CollectMembersAdds(buf, ms[1..], within, m.value.span.end, depth, p, next);
      AddsWidens(out, next, p, m.value.span.start, m.value.span.end, lo, m.value.span.end);
      AddsTwice(out, next, CollectMembers(buf, ms, within, depth, p, out), p, lo, m.value.span.end, within.end);
    }
  }

  lemma {:induction false} CollectElementsAdds(buf: Bytes, es: seq<ValueSpan>, within: Span, lo: nat, depth: nat,
                                               p: Policy, out: seq<Cand>)
    requires InBounds(within, buf) && within.start <= lo <= within.end
    requires Ordered(es, lo, within.end) && Ordered(es, within.start, within.end)
    ensures Adds(out, CollectElements(buf, es, within, depth, p, out), p, lo, within.end)
    decreases Room(depth, p), 2 + |es|
  {
    if es == [] {
      AddsNothing(out, p, lo, within.end);
    } else {
      var e := es[0];
      var next := Collect(buf, e, depth, p, out);
      CollectAdds(buf, e, depth, p, out);
      OrderedFrom(es[1..], within.start, e.span.end, within.end);
      CollectElementsAdds(buf, es[1..], within, e.span.end, depth, p, next);
      AddsWidens(out, next, p, e.span.start, e.span.end, lo, e.span.end);
      AddsTwice(out, next, CollectElements(buf, es, within, depth, p, out), p, lo, e.span.end, within.end);
    }
  }

  // ---------- Top-level candidates ----------

  function ElementCands(es: seq<ValueSpan>, floor: nat): seq<Cand> {
    if es == [] then []
    else (if es[0].span.start <= es[0].span.end && SpanLen(es[0].span) >= floor
          then [Cand(es[0].span, JsonMember, floor)] else [])
         + ElementCands(es[1..], floor)
  }

  // The candidates one member of the document gives. A key that is not valid
  // UTF-8 equals none of the names.
  function MemberCands(buf: Bytes, m: Member, p: Policy): Scanned<seq<Cand>>
    requires InBounds(m.value.span, buf)
  {
    if m.key in ARRAY_MEMBER_KEYS then
      if m.value.kind != KArray then Ok([])
      else
        var es :- Elements(buf, m.value.span);
        Ok(ElementCands(es, p.minHistoryBlockBytes))
    else if m.key in WHOLE_VALUE_KEYS && SpanLen(m.value.span) >= p.minBlockBytes then
      Ok([Cand(m.value.span, JsonMember, p.minBlockBytes)])
    else Ok([])
  }

  function DocCands(buf: Bytes, ms: seq<Member>, within: Span, p: Policy): Scanned<seq<Cand>>
    requires InBounds(within, buf) && Ordered(MemberValues(ms), within.start, within.end)
    decreases |ms|
  {
    if ms == [] then Ok([])
    else
      OrderedFrom(MemberValues(ms[1..]), within.start, ms[0].value.span.end, within.end);
      var first :- MemberCands(buf, ms[0], p);
      var rest :- DocCands(buf, ms[1..], within, p);
      Ok(first + rest)
  }

  // A payload lies in the group, before it or after it.
  predicate NestedOrApart(g: Cand, c: Cand) {
    || (g.span.start <= c.span.start && c.span.end <= g.span.end)
    || c.span.end <= g.span.start
    || g.span.end <= c.span.start
  }

  ghost predicate Laminar(gs: seq<Cand>, ps: seq<Cand>) {
    forall g, c :: g in gs && c in ps ==> NestedOrApart(g, c)
  }

  lemma LaminarConcat(g1: seq<Cand>, g2: seq<Cand>, p1: seq<Cand>, p2: seq<Cand>, lo: nat, mid: nat, hi: nat)
    requires Spaced(g1, lo, mid) && Spaced(p1, lo, mid) && Spaced(g2, mid, hi) && Spaced(p2, mid, hi)
    requires Laminar(g1, p1) && Laminar(g2, p2)
    ensures Laminar(g1 + g2, p1 + p2)
  {
    forall g, c | g in g1 + g2 && c in p1 + p2 ensures NestedOrApart(g, c) {
      if g in g1 && c in p2 {
        SpacedMember(g1, lo, mid, g);
        SpacedMember(p2, mid, hi, c);
      } else if g in g2 && c in p1 {
        SpacedMember(g2, mid, hi, g);
        SpacedMember(p1, lo, mid, c);
      }
    }
  }

  ghost predicate JsonCands(cs: seq<Cand>) {
    forall c :: c in cs ==> c.kind == JsonMember && c.span.start <= c.span.end && SpanLen(c.span) >= c.floor
  }

  lemma {:induction false} ElementsLaminar(buf: Bytes, es: seq<ValueSpan>, within: Span, lo: nat, depth: nat, p: Policy,
                                           out: seq<Cand>, floor: nat)
    requires InBounds(within, buf) && within.start <= lo <= within.end
    requires Ordered(es, lo, within.end) && Ordered(es, within.start, within.end)
    ensures Spaced(ElementCands(es, floor), lo, within.end) && JsonCands(ElementCands(es, floor))
    ensures Adds(out, CollectElements(buf, es, within, depth, p, out), p, lo, within.end)
    ensures Laminar(ElementCands(es, floor), CollectElements(buf, es, within, depth, p, out)[|out|..])
    decreases |es|
  {
    CollectElementsAdds(buf, es, within, lo, depth, p, out);
    if es != [] {
      var e := es[0];
      var next := Collect(buf, e, depth, p, out);
      var all := CollectElements(buf, es, within, depth, p, out);
      CollectAdds(buf, e, depth, p, out);
      OrderedFrom(es[1..], within.start, e.span.end, within.end);
      ElementsLaminar(buf, es[1..], within, e.span.end, depth, p, next, floor);
      AddsWidens(out, next, p, e.span.start, e.span.end, lo, e.span.end);
      AddsTwice(out, next, all, p, lo, e.span.end, within.end);
      var first: seq<Cand> := if SpanLen(e.span) >= floor then [Cand(e.span, JsonMember, floor)] else [];
      OneLaminar(first, e.span, next[|out|..], lo);
      LaminarConcat(first, ElementCands(es[1..], floor), next[|out|..], all[|next|..], lo, e.span.end, within.end);
      SpacedConcat(first, ElementCands(es[1..], floor), lo, e.span.end, within.end);
    }
  }

  // A value that is at most one candidate, and the payloads inside it.
  lemma OneLaminar(first: seq<Cand>, s: Span, ps: seq<Cand>, lo: nat)
    requires lo <= s.start < s.end && (first == [] || (|first| == 1 && first[0].span == s))
    requires Spaced(ps, s.start, s.end)
    ensures Spaced(first, lo, s.end) && Laminar(first, ps)
  {
    if first != [] {
      assert first[1..] == [];
    }
    forall g, c | g in first && c in ps ensures NestedOrApart(g, c) {
      SpacedMember(ps, s.start, s.end, c);
    }
  }

  lemma MemberLaminar(buf: Bytes, m: Member, p: Policy, out: seq<Cand>)
    requires InBounds(m.value.span, buf) && m.value.span.start < m.value.span.end && MemberCands(buf, m, p).Ok?
    ensures var cs, r, s := MemberCands(buf, m, p).value, CollectMember(buf, m, 1, p, out), m.value.span;
            && Spaced(cs, s.start, s.end) && JsonCands(cs)
            && Adds(out, r, p, s.start, s.end) && Laminar(cs, r[|out|..])
  {
    hide Members, Elements;
    var s := m.value.span;
    CollectMemberAdds(buf, m, 1, p, out);
    var r := CollectMember(buf, m, 1, p, out);
    if m.key in ARRAY_MEMBER_KEYS && m.value.kind == KArray {
      var es := Elements(buf, s).value;
      OrderedFrom(es, s.start, s.start + 1, s.end);
      ElementsLaminar(buf, es, s, s.start, 2, p, out, p.minHistoryBlockBytes);
      if 1 > p.maxDepth || |out| >= MAX_PAYLOAD_CANDS {
        assert r[|out|..] == [];
      }
    } else {
      OneLaminar(MemberCands(buf, m, p).value, s, r[|out|..], s.start);
    }
  }

  lemma {:induction false} MembersLaminar(buf: Bytes, ms: seq<Member>, within: Span, lo: nat, p: Policy, out: seq<Cand>)
    requires InBounds(within, buf) && within.start <= lo <= within.end
    requires Ordered(MemberValues(ms), lo, within.end) && Ordered(MemberValues(ms), within.start, within.end)
    requires DocCands(buf, ms, within, p).Ok?
    ensures var cs, r := DocCands(buf, ms, within, p).value, CollectMembers(buf, ms, within, 1, p, out);
            && Spaced(cs, lo, within.end) && JsonCands(cs)
            && Adds(out, r, p, lo, within.end) && Laminar(cs, r[|out|..])
    decreases |ms|
  {
    hide MemberCands, CollectMember;
    CollectMembersAdds(buf, ms, within, lo, 1, p, out);
    if ms != [] {
      var m := ms[0];
      var next := CollectMember(buf, m, 1, p, out);
      var all := CollectMembers(buf, ms, within, 1, p, out);
      OrderedFrom(MemberValues(ms[1..]), within.start, m.value.span.end, within.end);
      MemberLaminar(buf, m, p, out);
      MembersLaminar(buf, ms[1..], within, m.value.span.end, p, next);
      var a, b := MemberCands(buf, m, p).value, DocCands(buf, ms[1..], within, p).value;
      var s := m.value.span;
      SpacedWidens(a, s.start, s.end, lo, s.end);
      AddsWidens(out, next, p, s.start, s.end, lo, s.end);
      AddsTwice(out, next, all, p, lo, s.end, within.end);
      LaminarConcat(a, b, next[|out|..], all[|next|..], lo, s.end, within.end);
      SpacedConcat(a, b, lo, s.end, within.end);
    }
  }

  // ---------- Sorting ----------

  predicate KeyLe(a: Cand, b: Cand) {
    a.span.start < b.span.start || (a.span.start == b.span.start && a.span.end <= b.span.end)
  }

  ghost predicate Sorted(cs: seq<Cand>) {
    forall i, j :: 0 <= i < j < |cs| ==> KeyLe(cs[i], cs[j])
  }

  function Inserted(r: seq<Cand>, c: Cand): seq<Cand> {
    if r == [] || !KeyLe(r[|r| - 1], c) then
      if r == [] then [c] else Inserted(r[..|r| - 1], c) + [r[|r| - 1]]
    else r + [c]
  }

  lemma {:induction false} InsertedSorted(r: seq<Cand>, c: Cand)
    requires Sorted(r)
    ensures multiset(Inserted(r, c)) == multiset(r) + multiset{c} && Sorted(Inserted(r, c))
  {
    if r != [] && !KeyLe(r[|r| - 1], c) {
      var init, last := r[..|r| - 1], r[|r| - 1];
      assert r == init + [last];
      InsertedSorted(init, c);
      var s := Inserted(init, c);
      forall i | 0 <= i < |s| ensures KeyLe(s[i], last) {
        assert s[i] in multiset(s);
        if s[i] != c {
          assert s[i] in init;
        }
      }
    }
  }

  // The library sort: any stable sort by (start, end) gives this.
  method SortByKey(cs: seq<Cand>) returns (r: seq<Cand>)
    ensures multiset(r) == multiset(cs) && Sorted(r)
  {
    r := [];
    for k := 0 to |cs|
      invariant multiset(r) == multiset(cs[..k]) && Sorted(r)
    {
      assert cs[..k + 1] == cs[..k] + [cs[k]];
      InsertedSorted(r, cs[k]);
      r := Inserted(r, cs[k]);
    }
    assert cs[..|cs|] == cs;
  }

  lemma SortedHead(r: seq<Cand>, cs: seq<Cand>, lo: nat, hi: nat)
    requires cs != [] && r != [] && multiset(r) == multiset(cs) && Sorted(r) && Spaced(cs, lo, hi)
    ensures r[0] == cs[0]
  {
    var c := cs[0];
    assert c in multiset(r) && r[0] in multiset(cs);
    var k :| 0 <= k < |r| && r[k] == c;
    assert k > 0 ==> KeyLe(r[0], r[k]);
    if r[0] != c {
      assert cs == [c] + cs[1..];
      SpacedMember(cs[1..], c.span.end, hi, r[0]);
    }
  }

  // Candidates apart from each other have only one order.
  lemma {:induction false} SortedIsUnique(r: seq<Cand>, cs: seq<Cand>, lo: nat, hi: nat)
    requires multiset(r) == multiset(cs) && Sorted(r) && Spaced(cs, lo, hi)
    ensures r == cs
    decreases |cs|
  {
    hide KeyLe;
    assert |r| == |multiset(r)| == |multiset(cs)| == |cs|;
    if cs != [] {
      SortedHead(r, cs, lo, hi);
      assert r == [r[0]] + r[1..] && cs == [cs[0]] + cs[1..];
      assert multiset(r[1..]) == multiset(r) - multiset{r[0]};
      assert multiset(cs[1..]) == multiset(cs) - multiset{r[0]};
      SortedIsUnique(r[1..], cs[1..], cs[0].span.end, hi);
    }
  }

  // ---------- Payloads become children or groups of their own ----------

  function Alone(c: Cand): Group { Group(c, []) }

  function AloneAll(cs: seq<Cand>): seq<Group> {
    if cs == [] then [] else [Alone(cs[0])] + AloneAll(cs[1..])
  }

  predicate Encloses(g: Cand, c: Cand) {
    g.span.start <= c.span.start && c.span.end <= g.span.end
  }

  datatype Assigned = Assigned(groups: seq<Group>, promoted: seq<Cand>)

  // Hand each payload to the group that holds it, moving along the groups.
  function Assign(gs: seq<Group>, ps: seq<Cand>): Assigned
    decreases |gs| + |ps|
  {
    if gs == [] || ps == [] then Assigned(gs, ps)
    else if gs[0].cand.span.end <= ps[0].span.start then
      var a := Assign(gs[1..], ps);
      Assigned([gs[0]] + a.groups, a.promoted)
    else if Encloses(gs[0].cand, ps[0]) then
      Assign([gs[0].(children := gs[0].children + [ps[0]])] + gs[1..], ps[1..])
    else
      var a := Assign(gs, ps[1..]);
      Assigned(a.groups, [ps[0]] + a.promoted)
  }

  // Groups and promoted payloads in one document order.
  function Merge(gs: seq<Group>, ps: seq<Cand>): seq<Group>
    decreases |gs| + |ps|
  {
    if gs == [] then AloneAll(ps)
    else if ps == [] then gs
    else if gs[0].cand.span.start <= ps[0].span.start then [gs[0]] + Merge(gs[1..], ps)
    else [Alone(ps[0])] + Merge(gs, ps[1..])
  }

  // The groups of a document; none when a level cannot be scanned.
  function Groups(buf: Bytes, doc: Span, p: Policy): seq<Group>
    requires InBounds(doc, buf)
  {
    var ms := Members(buf, doc);
    if ms.Err? then []
    else
      OrderedFrom(MemberValues(ms.value), doc.start, doc.start + 1, doc.end);
      var cs := DocCands(buf, ms.value, doc, p);
      if cs.Err? then []
      else
        var a := Assign(AloneAll(cs.value), Collect(buf, ValueSpan(doc, KObject), 0, p, []));
        Merge(a.groups, a.promoted)
  }

  method AssignPayloads(cands: seq<Cand>, payloads: seq<Cand>) returns (groups: seq<Group>, promoted: seq<Cand>)
    ensures Assigned(groups, promoted) == Assign(AloneAll(cands), payloads)
  {
    groups := AloneAll(cands);
    promoted := [];
    var gi := 0;
    ghost var goal := Assign(groups, payloads);
    assert groups[..0] + goal.groups == goal.groups && promoted + goal.promoted == goal.promoted;
    for k := 0 to |payloads|
      invariant gi <= |groups|
      invariant var a := Assign(groups[gi..], payloads[k..]);
                goal == Assigned(groups[..gi] + a.groups, promoted + a.promoted)
    {
      var pl := payloads[k];
      assert payloads[k..][0] == pl && payloads[k..][1..] == payloads[k + 1..];
      while gi < |groups| && groups[gi].cand.span.end <= pl.span.start
        invariant gi <= |groups|
        invariant var a := Assign(groups[gi..], payloads[k..]);
                  goal == Assigned(groups[..gi] + a.groups, promoted + a.promoted)
      {
        AssignSkips(groups, gi, payloads[k..]);
        gi := gi + 1;
      }
      if gi < |groups| && groups[gi].cand.span.start <= pl.span.start && groups[gi].cand.span.end >= pl.span.end {
        AssignTakes(groups, gi, payloads[k..]);
        groups := groups[gi := groups[gi].(children := groups[gi].children + [pl])];
      } else {
        AssignPromotes(groups, gi, payloads[k..], promoted);
        promoted := promoted + [pl];
      }
    }
    assert groups[..gi] + groups[gi..] == groups;
  }

  lemma {:induction false} AssignSkips(groups: seq<Group>, gi: nat, ps: seq<Cand>)
    requires gi < |groups| && ps != [] && groups[gi].cand.span.end <= ps[0].span.start
    ensures var a, b := Assign(groups[gi..], ps), Assign(groups[gi + 1..], ps);
            groups[..gi] + a.groups == groups[..gi + 1] + b.groups && a.promoted == b.promoted
  {
    assert groups[gi..][0] == groups[gi] && groups[gi..][1..] == groups[gi + 1..];
    assert groups[..gi + 1] == groups[..gi] + [groups[gi]];
  }

  lemma {:induction false} AssignTakes(groups: seq<Group>, gi: nat, ps: seq<Cand>)
    requires gi < |groups| && ps != [] && groups[gi].cand.span.end > ps[0].span.start
    requires Encloses(groups[gi].cand, ps[0])
    ensures var g := groups[gi].(children := groups[gi].children + [ps[0]]);
            && Assign(groups[gi..], ps) == Assign(groups[gi := g][gi..], ps[1..])
            && groups[gi := g][..gi] == groups[..gi]
  {
    var g := groups[gi].(children := groups[gi].children + [ps[0]]);
    assert groups[gi..][0] == groups[gi] && groups[gi..][1..] == groups[gi + 1..];
    assert groups[gi := g][gi..] == [g] + groups[gi + 1..];
  }

  lemma {:induction false} AssignPromotes(groups: seq<Group>, gi: nat, ps: seq<Cand>, promoted: seq<Cand>)
    requires gi <= |groups| && ps != []
    requires gi < |groups| ==> groups[gi].cand.span.end > ps[0].span.start && !Encloses(groups[gi].cand, ps[0])
    ensures var a, b := Assign(groups[gi..], ps), Assign(groups[gi..], ps[1..]);
            a.groups == b.groups && promoted + a.promoted == promoted + [ps[0]] + b.promoted
  {
    var a, b := Assign(groups[gi..], ps), Assign(groups[gi..], ps[1..]);
    if gi == |groups| {
      assert a.promoted == ps && b.promoted == ps[1..] && ps == [ps[0]] + ps[1..];
    }
    assert a.promoted == [ps[0]] + b.promoted;
  }

  lemma {:induction false} MergeGroupFirst(groups: seq<Group>, i: nat, ps: seq<Cand>)
    requires i < |groups| && (ps != [] ==> groups[i].cand.span.start <= ps[0].span.start)
    ensures Merge(groups[i..], ps) == [groups[i]] + Merge(groups[i + 1..], ps)
  {
    assert groups[i..][0] == groups[i] && groups[i..][1..] == groups[i + 1..];
    assert groups[i..] == [groups[i]] + groups[i + 1..];
    assert AloneAll([]) == [];
  }

  lemma {:induction false} MergePayloadFirst(gs: seq<Group>, ps: seq<Cand>, j: nat)
    requires j < |ps| && (gs != [] ==> gs[0].cand.span.start > ps[j].span.start)
    ensures Merge(gs, ps[j..]) == [Alone(ps[j])] + Merge(gs, ps[j + 1..])
  {
    assert ps[j..][0] == ps[j] && ps[j..][1..] == ps[j + 1..];
    assert AloneAll([]) == [];
  }

  method MergeGroups(groups: seq<Group>, promoted: seq<Cand>) returns (out: seq<Group>)
    ensures out == Merge(groups, promoted)
  {
    hide Merge;
    out := [];
    var i, j := 0, 0;
    assert groups[0..] == groups && promoted[0..] == promoted;
    while i < |groups| || j < |promoted|
      invariant i <= |groups| && j <= |promoted|
      invariant out + Merge(groups[i..], promoted[j..]) == Merge(groups, promoted)
      decreases |groups| - i + |promoted| - j
    {
      if j == |promoted| || (i < |groups| && groups[i].cand.span.start <= promoted[j].span.start) {
        MergeGroupFirst(groups, i, promoted[j..]);
        out := out + [groups[i]];
        i := i + 1;
      } else {
        MergePayloadFirst(groups[i..], promoted, j);
        out := out + [Alone(promoted[j])];
        j := j + 1;
      }
    }
    assert groups[i..] == [] && promoted[j..] == [];
    MergeNil(groups[i..]);
  }

  lemma MergeNil(gs: seq<Group>)
    ensures Merge(gs, []) == gs
  {
  }

  // One member's candidates, kept apart by where they are gathered.
  method CandsOfMember(buf: Bytes, m: Member, p: Policy, cands: seq<Cand>, scratch: seq<Cand>)
    returns (r: Result<(seq<Cand>, seq<Cand>), Skip>)
    requires InBounds(m.value.span, buf)
    ensures r.Ok? <==> MemberCands(buf, m, p).Ok?
    ensures r.Ok? ==> multiset(r.value.0) + multiset(r.value.1) ==
                      multiset(cands) + multiset(scratch) + multiset(MemberCands(buf, m, p).value)
    ensures r.Err? ==> r.error == Unrecognised
  {
    hide Elements;
    var history := m.key in ARRAY_MEMBER_KEYS;
    if history && m.value.kind != KArray {
      return Ok((cands, scratch));
    }
    if history {
      var es := ElementsOfArray(buf, m.value.span);
      if es.Err? {
        return Err(Unrecognised);
      }
      return Ok((cands, scratch + ElementCands(es.value, p.minHistoryBlockBytes)));
    }
    if m.key in WHOLE_VALUE_KEYS && SpanLen(m.value.span) >= p.minBlockBytes {
      return Ok((cands + [Cand(m.value.span, JsonMember, p.minBlockBytes)], scratch));
    }
    return Ok((cands, scratch));
  }

  method CandsOfDocument(buf: Bytes, ms: seq<Member>, within: Span, p: Policy) returns (r: Result<seq<Cand>, Skip>)
    requires InBounds(within, buf) && Ordered(MemberValues(ms), within.start, within.end)
    ensures r.Ok? <==> DocCands(buf, ms, within, p).Ok?
    ensures r.Ok? ==> r.value == DocCands(buf, ms, within, p).value
    ensures r.Err? ==> r.error == Unrecognised
  {
    hide MemberCands;
    var cands, scratch: seq<Cand> := [], [];
    ghost var goal := DocCands(buf, ms, within, p);
    for k := 0 to |ms|
      invariant Ordered(MemberValues(ms[k..]), within.start, within.end)
      invariant goal.Err? <==> DocCands(buf, ms[k..], within, p).Err?
      invariant goal.Ok? ==> multiset(goal.value) == multiset(cands) + multiset(scratch)
                                                     + multiset(DocCands(buf, ms[k..], within, p).value)
    {
      var m := ms[k];
      assert ms[k..][0] == m && ms[k..][1..] == ms[k + 1..];
      OrderedFrom(MemberValues(ms[k + 1..]), within.start, m.value.span.end, within.end);
      var next := CandsOfMember(buf, m, p, cands, scratch);
      if next.Err? {
        return Err(Unrecognised);
      }
      cands, scratch := next.value.0, next.value.1;
    }
    assert multiset(goal.value) == multiset(cands + scratch);
    cands := SortByKey(cands + scratch);
    MembersLaminar(buf, ms, within, within.start, p, []);
    SortedIsUnique(cands, goal.value, within.start, within.end);
    return Ok(cands);
  }

  method StructuralGroups(buf: Bytes, doc: Span, p: Policy) returns (r: Result<seq<Group>, Skip>)
    requires InBounds(doc, buf)
    ensures (if r.Ok? then r.value else []) == Groups(buf, doc, p)
    ensures r.Err? ==> r.error == Unrecognised
  {
    hide Members, DocCands, Collect, Assign, Merge;
    var ms := MembersOfObject(buf, doc);
    if ms.Err? {
      return Err(Unrecognised);
    }
    OrderedFrom(MemberValues(ms.value), doc.start, doc.start + 1, doc.end);
    var cands := CandsOfDocument(buf, ms.value, doc, p);
    if cands.Err? {
      return Err(Unrecognised);
    }
    var payloads := CollectPayloads(buf, ValueSpan(doc, KObject), 0, p, []);
    var groups, promoted := AssignPayloads(cands.value, payloads);
    if promoted == [] {
      MergeNil(groups);
      return Ok(groups);
    }
    var out := MergeGroups(groups, promoted);
    return Ok(out);
  }
}

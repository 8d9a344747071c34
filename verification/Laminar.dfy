// The groups of a document, said without the moving index: which payloads end
// up where, that groups come out apart and in order, and that the builder
// skips none of them.

module LaminarGroups {
  import opened Results
  import opened Blocks
  import opened Policies
  import opened Scan
  import opened Grouping
  import Programs
  import Splitter

  function CandsOf(gs: seq<Group>): seq<Cand> {
    if gs == [] then [] else [gs[0].cand] + CandsOf(gs[1..])
  }

  // The payloads inside one candidate, in order.
  function Inside(g: Cand, ps: seq<Cand>): seq<Cand> {
    if ps == [] then [] else (if Encloses(g, ps[0]) then [ps[0]] else []) + Inside(g, ps[1..])
  }

  // The payloads inside none of the candidates, in order.
  function Outside(gs: seq<Cand>, ps: seq<Cand>): seq<Cand> {
    if ps == [] then []
    else (if exists g :: g in gs && Encloses(g, ps[0]) then [] else [ps[0]]) + Outside(gs, ps[1..])
  }

  // Every group with the payloads inside it appended to its children.
  function Filled(gs: seq<Group>, ps: seq<Cand>): seq<Group> {
    if gs == [] then []
    else [gs[0].(children := gs[0].children + Inside(gs[0].cand, ps))] + Filled(gs[1..], ps)
  }

  lemma {:induction false} InsideNone(g: Cand, ps: seq<Cand>)
    requires forall c :: c in ps ==> !Encloses(g, c)
    ensures Inside(g, ps) == []
  {
    if ps != [] {
      assert ps[0] in ps;
      InsideNone(g, ps[1..]);
    }
  }

  lemma {:induction false} FilledNone(gs: seq<Group>)
    ensures Filled(gs, []) == gs
  {
    if gs != [] {
      FilledNone(gs[1..]);
      assert gs[0].children + Inside(gs[0].cand, []) == gs[0].children;
      assert gs == [gs[0]] + gs[1..];
    }
  }

  lemma {:induction false} CandsOfMember(gs: seq<Group>, g: Group)
    requires g in gs
    ensures g.cand in CandsOf(gs)
  {
    if g != gs[0] {
      CandsOfMember(gs[1..], g);
    }
  }

  // A payload that no group encloses changes no group.
  lemma {:induction false} FilledSkips(gs: seq<Group>, ps: seq<Cand>)
    requires ps != [] && forall g :: g in CandsOf(gs) ==> !Encloses(g, ps[0])
    ensures Filled(gs, ps) == Filled(gs, ps[1..])
  {
    if gs != [] {
      assert CandsOf(gs) == [gs[0].cand] + CandsOf(gs[1..]);
      assert !Encloses(gs[0].cand, ps[0]);
      assert Inside(gs[0].cand, ps) == Inside(gs[0].cand, ps[1..]);
      FilledSkips(gs[1..], ps);
    }
  }

  lemma {:induction false} OutsideDrops(g: Cand, gs: seq<Cand>, ps: seq<Cand>)
    requires forall c :: c in ps ==> !Encloses(g, c)
    ensures Outside([g] + gs, ps) == Outside(gs, ps)
  {
    if ps != [] {
      assert ps[0] in ps;
      OutsideDrops(g, gs, ps[1..]);
      assert forall h :: h in [g] + gs <==> h == g || h in gs;
    }
  }

  lemma {:induction false} OutsideNothing(ps: seq<Cand>)
    ensures Outside([], ps) == ps
  {
    if ps != [] {
      OutsideNothing(ps[1..]);
      assert ps == [ps[0]] + ps[1..];
    }
  }

  // Candidates apart from each other: what starts after the end of one is in none before it.
  lemma EnclosesNoneBefore(g: Cand, ps: seq<Cand>, lo: nat, hi: nat)
    requires Spaced(ps, lo, hi) && g.span.end <= lo
    ensures forall c :: c in ps ==> !Encloses(g, c)
  {
    forall c | c in ps ensures !Encloses(g, c) {
      SpacedMember(ps, lo, hi, c);
    }
  }

  lemma EnclosedByNoneAfter(gs: seq<Cand>, c: Cand, lo: nat, hi: nat)
    requires Spaced(gs, lo, hi) && c.span.start < lo
    ensures forall g :: g in gs ==> !Encloses(g, c)
  {
    forall g | g in gs ensures !Encloses(g, c) {
      SpacedMember(gs, lo, hi, g);
    }
  }

  lemma SpacedTail(cs: seq<Cand>, lo: nat, hi: nat)
    requires cs != [] && Spaced(cs, lo, hi)
    ensures Spaced(cs, cs[0].span.start, hi) && Spaced(cs[1..], cs[0].span.end, hi)
  {
  }

  // The single pass along the groups gives each payload to the one candidate
  // enclosing it and promotes the rest, as if every pair had been compared.
  lemma {:induction false} AssignIsEnclosure(gs: seq<Group>, ps: seq<Cand>, lo: nat, lo': nat, hi: nat)
    requires Spaced(CandsOf(gs), lo, hi) && Spaced(ps, lo', hi) && Laminar(CandsOf(gs), ps)
    ensures Assign(gs, ps) == Assigned(Filled(gs, ps), Outside(CandsOf(gs), ps))
    decreases |gs| + |ps|
  {
    hide Spaced, Encloses;
    if gs == [] {
      OutsideNothing(ps);
    } else if ps == [] {
      FilledNone(gs);
    } else {
      AssignStep(gs, ps, lo, lo', hi);
    }
  }

  lemma {:induction false} AssignStep(gs: seq<Group>, ps: seq<Cand>, lo: nat, lo': nat, hi: nat)
    requires gs != [] && ps != []
    requires Spaced(CandsOf(gs), lo, hi) && Spaced(ps, lo', hi) && Laminar(CandsOf(gs), ps)
    ensures Assign(gs, ps) == Assigned(Filled(gs, ps), Outside(CandsOf(gs), ps))
    decreases |gs| + |ps|, 0
  {
    var g, c, cs := gs[0].cand, ps[0], CandsOf(gs);
    assert cs == [g] + CandsOf(gs[1..]) && cs[1..] == CandsOf(gs[1..]);
    SpacedTail(cs, lo, hi);
    SpacedTail(ps, lo', hi);
    assert g in cs && c in ps;
    assert forall x :: x in ps[1..] ==> x in ps;
    assert forall x :: x in cs[1..] ==> x in cs;
    if g.span.end <= c.span.start {
      EnclosesNoneBefore(g, ps, c.span.start, hi);
      InsideNone(g, ps);
      OutsideDrops(g, cs[1..], ps);
      assert gs[0].(children := gs[0].children + []) == gs[0];
      AssignIsEnclosure(gs[1..], ps, g.span.end, lo', hi);
    } else if Encloses(gs[0].cand, c) {
      EnclosedByNoneAfter(cs[1..], c, g.span.end, hi);
      FilledSkips(gs[1..], ps);
      TakeStep(gs, ps);
      var h := gs[0].(children := gs[0].children + [c]);
      assert ([h] + gs[1..])[1..] == gs[1..];
      AssignIsEnclosure([h] + gs[1..], ps[1..], lo, c.span.end, hi);
    } else {
      assert NestedOrApart(g, c);
      EnclosedByNoneAfter(cs, c, g.span.start, hi);
      FilledSkips(gs, ps);
      AssignIsEnclosure(gs, ps[1..], lo, c.span.end, hi);
    }
  }

  lemma {:induction false} TakeStep(gs: seq<Group>, ps: seq<Cand>)
    requires gs != [] && ps != [] && Encloses(gs[0].cand, ps[0])
    requires Filled(gs[1..], ps) == Filled(gs[1..], ps[1..])
    ensures var h := gs[0].(children := gs[0].children + [ps[0]]);
            && Filled(gs, ps) == Filled([h] + gs[1..], ps[1..])
            && Outside(CandsOf(gs), ps) == Outside(CandsOf([h] + gs[1..]), ps[1..])
  {
    var h := gs[0].(children := gs[0].children + [ps[0]]);
    var k := Inside(gs[0].cand, ps[1..]);
    assert gs[0].children + ([ps[0]] + k) == gs[0].children + [ps[0]] + k;
    assert ([h] + gs[1..])[1..] == gs[1..];
    assert gs[0].cand in CandsOf(gs);
  }

  // ---------- The merged list ----------

  ghost predicate AllApart(gs: seq<Cand>, ps: seq<Cand>) {
    forall g, c :: g in gs && c in ps ==> g.span.end <= c.span.start || c.span.end <= g.span.start
  }

  lemma {:induction false} AloneAllCands(ps: seq<Cand>)
    ensures CandsOf(AloneAll(ps)) == ps
  {
    if ps != [] {
      AloneAllCands(ps[1..]);
      assert AloneAll(ps)[1..] == AloneAll(ps[1..]);
      assert ps == [ps[0]] + ps[1..];
    }
  }

  lemma ApartTails(gs: seq<Cand>, ps: seq<Cand>)
    requires AllApart(gs, ps)
    ensures gs != [] ==> AllApart(gs[1..], ps)
    ensures ps != [] ==> AllApart(gs, ps[1..])
    ensures gs != [] && ps != [] ==>
              gs[0].span.end <= ps[0].span.start || ps[0].span.end <= gs[0].span.start
  {
    assert gs != [] && ps != [] ==> gs[0] in gs && ps[0] in ps;
  }

  lemma SpacedCons(g: Group, rest: seq<Group>, lo: nat, hi: nat)
    requires lo <= g.cand.span.start < g.cand.span.end <= hi && Spaced(CandsOf(rest), g.cand.span.end, hi)
    ensures Spaced(CandsOf([g] + rest), lo, hi)
  {
    assert ([g] + rest)[1..] == rest;
    assert CandsOf([g] + rest)[1..] == CandsOf(rest);
  }

  lemma SpacedHead(cs: seq<Cand>, lo: nat, hi: nat)
    requires cs != [] && Spaced(cs, lo, hi)
    ensures lo <= cs[0].span.start < cs[0].span.end <= hi
    ensures Spaced(cs[1..], cs[0].span.end, hi)
  {
  }

  lemma {:induction false} MergeSpaced(gs: seq<Group>, ps: seq<Cand>, lo: nat, hi: nat)
    requires Spaced(CandsOf(gs), lo, hi) && Spaced(ps, lo, hi) && AllApart(CandsOf(gs), ps)
    ensures Spaced(CandsOf(Merge(gs, ps)), lo, hi)
    decreases |gs| + |ps|
  {
    hide Spaced, AllApart;
    if gs == [] {
      AloneAllCands(ps);
    } else if ps != [] {
      var g, c, cs := gs[0].cand, ps[0], CandsOf(gs);
      assert cs[0] == g && cs[1..] == CandsOf(gs[1..]);
      ApartTails(cs, ps);
      SpacedHead(cs, lo, hi);
      SpacedHead(ps, lo, hi);
      if g.span.start <= c.span.start {
        SpacedLater(ps, lo, g.span.end, hi);
        MergeSpaced(gs[1..], ps, g.span.end, hi);
        SpacedCons(gs[0], Merge(gs[1..], ps), lo, hi);
      } else {
        SpacedLater(cs, lo, c.span.end, hi);
        MergeSpaced(gs, ps[1..], c.span.end, hi);
        SpacedCons(Alone(c), Merge(gs, ps[1..]), lo, hi);
      }
    }
  }

  lemma {:induction false} MergeKeepsAll(gs: seq<Group>, ps: seq<Cand>)
    ensures multiset(Merge(gs, ps)) == multiset(gs) + multiset(AloneAll(ps))
    decreases |gs| + |ps|
  {
    if gs != [] && ps != [] {
      assert gs == [gs[0]] + gs[1..];
      assert AloneAll(ps) == [Alone(ps[0])] + AloneAll(ps[1..]);
      if gs[0].cand.span.start <= ps[0].span.start {
        MergeKeepsAll(gs[1..], ps);
      } else {
        MergeKeepsAll(gs, ps[1..]);
      }
    }
  }

  lemma SpacedLater(cs: seq<Cand>, lo: nat, lo': nat, hi: nat)
    requires cs != [] && Spaced(cs, lo, hi) && lo' <= cs[0].span.start
    ensures Spaced(cs, lo', hi)
  {
  }

  lemma {:induction false} OutsideKeeps(gs: seq<Cand>, ps: seq<Cand>, lo: nat, hi: nat)
    requires Spaced(ps, lo, hi)
    ensures Spaced(Outside(gs, ps), lo, hi)
    ensures forall c :: c in Outside(gs, ps) <==> c in ps && forall g :: g in gs ==> !Encloses(g, c)
    decreases |ps|
  {
    if ps != [] {
      var c, rest := ps[0], Outside(gs, ps[1..]);
      OutsideKeeps(gs, ps[1..], c.span.end, hi);
      assert ps == [c] + ps[1..];
      if exists g :: g in gs && Encloses(g, c) {
        assert Outside(gs, ps) == rest;
        SpacedWidens(rest, c.span.end, hi, lo, hi);
      } else {
        assert Outside(gs, ps) == [c] + rest && ([c] + rest)[1..] == rest;
      }
    }
  }

  lemma {:induction false} InsideKeeps(g: Cand, ps: seq<Cand>, lo: nat, hi: nat)
    requires Spaced(ps, lo, hi)
    ensures forall c :: c in Inside(g, ps) <==> c in ps && Encloses(g, c)
    ensures Inside(g, ps) != [] ==>
              Spaced(Inside(g, ps), if lo < g.span.start then g.span.start else lo, g.span.end)
    decreases |ps|
  {
    if ps != [] {
      var c, rest := ps[0], Inside(g, ps[1..]);
      InsideKeeps(g, ps[1..], c.span.end, hi);
      assert ps == [c] + ps[1..];
      if Encloses(g, c) {
        assert Inside(g, ps) == [c] + rest && ([c] + rest)[1..] == rest;
      } else {
        assert Inside(g, ps) == rest;
        if rest != [] {
          SpacedFloor(rest, c.span.end, lo, g);
        }
      }
    }
  }

  lemma SpacedFloor(cs: seq<Cand>, lo: nat, lo': nat, g: Cand)
    requires cs != [] && lo' <= lo && Spaced(cs, if lo < g.span.start then g.span.start else lo, g.span.end)
    ensures Spaced(cs, if lo' < g.span.start then g.span.start else lo', g.span.end)
  {
  }

  lemma {:induction false} FilledCands(gs: seq<Group>, ps: seq<Cand>)
    ensures CandsOf(Filled(gs, ps)) == CandsOf(gs)
  {
    if gs != [] {
      FilledCands(gs[1..], ps);
      assert Filled(gs, ps)[1..] == Filled(gs[1..], ps);
    }
  }

  lemma {:induction false} FilledMember(cs: seq<Cand>, ps: seq<Cand>, g: Group)
    ensures g in Filled(AloneAll(cs), ps) <==> g.cand in cs && g.children == Inside(g.cand, ps)
  {
    if cs != [] {
      assert AloneAll(cs)[1..] == AloneAll(cs[1..]);
      FilledMember(cs[1..], ps, g);
      assert [] + Inside(cs[0], ps) == Inside(cs[0], ps);
    }
  }

  lemma {:induction false} AloneMember(ps: seq<Cand>, g: Group)
    ensures g in AloneAll(ps) <==> g.cand in ps && g.children == []
  {
    if ps != [] {
      AloneMember(ps[1..], g);
    }
  }

  // ---------- The groups of a document ----------

  // The candidates and the payloads found in a document.
  ghost predicate Found(buf: Bytes, doc: Span, p: Policy, cs: seq<Cand>, ps: seq<Cand>)
    requires InBounds(doc, buf)
  {
    && Members(buf, doc).Ok?
    && Ordered(MemberValues(Members(buf, doc).value), doc.start, doc.end)
    && DocCands(buf, Members(buf, doc).value, doc, p) == Ok(cs)
    && ps == Collect(buf, ValueSpan(doc, KObject), 0, p, [])
  }

  lemma FoundLaminar(buf: Bytes, doc: Span, p: Policy, cs: seq<Cand>, ps: seq<Cand>)
    requires InBounds(doc, buf) && Found(buf, doc, p, cs, ps)
    ensures Spaced(cs, doc.start, doc.end) && JsonCands(cs)
    ensures Adds([], ps, p, doc.start, doc.end) && Laminar(cs, ps)
    ensures Groups(buf, doc, p) == Merge(Assign(AloneAll(cs), ps).groups, Assign(AloneAll(cs), ps).promoted)
  {
    hide Collect, CollectMembers, DocCands, Merge, Assign, Adds;
    var ms := Members(buf, doc).value;
    OrderedFrom(MemberValues(ms), doc.start, doc.start, doc.end);
    MembersLaminar(buf, ms, doc, doc.start, p, []);
    CollectDocument(buf, doc, p);
    if ps != [] {
      assert ps[0..] == ps;
    } else {
      AddsNothing([], p, doc.start, doc.end);
    }
  }

  lemma CollectDocument(buf: Bytes, doc: Span, p: Policy)
    requires InBounds(doc, buf) && Members(buf, doc).Ok?
    ensures var ms := Members(buf, doc).value;
            && Ordered(MemberValues(ms), doc.start, doc.end)
            && Collect(buf, ValueSpan(doc, KObject), 0, p, []) == CollectMembers(buf, ms, doc, 1, p, [])
  {
    hide CollectMembers;
    OrderedFrom(MemberValues(Members(buf, doc).value), doc.start, doc.start + 1, doc.end);
  }

  // A group as the builder wants it: room for every child, none too short.
  ghost predicate Ready(buf: Bytes, g: Group) {
    && Splitter.GroupShape(buf, g.cand, g.children) && Splitter.TwoLevel(g.cand, g.children)
    && SpanLen(g.cand.span) >= g.cand.floor
    && Spaced(g.children, g.cand.span.start, g.cand.span.end)
    && forall c :: c in g.children ==> SpanLen(c.span) >= c.floor
  }

  // Laminar grouping. The groups are in document order and disjoint; each
  // candidate found is the head of one group whose children are exactly the
  // payloads inside it; each payload inside no candidate is a group of its own;
  // there is nothing else; and every group is ready for the builder.
  lemma GroupsAreLaminar(buf: Bytes, doc: Span, p: Policy, cs: seq<Cand>, ps: seq<Cand>)
    requires InBounds(doc, buf) && Found(buf, doc, p, cs, ps)
    ensures var gs := Groups(buf, doc, p);
            && Spaced(CandsOf(gs), doc.start, doc.end)
            && multiset(gs) == multiset(Filled(AloneAll(cs), ps)) + multiset(AloneAll(Outside(cs, ps)))
            && (forall g :: g in gs <==> (g.cand in cs && g.children == Inside(g.cand, ps))
                                         || (g.cand in Outside(cs, ps) && g.children == []))
            && forall g :: g in gs ==> Ready(buf, g)
  {
    hide *;
    FoundLaminar(buf, doc, p, cs, ps);
    SpacedPayloads(ps, p, doc);
    AloneAllCands(cs);
    AssignIsEnclosure(AloneAll(cs), ps, doc.start, doc.start, doc.end);
    var fs, os, gs := Filled(AloneAll(cs), ps), Outside(cs, ps), Groups(buf, doc, p);
    FilledCands(AloneAll(cs), ps);
    PromotedApart(cs, ps, doc.start, doc.end);
    MergeSpaced(fs, os, doc.start, doc.end);
    MergeKeepsAll(fs, os);
    forall g
      ensures g in gs <==> (g.cand in cs && g.children == Inside(g.cand, ps)) || (g.cand in os && g.children == [])
    {
      MergedMember(cs, ps, os, g);
    }
    forall g | g in gs ensures Ready(buf, g) {
      AllReady(buf, doc, p, cs, ps, g);
    }
  }

  lemma SpacedPayloads(ps: seq<Cand>, p: Policy, doc: Span)
    requires Adds([], ps, p, doc.start, doc.end)
    ensures Spaced(ps, doc.start, doc.end)
  {
    assert ps[0..] == ps;
  }

  // A promoted payload is inside no candidate, so it is apart from all of them.
  lemma PromotedApart(cs: seq<Cand>, ps: seq<Cand>, lo: nat, hi: nat)
    requires Spaced(cs, lo, hi) && Spaced(ps, lo, hi) && Laminar(cs, ps)
    ensures Spaced(Outside(cs, ps), lo, hi) && AllApart(cs, Outside(cs, ps))
  {
    OutsideKeeps(cs, ps, lo, hi);
    forall g, c | g in cs && c in Outside(cs, ps)
      ensures g.span.end <= c.span.start || c.span.end <= g.span.start
    {
      assert NestedOrApart(g, c) && !Encloses(g, c);
    }
  }

  lemma MergedMember(cs: seq<Cand>, ps: seq<Cand>, os: seq<Cand>, g: Group)
    ensures g in Merge(Filled(AloneAll(cs), ps), os) <==>
            (g.cand in cs && g.children == Inside(g.cand, ps)) || (g.cand in os && g.children == [])
  {
    var fs := Filled(AloneAll(cs), ps);
    MergeKeepsAll(fs, os);
    assert g in Merge(fs, os) <==> g in multiset(Merge(fs, os));
    FilledMember(cs, ps, g);
    AloneMember(os, g);
  }

  lemma AllReady(buf: Bytes, doc: Span, p: Policy, cs: seq<Cand>, ps: seq<Cand>, g: Group)
    requires InBounds(doc, buf) && Spaced(cs, doc.start, doc.end) && JsonCands(cs)
    requires Adds([], ps, p, doc.start, doc.end)
    requires (g.cand in cs && g.children == Inside(g.cand, ps)) || (g.cand in Outside(cs, ps) && g.children == [])
    ensures Ready(buf, g)
  {
    assert ps[0..] == ps;
    OutsideKeeps(cs, ps, doc.start, doc.end);
    if g.cand in cs {
      SpacedMember(cs, doc.start, doc.end, g.cand);
    } else {
      SpacedMember(ps, doc.start, doc.end, g.cand);
    }
    InsideKeeps(g.cand, ps, doc.start, doc.end);
  }

  // ---------- None is skipped ----------

  function DigestOf(body: Bytes, c: Cand): Digest
    requires InBounds(c.span, body)
  {
    Digest(c.kind, Slice(c.span, body))
  }

  ghost predicate AllIn(body: Bytes, cs: seq<Cand>) {
    forall c :: c in cs ==> InBounds(c.span, body)
  }

  function DigestsOf(body: Bytes, cs: seq<Cand>): seq<Digest>
    requires AllIn(body, cs)
  {
    if cs == [] then []
    else
      assert forall c :: c in cs[1..] ==> c in cs;
      [DigestOf(body, cs[0])] + DigestsOf(body, cs[1..])
  }

  lemma {:induction false} RefsConcat(a: seq<Instr>, b: seq<Instr>)
    ensures Programs.RefsOf(a + b) == Programs.RefsOf(a) + Programs.RefsOf(b)
  {
    if a == [] {
      assert a + b == b;
    } else {
      assert (a + b)[1..] == a[1..] + b && (a + b)[0] == a[0];
      RefsConcat(a[1..], b);
      var lead := if a[0].Ref? then [a[0].digest] else [];
      var x, y := Programs.RefsOf(a[1..]), Programs.RefsOf(b);
      assert lead + (x + y) == lead + x + y;
    }
  }

  lemma RefsOfOne(i: Instr)
    ensures Programs.RefsOf([i]) == if i.Ref? then [i.digest] else []
  {
    assert Programs.RefsOf([i][1..]) == [];
  }

  // Every child of a ready group becomes a reference of its block, in order.
  lemma {:induction false} EveryChildCut(body: Bytes, pos: nat, end: nat, inner: seq<Cand>)
    requires pos <= end <= |body| < ALLOC_LIMIT && Spaced(inner, pos, end) && AllIn(body, inner)
    requires forall c :: c in inner ==> SpanLen(c.span) >= c.floor
    ensures Programs.RefsOf(Splitter.InnerProgram(body, pos, end, inner)) == DigestsOf(body, inner)
    decreases |inner|
  {
    if inner == [] {
      RefsOfOne(Lit(body[pos..end]));
    } else {
      var c, rest := inner[0], inner[1..];
      assert c in inner;
      assert forall x :: x in rest ==> x in inner;
      SpacedTail(inner, pos, end);
      SpacedEnd(rest, c.span.end, end);
      EveryChildCut(body, c.span.end, end, rest);
      var gap: seq<Instr> := if pos < c.span.start then [Lit(body[pos..c.span.start])] else [];
      var tail := Splitter.InnerProgram(body, c.span.end, end, rest);
      var r: Instr := Ref(DigestOf(body, c), SpanLen(c.span));
      RefsOfOne(Lit(body[pos..c.span.start]));
      RefsOfOne(r);
      RefsConcat(gap, [r]);
      RefsConcat(gap + [r], tail);
    }
  }

  lemma SpacedEnd(cs: seq<Cand>, lo: nat, hi: nat)
    requires Spaced(cs, lo, hi)
    ensures lo <= hi
  {
  }

  predicate AllInBounds(body: Bytes, gs: seq<Group>) {
    forall g :: g in gs ==> InBounds(g.cand.span, body)
  }

  // All the groups of a list, referenced one after the other.
  function CoverAll(cx: Splitter.Ctx, v: Splitter.View, gs: seq<Group>): Splitter.View
    requires |cx.body| < ALLOC_LIMIT && AllInBounds(cx.body, gs)
    decreases |gs|
  {
    if gs == [] then v
    else
      assert gs[0] in gs;
      assert forall g :: g in gs[1..] ==> g in gs;
      CoverAll(cx, Splitter.ReferenceStep(cx, v, gs[0].cand, gs[0].children), gs[1..])
  }

  // Groups apart from each other between two offsets, all ready.
  ghost predicate Coverable(body: Bytes, gs: seq<Group>, lo: nat, hi: nat) {
    && hi <= |body| && Spaced(CandsOf(gs), lo, hi)
    && AllInBounds(body, gs) && AllIn(body, CandsOf(gs))
    && forall g :: g in gs ==> Ready(body, g)
  }

  lemma CoverableStep(cx: Splitter.Ctx, v: Splitter.View, gs: seq<Group>, hi: nat)
    requires |cx.body| < ALLOC_LIMIT && gs != [] && Coverable(cx.body, gs, v.pos, hi)
    ensures v.pos <= gs[0].cand.span.start && Ready(cx.body, gs[0]) && InBounds(gs[0].cand.span, cx.body)
    ensures Coverable(cx.body, gs[1..], gs[0].cand.span.end, hi) && AllIn(cx.body, CandsOf(gs[1..]))
    ensures CoverAll(cx, v, gs) == CoverAll(cx, Splitter.ReferenceStep(cx, v, gs[0].cand, gs[0].children), gs[1..])
    ensures DigestsOf(cx.body, CandsOf(gs)) == [DigestOf(cx.body, gs[0].cand)] + DigestsOf(cx.body, CandsOf(gs[1..]))
  {
    hide Ready, Splitter.ReferenceStep;
    var cs := CandsOf(gs);
    assert cs[0] == gs[0].cand && cs[1..] == CandsOf(gs[1..]);
    assert gs[0] in gs && cs[0] in cs;
    assert forall x :: x in gs[1..] ==> x in gs;
    assert forall x :: x in cs[1..] ==> x in cs;
  }

  lemma AllCovered(cx: Splitter.Ctx, v: Splitter.View)
    requires |cx.body| < ALLOC_LIMIT
    ensures CoverAll(cx, v, []) == v && DigestsOf(cx.body, CandsOf([])) == []
  {
  }

  // Nothing of a list of groups apart from each other is skipped: the program
  // gains one reference a group, in document order.
  lemma {:induction false} EveryGroupCovered(cx: Splitter.Ctx, v: Splitter.View, gs: seq<Group>, hi: nat)
    requires |cx.body| < ALLOC_LIMIT && Coverable(cx.body, gs, v.pos, hi) && Splitter.Queued(v)
    ensures Programs.RefsOf(CoverAll(cx, v, gs).instrs) == Programs.RefsOf(v.instrs) + DigestsOf(cx.body, CandsOf(gs))
    decreases |gs|
  {
    hide *;
    if gs == [] {
      AllCovered(cx, v);
      assert Programs.RefsOf(v.instrs) + [] == Programs.RefsOf(v.instrs);
    } else {
      var g := gs[0];
      CoverableStep(cx, v, gs, hi);
      GroupCovered(cx, v, g);
      EveryGroupCovered(cx, Splitter.ReferenceStep(cx, v, g.cand, g.children), gs[1..], hi);
      var a, d, ds := Programs.RefsOf(v.instrs), DigestOf(cx.body, g.cand), DigestsOf(cx.body, CandsOf(gs[1..]));
      assert a + [d] + ds == a + ([d] + ds);
    }
  }

  lemma LitRun(cx: Splitter.Ctx, v: Splitter.View, end: nat)
    requires Splitter.Queued(v) && v.pos <= end <= |cx.body|
    ensures var w := Splitter.LitStep(cx, v, end);
            Splitter.Queued(w) && w.pos == end && Programs.RefsOf(w.instrs) == Programs.RefsOf(v.instrs)
  {
    hide Splitter.Queued;
    var w := Splitter.LitStep(cx, v, end);
    QueuedApart(v, w);
    if w != v {
      RefsOfOne(w.instrs[|w.instrs| - 1]);
      RefsConcat(v.instrs, [w.instrs[|w.instrs| - 1]]);
    }
  }

  lemma ReferenceIs(cx: Splitter.Ctx, v: Splitter.View, g: Group)
    requires |cx.body| < ALLOC_LIMIT && Ready(cx.body, g) && v.pos <= g.cand.span.start
    ensures var u := Splitter.ProvideStep(cx, Splitter.LitStep(cx, v, g.cand.span.start), g.cand, g.children);
            var w := Splitter.ReferenceStep(cx, v, g.cand, g.children);
            && w == u.(instrs := w.instrs, pos := g.cand.span.end, limits := w.limits)
            && w.instrs == u.instrs + [Ref(DigestOf(cx.body, g.cand), SpanLen(g.cand.span))]
    ensures Splitter.GroupShape(cx.body, g.cand, g.children) && g.cand.span.start <= |cx.body|
  {
    hide Splitter.ProvideStep, Splitter.LitStep;
  }

  lemma GroupCovered(cx: Splitter.Ctx, v: Splitter.View, g: Group)
    requires |cx.body| < ALLOC_LIMIT && Ready(cx.body, g) && v.pos <= g.cand.span.start && Splitter.Queued(v)
    ensures var w := Splitter.ReferenceStep(cx, v, g.cand, g.children);
            && w.pos == g.cand.span.end && Splitter.Queued(w)
            && Programs.RefsOf(w.instrs) == Programs.RefsOf(v.instrs) + [DigestOf(cx.body, g.cand)]
  {
    ReferenceIs(cx, v, g);
    LitRun(cx, v, g.cand.span.start);
    var v1 := Splitter.LitStep(cx, v, g.cand.span.start);
    Splitter.ProvideKeeps(cx, v1, g.cand, g.children);
    hide Splitter.ProvideStep, Splitter.LitStep, Splitter.ReferenceStep, Splitter.Queued, Ready;
    var v2 := Splitter.ProvideStep(cx, v1, g.cand, g.children);
    var r: Instr := Ref(DigestOf(cx.body, g.cand), SpanLen(g.cand.span));
    RefsOfOne(r);
    RefsConcat(v2.instrs, [r]);
    QueuedApart(v2, Splitter.ReferenceStep(cx, v, g.cand, g.children));
  }

  lemma QueuedApart(v: Splitter.View, w: Splitter.View)
    requires Splitter.Queued(v)
    requires w.push == v.push && w.queued == v.queued && w.claimed == v.claimed && w.wrote == v.wrote
    requires w.stats.pushBytes == v.stats.pushBytes && w.stats.pushBlocks == v.stats.pushBlocks
    requires w.stats.blocksCreated == v.stats.blocksCreated
    ensures Splitter.Queued(w)
  {
  }
}

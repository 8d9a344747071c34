// The content-addressed block store: byte and count ceilings kept by evicting
// the least recently used blocks, a time limit on untouched ones, and two
// separate lock sections in an insertion.

module Stores {
  import opened Results
  import opened Blocks
  import Programs

  datatype Entry = Entry(len: nat, kind: BlockKind, rank: nat, at: nat, body: Body)

  type Table = map<Digest, Entry>

  datatype Stats = Stats(hits: nat, misses: nat, stored: nat, storedBytes: nat, evictions: nat, rejected: nat)

  datatype Config = Config(maxBytes: nat, maxBlocks: nat, ttl: nat, maxBlockBytes: nat)

  // What the lock guards. `clock` is the last recency number handed out.
  datatype Inner = Inner(table: Table, clock: nat, total: nat, stats: Stats)

  const EMPTY := Inner(map[], 0, 0, Stats(0, 0, 0, 0, 0, 0))

  function BlockAt(t: Table, d: Digest): Block
    requires d in t && t[d].len < TWO64
  {
    Block(d, t[d].kind, t[d].len, t[d].body)
  }

  // ---------- One lock section at a time ----------

  function Refreshed(i: Inner, d: Digest, now: nat): Inner
    requires d in i.table
  {
    i.(clock := i.clock + 1, table := i.table[d := i.table[d].(rank := i.clock + 1, at := now)])
  }

  function TouchStep(i: Inner, d: Digest, now: nat): Inner {
    if d in i.table then Refreshed(i, d, now) else i
  }

  function GetStep(i: Inner, d: Digest, now: nat): Inner {
    if d in i.table then Refreshed(i, d, now).(stats := i.stats.(hits := i.stats.hits + 1))
    else i.(stats := i.stats.(misses := i.stats.misses + 1))
  }

  predicate Admits(cfg: Config, b: Block) {
    Verifies(b) && b.len <= cfg.maxBlockBytes
  }

  function RejectStep(i: Inner): Inner {
    i.(stats := i.stats.(rejected := i.stats.rejected + 1))
  }

  // The first section of an insertion, for an admitted block not held yet.
  function AddStep(i: Inner, b: Block, now: nat): Inner {
    Inner(i.table[b.digest := Entry(b.len, b.kind, i.clock + 1, now, b.body)], i.clock + 1, i.total + b.len,
          i.stats.(stored := i.stats.stored + 1, storedBytes := i.stats.storedBytes + b.len))
  }

  predicate Over(cfg: Config, i: Inner) {
    i.total > cfg.maxBytes || |i.table| > cfg.maxBlocks
  }

  function ClearStep(i: Inner): Inner {
    i.(table := map[], total := 0, stats := i.stats.(evictions := i.stats.evictions + |i.table|))
  }

  function Sub(a: nat, b: nat): nat { if a > b then a - b else 0 }

  predicate Expired(cfg: Config, e: Entry, now: nat) {
    cfg.ttl > 0 && Sub(now, e.at) > cfg.ttl
  }

  function ExpiredIn(cfg: Config, t: Table, now: nat): set<Digest> {
    set d | d in t && Expired(cfg, t[d], now)
  }

  // Going through the blocks oldest first, those already gone are passed over
  // and the others go until both excesses are used up.
  function Evict(t: Table, order: seq<Digest>, gone: set<Digest>, overBytes: nat, overCount: nat): set<Digest>
    requires forall d :: d in order ==> d in t
  {
    if order == [] || (overBytes == 0 && overCount == 0) then gone
    else if order[0] in gone then Evict(t, order[1..], gone, overBytes, overCount)
    else Evict(t, order[1..], gone + {order[0]}, Sub(overBytes, t[order[0]].len), Sub(overCount, 1))
  }

  // All the digests of the table, the least recently used first.
  ghost predicate ByRecency(t: Table, order: seq<Digest>) {
    && (forall d :: d in order <==> d in t)
    && forall i, j :: 0 <= i < j < |order| ==> order[i] in t && order[j] in t && t[order[i]].rank < t[order[j]].rank
  }

  function Victims(cfg: Config, i: Inner, now: nat, order: seq<Digest>): set<Digest>
    requires forall d :: d in order ==> d in i.table
  {
    Evict(i.table, order, ExpiredIn(cfg, i.table, now), Sub(i.total, cfg.maxBytes), Sub(|i.table|, cfg.maxBlocks))
  }

  // The bytes of a table.
  ghost function TotalBytes(t: Table): nat
    decreases |t|
  {
    if t == map[] then 0
    else
      var d :| d in t;
      t[d].len + TotalBytes(t - {d})
  }

  ghost function PruneStep(cfg: Config, i: Inner, now: nat, order: seq<Digest>): Inner
    requires forall d :: d in order ==> d in i.table
  {
    var gone := Victims(cfg, i, now, order);
    i.(table := i.table - gone, total := TotalBytes(i.table - gone),
       stats := i.stats.(evictions := i.stats.evictions + |gone|))
  }

  // ---------- What the lock always guards ----------

  ghost predicate Counted(i: Inner) {
    i.total == TotalBytes(i.table) && i.stats.stored == |i.table| + i.stats.evictions
  }

  ghost predicate Ranked(t: Table, clock: nat) {
    && (forall d :: d in t ==> t[d].rank <= clock)
    && forall d, e :: d in t && e in t && d != e ==> t[d].rank != t[e].rank
  }

  ghost predicate AllVerify(t: Table) {
    forall d :: d in t ==> t[d].len < TWO64 && Verifies(BlockAt(t, d))
  }

  ghost predicate Valid(i: Inner) {
    Counted(i) && Ranked(i.table, i.clock) && AllVerify(i.table)
  }

  lemma {:induction false} BytesWithout(t: Table, d: Digest)
    requires d in t
    ensures TotalBytes(t) == t[d].len + TotalBytes(t - {d})
    decreases |t|
  {
    var e :| e in t && TotalBytes(t) == t[e].len + TotalBytes(t - {e});
    if e != d {
      assert d in t - {e};
      BytesWithout(t - {e}, d);
      assert t - {e} - {d} == t - {d} - {e};
      assert e in t - {d} && |t - {d}| < |t|;
      BytesWithout(t - {d}, e);
    }
  }

  lemma BytesPlus(t: Table, d: Digest, e: Entry)
    requires d !in t
    ensures TotalBytes(t[d := e]) == TotalBytes(t) + e.len
  {
    BytesWithout(t[d := e], d);
    assert t[d := e] - {d} == t;
  }

  lemma BytesSame(t: Table, d: Digest, e: Entry)
    requires d in t && e.len == t[d].len
    ensures TotalBytes(t[d := e]) == TotalBytes(t)
  {
    BytesWithout(t[d := e], d);
    BytesWithout(t, d);
    assert t[d := e] - {d} == t - {d};
  }

  lemma EmptyIsValid()
    ensures Valid(EMPTY)
  {
  }

  // A newcomer, or a block used again, is the most recent of all.
  lemma RankedPlus(t: Table, clock: nat, d: Digest, e: Entry)
    requires Ranked(t, clock) && e.rank == clock + 1
    ensures Ranked(t[d := e], clock + 1)
  {
  }

  lemma VerifyPlus(t: Table, d: Digest, e: Entry)
    requires AllVerify(t) && e.len < TWO64 && Verifies(Block(d, e.kind, e.len, e.body))
    ensures AllVerify(t[d := e])
  {
    var u := t[d := e];
    forall x | x in u ensures u[x].len < TWO64 && Verifies(BlockAt(u, x)) {
      if x != d {
        assert BlockAt(u, x) == BlockAt(t, x);
      }
    }
  }

  lemma RefreshKeeps(i: Inner, d: Digest, now: nat)
    requires Valid(i) && d in i.table
    ensures Valid(Refreshed(i, d, now))
  {
    hide Verifies, Ranked, AllVerify;
    var e := i.table[d].(rank := i.clock + 1, at := now);
    BytesSame(i.table, d, e);
    RankedPlus(i.table, i.clock, d, e);
    assert Verifies(BlockAt(i.table, d)) by { OneVerifies(i.table, d); }
    VerifyPlus(i.table, d, e);
    assert i.table[d := e].Keys == i.table.Keys;
  }

  lemma OneVerifies(t: Table, d: Digest)
    requires AllVerify(t) && d in t
    ensures t[d].len < TWO64 && Verifies(BlockAt(t, d))
  {
  }

  lemma AddCounted(i: Inner, b: Block, now: nat)
    requires Counted(i) && b.digest !in i.table
    ensures Counted(AddStep(i, b, now))
  {
    BytesPlus(i.table, b.digest, Entry(b.len, b.kind, i.clock + 1, now, b.body));
    assert AddStep(i, b, now).table.Keys == i.table.Keys + {b.digest};
  }

  lemma AddKeeps(i: Inner, b: Block, now: nat)
    requires Valid(i) && b.digest !in i.table && Verifies(b)
    ensures Valid(AddStep(i, b, now))
  {
    hide Verifies, Ranked, AllVerify, Counted;
    var e := Entry(b.len, b.kind, i.clock + 1, now, b.body);
    AddCounted(i, b, now);
    RankedPlus(i.table, i.clock, b.digest, e);
    assert Block(b.digest, e.kind, e.len, e.body) == b;
    VerifyPlus(i.table, b.digest, e);
  }

  lemma ClearKeeps(i: Inner)
    requires Valid(i)
    ensures Valid(ClearStep(i))
  {
  }

  lemma {:induction false} EvictWithin(t: Table, order: seq<Digest>, gone: set<Digest>, overBytes: nat, overCount: nat)
    requires (forall d :: d in order ==> d in t) && gone <= t.Keys
    ensures gone <= Evict(t, order, gone, overBytes, overCount) <= t.Keys
    decreases |order|
  {
    if order != [] && !(overBytes == 0 && overCount == 0) {
      if order[0] in gone {
        EvictWithin(t, order[1..], gone, overBytes, overCount);
      } else {
        EvictWithin(t, order[1..], gone + {order[0]}, Sub(overBytes, t[order[0]].len), Sub(overCount, 1));
      }
    }
  }

  lemma VerifyMinus(t: Table, gone: set<Digest>)
    requires AllVerify(t)
    ensures AllVerify(t - gone)
  {
    forall x | x in t - gone ensures (t - gone)[x].len < TWO64 && Verifies(BlockAt(t - gone, x)) {
      assert BlockAt(t - gone, x) == BlockAt(t, x);
    }
  }

  lemma PruneCounted(cfg: Config, i: Inner, now: nat, order: seq<Digest>)
    requires Counted(i) && forall d :: d in order ==> d in i.table
    ensures Counted(PruneStep(cfg, i, now, order))
  {
    var gone := Victims(cfg, i, now, order);
    EvictWithin(i.table, order, ExpiredIn(cfg, i.table, now), Sub(i.total, cfg.maxBytes),
                Sub(|i.table|, cfg.maxBlocks));
    assert (i.table - gone).Keys == i.table.Keys - gone;
    assert |i.table.Keys - gone| == |i.table.Keys| - |gone|;
  }

  lemma PruneKeeps(cfg: Config, i: Inner, now: nat, order: seq<Digest>)
    requires Valid(i) && forall d :: d in order ==> d in i.table
    ensures Valid(PruneStep(cfg, i, now, order))
  {
    hide Verifies, AllVerify, Counted;
    PruneCounted(cfg, i, now, order);
    VerifyMinus(i.table, Victims(cfg, i, now, order));
  }

  // ---------- Which blocks go ----------

  // The blocks of an order that are not already gone.
  function Standing(order: seq<Digest>, gone: set<Digest>): seq<Digest> {
    if order == [] then []
    else (if order[0] in gone then [] else [order[0]]) + Standing(order[1..], gone)
  }

  function LenOf(t: Table, ds: seq<Digest>): nat
    requires forall d :: d in ds ==> d in t
  {
    if ds == [] then 0 else t[ds[0]].len + LenOf(t, ds[1..])
  }

  ghost predicate Frees(t: Table, ds: seq<Digest>, overBytes: nat, overCount: nat) {
    && (forall d :: d in ds ==> d in t)
    && LenOf(t, ds) >= overBytes && |ds| >= overCount
  }

  // The k oldest are the fewest that free both excesses, or all there are.
  ghost predicate Shortest(t: Table, ds: seq<Digest>, k: nat, overBytes: nat, overCount: nat) {
    && k <= |ds|
    && (k < |ds| ==> Frees(t, ds[..k], overBytes, overCount))
    && forall j :: 0 <= j < k ==> !Frees(t, ds[..j], overBytes, overCount)
  }

  lemma ShortestNone(t: Table, ds: seq<Digest>, overBytes: nat, overCount: nat)
    requires ds == [] || (overBytes == 0 && overCount == 0)
    ensures Shortest(t, ds, 0, overBytes, overCount) && Programs.Elements(ds[..0]) == {}
  {
    assert ds[..0] == [];
  }

  lemma {:induction false} EvictIsShortest(t: Table, order: seq<Digest>, gone: set<Digest>, overBytes: nat,
                                           overCount: nat)
    returns (k: nat)
    requires forall d :: d in order ==> d in t
    requires Programs.Distinct(order)
    ensures k <= |Standing(order, gone)| && Shortest(t, Standing(order, gone), k, overBytes, overCount)
    ensures Evict(t, order, gone, overBytes, overCount) == gone + Programs.Elements(Standing(order, gone)[..k])
    decreases |order|
  {
    hide Shortest, Programs.Elements;
    var standing := Standing(order, gone);
    k := 0;
    if order == [] || (overBytes == 0 && overCount == 0) {
      ShortestNone(t, standing, overBytes, overCount);
    } else {
      var d, rest := order[0], order[1..];
      assert order == [d] + rest;
      if d in gone {
        k := EvictIsShortest(t, rest, gone, overBytes, overCount);
        assert standing == Standing(rest, gone);
      } else {
        var tail := Standing(rest, gone);
        k := EvictIsShortest(t, rest, gone + {d}, Sub(overBytes, t[d].len), Sub(overCount, 1));
        assert d !in rest;
        StandingApart(rest, gone, d);
        StandingMembers(rest, gone);
        ShortestCons(t, d, tail, k, overBytes, overCount);
        ElementsCons(d, tail[..k]);
        assert standing == [d] + tail && standing[..k + 1] == [d] + tail[..k];
        assert gone + ({d} + Programs.Elements(tail[..k])) == gone + {d} + Programs.Elements(tail[..k]);
        k := k + 1;
      }
    }
  }

  lemma {:induction false} StandingMembers(order: seq<Digest>, gone: set<Digest>)
    ensures forall d :: d in Standing(order, gone) <==> d in order && d !in gone
  {
    if order != [] {
      StandingMembers(order[1..], gone);
      assert order == [order[0]] + order[1..];
    }
  }

  lemma {:induction false} StandingApart(order: seq<Digest>, gone: set<Digest>, d: Digest)
    requires d !in order
    ensures Standing(order, gone + {d}) == Standing(order, gone)
  {
    if order != [] {
      StandingApart(order[1..], gone, d);
    }
  }

  lemma ElementsCons(d: Digest, ds: seq<Digest>)
    ensures Programs.Elements([d] + ds) == {d} + Programs.Elements(ds)
  {
  }

  lemma LenCons(t: Table, d: Digest, ds: seq<Digest>)
    requires d in t && forall e :: e in ds ==> e in t
    ensures LenOf(t, [d] + ds) == t[d].len + LenOf(t, ds)
  {
    assert ([d] + ds)[1..] == ds;
  }

  // Freeing one more, or the rest without it, come to the same.
  lemma FreesCons(t: Table, d: Digest, ds: seq<Digest>, overBytes: nat, overCount: nat)
    requires d in t && forall e :: e in ds ==> e in t
    ensures Frees(t, [d] + ds, overBytes, overCount) <==> Frees(t, ds, Sub(overBytes, t[d].len), Sub(overCount, 1))
  {
    LenCons(t, d, ds);
  }

  lemma ShortestCons(t: Table, d: Digest, tail: seq<Digest>, j: nat, overBytes: nat, overCount: nat)
    requires d in t && (forall e :: e in tail ==> e in t) && (overBytes > 0 || overCount > 0)
    requires Shortest(t, tail, j, Sub(overBytes, t[d].len), Sub(overCount, 1))
    ensures Shortest(t, [d] + tail, j + 1, overBytes, overCount)
  {
    hide Frees;
    var all := [d] + tail;
    forall i | 0 <= i <= |tail| ensures
      Frees(t, all[..i + 1], overBytes, overCount) <==> Frees(t, tail[..i], Sub(overBytes, t[d].len), Sub(overCount, 1))
    {
      assert all[..i + 1] == [d] + tail[..i];
      FreesCons(t, d, tail[..i], overBytes, overCount);
    }
    NothingFreed(t, all, overBytes, overCount);
    forall i | 0 <= i < j + 1 ensures !Frees(t, all[..i], overBytes, overCount) {
      if i > 0 {
        assert !Frees(t, tail[..i - 1], Sub(overBytes, t[d].len), Sub(overCount, 1));
        assert all[..(i - 1) + 1] == all[..i];
      }
    }
  }

  lemma NothingFreed(t: Table, ds: seq<Digest>, overBytes: nat, overCount: nat)
    requires overBytes > 0 || overCount > 0
    ensures !Frees(t, ds[..0], overBytes, overCount)
  {
    assert ds[..0] == [];
  }

  // ---------- What pruning guarantees ----------

  lemma {:induction false} BytesMinus(t: Table, gone: set<Digest>)
    ensures TotalBytes(t - gone) <= TotalBytes(t)
    decreases |gone|
  {
    if gone == {} {
      assert t - gone == t;
    } else {
      var d :| d in gone;
      BytesMinus(t, gone - {d});
      assert t - gone == t - (gone - {d}) - {d};
      if d in t {
        BytesWithout(t - (gone - {d}), d);
      } else {
        assert t - gone == t - (gone - {d});
      }
    }
  }

  lemma MinusOne(t: Table, d: Digest)
    requires d in t
    ensures |t - {d}| == |t| - 1
  {
    assert (t - {d}).Keys == t.Keys - {d};
  }

  lemma MinusBoth(t: Table, a: set<Digest>, b: set<Digest>)
    ensures t - (a + b) == t - a - b
  {
  }

  lemma {:induction false} BytesFreed(t: Table, ds: seq<Digest>)
    requires Programs.Distinct(ds) && forall d :: d in ds ==> d in t
    ensures TotalBytes(t) == LenOf(t, ds) + TotalBytes(t - Programs.Elements(ds))
    ensures |t - Programs.Elements(ds)| == |t| - |ds|
    decreases |ds|
  {
    hide Programs.Elements, TotalBytes;
    if ds == [] {
      ElementsNone();
      assert t - {} == t;
    } else {
      var d, rest := ds[0], ds[1..];
      assert ds == [d] + rest && d !in rest;
      BytesWithout(t, d);
      MinusOne(t, d);
      BytesFreed(t - {d}, rest);
      SameLen(t, t - {d}, rest);
      ElementsCons(d, rest);
      MinusBoth(t, {d}, Programs.Elements(rest));
    }
  }

  lemma ElementsNone()
    ensures Programs.Elements([]) == {}
  {
  }

  lemma {:induction false} SameLen(t: Table, u: Table, ds: seq<Digest>)
    requires forall d :: d in ds ==> d in t && d in u && t[d] == u[d]
    ensures LenOf(t, ds) == LenOf(u, ds)
  {
    if ds != [] {
      SameLen(t, u, ds[1..]);
    }
  }

  lemma OrderDistinct(t: Table, order: seq<Digest>, gone: set<Digest>)
    requires ByRecency(t, order)
    ensures Programs.Distinct(order) && Programs.Distinct(Standing(order, gone))
  {
    StandingDistinct(order, gone);
  }

  lemma {:induction false} StandingDistinct(order: seq<Digest>, gone: set<Digest>)
    requires Programs.Distinct(order)
    ensures Programs.Distinct(Standing(order, gone))
  {
    if order != [] {
      StandingDistinct(order[1..], gone);
      StandingMembers(order[1..], gone);
      assert order[0] !in order[1..];
    }
  }

  // The blocks that go besides the expired ones, as a prefix of the others by
  // recency.
  lemma VictimsAre(cfg: Config, i: Inner, now: nat, order: seq<Digest>) returns (k: nat)
    requires ByRecency(i.table, order)
    ensures var expired := ExpiredIn(cfg, i.table, now);
            var standing := Standing(order, expired);
            && k <= |standing| && Programs.Distinct(standing)
            && (forall d :: d in standing <==> d in i.table && d !in expired)
            && Shortest(i.table, standing, k, Sub(i.total, cfg.maxBytes), Sub(|i.table|, cfg.maxBlocks))
            && Victims(cfg, i, now, order) == expired + Programs.Elements(standing[..k])
  {
    hide Shortest;
    var expired := ExpiredIn(cfg, i.table, now);
    OrderDistinct(i.table, order, expired);
    StandingMembers(order, expired);
    k := EvictIsShortest(i.table, order, expired, Sub(i.total, cfg.maxBytes), Sub(|i.table|, cfg.maxBlocks));
  }

  // After pruning both ceilings hold, always: whatever expired, whatever the
  // configuration, however far over the table was.
  lemma PruneMeetsCeilings(cfg: Config, i: Inner, now: nat, order: seq<Digest>)
    requires Valid(i) && ByRecency(i.table, order)
    ensures var p := PruneStep(cfg, i, now, order); p.total <= cfg.maxBytes && |p.table| <= cfg.maxBlocks
  {
    hide ByRecency, Victims, ExpiredIn, Standing, TotalBytes, Programs.Elements, Programs.Distinct, Ranked, AllVerify;
    var k := VictimsAre(cfg, i, now, order);
    var t, expired := i.table, ExpiredIn(cfg, i.table, now);
    var standing := Standing(order, expired);
    MinusBoth(t, expired, Programs.Elements(standing[..k]));
    if k < |standing| {
      PrefixDistinct(standing, k);
      FreedEnough(t, expired, standing[..k]);
    } else {
      assert standing[..k] == standing;
      AllGone(t, expired, standing);
    }
  }

  lemma PrefixDistinct(ds: seq<Digest>, k: nat)
    requires Programs.Distinct(ds) && k <= |ds|
    ensures Programs.Distinct(ds[..k])
  {
  }

  lemma AllGone(t: Table, expired: set<Digest>, standing: seq<Digest>)
    requires forall d :: d in t ==> d in expired || d in standing
    ensures t - expired - Programs.Elements(standing) == map[]
    ensures TotalBytes(map[]) == 0
  {
  }

  lemma FreedEnough(t: Table, expired: set<Digest>, ds: seq<Digest>)
    requires Programs.Distinct(ds) && forall d :: d in ds ==> d in t && d !in expired
    ensures LenOf(t, ds) + TotalBytes(t - expired - Programs.Elements(ds)) <= TotalBytes(t)
    ensures |ds| + |t - expired - Programs.Elements(ds)| <= |t|
  {
    BytesMinus(t, expired);
    BytesFreed(t - expired, ds);
    SameLen(t, t - expired, ds);
    assert (t - expired).Keys == t.Keys - expired;
    Programs.SubsetCounts(t.Keys - expired, t.Keys);
  }

  // With nothing expired the victims are exactly the shortest prefix in
  // recency order whose going restores both ceilings, and every survivor is
  // more recent than every victim.
  lemma PruneIsLru(cfg: Config, i: Inner, now: nat, order: seq<Digest>) returns (k: nat)
    requires Valid(i) && ByRecency(i.table, order) && ExpiredIn(cfg, i.table, now) == {}
    ensures k <= |order| && Victims(cfg, i, now, order) == Programs.Elements(order[..k])
    ensures Restores(cfg, i.table, order[..k])
    ensures forall j :: 0 <= j < k ==> !Restores(cfg, i.table, order[..j])
    ensures forall d, e :: d in Victims(cfg, i, now, order) && e in i.table && e !in Victims(cfg, i, now, order) ==>
              d in i.table && i.table[d].rank < i.table[e].rank
  {
    hide ExpiredIn, Victims, TotalBytes, Ranked, AllVerify, Programs.Elements, Standing, Frees, Restores;
    k := VictimsAre(cfg, i, now, order);
    StandingAll(order);
    forall j | 0 <= j <= |order|
      ensures Frees(i.table, order[..j], Sub(i.total, cfg.maxBytes), Sub(|i.table|, cfg.maxBlocks))
              <==> Restores(cfg, i.table, order[..j])
    {
      FreesRestores(cfg, i, order, j);
    }
    if k == |order| {
      NoneLeft(cfg, i.table, order);
      assert order[..k] == order;
    }
    assert {} + Programs.Elements(order[..k]) == Programs.Elements(order[..k]);
    SurvivorsNewer(i.table, order, k);
  }

  lemma FreesRestores(cfg: Config, i: Inner, order: seq<Digest>, j: nat)
    requires Counted(i) && ByRecency(i.table, order) && j <= |order|
    ensures Frees(i.table, order[..j], Sub(i.total, cfg.maxBytes), Sub(|i.table|, cfg.maxBlocks))
            <==> Restores(cfg, i.table, order[..j])
  {
    hide TotalBytes, Programs.Elements;
    BytesFreed(i.table, order[..j]);
  }

  lemma NoneLeft(cfg: Config, t: Table, order: seq<Digest>)
    requires ByRecency(t, order)
    ensures Restores(cfg, t, order)
  {
    assert t - Programs.Elements(order) == map[];
  }

  lemma SurvivorsNewer(t: Table, order: seq<Digest>, k: nat)
    requires ByRecency(t, order) && k <= |order|
    ensures forall d, e :: d in Programs.Elements(order[..k]) && e in t && e !in Programs.Elements(order[..k]) ==>
              d in t && t[d].rank < t[e].rank
  {
    forall b | 0 <= b < k ensures order[b] in Programs.Elements(order[..k]) {
      assert order[..k][b] == order[b];
    }
    forall d, e | d in Programs.Elements(order[..k]) && e in t && e !in Programs.Elements(order[..k])
      ensures d in t && t[d].rank < t[e].rank
    {
      var a :| 0 <= a < k && order[a] == d;
      var b :| 0 <= b < |order| && order[b] == e;
    }
  }

  // Without these blocks both ceilings hold.
  ghost predicate Restores(cfg: Config, t: Table, ds: seq<Digest>) {
    TotalBytes(t - Programs.Elements(ds)) <= cfg.maxBytes && |t - Programs.Elements(ds)| <= cfg.maxBlocks
  }

  lemma {:induction false} StandingAll(order: seq<Digest>)
    ensures Standing(order, {}) == order
  {
    if order != [] {
      StandingAll(order[1..]);
      assert order == [order[0]] + order[1..];
    }
  }

  // The newest block survives exactly when it has not expired and the other
  // blocks that have not, on their own, free the whole excess: both excesses
  // are counted with the expired blocks in them.
  lemma NewestSurvivesWhen(cfg: Config, i: Inner, now: nat, order: seq<Digest>, d: Digest)
    requires Valid(i) && ByRecency(i.table, order) && d in i.table && i.table[d].rank == i.clock
    ensures var expired := ExpiredIn(cfg, i.table, now);
            var standing := Standing(order, expired);
            && (d in PruneStep(cfg, i, now, order).table <==>
                d !in expired && standing != []
                && Frees(i.table, standing[..|standing| - 1], Sub(i.total, cfg.maxBytes),
                         Sub(|i.table|, cfg.maxBlocks)))
  {
    NewestIsLast(i, order, d);
    hide Valid, ByRecency, ExpiredIn, Victims, Standing, Shortest, Frees, Programs.Elements;
    var k := VictimsAre(cfg, i, now, order);
    var expired := ExpiredIn(cfg, i.table, now);
    var standing := Standing(order, expired);
    if d !in expired {
      StandingLast(order, expired);
      CutSpares(i.table, standing, k, d, Sub(i.total, cfg.maxBytes), Sub(|i.table|, cfg.maxBlocks));
    }
  }

  lemma {:induction false} StandingLast(order: seq<Digest>, gone: set<Digest>)
    requires order != [] && order[|order| - 1] !in gone
    ensures var standing := Standing(order, gone);
            standing != [] && standing[|standing| - 1] == order[|order| - 1]
  {
    if |order| > 1 {
      StandingLast(order[1..], gone);
    }
  }

  // The last of a list is spared exactly when the ones before it are enough.
  lemma CutSpares(t: Table, ds: seq<Digest>, k: nat, d: Digest, overBytes: nat, overCount: nat)
    requires Programs.Distinct(ds) && ds != [] && ds[|ds| - 1] == d && forall e :: e in ds ==> e in t
    requires Shortest(t, ds, k, overBytes, overCount)
    ensures d !in Programs.Elements(ds[..k]) <==> Frees(t, ds[..|ds| - 1], overBytes, overCount)
  {
    var n := |ds|;
    if k < n {
      LenGrows(t, ds, k, n - 1);
      assert d !in ds[..k];
    } else {
      assert ds[..k] == ds && !Frees(t, ds[..n - 1], overBytes, overCount);
    }
  }

  lemma {:induction false} LenGrows(t: Table, ds: seq<Digest>, a: nat, b: nat)
    requires a <= b <= |ds| && forall d :: d in ds ==> d in t
    ensures LenOf(t, ds[..a]) <= LenOf(t, ds[..b])
  {
    if a > 0 {
      LenGrows(t, ds[1..], a - 1, b - 1);
      assert ds[..a][1..] == ds[1..][..a - 1] && ds[..b][1..] == ds[1..][..b - 1];
    }
  }

  // Pruning right after an insertion, with nothing expired, spares the block
  // just inserted, provided one block fits both ceilings.
  lemma NewestSurvives(cfg: Config, i: Inner, b: Block, now: nat, later: nat, order: seq<Digest>)
    requires Valid(i) && Admits(cfg, b) && b.digest !in i.table
    requires cfg.maxBlockBytes <= cfg.maxBytes && cfg.maxBlocks >= 1
    requires var j := AddStep(i, b, now); ByRecency(j.table, order) && ExpiredIn(cfg, j.table, later) == {}
    ensures b.digest in PruneStep(cfg, AddStep(i, b, now), later, order).table
  {
    hide *;
    var j := AddStep(i, b, now);
    AddedIsNewest(cfg, i, b, now);
    NewestIsLast(j, order, b.digest);
    StandingAll(order);
    NewestSurvivesWhen(cfg, j, later, order, b.digest);
    LastIsEnough(cfg, j.table, order, b.digest);
    FreesRestores(cfg, j, order, |order| - 1);
  }

  lemma AddedIsNewest(cfg: Config, i: Inner, b: Block, now: nat)
    requires Valid(i) && Admits(cfg, b) && b.digest !in i.table
    ensures var j := AddStep(i, b, now);
            && Valid(j) && Counted(j) && Ranked(j.table, j.clock)
            && b.digest in j.table && j.table[b.digest].rank == j.clock
            && j.table[b.digest].len == b.len <= cfg.maxBlockBytes
  {
    AddKeeps(i, b, now);
    hide AllVerify, Verifies, Ranked, TotalBytes;
  }

  lemma NewestIsLast(i: Inner, order: seq<Digest>, d: Digest)
    requires ByRecency(i.table, order) && d in i.table && i.table[d].rank == i.clock && Ranked(i.table, i.clock)
    ensures order != [] && order[|order| - 1] == d && Programs.Distinct(order)
  {
    var a :| 0 <= a < |order| && order[a] == d;
    assert order[|order| - 1] in i.table;
  }

  // The newest block alone is within the ceilings, so all but it is enough.
  lemma LastIsEnough(cfg: Config, t: Table, order: seq<Digest>, d: Digest)
    requires ByRecency(t, order) && order != [] && order[|order| - 1] == d
    requires t[d].len <= cfg.maxBytes && cfg.maxBlocks >= 1
    ensures Restores(cfg, t, order[..|order| - 1])
  {
    var ds := order[..|order| - 1];
    assert order == ds + [d];
    OnlyOneLeft(t, order, d);
    BytesPlus(map[], d, t[d]);
    assert map[][d := t[d]] == map[d := t[d]];
  }

  lemma OnlyOneLeft(t: Table, order: seq<Digest>, d: Digest)
    requires ByRecency(t, order) && order != [] && order[|order| - 1] == d
    ensures t - Programs.Elements(order[..|order| - 1]) == map[d := t[d]]
  {
    var ds := order[..|order| - 1];
    assert d !in ds;
    forall a | 0 <= a < |ds| ensures order[a] in Programs.Elements(ds) {
      assert order[a] == ds[a];
    }
    forall e | e in t && e !in Programs.Elements(ds) ensures e == d {
      var a :| 0 <= a < |order| && order[a] == e;
    }
  }

  // ---------- Expired blocks and over-eviction ----------

  // How many of the blocks that did not expire have to go, once the expired
  // ones are gone.
  ghost predicate Needed(cfg: Config, i: Inner, now: nat, order: seq<Digest>, k: nat)
    requires ByRecency(i.table, order)
  {
    var expired := ExpiredIn(cfg, i.table, now);
    var left := i.table - expired;
    Shortest(i.table, Standing(order, expired), k, Sub(TotalBytes(left), cfg.maxBytes), Sub(|left|, cfg.maxBlocks))
  }

  // The excess is computed with the expired blocks still counted. So pruning
  // takes no more than needed exactly when the oldest blocks that have to go
  // anyway already free all of that excess, or no other block is left; in
  // particular when nothing expired, or when no ceiling was exceeded.
  lemma PruneIsMinimalWhen(cfg: Config, i: Inner, now: nat, order: seq<Digest>, need: nat)
    requires Valid(i) && ByRecency(i.table, order) && Needed(cfg, i, now, order, need)
    ensures var expired := ExpiredIn(cfg, i.table, now);
            var standing := Standing(order, expired);
            var minimal := Victims(cfg, i, now, order) == expired + Programs.Elements(standing[..need]);
            && (minimal <==> need == |standing|
                             || Frees(i.table, standing[..need], Sub(i.total, cfg.maxBytes),
                                      Sub(|i.table|, cfg.maxBlocks)))
            && (expired == {} || !Over(cfg, i) ==> minimal)
  {
    assert forall d :: d in order ==> d in i.table;
    hide *;
    var expired := ExpiredIn(cfg, i.table, now);
    var k := VictimsAre(cfg, i, now, order);
    MinimalWhen(cfg, i, order, expired, need, k, Victims(cfg, i, now, order)) by {
      NeededIs(cfg, i, now, order, need);
      ValidTotal(i);
    }
  }

  lemma NeededIs(cfg: Config, i: Inner, now: nat, order: seq<Digest>, need: nat)
    requires ByRecency(i.table, order) && Needed(cfg, i, now, order, need)
    ensures var expired := ExpiredIn(cfg, i.table, now);
            var left := i.table - expired;
            Shortest(i.table, Standing(order, expired), need, Sub(TotalBytes(left), cfg.maxBytes),
                     Sub(|left|, cfg.maxBlocks))
  {
    hide ExpiredIn, TotalBytes, Standing, Shortest;
  }

  lemma ValidTotal(i: Inner)
    requires Valid(i)
    ensures i.total == TotalBytes(i.table)
  {
  }

  lemma MinimalWhen(cfg: Config, i: Inner, order: seq<Digest>, expired: set<Digest>, need: nat, k: nat,
                    gone: set<Digest>)
    requires i.total == TotalBytes(i.table)
    requires var standing, left := Standing(order, expired), i.table - expired;
             && k <= |standing| && Programs.Distinct(standing)
             && (forall d :: d in standing <==> d in i.table && d !in expired)
             && Shortest(i.table, standing, need, Sub(TotalBytes(left), cfg.maxBytes), Sub(|left|, cfg.maxBlocks))
             && Shortest(i.table, standing, k, Sub(i.total, cfg.maxBytes), Sub(|i.table|, cfg.maxBlocks))
             && gone == expired + Programs.Elements(standing[..k])
    ensures var standing := Standing(order, expired);
            need <= |standing|
            && var minimal := gone == expired + Programs.Elements(standing[..need]);
            && (minimal <==> need == |standing|
                             || Frees(i.table, standing[..need], Sub(i.total, cfg.maxBytes),
                                      Sub(|i.table|, cfg.maxBlocks)))
            && (expired == {} || !Over(cfg, i) ==> minimal)
  {
    hide TotalBytes, Standing, Shortest, Frees, Programs.Elements, Programs.Distinct;
    var standing, left := Standing(order, expired), i.table - expired;
    var bytes, count := Sub(i.total, cfg.maxBytes), Sub(|i.table|, cfg.maxBlocks);
    var bytesA, countA := Sub(TotalBytes(left), cfg.maxBytes), Sub(|left|, cfg.maxBlocks);
    LeftIsLess(i.table, expired);
    SameCut(i.table, standing, need, k, bytesA, countA, bytes, count);
    PrefixesDiffer(standing, expired, need, k);
    NothingExpired(i.table, expired);
  }

  lemma NothingExpired(t: Table, expired: set<Digest>)
    ensures expired == {} ==> t - expired == t
  {
  }

  lemma LeftIsLess(t: Table, expired: set<Digest>)
    ensures TotalBytes(t - expired) <= TotalBytes(t) && |t - expired| <= |t|
  {
    BytesMinus(t, expired);
    assert (t - expired).Keys == t.Keys - expired;
    Programs.SubsetCounts(t.Keys - expired, t.Keys);
  }

  lemma SameCut(t: Table, ds: seq<Digest>, a: nat, b: nat, bytesA: nat, countA: nat, bytes: nat, count: nat)
    requires Shortest(t, ds, a, bytesA, countA) && Shortest(t, ds, b, bytes, count)
    requires bytesA <= bytes && countA <= count && forall d :: d in ds ==> d in t
    ensures a <= b <= |ds|
    ensures bytesA == bytes && countA == count ==> a == b
    ensures a == b <==> a == |ds| || Frees(t, ds[..a], bytes, count)
    ensures bytes == 0 && count == 0 ==> a == b
  {
    assert Frees(t, ds[..b], bytes, count) ==> Frees(t, ds[..b], bytesA, countA);
    assert a < b ==> !Frees(t, ds[..a], bytes, count);
  }

  lemma PrefixesDiffer(ds: seq<Digest>, expired: set<Digest>, a: nat, b: nat)
    requires Programs.Distinct(ds) && a <= b <= |ds| && forall d :: d in ds ==> d !in expired
    ensures expired + Programs.Elements(ds[..b]) == expired + Programs.Elements(ds[..a]) <==> a == b
  {
    if a < b {
      assert ds[a] == ds[..b][a] && ds[a] !in ds[..a];
      assert ds[a] in Programs.Elements(ds[..b]);
    }
  }

  // ---------- The store ----------

  ghost predicate PrunedTo(cfg: Config, i: Inner, now: nat, j: Inner) {
    exists order :: ByRecency(i.table, order) && j == PruneStep(cfg, i, now, order)
  }

  // The same blocks, of which `d` is now the most recent, the others as before.
  ghost predicate NewlyUsed(t: Table, u: Table, d: Digest, now: nat) {
    && d in t && u.Keys == t.Keys && u[d] == t[d].(rank := u[d].rank, at := now)
    && forall e :: e in t && e != d ==> u[e] == t[e] && u[e].rank < u[d].rank
  }

  ghost predicate Increasing(t: Table, order: seq<Digest>) {
    && (forall k :: 0 <= k < |order| ==> order[k] in t)
    && forall a, b :: 0 <= a < b < |order| ==> t[order[a]].rank < t[order[b]].rank
  }

  // Where a block of recency `rank` goes among blocks in order.
  method Place(t: Table, order: seq<Digest>, rank: nat) returns (p: nat)
    requires Increasing(t, order)
    ensures p <= |order|
    ensures forall k :: 0 <= k < p ==> t[order[k]].rank < rank
    ensures forall k :: p <= k < |order| ==> t[order[k]].rank >= rank
  {
    p := 0;
    while p < |order| && t[order[p]].rank < rank
      invariant p <= |order|
      invariant forall k :: 0 <= k < p ==> t[order[k]].rank < rank
    {
      p := p + 1;
    }
  }

  // The digests of a table, sorted by recency.
  method Sorted(t: Table, ghost clock: nat) returns (order: seq<Digest>)
    requires Ranked(t, clock)
    ensures ByRecency(t, order)
  {
    order := [];
    var left := t.Keys;
    while left != {}
      invariant left <= t.Keys && Increasing(t, order)
      invariant forall d :: d in order <==> d in t && d !in left
      decreases |left|
    {
      var d :| d in left;
      var p := Place(t, order, t[d].rank);
      PlacedIncreasing(t, order, d, p, clock);
      PlacedHolds(order, d, p);
      order := order[..p] + [d] + order[p..];
      left := left - {d};
    }
  }

  lemma PlacedAt(order: seq<Digest>, d: Digest, p: nat, k: nat)
    requires p <= |order| && k <= |order|
    ensures (order[..p] + [d] + order[p..])[k] == if k < p then order[k] else if k == p then d else order[k - 1]
  {
  }

  lemma PlacedHolds(order: seq<Digest>, d: Digest, p: nat)
    requires p <= |order|
    ensures forall e :: e in order[..p] + [d] + order[p..] <==> e == d || e in order
  {
    assert order == order[..p] + order[p..];
  }

  lemma PlacedIncreasing(t: Table, order: seq<Digest>, d: Digest, p: nat, clock: nat)
    requires Ranked(t, clock) && Increasing(t, order) && d in t && d !in order && p <= |order|
    requires forall k :: 0 <= k < p ==> t[order[k]].rank < t[d].rank
    requires forall k :: p <= k < |order| ==> t[order[k]].rank >= t[d].rank
    ensures Increasing(t, order[..p] + [d] + order[p..])
  {
    var placed := order[..p] + [d] + order[p..];
    forall k | 0 <= k < |placed|
      ensures placed[k] == if k < p then order[k] else if k == p then d else order[k - 1]
    {
      PlacedAt(order, d, p, k);
    }
    forall k | p <= k < |order| ensures t[order[k]].rank > t[d].rank {
      assert order[k] != d;
    }
  }

  // The lengths of all that is left, added up.
  method SumLens(t: Table) returns (sum: nat)
    ensures sum == TotalBytes(t)
  {
    sum := 0;
    var left := t.Keys;
    assert t - left == map[];
    while left != {}
      invariant left <= t.Keys
      invariant sum == TotalBytes(t - left)
      decreases |left|
    {
      var d :| d in left;
      BytesWithout(t - (left - {d}), d);
      assert t - (left - {d}) - {d} == t - left;
      sum := sum + t[d].len;
      left := left - {d};
    }
    assert t - {} == t;
  }

  method Choose(cfg: Config, t: Table, total: nat, now: nat, order: seq<Digest>) returns (victims: set<Digest>)
    requires ByRecency(t, order)
    ensures victims == Evict(t, order, ExpiredIn(cfg, t, now), Sub(total, cfg.maxBytes), Sub(|t|, cfg.maxBlocks))
  {
    victims := set d | d in t && Expired(cfg, t[d], now);
    var overBytes, overCount := Sub(total, cfg.maxBytes), Sub(|t|, cfg.maxBlocks);
    ghost var goal := Evict(t, order, victims, overBytes, overCount);
    var k := 0;
    while k < |order| && (overBytes > 0 || overCount > 0)
      invariant k <= |order|
      invariant goal == Evict(t, order[k..], victims, overBytes, overCount)
    {
      assert order[k..][0] == order[k] && order[k..][1..] == order[k + 1..];
      if order[k] !in victims {
        victims := victims + {order[k]};
        overBytes := Sub(overBytes, t[order[k]].len);
        overCount := Sub(overCount, 1);
      }
      k := k + 1;
    }
  }

  class BlockStore {
    const cfg: Config
    var table: Table
    var clock: nat
    var total: nat
    var stats: Stats

    ghost function State(): Inner
      reads this
    {
      Inner(table, clock, total, stats)
    }

    constructor (cfg: Config)
      ensures this.cfg == cfg && State() == EMPTY && Valid(State())
    {
      this.cfg := cfg;
      table, clock, total, stats := map[], 0, 0, Stats(0, 0, 0, 0, 0, 0);
      EmptyIsValid();
    }

    method Touch(d: Digest, now: nat)
      requires Valid(State())
      modifies this
      ensures State() == TouchStep(old(State()), d, now) && Valid(State())
      ensures if d in old(table) then NewlyUsed(old(table), table, d, now) else table == old(table)
    {
      if d !in table {
        return;
      }
      RefreshKeeps(State(), d, now);
      clock := clock + 1;
      table := table[d := table[d].(rank := clock, at := now)];
    }

    // The block under a digest, and a fresh recency for it.
    method Get(d: Digest, now: nat) returns (found: Option<Block>)
      requires Valid(State())
      modifies this
      ensures State() == GetStep(old(State()), d, now) && Valid(State())
      ensures if d in old(table) then NewlyUsed(old(table), table, d, now) else table == old(table)
      ensures found.Some? <==> d in old(table)
      ensures found.Some? ==> found.value.digest == d && Verifies(found.value)
                              && found.value == BlockAt(old(table), d)
    {
      if d !in table {
        stats := stats.(misses := stats.misses + 1);
        return None;
      }
      RefreshKeeps(State(), d, now);
      OneVerifies(table, d);
      clock := clock + 1;
      table := table[d := table[d].(rank := clock, at := now)];
      found := Some(Block(d, table[d].kind, table[d].len, table[d].body));
      stats := stats.(hits := stats.hits + 1);
    }

    // The first lock section of an insertion.
    method Add(b: Block, now: nat) returns (over: bool)
      requires Valid(State()) && Verifies(b) && b.digest !in table
      modifies this
      ensures State() == AddStep(old(State()), b, now) && Valid(State())
      ensures over == Over(cfg, State())
    {
      AddKeeps(State(), b, now);
      hide Verifies, Valid;
      clock := clock + 1;
      total := total + b.len;
      stats := stats.(stored := stats.stored + 1, storedBytes := stats.storedBytes + b.len);
      table := table[b.digest := Entry(b.len, b.kind, clock, now, b.body)];
      over := total > cfg.maxBytes || |table| > cfg.maxBlocks;
    }

    // Refused: a block that does not match its digest, too large, or held.
    method Insert(b: Block, now: nat, later: nat) returns (kept: bool)
      requires Valid(State())
      modifies this
      ensures Valid(State())
      ensures kept <==> Admits(cfg, b) && b.digest !in old(table)
      ensures !Admits(cfg, b) ==> State() == RejectStep(old(State()))
      ensures Admits(cfg, b) && !kept ==> State() == old(State())
      ensures kept ==> var i := AddStep(old(State()), b, now);
                       if Over(cfg, i) then PrunedTo(cfg, i, later, State()) else State() == i
    {
      RejectCounts(State());
      hide Verifies, Valid, PrunedTo, AddStep;
      if !Verifies(b) || b.len > cfg.maxBlockBytes {
        stats := stats.(rejected := stats.rejected + 1);
        return false;
      }
      if b.digest in table {
        return false;
      }
      var over := Add(b, now);
      if over {
        Prune(later);
      }
      return true;
    }

    method Prune(now: nat)
      requires Valid(State())
      modifies this
      ensures PrunedTo(cfg, old(State()), now, State()) && Valid(State())
      ensures total <= cfg.maxBytes && |table| <= cfg.maxBlocks
    {
      var order := Sorted(table, clock);
      PrunesWithin(cfg, State(), now, order);
      ghost var before := State();
      hide Valid, Evict;
      var victims := Choose(cfg, table, total, now, order);
      stats := stats.(evictions := stats.evictions + |victims|);
      table := table - victims;
      total := SumLens(table);
      assert State() == PruneStep(cfg, before, now, order);
    }

    method Clear() returns (n: nat)
      requires Valid(State())
      modifies this
      ensures State() == ClearStep(old(State())) && Valid(State()) && n == |old(table)|
    {
      ClearKeeps(State());
      n := |table|;
      stats := stats.(evictions := stats.evictions + n);
      table, total := map[], 0;
    }
  }

  // ---------- What others see of it ----------

  ghost function View(t: Table): Programs.Store
    requires AllVerify(t)
  {
    map d | d in t :: BlockAt(t, d)
  }

  lemma ViewPlus(t: Table, b: Block, e: Entry)
    requires AllVerify(t) && AllVerify(t[b.digest := e]) && e.len < TWO64 && b == Block(b.digest, e.kind, e.len, e.body)
    ensures View(t[b.digest := e]) == View(t)[b.digest := b]
  {
    hide Verifies;
    var u := t[b.digest := e];
    forall d | d in u ensures BlockAt(u, d) == if d == b.digest then b else BlockAt(t, d) {
    }
  }

  lemma ViewMinus(t: Table, gone: set<Digest>)
    requires AllVerify(t) && AllVerify(t - gone)
    ensures View(t - gone) == View(t) - gone
  {
    hide Verifies;
    forall d | d in t - gone ensures BlockAt(t - gone, d) == BlockAt(t, d) {
    }
  }

  // An insertion shows others one block more, which passed the check.
  lemma AddShows(i: Inner, b: Block, now: nat)
    requires Valid(i) && Verifies(b) && b.digest !in i.table
    ensures AllVerify(i.table) && AllVerify(AddStep(i, b, now).table)
    ensures View(AddStep(i, b, now).table) == View(i.table)[b.digest := b]
  {
    AddKeeps(i, b, now);
    hide Verifies, Counted, Ranked, AllVerify, View;
    ViewPlus(i.table, b, Entry(b.len, b.kind, i.clock + 1, now, b.body));
  }

  // Pruning shows others the same blocks without the victims.
  lemma PruneShows(cfg: Config, i: Inner, now: nat, order: seq<Digest>)
    requires Valid(i) && ByRecency(i.table, order)
    ensures AllVerify(i.table) && AllVerify(PruneStep(cfg, i, now, order).table)
    ensures View(PruneStep(cfg, i, now, order).table) == View(i.table) - Victims(cfg, i, now, order)
  {
    PruneKeeps(cfg, i, now, order);
    hide Verifies, Counted, Ranked, Victims, AllVerify, View;
    ViewMinus(i.table, Victims(cfg, i, now, order));
  }

  // ---------- Many threads ----------

  // `pending` threads have let go of the lock after an insertion that went
  // over, and have not pruned yet.
  datatype Shared = Shared(inner: Inner, pending: nat)

  datatype Section =
    | Touches(d: Digest, now: nat)
    | Gets(d: Digest, now: nat)
    | Rejects
    | Adds(b: Block, now: nat)
    | Prunes(now: nat, order: seq<Digest>)
    | PrunesAfterAdding(now: nat, order: seq<Digest>)
    | Clears

  ghost predicate CanRun(cfg: Config, s: Shared, c: Section) {
    match c
    case Adds(b, _) => Admits(cfg, b) && b.digest !in s.inner.table
    case Prunes(_, order) => ByRecency(s.inner.table, order)
    case PrunesAfterAdding(_, order) => s.pending > 0 && ByRecency(s.inner.table, order)
    case _ => true
  }

  ghost function After(cfg: Config, s: Shared, c: Section): Shared
    requires CanRun(cfg, s, c)
  {
    match c
    case Touches(d, now) => s.(inner := TouchStep(s.inner, d, now))
    case Gets(d, now) => s.(inner := GetStep(s.inner, d, now))
    case Rejects => s.(inner := RejectStep(s.inner))
    case Adds(b, now) =>
      var i := AddStep(s.inner, b, now);
      Shared(i, if Over(cfg, i) then s.pending + 1 else s.pending)
    case Prunes(now, order) => s.(inner := PruneStep(cfg, s.inner, now, order))
    case PrunesAfterAdding(now, order) => Shared(PruneStep(cfg, s.inner, now, order), s.pending - 1)
    case Clears => s.(inner := ClearStep(s.inner))
  }

  ghost predicate Interleaving(cfg: Config, ss: seq<Shared>, cs: seq<Section>) {
    && |ss| == |cs| + 1 && ss[0] == Shared(EMPTY, 0)
    && forall k :: 0 <= k < |cs| ==> CanRun(cfg, ss[k], cs[k]) && ss[k + 1] == After(cfg, ss[k], cs[k])
  }

  ghost predicate WithinReach(cfg: Config, s: Shared) {
    && s.inner.total <= cfg.maxBytes + s.pending * cfg.maxBlockBytes
    && |s.inner.table| <= cfg.maxBlocks + s.pending
  }

  lemma OneMoreFits(p: nat, m: nat)
    ensures (p + 1) * m == p * m + m
  {
  }

  lemma SectionKeeps(cfg: Config, s: Shared, c: Section)
    requires Valid(s.inner) && WithinReach(cfg, s) && CanRun(cfg, s, c)
    ensures Valid(After(cfg, s, c).inner) && WithinReach(cfg, After(cfg, s, c))
  {
    hide Valid, Verifies, ByRecency, PruneStep;
    match c {
      case Touches(d, now) =>
        if d in s.inner.table {
          RefreshKeeps(s.inner, d, now);
          RefreshSize(s.inner, d, now);
        }
      case Gets(d, now) =>
        if d in s.inner.table {
          RefreshKeeps(s.inner, d, now);
          RefreshSize(s.inner, d, now);
        }
        GetCounts(s.inner, d, now);
      case Rejects => RejectCounts(s.inner);
      case Adds(b, now) =>
        AddKeeps(s.inner, b, now);
        OneMoreFits(s.pending, cfg.maxBlockBytes);
        AddSize(s.inner, b, now);
      case Prunes(now, order) => PrunesWithin(cfg, s.inner, now, order);
      case PrunesAfterAdding(now, order) => PrunesWithin(cfg, s.inner, now, order);
      case Clears => ClearKeeps(s.inner);
    }
  }

  lemma RefreshSize(i: Inner, d: Digest, now: nat)
    requires d in i.table
    ensures |Refreshed(i, d, now).table| == |i.table|
  {
    assert Refreshed(i, d, now).table.Keys == i.table.Keys;
  }

  lemma AddSize(i: Inner, b: Block, now: nat)
    requires b.digest !in i.table
    ensures |AddStep(i, b, now).table| == |i.table| + 1
  {
    assert AddStep(i, b, now).table.Keys == i.table.Keys + {b.digest};
  }

  lemma GetCounts(i: Inner, d: Digest, now: nat)
    requires Valid(i) && Valid(TouchStep(i, d, now))
    ensures Valid(GetStep(i, d, now))
  {
  }

  lemma RejectCounts(i: Inner)
    requires Valid(i)
    ensures Valid(RejectStep(i))
  {
  }

  lemma PrunesWithin(cfg: Config, i: Inner, now: nat, order: seq<Digest>)
    requires Valid(i) && ByRecency(i.table, order)
    ensures var p := PruneStep(cfg, i, now, order);
            Valid(p) && p.total <= cfg.maxBytes && |p.table| <= cfg.maxBlocks
  {
    PruneKeeps(cfg, i, now, order);
    PruneMeetsCeilings(cfg, i, now, order);
  }

  // Over every interleaving of the lock sections of any number of threads: the
  // total is the sum of the lengths, recencies are distinct, what was stored is
  // held or was evicted, every entry passed the check, and each thread that
  // still has to prune can put the store over by at most one block.
  lemma {:induction false} EveryInterleavingIsSafe(cfg: Config, ss: seq<Shared>, cs: seq<Section>, n: nat)
    requires Interleaving(cfg, ss, cs) && n < |ss|
    ensures Valid(ss[n].inner) && WithinReach(cfg, ss[n])
  {
    hide Valid, WithinReach, CanRun, After;
    if n == 0 {
      EmptyIsValid();
      EmptyIsWithin(cfg);
    } else {
      EveryInterleavingIsSafe(cfg, ss, cs, n - 1);
      SectionKeeps(cfg, ss[n - 1], cs[n - 1]);
    }
  }

  lemma EmptyIsWithin(cfg: Config)
    ensures WithinReach(cfg, Shared(EMPTY, 0))
  {
  }

  // ---------- A run that takes more than it should ----------

  // Two insertions, one after the other: three bytes, and two more after the
  // first block has expired. Neither is over the ceiling of four by itself and
  // without the expired block the newest fits; yet pruning, which counts the
  // excess with the expired block still in it, takes them both.
  lemma OverEviction() returns (cfg: Config, ss: seq<Shared>, a: Block, b: Block, order: seq<Digest>)
    ensures cfg == Config(4, 10, 50, 4) && a.len == 3 && b.len == 2
    ensures Interleaving(cfg, ss, [Adds(a, 0), Adds(b, 100), PrunesAfterAdding(100, order)])
    ensures ss[1].pending == 0 && ss[2].pending == 1 && ss[3].pending == 0
    ensures ByRecency(ss[2].inner.table, order) && Needed(cfg, ss[2].inner, 100, order, 0)
    ensures ss[2].inner.table.Keys == {a.digest, b.digest} && b.digest !in ExpiredIn(cfg, ss[2].inner.table, 100)
    ensures ss[3].inner.table == map[]
  {
    cfg, a, b := Config(4, 10, 50, 4), BytesBlock(Raw, [1, 1, 1]), BytesBlock(Raw, [2, 2]);
    order := [a.digest, b.digest];
    TwoAdded(a, b, order);
    var two := AddStep(AddStep(EMPTY, a, 0), b, 100);
    OverEvicted(cfg, two, order, a, b);
    ss := [Shared(EMPTY, 0), Shared(AddStep(EMPTY, a, 0), 0), Shared(two, 1),
           Shared(PruneStep(cfg, two, 100, order), 0)];
    assert ss[3].inner.table == map[] by { PrunedTable(cfg, two, 100, order); }
    TwoInserts(cfg, a, b, order);
  }

  lemma TwoAdded(a: Block, b: Block, order: seq<Digest>)
    requires a == BytesBlock(Raw, [1, 1, 1]) && b == BytesBlock(Raw, [2, 2]) && order == [a.digest, b.digest]
    ensures a.digest != b.digest && Verifies(a) && Verifies(b)
    ensures var i := AddStep(AddStep(EMPTY, a, 0), b, 100);
            i.table.Keys == {a.digest, b.digest} && |i.table| == 2 && i.total == 5 && ByRecency(i.table, order)
  {
    assert |a.digest.data| == 3 && |b.digest.data| == 2;
    assert order[0] == a.digest && order[1] == b.digest;
    var one := AddStep(EMPTY, a, 0);
    assert one.table.Keys == {a.digest};
    AddSize(EMPTY, a, 0);
    AddSize(one, b, 100);
  }

  lemma PrunedTable(cfg: Config, i: Inner, now: nat, order: seq<Digest>)
    requires forall d :: d in order ==> d in i.table
    ensures PruneStep(cfg, i, now, order).table == i.table - Victims(cfg, i, now, order)
  {
    hide Victims;
  }

  lemma TwoInserts(cfg: Config, a: Block, b: Block, order: seq<Digest>)
    requires cfg == Config(4, 10, 50, 4) && a == BytesBlock(Raw, [1, 1, 1]) && b == BytesBlock(Raw, [2, 2])
    requires order == [a.digest, b.digest] && ByRecency(AddStep(AddStep(EMPTY, a, 0), b, 100).table, order)
    ensures var two := AddStep(AddStep(EMPTY, a, 0), b, 100);
            Interleaving(cfg, [Shared(EMPTY, 0), Shared(AddStep(EMPTY, a, 0), 0), Shared(two, 1),
                               Shared(PruneStep(cfg, two, 100, order), 0)],
                         [Adds(a, 0), Adds(b, 100), PrunesAfterAdding(100, order)])
  {
    TwoAdded(a, b, order);
    hide ByRecency, PruneStep, Verifies;
    var one := AddStep(EMPTY, a, 0);
    var two := AddStep(one, b, 100);
    AddSize(EMPTY, a, 0);
    assert one.table.Keys == {a.digest};
    assert After(cfg, Shared(EMPTY, 0), Adds(a, 0)) == Shared(one, 0);
    assert After(cfg, Shared(one, 0), Adds(b, 100)) == Shared(two, 1);
    ThreeSections(cfg, Shared(EMPTY, 0), Shared(one, 0), Shared(two, 1), Adds(a, 0), Adds(b, 100),
                  PrunesAfterAdding(100, order));
  }

  lemma ThreeSections(cfg: Config, s0: Shared, s1: Shared, s2: Shared, c0: Section, c1: Section, c2: Section)
    requires s0 == Shared(EMPTY, 0) && CanRun(cfg, s0, c0) && s1 == After(cfg, s0, c0)
    requires CanRun(cfg, s1, c1) && s2 == After(cfg, s1, c1) && CanRun(cfg, s2, c2)
    ensures Interleaving(cfg, [s0, s1, s2, After(cfg, s2, c2)], [c0, c1, c2])
  {
    hide CanRun, After;
  }

  lemma OverEvicted(cfg: Config, i: Inner, order: seq<Digest>, a: Block, b: Block)
    requires a == BytesBlock(Raw, [1, 1, 1]) && b == BytesBlock(Raw, [2, 2]) && a.digest != b.digest
    requires cfg == Config(4, 10, 50, 4) && order == [a.digest, b.digest]
    requires i == AddStep(AddStep(EMPTY, a, 0), b, 100) && ByRecency(i.table, order)
    ensures Needed(cfg, i, 100, order, 0) && b.digest !in ExpiredIn(cfg, i.table, 100)
    ensures i.table.Keys == {a.digest, b.digest} && i.table - Victims(cfg, i, 100, order) == map[]
  {
    assert i.table.Keys == {a.digest, b.digest};
    assert ExpiredIn(cfg, i.table, 100) == {a.digest};
    assert order[1..] == [b.digest] && [b.digest][1..] == [];
    BytesPlus(map[], b.digest, i.table[b.digest]);
    assert i.table - {a.digest} == map[][b.digest := i.table[b.digest]];
    assert Evict(i.table, [b.digest], {a.digest}, 1, 0) == {a.digest} + {b.digest};
  }
}

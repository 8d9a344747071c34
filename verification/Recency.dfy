// What recency means over a whole run: a block's rank and time are those of its
// last use, so that what pruning evicts is what was used least recently.

module Recency {
  import opened Blocks
  import opened Stores
  import Programs

  // ---------- Uses, read off the run ----------

  // A section uses a block by adding it, or by touching or getting it while it
  // is held.
  predicate Uses(s: Shared, c: Section, d: Digest) {
    match c
    case Touches(e, _) => e == d && d in s.inner.table
    case Gets(e, _) => e == d && d in s.inner.table
    case Adds(b, _) => b.digest == d
    case _ => false
  }

  function TimeOf(c: Section): nat {
    match c
    case Touches(_, now) => now
    case Gets(_, now) => now
    case Adds(_, now) => now
    case _ => 0
  }

  // Before state `n`, section `j` was the last that used `d`.
  ghost predicate LastUse(ss: seq<Shared>, cs: seq<Section>, n: nat, d: Digest, j: nat) {
    && j < n <= |cs| < |ss| && Uses(ss[j], cs[j], d)
    && forall k :: j < k < n ==> !Uses(ss[k], cs[k], d)
  }

  predicate IsPrune(c: Section) { c.Prunes? || c.PrunesAfterAdding? }

  // ---------- One use ----------

  // A use gives the highest rank there is, and the time of the use; every other
  // block keeps what it had.
  lemma UseRaises(cfg: Config, s: Shared, c: Section, d: Digest)
    requires Valid(s.inner) && CanRun(cfg, s, c) && Uses(s, c, d)
    ensures var t, u := s.inner.table, After(cfg, s, c).inner.table;
            && d in u && u[d].at == TimeOf(c)
            && u.Keys == t.Keys + {d}
            && forall e :: e in t && e != d ==> u[e] == t[e] && u[e].rank < u[d].rank
    ensures var i := After(cfg, s, c).inner; i.clock > s.inner.clock && i.table[d].rank == i.clock
  {
    hide Counted, AllVerify, Verifies;
  }

  // Whatever else happens, a block that stays keeps its rank and its time; and
  // nothing goes but by pruning or clearing.
  lemma OthersStay(cfg: Config, s: Shared, c: Section, d: Digest)
    requires CanRun(cfg, s, c) && !Uses(s, c, d)
    ensures var t, u := s.inner.table, After(cfg, s, c).inner.table;
            && (d in u ==> d in t && u[d] == t[d])
            && (d in t && d !in u ==> IsPrune(c) || c.Clears?)
    ensures After(cfg, s, c).inner.clock >= s.inner.clock
  {
    hide Victims, TotalBytes, Verifies;
  }

  // ---------- Whole runs ----------

  lemma OneStep(cfg: Config, ss: seq<Shared>, cs: seq<Section>, n: nat)
    requires Interleaving(cfg, ss, cs) && n < |cs|
    ensures CanRun(cfg, ss[n], cs[n]) && ss[n + 1] == After(cfg, ss[n], cs[n]) && Valid(ss[n].inner)
  {
    hide Valid, CanRun, After;
    EveryInterleavingIsSafe(cfg, ss, cs, n);
  }

  lemma {:induction false} ClockGrows(cfg: Config, ss: seq<Shared>, cs: seq<Section>, m: nat, n: nat)
    requires Interleaving(cfg, ss, cs) && m <= n < |ss|
    ensures ss[m].inner.clock <= ss[n].inner.clock
  {
    hide Valid, CanRun, After, Interleaving;
    if m < n {
      IsLong(cfg, ss, cs);
      ClockGrows(cfg, ss, cs, m, n - 1);
      OneStep(cfg, ss, cs, n - 1);
      ClockSteps(cfg, ss[n - 1], cs[n - 1]);
    }
  }

  lemma IsLong(cfg: Config, ss: seq<Shared>, cs: seq<Section>)
    requires Interleaving(cfg, ss, cs)
    ensures |ss| == |cs| + 1 && ss[0] == Shared(EMPTY, 0)
  {
    hide CanRun, After;
  }

  lemma ClockSteps(cfg: Config, s: Shared, c: Section)
    requires CanRun(cfg, s, c)
    ensures After(cfg, s, c).inner.clock >= s.inner.clock
  {
    hide Victims, TotalBytes, Verifies;
  }

  // Every held block has a last use, and carries its time.
  lemma {:induction false} HeldWasUsed(cfg: Config, ss: seq<Shared>, cs: seq<Section>, n: nat, d: Digest)
    returns (j: nat)
    requires Interleaving(cfg, ss, cs) && n < |ss| && d in ss[n].inner.table
    ensures LastUse(ss, cs, n, d, j)
    ensures ss[n].inner.table[d].at == TimeOf(cs[j]) && ss[n].inner.table[d].rank == ss[j + 1].inner.clock
    ensures ss[j].inner.clock < ss[j + 1].inner.clock
  {
    hide Valid, CanRun, After, Interleaving;
    IsLong(cfg, ss, cs);
    if n > 0 {
      OneStep(cfg, ss, cs, n - 1);
      if Uses(ss[n - 1], cs[n - 1], d) {
        UseRaises(cfg, ss[n - 1], cs[n - 1], d);
        j := n - 1;
      } else {
        OthersStay(cfg, ss[n - 1], cs[n - 1], d);
        j := HeldWasUsed(cfg, ss, cs, n - 1, d);
      }
    }
  }

  lemma OneLastUse(ss: seq<Shared>, cs: seq<Section>, n: nat, d: Digest, j: nat, k: nat)
    requires LastUse(ss, cs, n, d, j) && LastUse(ss, cs, n, d, k)
    ensures j == k
  {
  }

  // Of two blocks held at any moment of any run, the one used later ranks
  // higher: ranks order the blocks by their last use, whatever has been added,
  // evicted or cleared in between.
  lemma RankIsLastUse(cfg: Config, ss: seq<Shared>, cs: seq<Section>, n: nat, d: Digest, e: Digest, j: nat, k: nat)
    requires Interleaving(cfg, ss, cs) && n < |ss| && d in ss[n].inner.table && e in ss[n].inner.table
    requires LastUse(ss, cs, n, d, j) && LastUse(ss, cs, n, e, k)
    ensures var t := ss[n].inner.table;
            && (t[d].rank < t[e].rank <==> j < k)
            && t[d].at == TimeOf(cs[j]) && t[e].at == TimeOf(cs[k])
  {
    hide Valid, CanRun, After, Interleaving, LastUse;
    var j' := HeldWasUsed(cfg, ss, cs, n, d);
    var k' := HeldWasUsed(cfg, ss, cs, n, e);
    OneLastUse(ss, cs, n, d, j, j');
    OneLastUse(ss, cs, n, e, k, k');
    UsedBefore(ss, cs, n, d, j);
    UsedBefore(ss, cs, n, e, k);
    IsLong(cfg, ss, cs);
    if j < k {
      ClockGrows(cfg, ss, cs, j + 1, k);
    } else {
      ClockGrows(cfg, ss, cs, k + 1, j + 1);
    }
  }

  lemma UsedBefore(ss: seq<Shared>, cs: seq<Section>, n: nat, d: Digest, j: nat)
    requires LastUse(ss, cs, n, d, j)
    ensures j < n <= |cs| < |ss|
  {
  }

  // ---------- What pruning makes of it ----------

  function PruneTime(c: Section): nat {
    match c
    case Prunes(now, _) => now
    case PrunesAfterAdding(now, _) => now
    case _ => 0
  }

  predicate TooOld(cfg: Config, used: nat, now: nat) { cfg.ttl > 0 && now > used + cfg.ttl }

  lemma {:induction false} StandingIncreasing(t: Table, order: seq<Digest>, gone: set<Digest>)
    requires Increasing(t, order)
    ensures Increasing(t, Standing(order, gone))
  {
    if order != [] {
      var rest := Standing(order[1..], gone);
      assert Increasing(t, order[1..]) by {
        assert forall k :: 0 <= k < |order| - 1 ==> order[1..][k] == order[k + 1];
      }
      StandingIncreasing(t, order[1..], gone);
      StandingMembers(order[1..], gone);
      forall k | 0 <= k < |rest| ensures t[order[0]].rank < t[rest[k]].rank {
        assert rest[k] in rest;
        var b :| 0 <= b < |order[1..]| && order[1..][b] == rest[k];
        assert order[b + 1] == rest[k];
      }
    }
  }

  lemma RecencyIncreases(t: Table, order: seq<Digest>)
    requires ByRecency(t, order)
    ensures Increasing(t, order)
  {
  }

  lemma CutIncreases(t: Table, ds: seq<Digest>, k: nat, d: Digest, e: Digest)
    requires Increasing(t, ds) && k <= |ds| && d in Programs.Elements(ds[..k]) && e in ds
    requires e !in Programs.Elements(ds[..k])
    ensures d in t && e in t && t[d].rank < t[e].rank
  {
    assert forall x :: 0 <= x < k ==> ds[x] in Programs.Elements(ds[..k]) by {
      assert forall x :: 0 <= x < k ==> ds[..k][x] == ds[x];
    }
    var a :| 0 <= a < k && ds[..k][a] == d;
    var b :| 0 <= b < |ds| && ds[b] == e;
  }

  // A victim that has not expired ranks below every block that stays.
  lemma VictimsAreOlder(cfg: Config, i: Inner, now: nat, order: seq<Digest>, d: Digest, e: Digest)
    requires ByRecency(i.table, order) && d in i.table && e in i.table
    requires d in Victims(cfg, i, now, order) && e !in Victims(cfg, i, now, order)
    ensures d in ExpiredIn(cfg, i.table, now) || i.table[d].rank < i.table[e].rank
  {
    hide ByRecency, Victims, ExpiredIn, Standing, Shortest, Increasing, Programs.Elements;
    var k := VictimsAre(cfg, i, now, order);
    var expired := ExpiredIn(cfg, i.table, now);
    RecencyIncreases(i.table, order);
    StandingIncreasing(i.table, order, expired);
    if d !in expired {
      CutIncreases(i.table, Standing(order, expired), k, d, e);
    }
  }

  lemma ExpiredGo(cfg: Config, i: Inner, now: nat, order: seq<Digest>, d: Digest)
    requires ByRecency(i.table, order) && d in i.table
    ensures d in ExpiredIn(cfg, i.table, now) <==> TooOld(cfg, i.table[d].at, now)
    ensures d in ExpiredIn(cfg, i.table, now) ==> d in Victims(cfg, i, now, order)
  {
    hide Victims, Standing, Shortest;
    var k := VictimsAre(cfg, i, now, order);
  }

  lemma PrunesTo(cfg: Config, s: Shared, c: Section) returns (order: seq<Digest>)
    requires CanRun(cfg, s, c) && IsPrune(c)
    ensures ByRecency(s.inner.table, order)
    ensures After(cfg, s, c).inner.table == s.inner.table - Victims(cfg, s.inner, PruneTime(c), order)
  {
    hide Victims, ByRecency;
    order := c.order;
  }

  // Pruning, at any moment of any run, takes every block whose last use is
  // further back than the limit; any other block it takes was used less recently
  // than every block it leaves.
  lemma EvictsLeastRecentlyUsed(cfg: Config, ss: seq<Shared>, cs: seq<Section>, n: nat, d: Digest, j: nat)
    requires Interleaving(cfg, ss, cs) && n < |cs| && IsPrune(cs[n])
    requires d in ss[n].inner.table && LastUse(ss, cs, n, d, j)
    ensures TooOld(cfg, TimeOf(cs[j]), PruneTime(cs[n])) ==> d !in ss[n + 1].inner.table
    ensures d !in ss[n + 1].inner.table && !TooOld(cfg, TimeOf(cs[j]), PruneTime(cs[n])) ==>
              forall e, k :: e in ss[n + 1].inner.table && LastUse(ss, cs, n, e, k) ==> j < k
  {
    hide *;
    UsedBefore(ss, cs, n, d, j);
    OneStep(cfg, ss, cs, n);
    IsLong(cfg, ss, cs);
    var i, now := ss[n].inner, PruneTime(cs[n]);
    var order := PrunesTo(cfg, ss[n], cs[n]);
    RankIsLastUse(cfg, ss, cs, n, d, d, j, j);
    ExpiredGo(cfg, i, now, order, d);
    if d !in ss[n + 1].inner.table && !TooOld(cfg, TimeOf(cs[j]), now) {
      forall e, k | e in ss[n + 1].inner.table && LastUse(ss, cs, n, e, k) ensures j < k {
        VictimsAreOlder(cfg, i, now, order, d, e);
        RankIsLastUse(cfg, ss, cs, n, d, e, j, k);
      }
    }
  }

  // Nothing else takes a block away, but clearing all of them.
  lemma OnlyPruningEvicts(cfg: Config, ss: seq<Shared>, cs: seq<Section>, n: nat, d: Digest)
    requires Interleaving(cfg, ss, cs) && n < |cs| && d in ss[n].inner.table && d !in ss[n + 1].inner.table
    ensures IsPrune(cs[n]) || (cs[n].Clears? && ss[n + 1].inner.table == map[])
  {
    hide Valid, CanRun, After, Interleaving;
    IsLong(cfg, ss, cs);
    OneStep(cfg, ss, cs, n);
    if Uses(ss[n], cs[n], d) {
      UseRaises(cfg, ss[n], cs[n], d);
    } else {
      OthersStay(cfg, ss[n], cs[n], d);
      assert cs[n].Clears? ==> After(cfg, ss[n], cs[n]).inner.table == map[] by {
        ClearsAll(cfg, ss[n], cs[n]);
      }
    }
  }

  lemma ClearsAll(cfg: Config, s: Shared, c: Section)
    requires CanRun(cfg, s, c)
    ensures c.Clears? ==> After(cfg, s, c).inner.table == map[]
  {
    hide Victims, TotalBytes;
  }

  // ---------- Statistics ----------

  ghost function Tally(ss: seq<Shared>, cs: seq<Section>, n: nat, counts: (Shared, Section) -> bool): nat
    requires n <= |cs| && n <= |ss|
  {
    if n == 0 then 0
    else Tally(ss, cs, n - 1, counts) + if counts(ss[n - 1], cs[n - 1]) then 1 else 0
  }

  function Found(): (Shared, Section) -> bool { (s: Shared, c: Section) => c.Gets? && c.d in s.inner.table }
  function Absent(): (Shared, Section) -> bool { (s: Shared, c: Section) => c.Gets? && c.d !in s.inner.table }
  function Added(): (Shared, Section) -> bool { (s: Shared, c: Section) => c.Adds? }
  function Refused(): (Shared, Section) -> bool { (s: Shared, c: Section) => c.Rejects? }

  function BytesAdded(cs: seq<Section>): nat {
    if cs == [] then 0
    else
      var last := cs[|cs| - 1];
      BytesAdded(cs[..|cs| - 1]) + if last.Adds? then last.b.len else 0
  }

  // Over a whole run the statistics count what happened.
  lemma {:induction false} EverythingIsCounted(cfg: Config, ss: seq<Shared>, cs: seq<Section>, n: nat)
    requires Interleaving(cfg, ss, cs) && n < |ss|
    ensures var stats := ss[n].inner.stats;
            && n <= |cs|
            && stats.hits == Tally(ss, cs, n, Found()) && stats.misses == Tally(ss, cs, n, Absent())
            && stats.stored == Tally(ss, cs, n, Added()) && stats.rejected == Tally(ss, cs, n, Refused())
            && stats.storedBytes == BytesAdded(cs[..n])
  {
    hide Valid, CanRun, After, Interleaving, Found, Absent, Added, Refused;
    IsLong(cfg, ss, cs);
    if n > 0 {
      EverythingIsCounted(cfg, ss, cs, n - 1);
      OneStep(cfg, ss, cs, n - 1);
      OneIsCounted(cfg, ss[n - 1], cs[n - 1]);
      assert cs[..n][..n - 1] == cs[..n - 1];
    }
  }

  lemma OneIsCounted(cfg: Config, s: Shared, c: Section)
    requires CanRun(cfg, s, c)
    ensures var a, b := s.inner.stats, After(cfg, s, c).inner.stats;
            && b.hits == a.hits + (if Found()(s, c) then 1 else 0)
            && b.misses == a.misses + (if Absent()(s, c) then 1 else 0)
            && b.stored == a.stored + (if Added()(s, c) then 1 else 0)
            && b.rejected == a.rejected + (if Refused()(s, c) then 1 else 0)
            && b.storedBytes == a.storedBytes + (if c.Adds? then c.b.len else 0)
  {
    hide Victims, TotalBytes, Verifies;
  }
}

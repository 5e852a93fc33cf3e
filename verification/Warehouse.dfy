/**
 The analyzer's data warehouse: the start and end reports for throughput and for latency, filled by
 reports and drained by compute rounds that walk their tables in an arbitrary order.
 */
module Warehouse {
  import opened Common
  import Throughput

  type Peer = Throughput.Peer

  type Hash = Throughput.Hash

  const LATENCY_LIMIT := 100000

  datatype Row = Row(peer: Peer, hash: Hash, latency: u64)

  function KeyOf(r: Row): (Peer, Hash) {
    (r.peer, r.hash)
  }

  // ----- latency of one end

  function WrappingSub(a: u64, b: u64): u64 {
    if a >= b then a - b else a - b + U64_LIMIT
  }

  /** A row is emitted for the pair of times. */
  predicate Emits(start: u64, completed: u64) {
    WrappingSub(completed, start) <= LATENCY_LIMIT
  }

  /** The emitted latencies of a start are true differences, for every completion time, exactly if the
      start lies more than the limit below the largest word. */
  lemma LatencyExact(start: u64)
    ensures (forall completed: u64 | Emits(start, completed) :: WrappingSub(completed, start) == completed - start)
      <==> start < U64_LIMIT - 100000
  {
    if start >= U64_LIMIT - LATENCY_LIMIT {
      var completed: u64 := start + LATENCY_LIMIT - U64_LIMIT;
      assert Emits(start, completed);
      assert WrappingSub(completed, start) != completed - start;
    }
  }

  // ----- one latency round

  type Times = map<Hash, u64>

  type Completions = map<(Peer, Hash), u64>

  predicate Emitted(starts: Times, ends: Completions, k: (Peer, Hash)) {
    k in ends && k.1 in starts && Emits(starts[k.1], ends[k])
  }

  /** The ends that stay: no start yet, or a latency over the limit. */
  function Kept(starts: Times, ends: Completions): Completions {
    map k | k in ends && !Emitted(starts, ends, k) :: ends[k]
  }

  /** The rows of a round: one for each emitted end, with its latency, in any order. */
  ghost predicate AreRows(starts: Times, ends: Completions, rows: seq<Row>) {
    && (forall i, j | 0 <= i < j < |rows| :: KeyOf(rows[i]) != KeyOf(rows[j]))
    && (forall i | 0 <= i < |rows| ::
          var k := KeyOf(rows[i]);
          Emitted(starts, ends, k) && rows[i].latency == WrappingSub(ends[k], starts[k.1]))
    && (forall k | Emitted(starts, ends, k) :: Row(k.0, k.1, WrappingSub(ends[k], starts[k.1])) in rows)
  }

  /** Every pending end becomes exactly one row or is kept unchanged, never both. */
  lemma LatencyPartition(starts: Times, ends: Completions, rows: seq<Row>)
    requires AreRows(starts, ends, rows)
    ensures |rows| + |Kept(starts, ends)| == |ends|
    ensures forall k | k in ends :: k in Kept(starts, ends) <==> k !in KeysOf(rows)
    ensures forall i | 0 <= i < |rows| :: rows[i].latency <= 100000
  {
    var keys, kept := KeysOf(rows), Kept(starts, ends);
    KeysDistinct(rows);
    forall k ensures k in keys <==> Emitted(starts, ends, k) {
      if Emitted(starts, ends, k) {
        var row := Row(k.0, k.1, WrappingSub(ends[k], starts[k.1]));
        assert row in rows && KeyOf(row) == k;
      }
    }
    assert ends.Keys == keys + kept.Keys && keys * kept.Keys == {};
    MapSize(ends);
    MapSize(kept);
    forall k | k in ends ensures k in kept <==> k !in keys {
    }
  }

  /** A row is emitted exactly for a pending end with a start, if the difference of their times modulo 2^64 is at most
      100000; its latency is that difference. */
  lemma RowsExactly(starts: Times, ends: Completions, rows: seq<Row>, p: Peer, h: Hash, latency: u64)
    requires AreRows(starts, ends, rows)
    ensures Row(p, h, latency) in rows <==>
      (p, h) in ends && h in starts && latency <= 100000 && latency == (ends[(p, h)] - starts[h]) % U64_LIMIT
  {
    if (p, h) in ends && h in starts {
      assert WrappingSub(ends[(p, h)], starts[h]) == (ends[(p, h)] - starts[h]) % U64_LIMIT;
      assert KeyOf(Row(p, h, latency)) == (p, h);
      if Emitted(starts, ends, (p, h)) {
        assert Row(p, h, WrappingSub(ends[(p, h)], starts[h])) in rows;
      }
    }
  }

  function KeysOf(rows: seq<Row>): set<(Peer, Hash)> {
    set r | r in rows :: KeyOf(r)
  }

  lemma {:induction false} KeysDistinct(rows: seq<Row>)
    requires forall i, j | 0 <= i < j < |rows| :: KeyOf(rows[i]) != KeyOf(rows[j])
    ensures |KeysOf(rows)| == |rows|
  {
    if rows != [] {
      var n := |rows| - 1;
      var front, last := rows[..n], rows[n];
      KeysDistinct(front);
      assert rows == front + [last];
      assert KeysOf(rows) == KeysOf(front) + {KeyOf(last)};
    }
  }

  lemma MapSize(m: Completions)
    ensures |m| == |m.Keys|
  {
  }

  /** The loop of a latency round over the ends in any order; what is left stays pending. */
  method EmitRows(starts: Times, ends: Completions) returns (left: Completions, rows: seq<Row>)
    ensures AreRows(starts, ends, rows)
    ensures left == Kept(starts, ends)
  {
    var todo := ends.Keys;
    left, rows := ends, [];
    while todo != {}
      invariant todo <= ends.Keys
      invariant forall i, j | 0 <= i < j < |rows| :: KeyOf(rows[i]) != KeyOf(rows[j])
      invariant forall i | 0 <= i < |rows| ::
        var k := KeyOf(rows[i]);
        k !in todo && Emitted(starts, ends, k) && rows[i].latency == WrappingSub(ends[k], starts[k.1])
      invariant forall k | Emitted(starts, ends, k) && k !in todo ::
          Row(k.0, k.1, WrappingSub(ends[k], starts[k.1])) in rows
      invariant forall k :: k in left <==> k in ends && (k in todo || !Emitted(starts, ends, k))
      invariant forall k | k in left :: left[k] == ends[k]
      decreases |todo|
    {
      var k :| k in todo;
      todo := todo - {k};
      if k.1 in starts {
        var latency := WrappingSub(ends[k], starts[k.1]);
        if latency <= LATENCY_LIMIT {
          rows := rows + [Row(k.0, k.1, latency)];
          left := left - {k};
        }
      }
    }
  }

  // ----- one throughput round

  function UpdateRequestCount(counts: map<Peer, nat>, p: Peer): map<Peer, nat> {
    if p in counts then counts[p := counts[p] + 1] else counts[p := 1]
  }

  /** The loop of a throughput round over the ends in any order; what is left stays pending. */
  method CountMatched(starts: set<Hash>, ends: set<(Peer, Hash)>, counts: map<Peer, nat>, ghost round: nat)
    returns (left: set<(Peer, Hash)>, counts': map<Peer, nat>)
    ensures var t := Throughput.Table(starts, ends, counts, round);
      left == ends - Throughput.Matched(t) && Throughput.Counted(t, counts')
  {
    left, counts' := ends, counts;
    ghost var t := Throughput.Table(starts, ends, counts, round);
    ghost var seen: set<(Peer, Hash)> := {};
    var todo := ends;
    ProgressStart(t);
    while todo != {}
      invariant Visited(t, seen, todo)
      invariant Progress(t, seen, left, counts')
      decreases |todo|
    {
      var k :| k in todo;
      VisitedMore(t, seen, todo, k);
      todo := todo - {k};
      if k.1 in starts {
        ProgressMore(t, seen, left, counts', k);
        seen := seen + {k};
        counts' := UpdateRequestCount(counts', k.0);
        left := left - {k};
      }
    }
    ProgressEnd(t, seen, left, counts');
  }

  lemma RoundDone(t: Throughput.Table, left: set<(Peer, Hash)>, counts: map<Peer, nat>)
    requires left == t.ends - Throughput.Matched(t) && Throughput.Counted(t, counts)
    ensures Throughput.Next(t, Throughput.Compute, Throughput.Table({} + t.starts, {} + left, counts, t.round + 1))
  {
    assert {} + t.starts == t.starts && {} + left == left;
  }

  // ----- the object

  class DataWarehouse {
    var tStart: set<Hash>
    var tEnd: set<(Peer, Hash)>
    var tStartComputing: set<Hash>
    var tEndComputing: set<(Peer, Hash)>
    var lStart: Times
    var lEnd: Completions
    var lStartComputing: Times
    var lEndComputing: Completions
    var counts: map<Peer, nat>
    var round: nat

    function Table(): Throughput.Table
      reads this
    {
      Throughput.Table(tStart, tEnd, counts, round)
    }

    /** Between calls the computing tables are empty. */
    ghost predicate Valid()
      reads this
    {
      tStartComputing == {} && tEndComputing == {} && lStartComputing == map[] && lEndComputing == map[]
    }

    constructor ()
      ensures Valid() && Table() == Throughput.EMPTY && lStart == map[] && lEnd == map[]
    {
      tStart, tEnd, tStartComputing, tEndComputing := {}, {}, {}, {};
      lStart, lEnd, lStartComputing, lEndComputing := map[], map[], map[], map[];
      counts, round := map[], 0;
    }

    method StoreStart(h: Hash, time: u64)
      requires Valid()
      modifies `tStart, `lStart
      ensures Valid() && Throughput.Next(old(Table()), Throughput.Start(h), Table())
      ensures lStart == old(lStart)[h := time]
    {
      tStart := tStart + {h};
      lStart := lStart[h := time];
    }

    method StoreEnd(p: Peer, h: Hash, time: u64)
      requires Valid()
      modifies `tEnd, `lEnd
      ensures Valid() && Throughput.Next(old(Table()), Throughput.End(p, h), Table())
      ensures lEnd == old(lEnd)[(p, h) := time]
    {
      tEnd := tEnd + {(p, h)};
      lEnd := lEnd[(p, h) := time];
    }

    /** A throughput round. */
    method ComputeThroughput()
      requires Valid()
      modifies `tStart, `tEnd, `tStartComputing, `tEndComputing, `counts, `round
      ensures Valid() && Throughput.Next(old(Table()), Throughput.Compute, Table())
    {
      tStartComputing := tStart;
      tStart := {};
      tEndComputing := tEnd;
      tEnd := {};
      tEndComputing, counts := CountMatched(tStartComputing, tEndComputing, counts, round);
      ghost var t := Throughput.Table(tStartComputing, old(tEnd), old(counts), round);
      assert t == old(Table());
      RoundDone(t, tEndComputing, counts);
      round := round + 1;
      tStart := tStart + tStartComputing;
      tEnd := tEnd + tEndComputing;
      tStartComputing := {};
      tEndComputing := {};
    }

    /** A latency round. */
    method ComputeLatency() returns (rows: seq<Row>)
      requires Valid()
      modifies `lStart, `lEnd, `lStartComputing, `lEndComputing
      ensures Valid() && lStart == old(lStart) && lEnd == Kept(old(lStart), old(lEnd))
      ensures AreRows(old(lStart), old(lEnd), rows)
    {
      lStartComputing := lStart;
      lStart := map[];
      lEndComputing := lEnd;
      lEnd := map[];
      lEndComputing, rows := EmitRows(lStartComputing, lEndComputing);
      lStart := lStart + lStartComputing;
      lEnd := lEnd + lEndComputing;
      lStartComputing := map[];
      lEndComputing := map[];
    }

    method Reset()
      modifies this
      ensures Valid() && Throughput.Next(old(Table()), Throughput.Reset, Table()) && lStart == map[] && lEnd == map[]
    {
      tStart, tEnd, tStartComputing, tEndComputing := {}, {}, {}, {};
      lStart, lEnd, lStartComputing, lEndComputing := map[], map[], map[], map[];
      counts, round := map[], 0;
    }
  }

  /** A throughput round that has counted the ends `seen`. */
  ghost predicate Progress(t: Throughput.Table, seen: set<(Peer, Hash)>, ends: set<(Peer, Hash)>, counts: map<Peer,
      nat>)
  {
    && ends == t.ends - seen && Tallied(t.counts, seen, counts)
  }

  ghost predicate Tallied(before: map<Peer, nat>, seen: set<(Peer, Hash)>, counts: map<Peer, nat>) {
    && (forall p :: Throughput.CountOf(counts, p) == Throughput.CountOf(before, p) + |Throughput.Of(seen, p)|)
    && (forall p | p in counts :: p in before || Throughput.Of(seen, p) != {})
  }

  lemma TalliedMore(before: map<Peer, nat>, seen: set<(Peer, Hash)>, counts: map<Peer, nat>, k: (Peer, Hash))
    requires Tallied(before, seen, counts) && k !in seen
    ensures Tallied(before, seen + {k}, UpdateRequestCount(counts, k.0))
  {
    OneMore(seen, k);
    var counts' := UpdateRequestCount(counts, k.0);
    forall p ensures Throughput.CountOf(counts', p) == Throughput.CountOf(before, p) + |Throughput.Of(seen + {k}, p)| {
      assert Throughput.CountOf(counts, p) == Throughput.CountOf(before, p) + |Throughput.Of(seen, p)|;
    }
  }

  /** The matched ends are those counted and some of those still to visit. */
  ghost predicate Visited(t: Throughput.Table, seen: set<(Peer, Hash)>, todo: set<(Peer, Hash)>) {
    todo <= t.ends && todo !! seen && seen <= Throughput.Matched(t) <= seen + todo
  }

  lemma VisitedMore(t: Throughput.Table, seen: set<(Peer, Hash)>, todo: set<(Peer, Hash)>, k: (Peer, Hash))
    requires Visited(t, seen, todo) && k in todo
    ensures k !in seen && Visited(t, if k.1 in t.starts then seen + {k} else seen, todo - {k})
  {
  }

  lemma ProgressStart(t: Throughput.Table)
    ensures Visited(t, {}, t.ends) && Progress(t, {}, t.ends, t.counts)
  {
    assert forall p :: Throughput.Of({}, p) == {};
  }

  lemma ProgressMore(t: Throughput.Table, seen: set<(Peer, Hash)>, ends: set<(Peer, Hash)>, counts: map<Peer, nat>,
      k: (Peer, Hash))
    requires Progress(t, seen, ends, counts) && k !in seen
    ensures Progress(t, seen + {k}, ends - {k}, UpdateRequestCount(counts, k.0))
  {
    TalliedMore(t.counts, seen, counts, k);
  }

  lemma ProgressEnd(t: Throughput.Table, seen: set<(Peer, Hash)>, ends: set<(Peer, Hash)>, counts: map<Peer, nat>)
    requires Progress(t, seen, ends, counts) && Visited(t, seen, {})
    ensures ends == t.ends - Throughput.Matched(t) && Throughput.Counted(t, counts)
  {
    assert seen == Throughput.Matched(t);
  }

  lemma OneMore(keys: set<(Peer, Hash)>, k: (Peer, Hash))
    requires k !in keys
    ensures forall p :: Throughput.Of(keys + {k}, p) == if p == k.0 then Throughput.Of(keys, p) + {k.1}
        else Throughput.Of(keys, p)
    ensures k.1 !in Throughput.Of(keys, k.0)
  {
    forall p ensures Throughput.Of(keys + {k}, p) == if p == k.0 then Throughput.Of(keys, p) + {k.1}
        else Throughput.Of(keys, p) {
      assert k in keys + {k};
    }
  }
}

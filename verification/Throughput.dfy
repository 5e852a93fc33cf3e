/**
 The analyzer's request counts: reports of starts and ends arrive in any order, and every compute
 round counts the ends whose start is known and keeps the others for later.
 */
module Throughput {
  import opened Common

  type Peer = nat

  type Hash = nat

  /** Pending reports and the counts per peer since the last reset. */
  datatype Table = Table(starts: set<Hash>, ends: set<(Peer, Hash)>, counts: map<Peer, nat>, round: nat)

  datatype Event = Start(h: Hash) | End(p: Peer, h: Hash) | Compute | Reset

  const EMPTY := Table({}, {}, map[], 0)

  /** The hashes of a set that belong to one peer. */
  function Of(keys: set<(Peer, Hash)>, p: Peer): set<Hash> {
    set k | k in keys && k.0 == p :: k.1
  }

  function Matched(t: Table): set<(Peer, Hash)> {
    set k | k in t.ends && k.1 in t.starts
  }

  function CountOf(counts: map<Peer, nat>, p: Peer): nat {
    if p in counts then counts[p] else 0
  }

  /** A round adds to each peer the number of its matched ends, whatever the order of the table. */
  ghost predicate Counted(t: Table, counts: map<Peer, nat>) {
    && (forall p :: CountOf(counts, p) == CountOf(t.counts, p) + |Of(Matched(t), p)|)
    && (forall p | p in counts :: p in t.counts || Of(Matched(t), p) != {})
  }

  ghost predicate Next(t: Table, e: Event, t': Table) {
    match e
    case Start(h) => t' == t.(starts := t.starts + {h})
    case End(p, h) => t' == t.(ends := t.ends + {(p, h)})
    case Compute => Counted(t, t'.counts) && t' == t.(ends := t.ends - Matched(t), round := t.round + 1,
        counts := t'.counts)
    case Reset => t' == EMPTY
  }

  ghost predicate Run(es: seq<Event>, t: Table)
    decreases |es|, 0
  {
    if es == [] then t == EMPTY else RunThen(es[..|es| - 1], es[|es| - 1], t)
  }

  ghost predicate RunThen(es: seq<Event>, e: Event, t: Table)
    decreases |es|, 1
  {
    exists t0 :: Run(es, t0) && Next(t0, e, t)
  }

  // ----- the batch computation over everything reported since the last reset

  function Starts(es: seq<Event>): set<Hash> {
    if es == [] then {}
    else match es[|es| - 1]
      case Start(h) => Starts(es[..|es| - 1]) + {h}
      case Reset => {}
      case _ => Starts(es[..|es| - 1])
  }

  function Ends(es: seq<Event>): set<(Peer, Hash)> {
    if es == [] then {}
    else match es[|es| - 1]
      case End(p, h) => Ends(es[..|es| - 1]) + {(p, h)}
      case Reset => {}
      case _ => Ends(es[..|es| - 1])
  }

  function Batch(es: seq<Event>): set<(Peer, Hash)> {
    set k | k in Ends(es) && k.1 in Starts(es)
  }

  /** What the last compute round had counted. */
  function Past(es: seq<Event>): set<(Peer, Hash)> {
    if es == [] then {}
    else match es[|es| - 1]
      case Compute => Batch(es[..|es| - 1])
      case Reset => {}
      case _ => Past(es[..|es| - 1])
  }

  /** No end of this peer was reported again after it had been counted. */
  predicate Clean(es: seq<Event>, p: Peer) {
    if es == [] then true
    else match es[|es| - 1]
      case End(q, h) => Clean(es[..|es| - 1], p) && (q == p ==> (q, h) !in Past(es[..|es| - 1]))
      case Reset => true
      case _ => Clean(es[..|es| - 1], p)
  }

  // ----- what every event keeps

  ghost predicate Inv(es: seq<Event>, t: Table, p: Peer) {
    && t.starts == Starts(es)
    && t.ends <= Ends(es) <= t.ends + Past(es)
    && Past(es) <= Batch(es)
    && |Of(Past(es), p)| <= CountOf(t.counts, p)
    && (Clean(es, p) ==> CountOf(t.counts, p) == |Of(Past(es), p)| && Of(t.ends, p) * Of(Past(es), p) == {})
    && (!Clean(es, p) ==> CountOf(t.counts, p) > |Of(Past(es), p)| || Of(t.ends, p) * Of(Past(es), p) != {})
  }

  lemma UnionSize(a: set<Hash>, b: set<Hash>)
    ensures |a + b| + |a * b| == |a| + |b|
  {
    assert a + b == a + (b - a) && b == (b - a) + (a * b);
  }

  lemma {:induction false} Monotone(es: seq<Event>, e: Event)
    requires !e.Reset?
    ensures var es' := es + [e];
      && es'[..|es|] == es
      && Starts(es) <= Starts(es') && Ends(es) <= Ends(es') && Batch(es) <= Batch(es')
  {
    assert (es + [e])[..|es|] == es;
  }

  /** A compute round: the ends counted now and those counted before make up the batch. */
  lemma {:induction false} ComputeCounts(es: seq<Event>, t: Table, p: Peer)
    requires Inv(es, t, p)
    ensures Of(Batch(es), p) == Of(Past(es), p) + Of(Matched(t), p)
    ensures |Of(Batch(es), p)| + |Of(Past(es), p) * Of(Matched(t), p)| == |Of(Past(es), p)| + |Of(Matched(t), p)|
    ensures Of(Past(es), p) * Of(Matched(t), p) == Of(t.ends, p) * Of(Past(es), p)
  {
    forall h ensures h in Of(Batch(es), p) <==> h in Of(Past(es), p) + Of(Matched(t), p) {
      assert (p, h) in Batch(es) <==> (p, h) in Past(es) || (p, h) in Matched(t);
      assert h in Of(Batch(es), p) <==> (p, h) in Batch(es);
      assert h in Of(Past(es), p) <==> (p, h) in Past(es);
      assert h in Of(Matched(t), p) <==> (p, h) in Matched(t);
    }
    UnionSize(Of(Past(es), p), Of(Matched(t), p));
    forall h ensures h in Of(Past(es), p) * Of(Matched(t), p) <==> h in Of(t.ends, p) * Of(Past(es), p) {
      assert h in Of(Past(es), p) <==> (p, h) in Past(es);
      assert h in Of(Matched(t), p) <==> (p, h) in Matched(t);
      assert h in Of(t.ends, p) <==> (p, h) in t.ends;
    }
  }

  lemma {:induction false} ComputeKeeps(es: seq<Event>, t: Table, t': Table, p: Peer)
    requires Inv(es, t, p) && Next(t, Compute, t')
    ensures Inv(es + [Compute], t', p)
    ensures CountOf(t'.counts, p) == |Of(Batch(es), p)| <==> Clean(es, p)
  {
    var es' := es + [Compute];
    Monotone(es, Compute);
    ComputeCounts(es, t, p);
    assert Past(es') == Batch(es) && Batch(es') == Batch(es);
    assert t'.ends + Batch(es) >= Ends(es);
    forall h ensures h !in Of(t'.ends, p) * Of(Batch(es), p) {
      assert h in Of(t'.ends, p) <==> (p, h) in t'.ends;
      assert h in Of(Batch(es), p) <==> (p, h) in Batch(es);
    }
    if Of(t.ends, p) * Of(Past(es), p) != {} {
      assert |Of(Past(es), p) * Of(Matched(t), p)| > 0;
    }
  }

  lemma EndKeeps(es: seq<Event>, t: Table, t': Table, q: Peer, h: Hash, p: Peer)
    requires Inv(es, t, p) && Next(t, End(q, h), t')
    ensures Inv(es + [End(q, h)], t', p)
  {
    Monotone(es, End(q, h));
    assert Past(es + [End(q, h)]) == Past(es);
    OfMore(t.ends, q, h, p);
    assert h in Of(Past(es), p) <==> (p, h) in Past(es);
    if q == p && (p, h) in Past(es) {
      assert h in Of(t'.ends, p) * Of(Past(es), p);
    } else {
      assert Of(t'.ends, p) * Of(Past(es), p) == Of(t.ends, p) * Of(Past(es), p);
    }
  }

  lemma OfMore(keys: set<(Peer, Hash)>, q: Peer, h: Hash, p: Peer)
    ensures Of(keys + {(q, h)}, p) == if q == p then Of(keys, p) + {h} else Of(keys, p)
  {
    assert (q, h) in keys + {(q, h)};
  }

  lemma NextKeeps(es: seq<Event>, t: Table, e: Event, t': Table, p: Peer)
    requires Inv(es, t, p) && Next(t, e, t')
    ensures Inv(es + [e], t', p)
  {
    match e
    case Start(h) =>
      Monotone(es, e);
      assert Past(es + [e]) == Past(es);
    case End(q, h) => EndKeeps(es, t, t', q, h, p);
    case Compute => ComputeKeeps(es, t, t', p);
    case Reset => assert Of({}, p) == {};
  }

  lemma {:induction false} RunInv(es: seq<Event>, t: Table, p: Peer)
    requires Run(es, t)
    ensures Inv(es, t, p)
    decreases |es|
  {
    if es == [] {
      assert Of({}, p) == {};
    } else {
      var before, e := es[..|es| - 1], es[|es| - 1];
      var t0 :| Run(before, t0) && Next(t0, e, t);
      RunInv(before, t0, p);
      NextKeeps(before, t0, e, t, p);
      assert before + [e] == es;
    }
  }

  /** After a compute round a peer's count is the number of its ends, since the reset, whose start was
      reported: if and only if no end was reported again after it had been counted. Otherwise it is
      larger. */
  lemma {:induction false} IncrementalIsBatch(es: seq<Event>, t: Table, p: Peer)
    requires |es| > 0 && es[|es| - 1].Compute? && Run(es, t)
    ensures CountOf(t.counts, p) >= |Of(Batch(es), p)|
    ensures CountOf(t.counts, p) == |Of(Batch(es), p)| <==> Clean(es, p)
  {
    var before := es[..|es| - 1];
    assert before + [Compute] == es;
    RunCompute(before, t, p);
  }

  lemma {:induction false} RunCompute(es: seq<Event>, t: Table, p: Peer)
    requires RunThen(es, Compute, t)
    ensures CountOf(t.counts, p) >= |Of(Batch(es + [Compute]), p)|
    ensures CountOf(t.counts, p) == |Of(Batch(es + [Compute]), p)| <==> Clean(es + [Compute], p)
  {
    var t0 :| Run(es, t0) && Next(t0, Compute, t);
    RunInv(es, t0, p);
    ComputeKeeps(es, t0, t, p);
    Monotone(es, Compute);
    assert Batch(es + [Compute]) == Batch(es);
  }

  /** The number of compute rounds since the last reset. */
  function Rounds(es: seq<Event>): nat {
    if es == [] then 0
    else match es[|es| - 1]
      case Compute => Rounds(es[..|es| - 1]) + 1
      case Reset => 0
      case _ => Rounds(es[..|es| - 1])
  }

  /** Over any history the round is the number of compute rounds, and the starts are those reported, since the last
      reset; an end is pending only if it was reported since then. */
  lemma {:induction false} RoundsCounted(es: seq<Event>, t: Table)
    requires Run(es, t)
    ensures t.round == Rounds(es) && t.starts == Starts(es) && t.ends <= Ends(es)
    decreases |es|
  {
    RunInv(es, t, 0);
    if es != [] {
      var t0 :| Run(es[..|es| - 1], t0) && Next(t0, es[|es| - 1], t);
      RoundsCounted(es[..|es| - 1], t0);
    }
  }

  /** The event list reports no end twice since the last reset. */
  predicate EndsOnce(es: seq<Event>) {
    if es == [] then true
    else match es[|es| - 1]
      case End(p, h) => EndsOnce(es[..|es| - 1]) && (p, h) !in Ends(es[..|es| - 1])
      case Reset => true
      case _ => EndsOnce(es[..|es| - 1])
  }

  lemma {:induction false} PastReported(es: seq<Event>)
    ensures Past(es) <= Ends(es)
  {
    if es != [] {
      PastReported(es[..|es| - 1]);
    }
  }

  lemma {:induction false} OnceIsClean(es: seq<Event>, p: Peer)
    requires EndsOnce(es)
    ensures Clean(es, p)
  {
    if es != [] && !es[|es| - 1].Reset? {
      OnceIsClean(es[..|es| - 1], p);
      PastReported(es[..|es| - 1]);
    }
  }

  /** With each end reported once, incremental counting agrees with one batch count. */
  lemma {:induction false} OnceMeansBatch(es: seq<Event>, t: Table, p: Peer)
    requires |es| > 0 && es[|es| - 1].Compute? && Run(es, t) && EndsOnce(es)
    ensures CountOf(t.counts, p) == |Of(Batch(es), p)|
  {
    OnceIsClean(es, p);
    IncrementalIsBatch(es, t, p);
  }

  /** Every report is for the one end (p, h). */
  ghost predicate OnlyEnd(es: seq<Event>, p: Peer, h: Hash) {
    Starts(es) == {h} && Ends(es) == {(p, h)}
  }

  lemma OneKey(p: Peer, h: Hash)
    ensures Of({(p, h)}, p) == {h}
  {
    assert (p, h) in {(p, h)};
  }

  lemma {:induction false} RepeatHistory(h: Hash, p: Peer)
    ensures var es := [Start(h), End(p, h), Compute, End(p, h), Compute];
      OnlyEnd(es, p, h) && !Clean(es, p)
  {
    var e1, e2 := [Start(h)], [Start(h), End(p, h)];
    var e3, e4 := [Start(h), End(p, h), Compute], [Start(h), End(p, h), Compute, End(p, h)];
    var es := [Start(h), End(p, h), Compute, End(p, h), Compute];
    assert es[..4] == e4 && e4[..3] == e3 && e3[..2] == e2 && e2[..1] == e1 && e1[..0] == [];
    assert Starts(e1) == {h} && Ends(e1) == {};
    assert OnlyEnd(e2, p, h) && OnlyEnd(e3, p, h) && OnlyEnd(e4, p, h);
    assert Past(e3) == Batch(e2) == {(p, h)};
    assert !Clean(e4, p);
  }

  /** A repeated end that was counted in between is counted twice. */
  lemma {:induction false} RepeatIsCountedTwice(h: Hash, p: Peer, t: Table)
    requires Run([Start(h), End(p, h), Compute, End(p, h), Compute], t)
    ensures CountOf(t.counts, p) > 1 == |Of(Batch([Start(h), End(p, h), Compute, End(p, h), Compute]), p)|
  {
    var es := [Start(h), End(p, h), Compute, End(p, h), Compute];
    RepeatHistory(h, p);
    assert Batch(es) == {(p, h)};
    OneKey(p, h);
    IncrementalIsBatch(es, t, p);
  }
}

/**
 Whole campaigns: every configured item is run to the end, in configured order, in an exactly
 known number of rounds; a probing item visits every (phase, field, count) once; and a campaign
 comes to its end exactly when no item stalls it and no second probing item needs fields.
 */
module CampaignPlan {
  import opened Common
  import opened Campaign

  // ----- enumeration: what a probing item runs

  lemma {:induction false} CountsAt(conspire: bool, phase: nat, maxPhase: nat, field: Field, from: nat, nodes: nat)
    ensures var xs := Counts(conspire, phase, maxPhase, field, from, nodes);
      && |xs| == (if from > nodes then 0 else nodes - from + 1)
      && forall k | 0 <= k < |xs| :: xs[k] == Probe(conspire, OtherRound(phase), maxPhase, field, from + k)
    decreases nodes - from
  {
    if from <= nodes {
      CountsAt(conspire, phase, maxPhase, field, from + 1, nodes);
    }
  }

  function Times(j: nat, n: nat): (r: nat) {
    if j == 0 then 0 else n + Times(j - 1, n)
  }

  lemma {:induction false} OfPhaseLength(conspire: bool, phase: nat, maxPhase: nat, fs: seq<Field>, nodes: nat)
    ensures |OfPhase(conspire, phase, maxPhase, fs, nodes)| == Times(|fs|, nodes)
  {
    if fs != [] {
      OfPhaseLength(conspire, phase, maxPhase, fs[..|fs| - 1], nodes);
      CountsAt(conspire, phase, maxPhase, fs[|fs| - 1], 1, nodes);
    }
  }

  /** Round j*nodes + c of a phase probes the j-th field from the end with count c+1. */
  lemma {:induction false} OfPhaseAt(conspire: bool, phase: nat, maxPhase: nat, fs: seq<Field>, nodes: nat, j: nat,
      c: nat)
    requires j < |fs| && c < nodes
    ensures var xs := OfPhase(conspire, phase, maxPhase, fs, nodes);
      && Times(j, nodes) + c < |xs|
      && xs[Times(j, nodes) + c] == Probe(conspire, OtherRound(phase), maxPhase, fs[|fs| - 1 - j], c + 1)
  {
    var n := |fs| - 1;
    CountsAt(conspire, phase, maxPhase, fs[n], 1, nodes);
    if j > 0 {
      OfPhaseAt(conspire, phase, maxPhase, fs[..n], nodes, j - 1, c);
    }
  }

  /** Where the items of `phase` start among those of the phases from `first` on. */
  function Offset(fields: map<nat, seq<Field>>, nodes: nat, first: nat, phase: nat): nat
    requires first <= phase
    decreases phase - first
  {
    if first == phase then 0 else Times(|FieldsOf(fields, first)|, nodes) + Offset(fields, nodes, first + 1, phase)
  }

  /** The number of rounds of a probing item after its first one. */
  lemma {:induction false} EnumerationLength(conspire: bool, first: nat, maxPhase: nat, fields: map<nat, seq<Field>>,
      nodes: nat)
    requires first <= maxPhase + 1
    ensures |OfPhases(conspire, first, maxPhase, fields, nodes)| == Offset(fields, nodes, first, maxPhase + 1)
    decreases maxPhase + 1 - first
  {
    if first <= maxPhase {
      OfPhaseLength(conspire, first, maxPhase, FieldsOf(fields, first), nodes);
      EnumerationLength(conspire, first + 1, maxPhase, fields, nodes);
    }
  }

  /** `item` stands in `xs` at the place `at`. */
  ghost predicate StandsAt(xs: seq<TestItem>, at: nat, item: TestItem) {
    at < |xs| && xs[at] == item
  }

  /** Exhaustive enumeration, in order: phases ascend, within a phase fields go from last to first,
      within a field counts ascend from 1 to the number of nodes. The triple (p, j-th field from the
      end, c+1) is run at the index given by the triples before it. */
  lemma {:induction false} Enumeration(conspire: bool, first: nat, maxPhase: nat, fields: map<nat, seq<Field>>,
      nodes: nat, p: nat, j: nat, c: nat)
    requires first <= p <= maxPhase && j < |FieldsOf(fields, p)| && c < nodes
    ensures var fs := FieldsOf(fields, p);
      StandsAt(OfPhases(conspire, first, maxPhase, fields, nodes),
               Offset(fields, nodes, first, p) + Times(j, nodes) + c,
               Probe(conspire, OtherRound(p), maxPhase, fs[|fs| - 1 - j], c + 1))
    decreases maxPhase - first
  {
    var fs := FieldsOf(fields, first);
    var ys := OfPhase(conspire, first, maxPhase, fs, nodes);
    var zs := OfPhases(conspire, first + 1, maxPhase, fields, nodes);
    if p > first {
      Enumeration(conspire, first + 1, maxPhase, fields, nodes, p, j, c);
      OfPhaseLength(conspire, first, maxPhase, fs, nodes);
      InSecond(ys, zs, Offset(fields, nodes, first + 1, p) + Times(j, nodes) + c);
    } else {
      OfPhaseAt(conspire, first, maxPhase, fs, nodes, j, c);
      InFirst(ys, zs, Times(j, nodes) + c);
    }
  }

  lemma InFirst<T>(ys: seq<T>, zs: seq<T>, at: nat)
    requires at < |ys|
    ensures (ys + zs)[at] == ys[at]
  {
  }

  lemma InSecond<T>(ys: seq<T>, zs: seq<T>, at: nat)
    requires at < |zs|
    ensures (ys + zs)[|ys| + at] == zs[at]
  {
  }

  /** A probing item runs nothing else: every round is for a known field of a phase in range and a
      count between 1 and the number of nodes. */
  lemma {:induction false} NothingElse(conspire: bool, first: nat, maxPhase: nat, fields: map<nat, seq<Field>>,
      nodes: nat, x: TestItem)
    requires x in OfPhases(conspire, first, maxPhase, fields, nodes)
    ensures first <= PhaseOf(x) <= maxPhase && FieldOf(x) in FieldsOf(fields, PhaseOf(x)) && 1 <= CountOf(x) <= nodes
    ensures x == Probe(conspire, OtherRound(PhaseOf(x)), maxPhase, FieldOf(x), CountOf(x))
    decreases maxPhase + 1 - first
  {
    var fs := FieldsOf(fields, first);
    if x in OfPhase(conspire, first, maxPhase, fs, nodes) {
      OnePhase(conspire, first, maxPhase, fs, nodes, x);
    } else {
      NothingElse(conspire, first + 1, maxPhase, fields, nodes, x);
    }
  }

  ghost function PhaseOf(x: TestItem): nat {
    match x
    case Malicious(LeaderSendAmbiguousMessage(OtherRound(p), _, _, _)) => p
    case Malicious(ReplicaNodeConspireForgeMessages(OtherRound(p), _, _, _)) => p
    case _ => 0
  }

  ghost function FieldOf(x: TestItem): Field {
    match x
    case Malicious(LeaderSendAmbiguousMessage(_, _, f, _)) => f
    case Malicious(ReplicaNodeConspireForgeMessages(_, _, f, _)) => f
    case _ => []
  }

  ghost function CountOf(x: TestItem): nat {
    match x
    case Malicious(LeaderSendAmbiguousMessage(_, _, _, c)) => c
    case Malicious(ReplicaNodeConspireForgeMessages(_, _, _, c)) => c
    case _ => 0
  }

  lemma {:induction false} OnePhase(conspire: bool, phase: nat, maxPhase: nat, fs: seq<Field>, nodes: nat, x: TestItem)
    requires x in OfPhase(conspire, phase, maxPhase, fs, nodes)
    ensures PhaseOf(x) == phase && FieldOf(x) in fs && 1 <= CountOf(x) <= nodes
    ensures x == Probe(conspire, OtherRound(phase), maxPhase, FieldOf(x), CountOf(x))
  {
    var n := |fs| - 1;
    CountsAt(conspire, phase, maxPhase, fs[n], 1, nodes);
    if x in Counts(conspire, phase, maxPhase, fs[n], 1, nodes) {
      assert FieldOf(x) == fs[n];
    } else {
      OnePhase(conspire, phase, maxPhase, fs[..n], nodes, x);
    }
  }

  ghost predicate Distinct<T>(xs: seq<T>) {
    forall i, j | 0 <= i < j < |xs| :: xs[i] != xs[j]
  }

  lemma DistinctConcat<T>(xs: seq<T>, ys: seq<T>)
    requires Distinct(xs) && Distinct(ys) && forall x | x in xs :: x !in ys
    ensures Distinct(xs + ys)
  {
    var zs := xs + ys;
    forall i, j | 0 <= i < j < |zs| ensures zs[i] != zs[j] {
      if i < |xs| <= j {
        assert zs[i] in xs && zs[j] in ys;
      }
    }
  }

  /** No triple is visited twice, when no phase lists a field twice. */
  lemma {:induction false} NoRepeat(conspire: bool, first: nat, maxPhase: nat, fields: map<nat, seq<Field>>, nodes: nat)
    requires forall p | p in fields :: Distinct(fields[p])
    ensures Distinct(OfPhases(conspire, first, maxPhase, fields, nodes))
    decreases maxPhase + 1 - first
  {
    if first <= maxPhase {
      var xs := OfPhase(conspire, first, maxPhase, FieldsOf(fields, first), nodes);
      var ys := OfPhases(conspire, first + 1, maxPhase, fields, nodes);
      NoRepeatPhase(conspire, first, maxPhase, FieldsOf(fields, first), nodes);
      NoRepeat(conspire, first + 1, maxPhase, fields, nodes);
      forall x | x in xs ensures x !in ys {
        OnePhase(conspire, first, maxPhase, FieldsOf(fields, first), nodes, x);
        if x in ys {
          NothingElse(conspire, first + 1, maxPhase, fields, nodes, x);
        }
      }
      DistinctConcat(xs, ys);
    }
  }

  lemma {:induction false} NoRepeatPhase(conspire: bool, phase: nat, maxPhase: nat, fs: seq<Field>, nodes: nat)
    requires Distinct(fs)
    ensures Distinct(OfPhase(conspire, phase, maxPhase, fs, nodes))
  {
    if fs != [] {
      var n := |fs| - 1;
      var xs := Counts(conspire, phase, maxPhase, fs[n], 1, nodes);
      var ys := OfPhase(conspire, phase, maxPhase, fs[..n], nodes);
      NoRepeatPhase(conspire, phase, maxPhase, fs[..n], nodes);
      CountsAt(conspire, phase, maxPhase, fs[n], 1, nodes);
      forall x | x in xs ensures x !in ys {
        assert FieldOf(x) == fs[n] && fs[n] !in fs[..n];
        if x in ys {
          OnePhase(conspire, phase, maxPhase, fs[..n], nodes, x);
        }
      }
      assert forall i | 0 <= i < |xs| :: CountOf(xs[i]) == 1 + i;
      DistinctConcat(xs, ys);
    }
  }

  // ----- items without fields

  /** The middle item that follows, for the items whose campaign does not pop fields. */
  function Successor(item: TestItem): Option<TestItem> {
    match item
    case Scalability(n, max, interval) =>
      if interval > 0 && n + interval <= max then Some(Scalability(n + interval, max, interval)) else None
    case Crash(n, max) => if n + 1 <= max then Some(Crash(n + 1, max)) else None
    case Malicious(LeaderFeignDeath(round, max)) =>
      if Later(round, max).Some? then Some(Malicious(LeaderFeignDeath(Later(round, max).value, max))) else None
    case Malicious(LeaderSendDuplicateMessage(round, max)) =>
      if Later(round, max).Some? then Some(Malicious(LeaderSendDuplicateMessage(Later(round, max).value, max)))
          else None
    case _ => None
  }

  function PhasesLeft(round: Round, max: nat): nat {
    match round
    case FirstRound => max
    case OtherRound(p) => if p < max then max - p else 0
  }

  /** How often `step` fits into `room`. */
  function Quotient(room: nat, step: nat): nat {
    if step == 0 || room < step then 0 else 1 + Quotient(room - step, step)
  }

  /** How many middle items follow. */
  function Left(item: TestItem): nat {
    match item
    case Scalability(n, max, interval) => if n < max then Quotient(max - n, interval) else 0
    case Crash(n, max) => if n < max then max - n else 0
    case Malicious(LeaderFeignDeath(round, max)) => PhasesLeft(round, max)
    case Malicious(LeaderSendDuplicateMessage(round, max)) => PhasesLeft(round, max)
    case _ => 0
  }

  lemma SuccessorLeft(item: TestItem)
    ensures Successor(item).Some? <==> Left(item) > 0
    ensures Successor(item).Some? ==> Left(Successor(item).value) == Left(item) - 1
  {
    match item
    case Scalability(n, max, interval) =>
      if interval > 0 && n + interval <= max {
        assert (max - n) - interval == max - (n + interval);
        assert Quotient(max - n, interval) == 1 + Quotient((max - n) - interval, interval);
      }
    case _ =>
  }

  function Chain(item: TestItem): seq<TestItem>
    decreases Left(item)
  {
    SuccessorLeft(item);
    if Successor(item).None? then [item] else [item] + Chain(Successor(item).value)
  }

  lemma {:induction false} ChainLength(item: TestItem)
    ensures |Chain(item)| == Left(item) + 1 && Chain(item)[0] == item
    decreases Left(item)
  {
    SuccessorLeft(item);
    if Successor(item).Some? {
      ChainLength(Successor(item).value);
    }
  }

  /** Enough nodes, and u16 sums in range, for the rest of the item's campaign. */
  ghost predicate Roomy(ctl: Control, item: TestItem) {
    && ctl.waiting >= 1 && ctl.dishonest == ctl.waiting
    && match item
       case Scalability(n, max, interval) => interval > 0 && n + interval < U16_LIMIT && max + interval < U16_LIMIT
           && Left(item) <= ctl.joinable
       case Crash(n, max) => n <= max < U16_LIMIT - 1 && Left(item) <= ctl.crashable
       case Malicious(LeaderFeignDeath(_, _)) => true
       case Malicious(LeaderSendDuplicateMessage(_, _)) => true
       case Malicious(_) => false
       case _ => true
  }

  predicate Plain(item: TestItem) {
    item.Throughput? || item.Latency? || item.ThroughputAndLatency?
  }

  lemma ChainRound(ctl: Control, item: TestItem) returns (ctl': Control)
    requires Roomy(ctl, item) && (Plain(item) ==> ctl.mid.None?)
    ensures Completed(ctl, item).Done?
    ensures Successor(item).Some? ==>
      && Step(Active(ctl, item)) == Active(ctl', Successor(item).value) && Roomy(ctl', Successor(item).value)
      && ctl' == ctl.(mid := ctl'.mid, joinable := ctl'.joinable, crashable := ctl'.crashable)
      && !Plain(Successor(item).value)
    ensures Successor(item).None? ==> ctl' == ctl && Completed(ctl, item).ctl == ctl.(mid := None)
  {
    SuccessorLeft(item);
    if Successor(item).Some? {
      ctl' := Step(Active(ctl, item)).ctl;
    } else {
      ctl' := ctl;
    }
  }

  lemma {:induction false} ChainSegment(ctl: Control, item: TestItem) returns (end: Control)
    requires Roomy(ctl, item) && (Plain(item) ==> ctl.mid.None?)
    ensures Segment(ctl, Chain(item), end)
    ensures end == ctl.(mid := None, joinable := end.joinable, crashable := end.crashable)
    decreases Left(item)
  {
    SuccessorLeft(item);
    var ctl' := ChainRound(ctl, item);
    if Successor(item).Some? {
      var next := Successor(item).value;
      ChainLength(next);
      end := ChainSegment(ctl', next);
      SegmentCons(ctl, item, ctl', Chain(next), end);
    } else {
      end := ctl.(mid := None);
    }
  }

  // ----- probing items

  lemma {:induction false} FirstRest(conspire: bool, maxPhase: nat, fields: map<nat, seq<Field>>, nodes: nat)
    requires 1 <= maxPhase && 1 in fields && fields[1] != []
    ensures var fs := fields[1];
      OfPhases(conspire, 1, maxPhase, fields, nodes)
      == Rest(conspire, maxPhase, fields[1 := fs[..|fs| - 1]], nodes, 1, fs[|fs| - 1], 1)
  {
    var fs := fields[1];
    OfPhasesFrame(conspire, 2, maxPhase, fields, fields[1 := fs[..|fs| - 1]], nodes);
  }

  lemma EnterFirstPhase(ctl: Control, conspire: bool, maxPhase: nat) returns (ctl': Control)
    requires ctl.dishonest == ctl.waiting && 1 <= ctl.waiting < U16_LIMIT && 1 <= maxPhase
        && Known(ctl.fields, 1, maxPhase)
    ensures var fs := ctl.fields[1];
      && fs != []
      && Step(Active(ctl, Probe(conspire, FirstRound, maxPhase, [], 0)))
         == Active(ctl', Probe(conspire, OtherRound(1), maxPhase, fs[|fs| - 1], 1))
      && ctl' == ctl.(mid := ctl'.mid, fields := ctl.fields[1 := fs[..|fs| - 1]])
    ensures Probing(ctl', maxPhase, 1)
  {
    var fs := ctl.fields[1];
    ctl' := ctl.(fields := ctl.fields[1 := fs[..|fs| - 1]],
      mid := Some(Probe(conspire, OtherRound(1), maxPhase, fs[|fs| - 1], 1)));
  }

  /** The first round of a probing item is followed by all the triples. */
  ghost predicate Enters(ctl: Control, conspire: bool, maxPhase: nat, c1: Control, last: Field) {
    && Step(Active(ctl, Probe(conspire, FirstRound, maxPhase, [], 0)))
        == Active(c1, Probe(conspire, OtherRound(1), maxPhase, last, 1))
    && OfPhases(conspire, 1, maxPhase, ctl.fields, ctl.waiting)
        == Rest(conspire, maxPhase, c1.fields, c1.waiting, 1, last, 1)
    && c1 == ctl.(mid := c1.mid, fields := c1.fields) && c1.waiting >= 1
    && Without(c1.fields, maxPhase) == Without(ctl.fields, maxPhase)
  }

  lemma EnterProbe(ctl: Control, conspire: bool, maxPhase: nat) returns (c1: Control, last: Field)
    requires ctl.dishonest == ctl.waiting && 1 <= ctl.waiting < U16_LIMIT && 1 <= maxPhase
        && Known(ctl.fields, 1, maxPhase)
    ensures Enters(ctl, conspire, maxPhase, c1, last) && Probing(c1, maxPhase, 1)
  {
    var fs := ctl.fields[1];
    c1 := EnterFirstPhase(ctl, conspire, maxPhase);
    last := fs[|fs| - 1];
    FirstRest(conspire, maxPhase, ctl.fields, ctl.waiting);
    assert Without(c1.fields, maxPhase) == Without(ctl.fields, maxPhase);
  }

  ghost predicate RunsProbe(ctl: Control, conspire: bool, maxPhase: nat) {
    Segment(ctl, [Probe(conspire, FirstRound, maxPhase, [], 0)] + OfPhases(conspire, 1, maxPhase, ctl.fields,
      ctl.waiting),
            ctl.(mid := None, fields := Without(ctl.fields, maxPhase)))
  }

  lemma FirstSegment(ctl: Control, conspire: bool, maxPhase: nat, c1: Control, last: Field)
    requires Enters(ctl, conspire, maxPhase, c1, last) && RunsRest(c1, conspire, maxPhase, 1, last, 1)
    ensures RunsProbe(ctl, conspire, maxPhase)
  {
    SegmentCons(ctl, Probe(conspire, FirstRound, maxPhase, [], 0), c1,
      Rest(conspire, maxPhase, c1.fields, c1.waiting, 1, last, 1),
                ctl.(mid := None, fields := Without(ctl.fields, maxPhase)));
  }

  lemma NoPhases(ctl: Control, conspire: bool)
    ensures RunsProbe(ctl, conspire, 0)
  {
    var item := Probe(conspire, FirstRound, 0, [], 0);
    assert Without(ctl.fields, 0) == ctl.fields;
    assert [item] + [] == [item];
  }

  /** A probing item with known fields runs its first round, then every triple, and uses the fields up. */
  lemma ProbeItem(ctl: Control, conspire: bool, maxPhase: nat)
    requires ctl.dishonest == ctl.waiting && 1 <= ctl.waiting < U16_LIMIT && Known(ctl.fields, 1, maxPhase)
    ensures RunsProbe(ctl, conspire, maxPhase)
  {
    if maxPhase == 0 {
      NoPhases(ctl, conspire);
    } else {
      var c1, last := EnterProbe(ctl, conspire, maxPhase);
      ProbeSegment(c1, conspire, maxPhase, 1, last, 1);
      FirstSegment(ctl, conspire, maxPhase, c1, last);
    }
  }

  // ----- from segments to rounds

  lemma {:induction false} AfterPlus(s: State, j: nat, k: nat)
    ensures After(s, j + k) == After(After(s, j), k)
    decreases j
  {
    if j > 0 {
      assert After(s, j + k) == AfterMore(s, j + k) && After(s, j) == AfterMore(s, j);
      AfterPlus(Step(s), j - 1, k);
    }
  }

  lemma {:induction false} SegmentAfter(ctl: Control, trace: seq<TestItem>, end: Control, k: nat)
    requires Segment(ctl, trace, end) && k <= |trace|
    ensures k < |trace| ==> After(Active(ctl, trace[0]), k).Active? && After(Active(ctl, trace[0]), k).item == trace[k]
    ensures k == |trace| ==> After(Active(ctl, trace[0]), k) == Configure(end)
    decreases |trace|
  {
    if k > 0 {
      assert After(Active(ctl, trace[0]), k) == AfterMore(Active(ctl, trace[0]), k);
      var s := Step(Active(ctl, trace[0]));
      if |trace| == 1 {
        assert After(s, 0) == s;
      } else {
        SegmentAfter(s.ctl, trace[1..], end, k - 1);
      }
    }
  }

  // ----- whole campaigns

  /** Everything a configured item runs, in order. */
  function PlanOf(item: TestItem, fields: map<nat, seq<Field>>, nodes: nat): seq<TestItem> {
    match item
    case Malicious(LeaderSendAmbiguousMessage(_, max, _, _)) => [item] + OfPhases(false, 1, max, fields, nodes)
    case Malicious(ReplicaNodeConspireForgeMessages(_, max, _, _)) => [item] + OfPhases(true, 1, max, fields, nodes)
    case _ => Chain(item)
  }

  predicate Probes(item: TestItem) {
    item.Malicious? && (item.behaviour.LeaderSendAmbiguousMessage? || item.behaviour.ReplicaNodeConspireForgeMessages?)
  }

  function FieldsAfter(item: TestItem, fields: map<nat, seq<Field>>): map<nat, seq<Field>> {
    if Probes(item) then Without(fields, item.behaviour.maxPhase) else fields
  }

  /** Everything the stack of configured items runs, the top of the stack first. */
  function Plan(items: seq<TestItem>, fields: map<nat, seq<Field>>, nodes: nat): seq<TestItem> {
    if items == [] then []
    else
      var item := items[|items| - 1];
      PlanOf(item, fields, nodes) + Plan(items[..|items| - 1], FieldsAfter(item, fields), nodes)
  }

  /** An item as the configuration creates it, with enough nodes and u16 sums in range. */
  ghost predicate Startable(item: TestItem, nodes: nat, maxPhase: nat) {
    match item
    case Scalability(n, max, interval) =>
      n == 1 && interval > 0 && max + interval < U16_LIMIT && 1 + interval < U16_LIMIT && Left(item) <= nodes - 1
    case Crash(n, max) => n == 0 && max < U16_LIMIT - 1 && max <= nodes
    case Malicious(b) => b.round.FirstRound? && b.maxPhase == maxPhase
        && (Probes(item) ==> b.field == [] && b.count == 0)
    case _ => true
  }

  /** A campaign is orderly when no delay item would stall it and at most one item needs the fields. */
  predicate Orderly(items: seq<TestItem>, maxPhase: nat, unused: bool) {
    if items == [] || maxPhase == 0 then true
    else
      var item := items[|items| - 1];
      && !(item.Malicious? && item.behaviour.LeaderDelaySendMessage?)
      && (Probes(item) ==> unused)
      && Orderly(items[..|items| - 1], maxPhase, unused && !Probes(item))
  }

  ghost predicate Ready(ctl: Control, maxPhase: nat, unused: bool) {
    && ctl.mid.None? && 1 <= ctl.waiting < U16_LIMIT && ctl.dishonest == ctl.waiting
    && (forall k | 0 <= k < |ctl.items| :: Startable(ctl.items[k], ctl.waiting, maxPhase))
    && if unused then Known(ctl.fields, 1, maxPhase) else forall p | 1 <= p <= maxPhase :: p !in ctl.fields
  }

  function Top(ctl: Control): TestItem
    requires ctl.items != []
  {
    ctl.items[|ctl.items| - 1]
  }

  /** Configuring the top item only pops it and fills the node sets. */
  lemma {:induction false} TopConfigured(ctl: Control, maxPhase: nat, unused: bool)
    requires Ready(ctl, maxPhase, unused) && ctl.items != []
    ensures var s := Configure(ctl);
      && s.Active? && s.item == Top(ctl)
      && s.ctl == ctl.(items := ctl.items[..|ctl.items| - 1], joinable := s.ctl.joinable, crashable := s.ctl.crashable)
      && (!Top(ctl).Malicious? ==> Roomy(s.ctl, Top(ctl)))
  {
    assert Startable(Top(ctl), ctl.waiting, maxPhase);
  }

  lemma ReadyAfter(ctl: Control, maxPhase: nat, unused: bool, end: Control)
    requires Ready(ctl, maxPhase, unused) && ctl.items != []
    requires end == ctl.(items := ctl.items[..|ctl.items| - 1], mid := None,
        fields := FieldsAfter(Top(ctl), ctl.fields),
                         joinable := end.joinable, crashable := end.crashable)
    ensures Ready(end, maxPhase, unused && !(Probes(Top(ctl)) && maxPhase > 0))
  {
    assert Startable(Top(ctl), ctl.waiting, maxPhase);
    if maxPhase == 0 {
      assert Without(ctl.fields, 0) == ctl.fields;
    }
  }

  /** The top item is run to its end, unless it is one that stalls or finds no fields. */
  lemma TopItem(ctl: Control, maxPhase: nat, unused: bool) returns (end: Control)
    requires Ready(ctl, maxPhase, unused) && ctl.items != []
    requires maxPhase > 0 ==>
      !(Top(ctl).Malicious? && Top(ctl).behaviour.LeaderDelaySendMessage?) && (Probes(Top(ctl)) ==> unused)
    ensures Configure(ctl).Active? && Configure(ctl).item == Top(ctl)
    ensures |PlanOf(Top(ctl), ctl.fields, ctl.waiting)| > 0 && PlanOf(Top(ctl), ctl.fields, ctl.waiting)[0] == Top(ctl)
    ensures Segment(Configure(ctl).ctl, PlanOf(Top(ctl), ctl.fields, ctl.waiting), end)
    ensures end == ctl.(items := ctl.items[..|ctl.items| - 1], mid := None, fields := FieldsAfter(Top(ctl), ctl.fields),
                        joinable := end.joinable, crashable := end.crashable)
  {
    var item := Top(ctl);
    assert Startable(item, ctl.waiting, maxPhase);
    TopConfigured(ctl, maxPhase, unused);
    var c := Configure(ctl).ctl;
    if Probes(item) {
      var conspire := item.behaviour.ReplicaNodeConspireForgeMessages?;
      assert item == Probe(conspire, FirstRound, maxPhase, [], 0);
      ProbeItem(c, conspire, maxPhase);
      end := c.(mid := None, fields := Without(c.fields, maxPhase));
    } else if item.Malicious? && item.behaviour.LeaderDelaySendMessage? {
      end := c.(mid := None);
    } else {
      ChainLength(item);
      end := ChainSegment(c, item);
    }
  }

  ghost predicate EndsAfter(s: State, k: nat) {
    After(s, k).Finished?
  }

  /** In round k the state runs plan[k]; once the plan is through the campaign is finished. */
  ghost predicate Follows(s: State, plan: seq<TestItem>, k: nat) {
    && (k < |plan| ==> RunsItem(After(s, k), plan[k]))
    && EndsAfter(s, |plan|)
  }

  lemma {:induction false} FinishMore(ctl: Control, own: seq<TestItem>, end: Control, k: nat)
    requires Segment(ctl, own, end)
    ensures After(Active(ctl, own[0]), |own| + k) == After(Configure(end), k)
  {
    SegmentAfter(ctl, own, end, |own|);
    AfterPlus(Active(ctl, own[0]), |own|, k);
  }

  ghost predicate RunsItem(s: State, item: TestItem) {
    s.Active? && s.item == item
  }

  lemma {:induction false} RunsOwn(ctl: Control, own: seq<TestItem>, end: Control, k: nat)
    requires Segment(ctl, own, end) && k < |own|
    ensures RunsItem(After(Active(ctl, own[0]), k), own[k])
  {
    SegmentAfter(ctl, own, end, k);
  }

  lemma {:induction false} RunsLater(ctl: Control, own: seq<TestItem>, end: Control, j: nat, item: TestItem)
    requires Segment(ctl, own, end) && RunsItem(After(Configure(end), j), item)
    ensures RunsItem(After(Active(ctl, own[0]), |own| + j), item)
  {
    FinishMore(ctl, own, end, j);
  }

  lemma {:induction false} FollowsOwn(ctl: Control, own: seq<TestItem>, end: Control, rest: seq<TestItem>, k: nat)
    requires Segment(ctl, own, end) && k < |own| && EndsAfter(Configure(end), |rest|)
    ensures Follows(Active(ctl, own[0]), own + rest, k)
  {
    FinishMore(ctl, own, end, |rest|);
    RunsOwn(ctl, own, end, k);
    assert (own + rest)[k] == own[k] && |own + rest| == |own| + |rest|;
  }

  lemma {:induction false} FollowsLater(ctl: Control, own: seq<TestItem>, end: Control, rest: seq<TestItem>, j: nat)
    requires Segment(ctl, own, end) && Follows(Configure(end), rest, j)
    ensures Follows(Active(ctl, own[0]), own + rest, |own| + j)
  {
    FinishMore(ctl, own, end, |rest|);
    assert |own + rest| == |own| + |rest|;
    if j < |rest| {
      RunsLater(ctl, own, end, j, rest[j]);
      assert (own + rest)[|own| + j] == rest[j];
    }
  }

  lemma {:induction false} FollowsMore(ctl: Control, own: seq<TestItem>, end: Control, rest: seq<TestItem>, k: nat,
      j: nat)
    requires Segment(ctl, own, end) && Follows(Configure(end), rest, j) && (k < |own| || k == |own| + j)
    ensures Follows(Active(ctl, own[0]), own + rest, k)
  {
    if k < |own| {
      FollowsOwn(ctl, own, end, rest, k);
    } else {
      FollowsLater(ctl, own, end, rest, j);
    }
  }

  /** As long as the reset barrier opens in every round, an orderly campaign runs exactly its plan and
      then ends. */
  lemma {:induction false} OrderlyEnds(ctl: Control, maxPhase: nat, unused: bool, k: nat)
    requires Ready(ctl, maxPhase, unused) && Orderly(ctl.items, maxPhase, unused)
    ensures Follows(Configure(ctl), Plan(ctl.items, ctl.fields, ctl.waiting), k)
    decreases |ctl.items|
  {
    if ctl.items != [] {
      var end := TopItem(ctl, maxPhase, unused);
      ReadyAfter(ctl, maxPhase, unused, end);
      var own := PlanOf(Top(ctl), ctl.fields, ctl.waiting);
      var j := if k < |own| then 0 else k - |own|;
      OrderlyEnds(end, maxPhase, unused && !(Probes(Top(ctl)) && maxPhase > 0), j);
      FollowsMore(Configure(ctl).ctl, own, end, Plan(end.items, end.fields, end.waiting), k, j);
    }
  }

  /** A campaign that is not orderly gets stuck. */
  lemma {:induction false} OthersStop(ctl: Control, maxPhase: nat, unused: bool) returns (k: nat)
    requires Ready(ctl, maxPhase, unused) && !Orderly(ctl.items, maxPhase, unused)
    ensures After(Configure(ctl), k).Stalled? || After(Configure(ctl), k).Panicked?
    decreases |ctl.items|
  {
    var item := ctl.items[|ctl.items| - 1];
    var s := Configure(ctl);
    assert Startable(item, ctl.waiting, maxPhase);
    if item.Malicious? && item.behaviour.LeaderDelaySendMessage? {
      k := 1;
      assert After(s, 1) == AfterMore(s, 1);
    } else if Probes(item) && !unused {
      k := 1;
      assert After(s, 1) == AfterMore(s, 1);
    } else {
      var end := TopItem(ctl, maxPhase, unused);
      ReadyAfter(ctl, maxPhase, unused, end);
      var own := PlanOf(item, ctl.fields, ctl.waiting);
      SegmentAfter(s.ctl, own, end, |own|);
      var j := OthersStop(end, maxPhase, unused && !Probes(item));
      k := |own| + j;
      AfterPlus(s, |own|, j);
    }
  }

  lemma {:induction false} Absorbing(s: State, k: nat)
    requires !s.Active?
    ensures After(s, k) == s
  {
    if k > 0 {
      assert After(s, k) == AfterMore(s, k);
      Absorbing(s, k - 1);
    }
  }

  lemma {:induction false} StuckNeverEnds(s: State, j: nat, k: nat)
    requires After(s, j).Stalled? || After(s, j).Panicked?
    ensures !EndsAfter(s, k)
  {
    if k <= j {
      AfterPlus(s, k, j - k);
      if After(s, k).Finished? {
        Absorbing(After(s, k), j - k);
      }
    } else {
      AfterPlus(s, j, k - j);
      Absorbing(After(s, j), k - j);
    }
  }

  /** With enough nodes and known fields, and if the reset barrier opens in every round, a campaign comes
      to its end if and only if it is orderly; then it runs every configured item in order, in exactly
      |Plan| rounds. `CampaignRounds` has the condition for every round to pass the barrier. */
  lemma {:induction false} CampaignEnds(ctl: Control, maxPhase: nat, s: State)
    requires Ready(ctl, maxPhase, true) && s == Configure(ctl)
    ensures (exists k: nat :: EndsAfter(s, k)) <==> Orderly(ctl.items, maxPhase, true)
    ensures Orderly(ctl.items, maxPhase, true) ==>
      forall k: nat :: Follows(s, Plan(ctl.items, ctl.fields, ctl.waiting), k)
  {
    var plan := Plan(ctl.items, ctl.fields, ctl.waiting);
    if Orderly(ctl.items, maxPhase, true) {
      forall k: nat ensures Follows(s, plan, k) {
        OrderlyEnds(ctl, maxPhase, true, k);
      }
      assert Follows(s, plan, 0);
      assert EndsAfter(s, |plan|);
    } else {
      var j := OthersStop(ctl, maxPhase, true);
      forall k: nat ensures !EndsAfter(s, k) {
        StuckNeverEnds(s, j, k);
      }
    }
  }

  // ----- how many rounds

  /** The number of rounds of a configured item. */
  function Rounds(item: TestItem, fields: map<nat, seq<Field>>, nodes: nat): nat {
    if Probes(item) then 1 + Offset(fields, nodes, 1, item.behaviour.maxPhase + 1) else 1 + Left(item)
  }

  lemma RoundsOf(item: TestItem, fields: map<nat, seq<Field>>, nodes: nat)
    ensures |PlanOf(item, fields, nodes)| == Rounds(item, fields, nodes)
  {
    if Probes(item) {
      EnumerationLength(item.behaviour.ReplicaNodeConspireForgeMessages?, 1, item.behaviour.maxPhase, fields, nodes);
    } else {
      ChainLength(item);
    }
  }
}

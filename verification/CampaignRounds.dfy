/**
 Campaigns and the reset barrier together: a round passes on to the next test only if the barrier
 opens, which it does not when every node is a crash node and the report is not the last event.
 */
module CampaignRounds {
  import opened Common
  import opened Campaign
  import opened CampaignPlan
  import Barrier

  // ----- one round

  /** The number of crash nodes while an item is run. */
  function Crashed(item: TestItem): nat {
    match item
    case Crash(n, _) => n
    case _ => 0
  }

  /** Every node is a crash node in this round. */
  predicate AllCrash(s: State) {
    s.Active? && s.item.Crash? && s.item.crashed == s.ctl.waiting
  }

  /** A round whose report may or may not be its last event. */
  function RoundStep(s: State, reportLast: bool): State {
    if AllCrash(s) && !reportLast then Stalled(s.ctl) else Step(s)
  }

  lemma {:induction false} SameNodes(r: Barrier.Round, es: seq<Barrier.Event>, r': Barrier.Round)
    requires Barrier.Reaches(r, es, r')
    ensures r'.nodes == r.nodes && r'.crash == r.crash
    decreases |es|
  {
    if es != [] {
      SameNodes(Barrier.Next(r, es[0]), es[1..], r');
    }
  }

  /** Over every complete interleaving of a round with these nodes, the next test is started exactly if
      RoundStep passes on. */
  lemma {:induction false} RoundOutcome(s: State, r: Barrier.Round, es: seq<Barrier.Event>, r': Barrier.Round)
    requires s.Active? && Barrier.Init(r) && Barrier.Reaches(r, es, r') && forall e :: !Barrier.Enabled(r', e)
    requires r.nodes != {} && |r.crash| == Crashed(s.item) && (s.item.Crash? ==> |r.nodes| == s.ctl.waiting)
    ensures r'.starts == 1 <==> !(AllCrash(s) && !r'.reportLast)
  {
    Barrier.BarrierOpens(r, es, r');
    SameNodes(r, es, r');
    if s.item.Crash? && |r.crash| == |r.nodes| {
      Barrier.SubsetEqual(r.crash, r.nodes);
    }
  }

  // ----- whole campaigns

  /** The state after k rounds, `last(j)` telling whether the report came last in round j. */
  ghost function Course(s: State, last: nat -> bool, k: nat): State
    decreases k, 1
  {
    if k == 0 then s else CourseMore(s, last, k)
  }

  ghost function CourseMore(s: State, last: nat -> bool, k: nat): State
    requires k > 0
    decreases k, 0
  {
    RoundStep(Course(s, last, k - 1), last(k - 1))
  }

  ghost predicate EndsIn(s: State, last: nat -> bool, k: nat) {
    Course(s, last, k).Finished?
  }

  ghost predicate Ends(s: State, last: nat -> bool) {
    exists k: nat :: EndsIn(s, last, k)
  }

  /** The campaign comes to its end, wherever the reports fall. */
  ghost predicate AlwaysEnds(s: State) {
    forall last: nat -> bool :: Ends(s, last)
  }

  predicate NoFullCrash(items: seq<TestItem>, nodes: nat) {
    forall k | 0 <= k < |items| :: !(items[k].Crash? && items[k].max == nodes)
  }

  lemma AfterNext(s: State, k: nat)
    ensures After(s, k + 1) == Step(After(s, k))
  {
    AfterPlus(s, k, 1);
    assert After(After(s, k), 1) == AfterMore(After(s, k), 1);
  }

  lemma {:induction false} CourseIsAfter(s: State, last: nat -> bool, k: nat)
    requires forall j: nat | j < k :: !(AllCrash(After(s, j)) && !last(j))
    ensures Course(s, last, k) == After(s, k)
  {
    if k > 0 {
      assert Course(s, last, k) == CourseMore(s, last, k);
      CourseIsAfter(s, last, k - 1);
      AfterNext(s, k - 1);
    }
  }

  lemma {:induction false} CourseStuck(s: State, last: nat -> bool, j: nat, k: nat)
    requires j <= k && Course(s, last, j).Stalled?
    ensures Course(s, last, k).Stalled?
  {
    if j < k {
      assert Course(s, last, k) == CourseMore(s, last, k);
      CourseStuck(s, last, j, k - 1);
    }
  }

  // ----- the number of waiting nodes never changes

  ghost predicate SameWaiting(s: State, nodes: nat) {
    s.Panicked? || s.ctl.waiting == nodes
  }

  lemma {:induction false} ConfigureWaiting(ctl: Control)
    ensures Configure(ctl).ctl.waiting == ctl.waiting
    decreases |ctl.items|
  {
    if ctl.items != [] && ctl.items[|ctl.items| - 1].Scalability? && ctl.waiting == 0 {
      ConfigureWaiting(ctl.(items := ctl.items[..|ctl.items| - 1], joinable := 0));
    }
  }

  lemma ProbeWaiting(ctl: Control, conspire: bool, round: Round, maxPhase: nat, field: Field, count: nat)
    ensures var r := ProbeCompleted(ctl, conspire, round, maxPhase, field, count); r.Done? ==>
        r.ctl.waiting == ctl.waiting
  {
  }

  lemma CompletedWaiting(ctl: Control, item: TestItem)
    ensures Completed(ctl, item).Done? ==> Completed(ctl, item).ctl.waiting == ctl.waiting
  {
    match item
    case Malicious(LeaderSendAmbiguousMessage(round, max, field, count)) =>
      ProbeWaiting(ctl, false, round, max, field, count);
    case Malicious(ReplicaNodeConspireForgeMessages(round, max, field, count)) =>
      ProbeWaiting(ctl, true, round, max, field, count);
    case _ =>
  }

  lemma NextTestWaiting(ctl: Control)
    ensures SameWaiting(NextTest(ctl), ctl.waiting)
  {
    ConfigureWaiting(ctl);
    if ctl.mid.Some? && ctl.mid.value.Malicious? && ctl.mid.value.behaviour.ReplicaNodeConspireForgeMessages? {
      var s := if ctl.mid.value.behaviour.count > ctl.dishonest then Configure(ctl) else Active(ctl, ctl.mid.value);
      ConfigureWaiting(s.ctl);
    }
  }

  lemma StepWaiting(s: State, nodes: nat)
    requires SameWaiting(s, nodes)
    ensures SameWaiting(Step(s), nodes)
  {
    if s.Active? {
      CompletedWaiting(s.ctl, s.item);
      if Completed(s.ctl, s.item).Done? {
        NextTestWaiting(Completed(s.ctl, s.item).ctl);
      }
    }
  }

  lemma {:induction false} AfterWaiting(s: State, nodes: nat, k: nat)
    requires SameWaiting(s, nodes)
    ensures SameWaiting(After(s, k), nodes)
  {
    if k > 0 {
      AfterWaiting(s, nodes, k - 1);
      AfterNext(s, k - 1);
      StepWaiting(After(s, k - 1), nodes);
    }
  }

  // ----- which crash rounds a plan has

  lemma {:induction false} ChainCrash(item: TestItem, x: TestItem)
    requires x in Chain(item) && x.Crash?
    ensures item.Crash? && x.max == item.max && (item.crashed <= item.max ==> x.crashed <= item.max)
    decreases Left(item)
  {
    SuccessorLeft(item);
    if Successor(item).Some? && x != item {
      ChainCrash(Successor(item).value, x);
    }
  }

  lemma {:induction false} ChainFull(n: nat, max: nat)
    requires n <= max
    ensures Crash(max, max) in Chain(Crash(n, max))
    decreases max - n
  {
    if n < max {
      ChainFull(n + 1, max);
    }
  }

  lemma PlanOfCrash(item: TestItem, fields: map<nat, seq<Field>>, nodes: nat, x: TestItem)
    requires x in PlanOf(item, fields, nodes) && x.Crash?
    ensures item.Crash? && x.max == item.max && (item.crashed <= item.max ==> x.crashed <= item.max)
  {
    if Probes(item) {
      var conspire := item.behaviour.ReplicaNodeConspireForgeMessages?;
      NothingElse(conspire, 1, item.behaviour.maxPhase, fields, nodes, x);
    } else {
      ChainCrash(item, x);
    }
  }

  /** A crash round of a plan belongs to a configured crash item. */
  lemma {:induction false} PlanCrash(items: seq<TestItem>, fields: map<nat, seq<Field>>, nodes: nat, x: TestItem)
    returns (j: nat)
    requires x in Plan(items, fields, nodes) && x.Crash?
    ensures j < |items| && items[j].Crash? && x.max == items[j].max
    ensures items[j].crashed <= items[j].max ==> x.crashed <= x.max
    decreases |items|
  {
    var n := |items| - 1;
    var item := items[n];
    if x in PlanOf(item, fields, nodes) {
      PlanOfCrash(item, fields, nodes, x);
      j := n;
    } else {
      j := PlanCrash(items[..n], FieldsAfter(item, fields), nodes, x);
    }
  }

  /** A crash item is run up to its maximum. */
  lemma {:induction false} PlanFull(items: seq<TestItem>, fields: map<nat, seq<Field>>, nodes: nat, j: nat, max: nat)
    requires j < |items| && items[j] == Crash(0, max)
    ensures Crash(max, max) in Plan(items, fields, nodes)
    decreases |items|
  {
    var n := |items| - 1;
    var item := items[n];
    if j == n {
      ChainFull(0, max);
      assert PlanOf(item, fields, nodes) == Chain(item);
    } else {
      PlanFull(items[..n], FieldsAfter(item, fields), nodes, j, max);
    }
  }

  // ----- the end of a campaign

  /** Without a full crash no round of an orderly campaign can fail to pass on. */
  lemma {:induction false} PassesOn(ctl: Control, maxPhase: nat, k: nat)
    requires Ready(ctl, maxPhase, true) && Orderly(ctl.items, maxPhase, true) && NoFullCrash(ctl.items, ctl.waiting)
    requires k < |Plan(ctl.items, ctl.fields, ctl.waiting)|
    ensures !AllCrash(After(Configure(ctl), k))
  {
    var plan := Plan(ctl.items, ctl.fields, ctl.waiting);
    OrderlyEnds(ctl, maxPhase, true, k);
    ConfigureWaiting(ctl);
    AfterWaiting(Configure(ctl), ctl.waiting, k);
    if plan[k].Crash? {
      var j := PlanCrash(ctl.items, ctl.fields, ctl.waiting, plan[k]);
      assert Startable(ctl.items[j], ctl.waiting, maxPhase);
    }
  }

  lemma {:induction false} OrderlyCourse(ctl: Control, maxPhase: nat, last: nat -> bool, k: nat)
    requires Ready(ctl, maxPhase, true) && Orderly(ctl.items, maxPhase, true) && NoFullCrash(ctl.items, ctl.waiting)
    requires k <= |Plan(ctl.items, ctl.fields, ctl.waiting)|
    ensures Course(Configure(ctl), last, k) == After(Configure(ctl), k)
  {
    forall j: nat | j < k ensures !(AllCrash(After(Configure(ctl), j)) && !last(j)) {
      PassesOn(ctl, maxPhase, j);
    }
    CourseIsAfter(Configure(ctl), last, k);
  }

  /** A round in which all nodes crash, with an early report, is the last. */
  lemma {:induction false} CourseStalls(s: State, last: nat -> bool, k: nat, j: nat)
    requires (forall i: nat :: !last(i)) && AllCrash(After(s, k)) && (forall i: nat | i <= k :: After(s, i).Active?)
    ensures !EndsIn(s, last, j)
    decreases k
  {
    if i: nat :| i < k && AllCrash(After(s, i)) {
      CourseStalls(s, last, i, j);
    } else if j <= k {
      CourseIsAfter(s, last, j);
    } else {
      CourseIsAfter(s, last, k);
      assert Course(s, last, k + 1) == CourseMore(s, last, k + 1);
      CourseStuck(s, last, k + 1, j);
    }
  }

  /** The round of an orderly plan in which every node is a crash node. */
  lemma FullRound(ctl: Control, maxPhase: nat) returns (k: nat)
    requires Ready(ctl, maxPhase, true) && Orderly(ctl.items, maxPhase, true) && !NoFullCrash(ctl.items, ctl.waiting)
    ensures AllCrash(After(Configure(ctl), k)) && forall i: nat | i <= k :: After(Configure(ctl), i).Active?
  {
    var s, plan := Configure(ctl), Plan(ctl.items, ctl.fields, ctl.waiting);
    var j :| 0 <= j < |ctl.items| && ctl.items[j].Crash? && ctl.items[j].max == ctl.waiting;
    assert Startable(ctl.items[j], ctl.waiting, maxPhase);
    PlanFull(ctl.items, ctl.fields, ctl.waiting, j, ctl.waiting);
    k :| 0 <= k < |plan| && plan[k] == Crash(ctl.waiting, ctl.waiting);
    forall i: nat | i <= k ensures RunsItem(After(s, i), plan[i]) {
      OrderlyEnds(ctl, maxPhase, true, i);
    }
    ConfigureWaiting(ctl);
    AfterWaiting(s, ctl.waiting, k);
  }

  lemma {:induction false} FullCrashStalls(ctl: Control, maxPhase: nat)
    requires Ready(ctl, maxPhase, true) && Orderly(ctl.items, maxPhase, true) && !NoFullCrash(ctl.items, ctl.waiting)
    ensures !AlwaysEnds(Configure(ctl))
  {
    var never: nat -> bool := n => false;
    var k := FullRound(ctl, maxPhase);
    forall j: nat ensures !EndsIn(Configure(ctl), never, j) {
      CourseStalls(Configure(ctl), never, k, j);
    }
    assert !Ends(Configure(ctl), never);
  }

  lemma {:induction false} DisorderStops(ctl: Control, maxPhase: nat)
    requires Ready(ctl, maxPhase, true) && !Orderly(ctl.items, maxPhase, true)
    ensures !AlwaysEnds(Configure(ctl))
  {
    var s := Configure(ctl);
    var always: nat -> bool := n => true;
    var j := OthersStop(ctl, maxPhase, true);
    forall k: nat ensures !EndsIn(s, always, k) {
      CourseIsAfter(s, always, k);
      StuckNeverEnds(s, j, k);
    }
    assert !Ends(s, always);
  }

  /** With enough nodes and known fields, a campaign comes to its end wherever the reports fall, if and
      only if it is orderly and never turns every node into a crash node. Then it runs its plan. */
  lemma {:induction false} CampaignAlwaysEnds(ctl: Control, maxPhase: nat, s: State)
    requires Ready(ctl, maxPhase, true) && s == Configure(ctl)
    ensures AlwaysEnds(s) <==> Orderly(ctl.items, maxPhase, true) && NoFullCrash(ctl.items, ctl.waiting)
    ensures Orderly(ctl.items, maxPhase, true) && NoFullCrash(ctl.items, ctl.waiting) ==>
      forall last: nat -> bool, k: nat | k < |Plan(ctl.items, ctl.fields, ctl.waiting)| ::
        RunsItem(Course(s, last, k), Plan(ctl.items, ctl.fields, ctl.waiting)[k])
  {
    var plan := Plan(ctl.items, ctl.fields, ctl.waiting);
    if !Orderly(ctl.items, maxPhase, true) {
      DisorderStops(ctl, maxPhase);
    } else if !NoFullCrash(ctl.items, ctl.waiting) {
      FullCrashStalls(ctl, maxPhase);
    } else {
      forall last: nat -> bool ensures Ends(s, last) {
        OrderlyEnds(ctl, maxPhase, true, 0);
        OrderlyCourse(ctl, maxPhase, last, |plan|);
        assert EndsIn(s, last, |plan|);
      }
      forall last: nat -> bool, k: nat | k < |plan| ensures RunsItem(Course(s, last, k), plan[k]) {
        OrderlyEnds(ctl, maxPhase, true, k);
        OrderlyCourse(ctl, maxPhase, last, k);
      }
    }
  }
}

/**
 How a campaign uses up the nodes: in every round of a scalability item the nodes that have not joined, and in
 every round of a crash item the nodes that have not crashed, are exactly those that the item's counts leave.
 */
module CampaignSets {
  import opened Common
  import opened Campaign
  import opened CampaignPlan
  import opened CampaignRounds

  /** The sizes of the node sets that belong to a running item. */
  ghost predicate Counted(ctl: Control, item: TestItem) {
    match item
    case Scalability(n, max, interval) =>
      && interval > 0 && n >= 1 && ctl.joinable < ctl.waiting
      && interval * (ctl.waiting - 1 - ctl.joinable) == n - 1
      && Left(item) <= ctl.joinable
    case Crash(n, max) => ctl.crashable + n == ctl.waiting && max <= ctl.waiting
    case Malicious(LeaderSendAmbiguousMessage(OtherRound(_), _, _, count)) => 1 <= count <= ctl.waiting
    case Malicious(ReplicaNodeConspireForgeMessages(OtherRound(_), _, _, count)) => 1 <= count <= ctl.waiting
    case _ => true
  }

  ghost predicate AllStartable(items: seq<TestItem>, nodes: nat, maxPhase: nat) {
    forall k | 0 <= k < |items| :: Startable(items[k], nodes, maxPhase)
  }

  ghost predicate Sound(ctl: Control, nodes: nat, maxPhase: nat) {
    && ctl.waiting == nodes >= 1 && ctl.dishonest == nodes
    && AllStartable(ctl.items, nodes, maxPhase)
  }

  ghost predicate InUse(s: State, nodes: nat, maxPhase: nat) {
    s.Active? ==>
      && Sound(s.ctl, nodes, maxPhase) && Counted(s.ctl, s.item)
      && (s.ctl.mid.Some? ==> s.ctl.mid.value == s.item)
  }

  lemma {:induction false} ConfigureInUse(ctl: Control, nodes: nat, maxPhase: nat)
    requires Sound(ctl, nodes, maxPhase) && ctl.mid.None?
    ensures InUse(Configure(ctl), nodes, maxPhase)
  {
    if ctl.items != [] {
      var item := ctl.items[|ctl.items| - 1];
      assert Startable(item, nodes, maxPhase);
      assert AllStartable(ctl.items[..|ctl.items| - 1], nodes, maxPhase);
    }
  }

  /** What the report of a running item leaves: no middle item, or one whose counts are still to be taken. */
  ghost predicate Reported(ctl: Control, item: TestItem, ctl': Control) {
    && ctl' == ctl.(mid := ctl'.mid, fields := ctl'.fields)
    && match item
       case Scalability(n, max, interval) =>
         ctl'.mid == if n + interval <= max then Some(Scalability(n + interval, max, interval)) else None
       case Crash(n, max) => ctl'.mid == if n + 1 <= max then Some(Crash(n + 1, max)) else None
       case _ => ctl'.mid.Some? ==>
           && !ctl'.mid.value.Scalability? && !ctl'.mid.value.Crash? && Counted(ctl, ctl'.mid.value)
           && (ctl'.mid.value.Malicious? ==> ctl'.mid.value.behaviour.round.OtherRound?)
           && (ctl'.mid.value.Malicious? || ctl'.mid.value == item)
  }

  lemma {:induction false} ProbeReported(ctl: Control, conspire: bool, round: Round, maxPhase: nat, field: Field,
      count: nat)
    requires 1 <= ctl.waiting && (round.OtherRound? ==> 1 <= count <= ctl.waiting)
    ensures var r := ProbeCompleted(ctl, conspire, round, maxPhase, field, count);
      r.Done? ==>
        && r.ctl == ctl.(mid := r.ctl.mid, fields := r.ctl.fields)
        && (r.ctl.mid.Some? ==>
              exists p, f, n :: 1 <= n <= ctl.waiting
                                && r.ctl.mid.value == Probe(conspire, OtherRound(p), maxPhase, f, n))
  {
  }

  lemma {:induction false} CompletedReported(ctl: Control, item: TestItem)
    requires 1 <= ctl.waiting && Counted(ctl, item) && (ctl.mid.Some? ==> ctl.mid.value == item)
    ensures Completed(ctl, item).Done? ==> Reported(ctl, item, Completed(ctl, item).ctl)
  {
    match item
    case Malicious(LeaderSendAmbiguousMessage(round, max, field, count)) =>
      ProbeReported(ctl, false, round, max, field, count);
    case Malicious(ReplicaNodeConspireForgeMessages(round, max, field, count)) =>
      ProbeReported(ctl, true, round, max, field, count);
    case _ =>
  }

  /** The next round of a scalability item takes one node, that of a crash item one. */
  lemma {:induction false} NextInUse(ctl: Control, item: TestItem, ctl': Control, nodes: nat, maxPhase: nat)
    requires Sound(ctl, nodes, maxPhase) && Counted(ctl, item) && Reported(ctl, item, ctl')
    ensures InUse(NextTest(ctl'), nodes, maxPhase)
  {
    assert Sound(ctl', nodes, maxPhase);
    if ctl'.mid.None? {
      ConfigureInUse(ctl', nodes, maxPhase);
    } else if item.Scalability? {
      SuccessorLeft(item);
      Distribute(item.interval, ctl.waiting - 1 - ctl.joinable);
    }
  }

  lemma Distribute(a: nat, b: int)
    ensures a * (b + 1) == a * b + a
  {
  }

  lemma {:induction false} StepInUse(s: State, nodes: nat, maxPhase: nat)
    requires InUse(s, nodes, maxPhase)
    ensures InUse(Step(s), nodes, maxPhase)
  {
    if s.Active? && Completed(s.ctl, s.item).Done? {
      CompletedReported(s.ctl, s.item);
      NextInUse(s.ctl, s.item, Completed(s.ctl, s.item).ctl, nodes, maxPhase);
    }
  }

  lemma {:induction false} CourseInUse(ctl: Control, maxPhase: nat, last: nat -> bool, k: nat)
    requires Ready(ctl, maxPhase, true)
    ensures InUse(Course(Configure(ctl), last, k), ctl.waiting, maxPhase)
  {
    if k == 0 {
      ConfigureInUse(ctl, ctl.waiting, maxPhase);
    } else {
      assert Course(Configure(ctl), last, k) == CourseMore(Configure(ctl), last, k);
      CourseInUse(ctl, maxPhase, last, k - 1);
      StepInUse(Course(Configure(ctl), last, k - 1), ctl.waiting, maxPhase);
    }
  }

  /** In every round of a campaign that starts with enough nodes, wherever the reports fall: a scalability round for
      n nodes with interval i has used (n - 1) / i joins after the first node, so that with interval 1 all but n
      nodes can still join; a crash round for n nodes leaves all but n to crash. */
  lemma {:induction false} NodesUsed(ctl: Control, maxPhase: nat, last: nat -> bool, k: nat)
    requires Ready(ctl, maxPhase, true)
    ensures var s := Course(Configure(ctl), last, k);
      s.Active? ==>
        && s.ctl.waiting == s.ctl.dishonest == ctl.waiting
        && (s.item.Scalability? ==> s.item.interval * (ctl.waiting - 1 - s.ctl.joinable) == s.item.nodes - 1)
        && (s.item.Scalability? && s.item.interval == 1 ==> s.ctl.joinable == ctl.waiting - s.item.nodes)
        && (s.item.Crash? ==> s.ctl.crashable == ctl.waiting - s.item.crashed)
  {
    CourseInUse(ctl, maxPhase, last, k);
  }
}

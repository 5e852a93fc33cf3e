/**
 The controller object: its item stack, node sets, field lists and acknowledgement counters are
 updated in place. Every method is proved against the functions of Campaign and Barrier.
 */
module Controller {
  import opened Common
  import opened Campaign
  import Barrier
  import CampaignPlan
  import CampaignRounds

  type Peer = nat

  // ----- the settings a campaign is configured from

  datatype ScalabilitySettings = ScalabilitySettings(enable: Option<bool>, max: Option<nat>, internal: Option<nat>)

  datatype CrashSettings = CrashSettings(enable: Option<bool>, max: Option<nat>)

  datatype MaliciousSettings =
    MaliciousSettings(enable: Option<bool>, numberOfPhase: Option<nat>, behaviours: Option<seq<string>>)

  datatype Settings = Settings(
    throughput: Option<Option<bool>>,
    latency: Option<Option<bool>>,
    scalability: Option<ScalabilitySettings>,
    crash: Option<CrashSettings>,
    malicious: Option<MaliciousSettings>)

  function OrZero(n: Option<nat>): nat {
    if n.Some? then n.value else 0
  }

  function MeasureItems(throughput: bool, latency: bool): seq<TestItem> {
    if throughput && latency then [ThroughputAndLatency]
    else if throughput then [Throughput]
    else if latency then [Latency]
    else []
  }

  function ScalabilityItems(s: Option<ScalabilitySettings>): seq<TestItem> {
    if s.Some? && s.value.enable == Some(true) then [Scalability(1, OrZero(s.value.max), OrZero(s.value.internal))]
        else []
  }

  function CrashItems(s: Option<CrashSettings>): seq<TestItem> {
    if s.Some? && s.value.enable == Some(true) then [Crash(0, OrZero(s.value.max))] else []
  }

  /** The item of a named behaviour; unknown names are skipped. */
  function BehaviourItems(name: string, phases: nat): seq<TestItem> {
    if name == "LeaderFeignDeath" then [Malicious(LeaderFeignDeath(FirstRound, phases))]
    else if name == "LeaderSendAmbiguousMessage" then [Malicious(LeaderSendAmbiguousMessage(FirstRound, phases, [], 0))]
    else if name == "LeaderDelaySendMessage" then [Malicious(LeaderDelaySendMessage(FirstRound, phases))]
    else if name == "LeaderSendDuplicateMessage" then [Malicious(LeaderSendDuplicateMessage(FirstRound, phases))]
    else if name == "ReplicaNodeConspireForgeMessages" then
      [Malicious(ReplicaNodeConspireForgeMessages(FirstRound, phases, [], 0))]
    else []
  }

  function AllBehaviourItems(names: seq<string>, phases: nat): seq<TestItem> {
    if names == [] then []
    else AllBehaviourItems(names[..|names| - 1], phases) + BehaviourItems(names[|names| - 1], phases)
  }

  predicate Listed(s: Option<MaliciousSettings>) {
    s.Some? && s.value.enable == Some(true) && s.value.behaviours.Some?
  }

  /** The configured items in the order in which they are to run. */
  function ConfiguredItems(s: Settings): seq<TestItem> {
    MeasureItems(s.throughput == Some(Some(true)), s.latency == Some(Some(true)))
    + ScalabilityItems(s.scalability) + CrashItems(s.crash)
    + if Listed(s.malicious) then AllBehaviourItems(s.malicious.value.behaviours.value,
      OrZero(s.malicious.value.numberOfPhase)) else []
  }

  /** The item of each known behaviour name. */
  predicate IsBehaviour(name: string, phases: nat, item: TestItem) {
    && item.Malicious? && item.behaviour.round.FirstRound? && item.behaviour.maxPhase == phases
    && match item.behaviour
       case LeaderFeignDeath(_, _) => name == "LeaderFeignDeath"
       case LeaderSendAmbiguousMessage(_, _, field, count) =>
         name == "LeaderSendAmbiguousMessage" && field == [] && count == 0
       case LeaderDelaySendMessage(_, _) => name == "LeaderDelaySendMessage"
       case LeaderSendDuplicateMessage(_, _) => name == "LeaderSendDuplicateMessage"
       case ReplicaNodeConspireForgeMessages(_, _, field, count) =>
         name == "ReplicaNodeConspireForgeMessages" && field == [] && count == 0
  }

  predicate IsKnownName(name: string) {
    name in {"LeaderFeignDeath", "LeaderSendAmbiguousMessage", "LeaderDelaySendMessage", "LeaderSendDuplicateMessage",
             "ReplicaNodeConspireForgeMessages"}
  }

  /** The known names of a list, in order. */
  function KnownNames(names: seq<string>): seq<string> {
    if names == [] then []
    else KnownNames(names[..|names| - 1]) + if IsKnownName(names[|names| - 1]) then [names[|names| - 1]] else []
  }

  lemma {:induction false} BehavioursInOrder(names: seq<string>, phases: nat)
    ensures var items, known := AllBehaviourItems(names, phases), KnownNames(names);
      |items| == |known| && forall k | 0 <= k < |items| :: IsBehaviour(known[k], phases, items[k])
  {
    if names != [] {
      BehavioursInOrder(names[..|names| - 1], phases);
    }
  }

  /** The measuring, scalability and crash items. */
  ghost predicate IsHead(s: Settings, items: seq<TestItem>) {
    var t, l := s.throughput == Some(Some(true)), s.latency == Some(Some(true));
    var scales := s.scalability.Some? && s.scalability.value.enable == Some(true);
    var crashes := s.crash.Some? && s.crash.value.enable == Some(true);
    var m := if t || l then 1 else 0;
    var p := m + if scales then 1 else 0;
    && |items| == p + (if crashes then 1 else 0)
    && (t && l ==> items[0] == ThroughputAndLatency)
    && (t && !l ==> items[0] == Throughput)
    && (!t && l ==> items[0] == Latency)
    && (scales ==> items[m].Scalability? && items[m].nodes == 1
                   && items[m].max == (if s.scalability.value.max.Some? then s.scalability.value.max.value else 0)
                   && items[m].interval
                      == if s.scalability.value.internal.Some? then s.scalability.value.internal.value else 0)
    && (crashes ==> items[p].Crash? && items[p].crashed == 0
                    && items[p].max == if s.crash.value.max.Some? then s.crash.value.max.value else 0)
  }

  /** The items of the known names among the listed behaviours. */
  ghost predicate IsTail(s: Settings, items: seq<TestItem>) {
    if s.malicious.Some? && s.malicious.value.enable == Some(true) && s.malicious.value.behaviours.Some? then
      var phases := if s.malicious.value.numberOfPhase.Some? then s.malicious.value.numberOfPhase.value else 0;
      var known := KnownNames(s.malicious.value.behaviours.value);
      |items| == |known| && forall k | 0 <= k < |known| :: IsBehaviour(known[k], phases, items[k])
    else items == []
  }

  lemma HeadExactly(s: Settings)
    ensures var a := MeasureItems(s.throughput == Some(Some(true)), s.latency == Some(Some(true)));
      IsHead(s, a + ScalabilityItems(s.scalability) + CrashItems(s.crash))
  {
  }

  /** What is configured: one measuring item for throughput, latency or both at once, a scalability item that starts
      with one node, a crash item that starts with none, each only if enabled, and then one item for every known
      name among the listed behaviours, in order. */
  lemma ConfiguredExactly(s: Settings) returns (head: seq<TestItem>, tail: seq<TestItem>)
    ensures ConfiguredItems(s) == head + tail && IsHead(s, head) && IsTail(s, tail)
  {
    var a := MeasureItems(s.throughput == Some(Some(true)), s.latency == Some(Some(true)));
    head := a + ScalabilityItems(s.scalability) + CrashItems(s.crash);
    HeadExactly(s);
    if Listed(s.malicious) {
      tail := AllBehaviourItems(s.malicious.value.behaviours.value, OrZero(s.malicious.value.numberOfPhase));
      BehavioursInOrder(s.malicious.value.behaviours.value, OrZero(s.malicious.value.numberOfPhase));
    } else {
      tail := [];
    }
  }

  /** Listed behaviours without a number of phases make the configuration panic. */
  predicate Complete(s: Settings) {
    Listed(s.malicious) ==> s.malicious.value.numberOfPhase.Some?
  }

  function Reversed<T>(xs: seq<T>): (r: seq<T>)
    ensures |r| == |xs| && forall k | 0 <= k < |xs| :: r[k] == xs[|xs| - 1 - k]
  {
    if xs == [] then [] else Reversed(xs[1..]) + [xs[0]]
  }

  lemma Pushed(was: seq<TestItem>, s: Settings, now: seq<TestItem>)
    requires Complete(s)
    requires now == was + MeasureItems(s.throughput == Some(Some(true)), s.latency == Some(Some(true)))
                  + ScalabilityItems(s.scalability) + CrashItems(s.crash)
                  + if Listed(s.malicious) then AllBehaviourItems(s.malicious.value.behaviours.value,
                    s.malicious.value.numberOfPhase.value) else []
    ensures now == was + ConfiguredItems(s)
  {
  }

  // ----- from settings to a campaign that ends

  function PhasesOf(s: Settings): nat {
    if Listed(s.malicious) then OrZero(s.malicious.value.numberOfPhase) else 0
  }

  /** What a user can check before starting: a positive interval, and nodes for every step. */
  predicate EnoughNodes(s: Settings, nodes: nat) {
    && 1 <= nodes < U16_LIMIT
    && (ScalabilityItems(s.scalability) != [] ==>
          var item := ScalabilityItems(s.scalability)[0];
          && item.interval > 0 && item.max + item.interval < U16_LIMIT && 1 + item.interval < U16_LIMIT
          && CampaignPlan.Left(item) <= nodes - 1)
    && (CrashItems(s.crash) != [] ==>
          CrashItems(s.crash)[0].max < U16_LIMIT - 1 && CrashItems(s.crash)[0].max <= nodes)
  }

  lemma {:induction false} BehavioursStartable(names: seq<string>, phases: nat, nodes: nat)
    ensures forall k | 0 <= k < |AllBehaviourItems(names, phases)| ::
      CampaignPlan.Startable(AllBehaviourItems(names, phases)[k], nodes, phases)
  {
    if names != [] {
      BehavioursStartable(names[..|names| - 1], phases, nodes);
    }
  }

  ghost predicate AllStartable(items: seq<TestItem>, nodes: nat, phases: nat) {
    forall k | 0 <= k < |items| :: CampaignPlan.Startable(items[k], nodes, phases)
  }

  lemma StartableConcat(a: seq<TestItem>, b: seq<TestItem>, nodes: nat, phases: nat)
    requires AllStartable(a, nodes, phases) && AllStartable(b, nodes, phases)
    ensures AllStartable(a + b, nodes, phases)
  {
  }

  lemma MeasuresStartable(throughput: bool, latency: bool, nodes: nat, phases: nat)
    ensures AllStartable(MeasureItems(throughput, latency), nodes, phases)
  {
  }

  lemma ScalingStartable(s: Settings, nodes: nat, phases: nat)
    requires EnoughNodes(s, nodes)
    ensures AllStartable(ScalabilityItems(s.scalability), nodes, phases)
    ensures AllStartable(CrashItems(s.crash), nodes, phases)
  {
  }

  lemma ConfiguredStartable(s: Settings, nodes: nat)
    requires EnoughNodes(s, nodes)
    ensures AllStartable(ConfiguredItems(s), nodes, PhasesOf(s))
  {
    var phases := PhasesOf(s);
    var a := MeasureItems(s.throughput == Some(Some(true)), s.latency == Some(Some(true)));
    var b, c := ScalabilityItems(s.scalability), CrashItems(s.crash);
    MeasuresStartable(s.throughput == Some(Some(true)), s.latency == Some(Some(true)), nodes, phases);
    ScalingStartable(s, nodes, phases);
    StartableConcat(a, b, nodes, phases);
    StartableConcat(a + b, c, nodes, phases);
    if Listed(s.malicious) {
      var names := s.malicious.value.behaviours.value;
      BehavioursStartable(names, phases, nodes);
      StartableConcat(a + b + c, AllBehaviourItems(names, phases), nodes, phases);
    } else {
      assert ConfiguredItems(s) == a + b + c;
    }
  }

  lemma ReadyToStart(s: Settings, ctl: Control)
    requires EnoughNodes(s, ctl.waiting) && ctl.dishonest == ctl.waiting && ctl.mid == None
    requires Known(ctl.fields, 1, PhasesOf(s)) && ctl.items == Reversed(ConfiguredItems(s))
    ensures CampaignPlan.Ready(ctl, PhasesOf(s), true)
  {
    ConfiguredStartable(s, ctl.waiting);
  }

  /** A controller configured from enough settings, nodes and fields runs its items to the end, wherever
      the reports of its rounds fall, if and only if they are orderly and do not crash every node; and
      then in the configured order. */
  lemma {:induction false} ConfiguredCampaign(s: Settings, ctl: Control, start: State)
    requires EnoughNodes(s, ctl.waiting) && ctl.dishonest == ctl.waiting && ctl.mid == None
    requires Known(ctl.fields, 1, PhasesOf(s))
    requires ctl.items == Reversed(ConfiguredItems(s)) && start == Configure(ctl)
    ensures CampaignRounds.AlwaysEnds(start) <==> RunsThrough(s, ctl)
    ensures RunsThrough(s, ctl) ==>
      var plan := InOrder(ConfiguredItems(s), ctl.fields, ctl.waiting);
      forall last: nat -> bool, k: nat | k < |plan| ::
          CampaignPlan.RunsItem(CampaignRounds.Course(start, last, k), plan[k])
  {
    ReadyToStart(s, ctl);
    CampaignRounds.CampaignAlwaysEnds(ctl, PhasesOf(s), start);
    PlanInOrder(ConfiguredItems(s), ctl.fields, ctl.waiting);
  }

  /** What decides whether a configured campaign gets through. */
  predicate RunsThrough(s: Settings, ctl: Control) {
    && CampaignPlan.Orderly(ctl.items, PhasesOf(s), true)
    && CampaignRounds.NoFullCrash(ctl.items, ctl.waiting)
  }

  /** The rounds of a list of items, first item first. */
  function InOrder(items: seq<TestItem>, fields: map<nat, seq<Field>>, nodes: nat): seq<TestItem> {
    if items == [] then []
    else CampaignPlan.PlanOf(items[0], fields, nodes) + InOrder(items[1..],
        CampaignPlan.FieldsAfter(items[0], fields), nodes)
  }

  lemma {:induction false} PlanInOrder(items: seq<TestItem>, fields: map<nat, seq<Field>>, nodes: nat)
    ensures CampaignPlan.Plan(Reversed(items), fields, nodes) == InOrder(items, fields, nodes)
  {
    if items != [] {
      var r := Reversed(items);
      assert r[..|r| - 1] == Reversed(items[1..]);
      PlanInOrder(items[1..], CampaignPlan.FieldsAfter(items[0], fields), nodes);
    }
  }

  // ----- the object

  datatype Outcome = Running(item: TestItem) | AllDone | Silent | Panic

  class Controller {
    var testItems: seq<TestItem>
    var midItem: Option<TestItem>
    var fields: map<nat, seq<Field>>
    var waiting: set<Peer>
    var joinable: set<Peer>
    var crashable: set<Peer>
    var dishonest: seq<Peer>
    var consensusNodes: set<Peer>
    var resetCount: nat
    var crashResetCount: nat

    function Ctl(): Control
      reads this
    {
      Control(testItems, midItem, fields, |waiting|, |joinable|, |crashable|, |dishonest|)
    }

    function Acks(): Barrier.Counters
      reads this
    {
      Barrier.Counters(|consensusNodes|, resetCount, crashResetCount)
    }

    /** The controller has reached `s` and observed `o`. */
    ghost predicate Matches(s: State, o: Outcome)
      reads this
    {
      match s
      case Active(ctl, item) => o == Running(item) && Ctl() == ctl
      case Finished(ctl) => o == AllDone && Ctl() == ctl
      case Stalled(ctl) => o == Silent && Ctl() == ctl
      case Panicked => o == Panic
    }

    constructor ()
      ensures Ctl() == Control([], None, map[], 0, 0, 0, 0) && Acks() == Barrier.Counters(0, 0, 0)
    {
      testItems, midItem, fields := [], None, map[];
      waiting, joinable, crashable, dishonest, consensusNodes := {}, {}, {}, [], {};
      resetCount, crashResetCount := 0, 0;
    }

    /** Pushes the configured items and reverses the stack, so that they are popped in order. */
    method Setup(s: Settings) returns (ok: bool)
      modifies `testItems
      ensures ok == Complete(s)
      ensures ok ==> testItems == Reversed(old(testItems) + ConfiguredItems(s))
    {
      PushMeasures(s.throughput == Some(Some(true)), s.latency == Some(Some(true)));
      PushScaling(s.scalability, s.crash);
      if s.malicious.Some? && s.malicious.value.enable == Some(true) && s.malicious.value.behaviours.Some? {
        if s.malicious.value.numberOfPhase.None? {
          return false;
        }
        PushBehaviours(s.malicious.value.behaviours.value, s.malicious.value.numberOfPhase.value);
      }
      Pushed(old(testItems), s, testItems);
      testItems := Reversed(testItems);
      ok := true;
    }

    method PushMeasures(throughput: bool, latency: bool)
      modifies `testItems
      ensures testItems == old(testItems) + MeasureItems(throughput, latency)
    {
      if throughput && latency {
        testItems := testItems + [ThroughputAndLatency];
      } else if throughput && !latency {
        testItems := testItems + [Throughput];
      } else if !throughput && latency {
        testItems := testItems + [Latency];
      }
    }

    method PushScaling(scalability: Option<ScalabilitySettings>, crash: Option<CrashSettings>)
      modifies `testItems
      ensures testItems == old(testItems) + ScalabilityItems(scalability) + CrashItems(crash)
    {
      if scalability.Some? && scalability.value.enable == Some(true) {
        testItems := testItems + [Scalability(1, OrZero(scalability.value.max), OrZero(scalability.value.internal))];
      }
      if crash.Some? && crash.value.enable == Some(true) {
        testItems := testItems + [Crash(0, OrZero(crash.value.max))];
      }
    }

    method PushBehaviours(names: seq<string>, phases: nat)
      modifies `testItems
      ensures testItems == old(testItems) + AllBehaviourItems(names, phases)
    {
      for i := 0 to |names|
        invariant testItems == old(testItems) + AllBehaviourItems(names[..i], phases)
      {
        assert names[..i + 1][..i] == names[..i];
        if names[i] == "LeaderFeignDeath" {
          testItems := testItems + [Malicious(LeaderFeignDeath(FirstRound, phases))];
        } else if names[i] == "LeaderSendAmbiguousMessage" {
          testItems := testItems + [Malicious(LeaderSendAmbiguousMessage(FirstRound, phases, [], 0))];
        } else if names[i] == "LeaderDelaySendMessage" {
          testItems := testItems + [Malicious(LeaderDelaySendMessage(FirstRound, phases))];
        } else if names[i] == "LeaderSendDuplicateMessage" {
          testItems := testItems + [Malicious(LeaderSendDuplicateMessage(FirstRound, phases))];
        } else if names[i] == "ReplicaNodeConspireForgeMessages" {
          testItems := testItems + [Malicious(ReplicaNodeConspireForgeMessages(FirstRound, phases, [], 0))];
        }
        assert testItems == old(testItems) + (AllBehaviourItems(names[..i], phases) + BehaviourItems(names[i], phases));
      }
      assert names[..|names|] == names;
    }

    /** Pops the last field of a phase; an empty list is removed and yields the empty field. */
    method MaliciousTestNextField(phase: nat) returns (field: Option<Field>)
      modifies `fields
      ensures match PopField(old(fields), phase)
              case NoPhase => field == None && fields == old(fields)
              case Field(fs, f) => field == Some(f) && fields == fs
    {
      if phase !in fields {
        return None;
      }
      var fs := fields[phase];
      if fs != [] {
        fields := fields[phase := fs[..|fs| - 1]];
        return Some(fs[|fs| - 1]);
      }
      fields := fields - {phase};
      return Some([]);
    }

    /** The report on an ambiguous-message or conspire item. */
    method CompletedProbe(conspire: bool, round: Round, maxPhase: nat, field: Field, count: nat) returns (ok: bool)
      modifies `fields, `midItem
      ensures var r := ProbeCompleted(old(Ctl()), conspire, round, maxPhase, field, count);
        ok == r.Done? && (ok ==> Ctl() == r.ctl)
    {
      if round.FirstRound? {
        if maxPhase > 0 {
          var next := MaliciousTestNextField(1);
          if next.None? {
            return false;
          }
          midItem := Some(Probe(conspire, OtherRound(1), maxPhase, next.value, 1));
        } else {
          midItem := None;
        }
        return true;
      }
      var phase := round.phase;
      if count == |waiting| {
        var next := MaliciousTestNextField(phase);
        if next.None? {
          return false;
        }
        if |next.value| == 0 {
          if phase == maxPhase {
            midItem := None;
          } else {
            var first := MaliciousTestNextField(phase + 1);
            if first.None? {
              return false;
            }
            midItem := Some(Probe(conspire, OtherRound(phase + 1), maxPhase, first.value, 1));
          }
        } else {
          midItem := Some(Probe(conspire, round, maxPhase, next.value, 1));
        }
      } else {
        if count + 1 >= U16_LIMIT {
          return false;
        }
        midItem := Some(Probe(conspire, round, maxPhase, field, count + 1));
      }
      return true;
    }

    /** The middle item that follows a reported one. */
    method CompletedTest(item: TestItem) returns (ok: bool)
      modifies `fields, `midItem
      ensures var r := Completed(old(Ctl()), item);
        ok == r.Done? && (ok ==> Ctl() == r.ctl)
    {
      ok := true;
      match item
      case Scalability(count, max, internal) =>
        if count + internal >= U16_LIMIT {
          return false;
        }
        midItem := if count + internal <= max then Some(Scalability(count + internal, max, internal)) else None;
      case Crash(count, max) =>
        if count + 1 >= U16_LIMIT {
          return false;
        }
        midItem := if count + 1 <= max then Some(Crash(count + 1, max)) else None;
      case Malicious(LeaderFeignDeath(round, max)) =>
        var next := Later(round, max);
        midItem := if next.Some? then Some(Malicious(LeaderFeignDeath(next.value, max))) else None;
      case Malicious(LeaderDelaySendMessage(round, max)) =>
        var next := Later(round, max);
        midItem := if next.Some? then Some(Malicious(LeaderDelaySendMessage(next.value, max))) else None;
      case Malicious(LeaderSendDuplicateMessage(round, max)) =>
        var next := Later(round, max);
        midItem := if next.Some? then Some(Malicious(LeaderSendDuplicateMessage(next.value, max))) else None;
      case Malicious(LeaderSendAmbiguousMessage(round, max, field, count)) =>
        ok := CompletedProbe(false, round, max, field, count);
      case Malicious(ReplicaNodeConspireForgeMessages(round, max, field, count)) =>
        ok := CompletedProbe(true, round, max, field, count);
      case _ =>
    }

    /** One node is taken out of a set, at random. */
    ghost predicate Drawn(peer: Option<Peer>, before: set<Peer>, after: set<Peer>) {
      peer.Some? && peer.value in before && after == before - {peer.value}
    }

    /** Pops the next item, announces it and configures the nodes for it. A scalability item starts with one
        node, `first`, and leaves all the others to join; a crash item leaves every node to crash. */
    method ConfigureAnalyzerAndConsensusNode() returns (o: Outcome, first: Option<Peer>)
      modifies `testItems, `joinable, `crashable, `consensusNodes
      ensures Matches(Configure(old(Ctl())), o)
      ensures old(testItems) != [] && waiting != {} ==>
        && consensusNodes == {}
        && match old(testItems)[|old(testItems)| - 1]
           case Scalability(_, _, _) => Drawn(first, waiting, joinable) && crashable == old(crashable)
           case Crash(_, _) => first == None && crashable == waiting && joinable == old(joinable)
           case _ => first == None && crashable == old(crashable) && joinable == old(joinable)
      decreases |testItems|
    {
      first := None;
      if testItems == [] {
        return AllDone, None;
      }
      var item := testItems[|testItems| - 1];
      testItems := testItems[..|testItems| - 1];
      match item
      case Crash(_, _) =>
        crashable := waiting;
        consensusNodes := {};
        return Running(item), None;
      case Scalability(_, _, _) =>
        joinable := waiting;
        consensusNodes := {};
        if |joinable| == 0 {
          o, first := ConfigureAnalyzerAndConsensusNode();
          return;
        }
        var peer :| peer in joinable;
        joinable := joinable - {peer};
        return Running(item), Some(peer);
      case _ =>
        consensusNodes := {};
        return Running(item), None;
    }

    /** The next test once the reset barrier has opened. The next round of a scalability item lets one more node
        join, that of a crash item crashes one more; `taken` is that node. */
    method NextTest() returns (o: Outcome, taken: Option<Peer>)
      modifies `testItems, `joinable, `crashable, `consensusNodes
      ensures Matches(Campaign.NextTest(old(Ctl())), o)
      ensures old(midItem).Some? && old(midItem).value.Scalability? && old(joinable) != {} ==>
        && Drawn(taken, old(joinable), joinable)
        && crashable == old(crashable) && testItems == old(testItems) && consensusNodes == old(consensusNodes)
      ensures old(midItem).Some? && old(midItem).value.Crash? && old(midItem).value.crashed > 0
              && old(crashable) != {} ==>
        && Drawn(taken, old(crashable), crashable)
        && joinable == old(joinable) && testItems == old(testItems) && consensusNodes == old(consensusNodes)
    {
      taken := None;
      if midItem.None? {
        o, taken := ConfigureAnalyzerAndConsensusNode();
        return;
      }
      var item := midItem.value;
      match item
      case Scalability(_, _, _) =>
        if |joinable| == 0 {
          var _, _ := ConfigureAnalyzerAndConsensusNode();
        } else {
          var peer :| peer in joinable;
          joinable := joinable - {peer};
          taken := Some(peer);
        }
        return Running(item), taken;
      case Crash(count, _) =>
        if count == 0 {
          return Running(item), None;
        }
        if |crashable| == 0 {
          o, taken := ConfigureAnalyzerAndConsensusNode();
          return;
        }
        var peer :| peer in crashable;
        crashable := crashable - {peer};
        return Running(item), Some(peer);
      case Malicious(LeaderFeignDeath(round, _)) =>
        return (if round.FirstRound? then Panic else if |dishonest| == 0 then Silent else Running(item)), None;
      case Malicious(LeaderSendDuplicateMessage(round, _)) =>
        return (if round.FirstRound? then Panic else if |dishonest| == 0 then Silent else Running(item)), None;
      case Malicious(LeaderSendAmbiguousMessage(round, _, _, _)) =>
        if round.FirstRound? {
          return Panic, None;
        }
        if |dishonest| == 0 {
          o, taken := ConfigureAnalyzerAndConsensusNode();
          return;
        }
        return Running(item), None;
      case Malicious(ReplicaNodeConspireForgeMessages(round, _, _, count)) =>
        o := NextConspire(item, round, count);
        return;
      case _ => return Silent, None;
    }

    /** The conspire item: too few nodes make it configure the next item first. */
    method NextConspire(item: TestItem, round: Round, count: nat) returns (o: Outcome)
      requires midItem == Some(item) && item.Malicious? && item.behaviour.ReplicaNodeConspireForgeMessages?
      requires item.behaviour.round == round && item.behaviour.count == count
      modifies `testItems, `joinable, `crashable, `consensusNodes
      ensures Matches(Campaign.NextTest(old(Ctl())), o)
    {
      if count > |dishonest| {
        var _, _ := ConfigureAnalyzerAndConsensusNode();
      }
      if round.FirstRound? {
        return Panic;
      }
      if count == 0 {
        var first: Option<Peer>;
        o, first := ConfigureAnalyzerAndConsensusNode();
        return;
      }
      return Running(item);
    }

    /** The next test is started exactly when the two counters add up to all nodes. */
    method CheckResetAllSuccess() returns (o: Option<Outcome>)
      modifies `testItems, `joinable, `crashable, `consensusNodes, `resetCount, `crashResetCount
      ensures var x := Barrier.Check(old(Acks()));
        && resetCount == x.counters.reset && crashResetCount == x.counters.crashReset
        && x.fires == o.Some?
        && (o.Some? ==> Matches(Campaign.NextTest(old(Ctl())), o.value))
        && (o.None? ==> Ctl() == old(Ctl()) && consensusNodes == old(consensusNodes))
    {
      if |consensusNodes| % U16_LIMIT == resetCount + crashResetCount {
        resetCount, crashResetCount := 0, 0;
        var next, _ := NextTest();
        return Some(next);
      }
      return None;
    }

    method ResetSuccess(crashed: bool) returns (o: Option<Outcome>)
      modifies `testItems, `joinable, `crashable, `consensusNodes, `resetCount, `crashResetCount
      ensures var x := if crashed then Barrier.OnCrash(old(Acks())) else Barrier.OnReset(old(Acks()));
        && resetCount == x.counters.reset && crashResetCount == x.counters.crashReset
        && x.fires == o.Some?
        && (o.Some? ==> Matches(Campaign.NextTest(old(Ctl())), o.value))
        && (o.None? ==> Ctl() == old(Ctl()) && consensusNodes == old(consensusNodes))
    {
      if crashed {
        crashResetCount := crashResetCount + 1;
        if |consensusNodes| != crashResetCount {
          o := CheckResetAllSuccess();
        } else {
          o := None;
        }
      } else {
        resetCount := resetCount + 1;
        o := CheckResetAllSuccess();
      }
    }

    /** After a report: the next test at once if every node has crashed, otherwise a reset is sent. */
    method ResetConsensusNode() returns (o: Option<Outcome>)
      modifies `testItems, `joinable, `crashable, `consensusNodes, `resetCount, `crashResetCount
      ensures var x := Barrier.OnReport(old(Acks()));
        && resetCount == x.counters.reset && crashResetCount == x.counters.crashReset
        && x.fires == o.Some?
        && (o.Some? ==> Matches(Campaign.NextTest(old(Ctl())), o.value))
        && (o.None? ==> Ctl() == old(Ctl()) && consensusNodes == old(consensusNodes))
    {
      if |consensusNodes| % U16_LIMIT == crashResetCount {
        resetCount, crashResetCount := 0, 0;
        var next, _ := NextTest();
        return Some(next);
      }
      return None;
    }
  }
}

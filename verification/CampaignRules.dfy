/**
 The branches of the controller that a well-provided campaign never reaches: counts that leave the range of
 16 bits, unknown phases, and nodes that have run out.
 */
module CampaignRules {
  import opened Common
  import opened Campaign

  // ----- reports that fail

  /** The field that a phase yields next: its last one, the empty one if it has none left. */
  function NextField(fields: map<nat, seq<Field>>, phase: nat): Field
    requires phase in fields
  {
    if fields[phase] == [] then [] else fields[phase][|fields[phase]| - 1]
  }

  predicate ProbeFails(ctl: Control, round: Round, maxPhase: nat, count: nat) {
    match round
    case FirstRound => maxPhase > 0 && 1 !in ctl.fields
    case OtherRound(phase) =>
      if count != ctl.waiting then count >= 65535
      else
        phase !in ctl.fields
        || (NextField(ctl.fields, phase) == [] && phase != maxPhase && phase + 1 !in ctl.fields)
  }

  /** A report fails exactly if a count leaves the range of 16 bits or the next phase is unknown. */
  lemma FailsExactly(ctl: Control, item: TestItem)
    ensures Completed(ctl, item).Failed? <==>
      match item
      case Scalability(n, _, interval) => n + interval > 65535
      case Crash(n, _) => n + 1 > 65535
      case Malicious(LeaderSendAmbiguousMessage(round, max, _, count)) => ProbeFails(ctl, round, max, count)
      case Malicious(ReplicaNodeConspireForgeMessages(round, max, _, count)) => ProbeFails(ctl, round, max, count)
      case _ => false
  {
  }

  /** A measuring item leaves the controller as it was, with whatever middle item it has. */
  lemma MeasuringLeaves(ctl: Control, item: TestItem)
    requires item.Throughput? || item.Latency? || item.ThroughputAndLatency?
    ensures Completed(ctl, item) == Done(ctl)
  {
  }

  // ----- the next item

  /** The top item is popped and announced. A crash item may crash every node, a scalability item lets all nodes but one
      join; without any node a scalability item is skipped. */
  lemma {:induction false} ConfiguresTop(ctl: Control)
    requires ctl.items != []
    ensures var top := ctl.items[|ctl.items| - 1];
      var rest := ctl.(items := ctl.items[..|ctl.items| - 1]);
      Configure(ctl)
      == if top.Crash? then Active(rest.(crashable := ctl.waiting), top)
         else if !top.Scalability? then Active(rest, top)
         else if ctl.waiting > 0 then Active(rest.(joinable := ctl.waiting - 1), top)
         else Configure(rest.(joinable := 0))
  {
  }

  /** The round of a middle item goes ahead with one node taken out of its set, or with none taken if it needs none. */
  lemma GoesAhead(ctl: Control)
    requires ctl.mid.Some?
    ensures var item := ctl.mid.value;
      match item
      case Scalability(_, _, _) =>
        ctl.joinable > 0 ==> NextTest(ctl) == Active(ctl.(joinable := ctl.joinable - 1), item)
      case Crash(n, _) =>
        && (n > 0 && ctl.crashable > 0 ==> NextTest(ctl) == Active(ctl.(crashable := ctl.crashable - 1), item))
        && (n == 0 ==> NextTest(ctl) == Active(ctl, item))
      case Malicious(b) =>
        b.round.OtherRound? && ctl.dishonest > 0 && !b.LeaderDelaySendMessage?
        && (b.ReplicaNodeConspireForgeMessages? ==> 0 < b.count <= ctl.dishonest)
        ==> NextTest(ctl) == Active(ctl, item)
      case _ => true
  {
  }

  /** When no node is left to join, a scalability round swallows the item on top of the stack, if there is one: it is
      popped and configured, but the scalability item is announced. */
  lemma {:induction false} NoneToJoin(ctl: Control)
    requires ctl.mid.Some? && ctl.mid.value.Scalability? && ctl.joinable == 0
    ensures NextTest(ctl) == Active(Configure(ctl).ctl, ctl.mid.value)
    ensures ctl.items == [] ==> NextTest(ctl) == Active(ctl, ctl.mid.value)
  {
  }

  /** When no node is left to crash, or none can send ambiguous messages, the campaign goes on with the next item. */
  lemma {:induction false} NoneToCrash(ctl: Control)
    requires ctl.mid.Some?
    requires var item := ctl.mid.value;
      || (item.Crash? && item.crashed > 0 && ctl.crashable == 0)
      || (item.Malicious? && item.behaviour.LeaderSendAmbiguousMessage? && item.behaviour.round.OtherRound?
          && ctl.dishonest == 0)
    ensures NextTest(ctl) == Configure(ctl)
  {
  }

  /** A conspire item without enough nodes configures the item on top of the stack first; for no node at all it goes on
      with the next item after that. */
  lemma {:induction false} TooFewConspire(ctl: Control)
    requires ctl.mid.Some? && ctl.mid.value.Malicious? && ctl.mid.value.behaviour.ReplicaNodeConspireForgeMessages?
    requires ctl.mid.value.behaviour.round.OtherRound?
    ensures var count := ctl.mid.value.behaviour.count;
      && (count > ctl.dishonest ==> NextTest(ctl) == Active(Configure(ctl).ctl, ctl.mid.value))
      && (count == 0 ==> NextTest(ctl) == Configure(ctl))
  {
  }

  /** The campaign falls silent exactly on a middle item that delays messages or measures, or on one whose leader
      feigns death or repeats messages when no node can be dishonest. */
  lemma SilentExactly(ctl: Control)
    requires ctl.mid.Some?
    ensures NextTest(ctl).Stalled? <==>
      match ctl.mid.value
      case Scalability(_, _, _) => false
      case Crash(_, _) => false
      case Malicious(LeaderFeignDeath(round, _)) => round.OtherRound? && ctl.dishonest == 0
      case Malicious(LeaderSendDuplicateMessage(round, _)) => round.OtherRound? && ctl.dishonest == 0
      case Malicious(LeaderSendAmbiguousMessage(_, _, _, _)) => false
      case Malicious(ReplicaNodeConspireForgeMessages(_, _, _, _)) => false
      case _ => true
    ensures NextTest(ctl).Stalled? ==> NextTest(ctl).ctl == ctl
  {
  }

  /** It panics exactly on a middle item of a first round that needs a phase. */
  lemma PanicsExactly(ctl: Control)
    requires ctl.mid.Some?
    ensures NextTest(ctl).Panicked? <==>
      && ctl.mid.value.Malicious? && !ctl.mid.value.behaviour.LeaderDelaySendMessage?
      && ctl.mid.value.behaviour.round.FirstRound?
  {
  }
}

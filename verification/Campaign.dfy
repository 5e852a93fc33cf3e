/**
 The controller's test campaign: which test item follows which. A round ends when the analyzer
 reports the item it ran; the controller then computes the next middle item and, once the reset
 barrier has opened, announces it or pops the next configured item.
 */
module Campaign {
  import opened Common

  type Field = seq<string>

  datatype Round = FirstRound | OtherRound(phase: nat)

  datatype Behaviour =
    | LeaderFeignDeath(round: Round, maxPhase: nat)
    | LeaderDelaySendMessage(round: Round, maxPhase: nat)
    | LeaderSendDuplicateMessage(round: Round, maxPhase: nat)
    | LeaderSendAmbiguousMessage(round: Round, maxPhase: nat, field: Field, count: nat)
    | ReplicaNodeConspireForgeMessages(round: Round, maxPhase: nat, field: Field, count: nat)

  datatype TestItem =
    | Throughput
    | Latency
    | ThroughputAndLatency
    | Scalability(nodes: nat, max: nat, interval: nat)
    | Crash(crashed: nat, max: nat)
    | Malicious(behaviour: Behaviour)

  /** `items` is a stack, its last element is popped next; `waiting`, `joinable`, `crashable` and
      `dishonest` are the sizes of the controller's node sets. */
  datatype Control = Control(
    items: seq<TestItem>,
    mid: Option<TestItem>,
    fields: map<nat, seq<Field>>,
    waiting: nat,
    joinable: nat,
    crashable: nat,
    dishonest: nat)

  /** Active: `item` is being run. Stalled: no node is told to start, so no report will come. */
  datatype State = Active(ctl: Control, item: TestItem) | Finished(ctl: Control) | Stalled(ctl: Control) | Panicked

  // ----- popping fields

  datatype Popped = NoPhase | Field(fields: map<nat, seq<Field>>, field: Field)

  /** The last field of a phase; an exhausted phase is removed and yields the empty field. */
  function PopField(fields: map<nat, seq<Field>>, phase: nat): Popped {
    if phase !in fields then NoPhase
    else
      var fs := fields[phase];
      if fs == [] then Popped.Field(fields - {phase}, [])
      else Popped.Field(fields[phase := fs[..|fs| - 1]], fs[|fs| - 1])
  }

  // ----- the report of a finished round

  function Later(round: Round, maxPhase: nat): Option<Round> {
    match round
    case FirstRound => if maxPhase > 0 then Some(OtherRound(1)) else None
    case OtherRound(p) => if p < maxPhase then Some(OtherRound(p + 1)) else None
  }

  function Probe(conspire: bool, round: Round, maxPhase: nat, field: Field, count: nat): TestItem {
    Malicious(if conspire then ReplicaNodeConspireForgeMessages(round, maxPhase, field, count)
              else LeaderSendAmbiguousMessage(round, maxPhase, field, count))
  }

  datatype Report = Failed | Done(ctl: Control)

  /** The first field of `phase` with count 1, or failure if the phase is unknown. */
  function EnterPhase(ctl: Control, conspire: bool, maxPhase: nat, phase: nat): Report {
    match PopField(ctl.fields, phase)
    case NoPhase => Failed
    case Field(fields, field) =>
      Done(ctl.(fields := fields, mid := Some(Probe(conspire, OtherRound(phase), maxPhase, field, 1))))
  }

  /** The report on an ambiguous-message or conspire item. */
  function ProbeCompleted(ctl: Control, conspire: bool, round: Round, maxPhase: nat, field: Field, count: nat): Report {
    match round
    case FirstRound =>
      if maxPhase > 0 then EnterPhase(ctl, conspire, maxPhase, 1) else Done(ctl.(mid := None))
    case OtherRound(phase) =>
      if count != ctl.waiting then
        if count + 1 >= U16_LIMIT then Failed
        else Done(ctl.(mid := Some(Probe(conspire, round, maxPhase, field, count + 1))))
      else
        match PopField(ctl.fields, phase)
        case NoPhase => Failed
        case Field(fields, next) =>
          var ctl' := ctl.(fields := fields);
          if next != [] then Done(ctl'.(mid := Some(Probe(conspire, round, maxPhase, next, 1))))
          else if phase == maxPhase then Done(ctl'.(mid := None))
          else EnterPhase(ctl', conspire, maxPhase, phase + 1)
  }

  function Completed(ctl: Control, item: TestItem): Report {
    match item
    case Scalability(n, max, interval) =>
      if n + interval >= U16_LIMIT then Failed
      else Done(ctl.(mid := if n + interval <= max then Some(Scalability(n + interval, max, interval)) else None))
    case Crash(n, max) =>
      if n + 1 >= U16_LIMIT then Failed
      else Done(ctl.(mid := if n + 1 <= max then Some(Crash(n + 1, max)) else None))
    case Malicious(LeaderFeignDeath(round, max)) =>
      var next := Later(round, max);
      Done(ctl.(mid := if next.Some? then Some(Malicious(LeaderFeignDeath(next.value, max))) else None))
    case Malicious(LeaderDelaySendMessage(round, max)) =>
      var next := Later(round, max);
      Done(ctl.(mid := if next.Some? then Some(Malicious(LeaderDelaySendMessage(next.value, max))) else None))
    case Malicious(LeaderSendDuplicateMessage(round, max)) =>
      var next := Later(round, max);
      Done(ctl.(mid := if next.Some? then Some(Malicious(LeaderSendDuplicateMessage(next.value, max))) else None))
    case Malicious(LeaderSendAmbiguousMessage(round, max, field, count)) =>
      ProbeCompleted(ctl, false, round, max, field, count)
    case Malicious(ReplicaNodeConspireForgeMessages(round, max, field, count)) =>
      ProbeCompleted(ctl, true, round, max, field, count)
    case _ => Done(ctl)
  }

  // ----- the next test, once the reset barrier has opened

  /** Pops the next configured item and configures the nodes for it. */
  function Configure(ctl: Control): (s: State)
    ensures s.Active? || s.Finished?
    decreases |ctl.items|
  {
    if ctl.items == [] then Finished(ctl) else
    var item := ctl.items[|ctl.items| - 1];
    var ctl' := ctl.(items := ctl.items[..|ctl.items| - 1]);
    match item
    case Crash(_, _) => Active(ctl'.(crashable := ctl.waiting), item)
    case Scalability(_, _, _) =>
      if ctl.waiting == 0 then Configure(ctl'.(joinable := 0))
      else Active(ctl'.(joinable := ctl.waiting - 1), item)
    case _ => Active(ctl', item)
  }

  /** The middle item is announced to the analyzer whatever happened before it. */
  function Announce(s: State, item: TestItem): State {
    if s.Panicked? then s else Active(s.ctl, item)
  }

  function NextTest(ctl: Control): State {
    if ctl.mid.None? then Configure(ctl) else
    var item := ctl.mid.value;
    match item
    case Scalability(_, _, _) =>
      if ctl.joinable == 0 then Announce(Configure(ctl), item) else Active(ctl.(joinable := ctl.joinable - 1), item)
    case Crash(n, _) =>
      if n == 0 then Active(ctl, item)
      else if ctl.crashable == 0 then Configure(ctl)
      else Active(ctl.(crashable := ctl.crashable - 1), item)
    case Malicious(LeaderFeignDeath(round, _)) =>
      if round.FirstRound? then Panicked else if ctl.dishonest == 0 then Stalled(ctl) else Active(ctl, item)
    case Malicious(LeaderSendDuplicateMessage(round, _)) =>
      if round.FirstRound? then Panicked else if ctl.dishonest == 0 then Stalled(ctl) else Active(ctl, item)
    case Malicious(LeaderSendAmbiguousMessage(round, _, _, _)) =>
      if round.FirstRound? then Panicked else if ctl.dishonest == 0 then Configure(ctl) else Active(ctl, item)
    case Malicious(ReplicaNodeConspireForgeMessages(round, _, _, count)) =>
      var s := if count > ctl.dishonest then Configure(ctl) else Active(ctl, item);
      if round.FirstRound? || s.Panicked? then Panicked
      else if count == 0 then Configure(s.ctl)
      else Announce(s, item)
    case _ => Stalled(ctl)
  }

  /** One round: the running item is reported, then the next test is chosen. */
  function Step(s: State): State {
    if !s.Active? then s else
    match Completed(s.ctl, s.item)
    case Failed => Panicked
    case Done(ctl) => NextTest(ctl)
  }

  /** The state k rounds later. */
  function After(s: State, k: nat): State
    decreases k, 1
  {
    if k == 0 then s else AfterMore(s, k)
  }

  function AfterMore(s: State, k: nat): State
    requires k > 0
    decreases k, 0
  {
    After(Step(s), k - 1)
  }

  // ----- what a campaign is meant to visit

  function Counts(conspire: bool, phase: nat, maxPhase: nat, field: Field, from: nat, nodes: nat): seq<TestItem>
    decreases nodes - from
  {
    if from > nodes then []
    else [Probe(conspire, OtherRound(phase), maxPhase, field, from)] + Counts(conspire, phase, maxPhase, field,
        from + 1, nodes)
  }

  /** The fields of one phase, from last to first, each with every count. */
  function OfPhase(conspire: bool, phase: nat, maxPhase: nat, fs: seq<Field>, nodes: nat): seq<TestItem> {
    if fs == [] then []
    else
      Counts(conspire, phase, maxPhase, fs[|fs| - 1], 1, nodes)
      + OfPhase(conspire, phase, maxPhase, fs[..|fs| - 1], nodes)
  }

  function FieldsOf(fields: map<nat, seq<Field>>, phase: nat): seq<Field> {
    if phase in fields then fields[phase] else []
  }

  function OfPhases(conspire: bool, phase: nat, maxPhase: nat, fields: map<nat, seq<Field>>, nodes: nat): seq<TestItem>
    decreases maxPhase + 1 - phase
  {
    if phase > maxPhase then []
    else
      OfPhase(conspire, phase, maxPhase, FieldsOf(fields, phase), nodes)
      + OfPhases(conspire, phase + 1, maxPhase, fields, nodes)
  }

  /** Everything a probing campaign should still run, when `field` with count `count` is running. */
  function Rest(conspire: bool, maxPhase: nat, fields: map<nat, seq<Field>>, nodes: nat, phase: nat, field: Field,
      count: nat): seq<TestItem>
  {
    Counts(conspire, phase, maxPhase, field, count, nodes)
    + OfPhase(conspire, phase, maxPhase, FieldsOf(fields, phase), nodes)
    + OfPhases(conspire, phase + 1, maxPhase, fields, nodes)
  }

  // ----- segments: the rounds of one item

  /** From `ctl` running trace[0], the rounds run exactly `trace`, and the last report leaves `end`
      with no middle item. */
  ghost predicate Segment(ctl: Control, trace: seq<TestItem>, end: Control)
    decreases |trace|, 1
  {
    |trace| > 0 && SegmentHead(ctl, trace, end)
  }

  ghost predicate SegmentHead(ctl: Control, trace: seq<TestItem>, end: Control)
    requires |trace| > 0
    decreases |trace|, 0
  {
    var r := Completed(ctl, trace[0]);
    && r.Done?
    && if |trace| == 1 then r.ctl == end && end.mid == None
       else
         var s := NextTest(r.ctl);
         s.Active? && s.item == trace[1] && Segment(s.ctl, trace[1..], end)
  }

  /** The phases from `phase` on are known and none has an empty field. */
  ghost predicate Known(fields: map<nat, seq<Field>>, phase: nat, maxPhase: nat) {
    forall p | phase <= p <= maxPhase :: p in fields && fields[p] != [] && NonEmptyFields(fields[p])
  }

  ghost predicate NonEmptyFields(fs: seq<Field>) {
    forall k | 0 <= k < |fs| :: fs[k] != []
  }

  /** The fields left when a probing campaign is through: phases 1..maxPhase are gone. */
  function Without(fields: map<nat, seq<Field>>, maxPhase: nat): map<nat, seq<Field>> {
    map p | p in fields && !(1 <= p <= maxPhase) :: fields[p]
  }

  /** A controller in the middle of a probing campaign at `phase`. */
  ghost predicate Probing(ctl: Control, maxPhase: nat, phase: nat) {
    && 1 <= ctl.waiting < U16_LIMIT && ctl.dishonest == ctl.waiting
    && 1 <= phase <= maxPhase
    && phase in ctl.fields && NonEmptyFields(ctl.fields[phase])
    && Known(ctl.fields, phase + 1, maxPhase)
    && forall p | 1 <= p < phase :: p !in ctl.fields
  }

  lemma {:induction false} SegmentCons(ctl: Control, item: TestItem, ctl': Control, rest: seq<TestItem>, end: Control)
    requires |rest| > 0 && Step(Active(ctl, item)) == Active(ctl', rest[0]) && Segment(ctl', rest, end)
    ensures Segment(ctl, [item] + rest, end)
  {
    assert ([item] + rest)[1..] == rest;
    assert SegmentHead(ctl, [item] + rest, end);
  }

  lemma {:induction false} OfPhasesFrame(conspire: bool, phase: nat, maxPhase: nat, fields: map<nat, seq<Field>>,
      fields': map<nat, seq<Field>>, nodes: nat)
    requires forall p | p >= phase :: FieldsOf(fields, p) == FieldsOf(fields', p)
    ensures OfPhases(conspire, phase, maxPhase, fields, nodes) == OfPhases(conspire, phase, maxPhase, fields', nodes)
    decreases maxPhase + 1 - phase
  {
    if phase <= maxPhase {
      OfPhasesFrame(conspire, phase + 1, maxPhase, fields, fields', nodes);
    }
  }

  /** The round after one that has not reached the full count: the same field, one more node. */
  lemma CountRound(ctl: Control, conspire: bool, maxPhase: nat, phase: nat, field: Field, count: nat)
      returns (ctl': Control)
    requires Probing(ctl, maxPhase, phase) && 1 <= count < ctl.waiting
    ensures Step(Active(ctl, Probe(conspire, OtherRound(phase), maxPhase, field, count)))
         == Active(ctl', Probe(conspire, OtherRound(phase), maxPhase, field, count + 1))
    ensures ctl' == ctl.(mid := ctl'.mid) && Probing(ctl', maxPhase, phase)
    ensures Rest(conspire, maxPhase, ctl.fields, ctl.waiting, phase, field, count)
         == [Probe(conspire, OtherRound(phase), maxPhase, field, count)]
            + Rest(conspire, maxPhase, ctl.fields, ctl.waiting, phase, field, count + 1)
  {
    ctl' := ctl.(mid := Some(Probe(conspire, OtherRound(phase), maxPhase, field, count + 1)));
    SplitRest(conspire, maxPhase, ctl.fields, ctl.waiting, phase, field, count);
  }

  lemma SplitRest(conspire: bool, maxPhase: nat, fields: map<nat, seq<Field>>, nodes: nat, phase: nat, field: Field,
      count: nat)
    requires count <= nodes
    ensures Rest(conspire, maxPhase, fields, nodes, phase, field, count)
         == [Probe(conspire, OtherRound(phase), maxPhase, field, count)]
            + Rest(conspire, maxPhase, fields, nodes, phase, field, count + 1)
  {
  }

  /** The round after the full count, while the phase has fields left: its last field, count 1. */
  lemma FieldRound(ctl: Control, conspire: bool, maxPhase: nat, phase: nat, field: Field) returns (ctl': Control)
    requires Probing(ctl, maxPhase, phase) && ctl.fields[phase] != []
    ensures var fs := ctl.fields[phase];
      && Step(Active(ctl, Probe(conspire, OtherRound(phase), maxPhase, field, ctl.waiting)))
         == Active(ctl', Probe(conspire, OtherRound(phase), maxPhase, fs[|fs| - 1], 1))
      && ctl' == ctl.(mid := ctl'.mid, fields := ctl.fields[phase := fs[..|fs| - 1]])
    ensures Probing(ctl', maxPhase, phase)
  {
    var fs := ctl.fields[phase];
    var last := fs[|fs| - 1];
    ctl' := ctl.(fields := ctl.fields[phase := fs[..|fs| - 1]],
      mid := Some(Probe(conspire, OtherRound(phase), maxPhase, last, 1)));
  }

  lemma FieldRest(conspire: bool, maxPhase: nat, fields: map<nat, seq<Field>>, nodes: nat, phase: nat, field: Field)
    requires nodes >= 1 && phase in fields && fields[phase] != []
    ensures var fs := fields[phase];
      Rest(conspire, maxPhase, fields, nodes, phase, field, nodes)
      == [Probe(conspire, OtherRound(phase), maxPhase, field, nodes)]
         + Rest(conspire, maxPhase, fields[phase := fs[..|fs| - 1]], nodes, phase, fs[|fs| - 1], 1)
  {
    var fs := fields[phase];
    OfPhasesFrame(conspire, phase + 1, maxPhase, fields, fields[phase := fs[..|fs| - 1]], nodes);
    SplitRest(conspire, maxPhase, fields, nodes, phase, field, nodes);
  }

  /** The round after the last field of a phase: the last field of the next phase, count 1. */
  lemma PhaseRound(ctl: Control, conspire: bool, maxPhase: nat, phase: nat, field: Field) returns (ctl': Control)
    requires Probing(ctl, maxPhase, phase) && ctl.fields[phase] == [] && phase < maxPhase
    requires phase + 1 in ctl.fields && ctl.fields[phase + 1] != []
    ensures var gs := ctl.fields[phase + 1];
      && Step(Active(ctl, Probe(conspire, OtherRound(phase), maxPhase, field, ctl.waiting)))
         == Active(ctl', Probe(conspire, OtherRound(phase + 1), maxPhase, gs[|gs| - 1], 1))
      && ctl' == PhaseCtl(ctl, conspire, maxPhase, phase)
  {
    ctl' := PhaseCtl(ctl, conspire, maxPhase, phase);
    var gs := ctl.fields[phase + 1];
    assert PopField(ctl.fields - {phase}, phase + 1) == Popped.Field(ctl'.fields, gs[|gs| - 1]);
  }

  lemma PhaseRest(conspire: bool, maxPhase: nat, fields: map<nat, seq<Field>>, nodes: nat, phase: nat, field: Field)
    requires nodes >= 1 && phase in fields && fields[phase] == [] && phase < maxPhase
    requires phase + 1 in fields && fields[phase + 1] != []
    ensures var gs := fields[phase + 1];
      Rest(conspire, maxPhase, fields, nodes, phase, field, nodes)
      == [Probe(conspire, OtherRound(phase), maxPhase, field, nodes)]
         + Rest(conspire, maxPhase, (fields - {phase})[phase + 1 := gs[..|gs| - 1]], nodes, phase + 1, gs[|gs| - 1], 1)
  {
    var gs := fields[phase + 1];
    OfPhasesFrame(conspire, phase + 2, maxPhase, fields, (fields - {phase})[phase + 1 := gs[..|gs| - 1]], nodes);
    SplitRest(conspire, maxPhase, fields, nodes, phase, field, nodes);
  }

  /** The campaign from `ctl` on, running `field` with `count`, runs exactly what is left of it. */
  ghost predicate RunsRest(ctl: Control, conspire: bool, maxPhase: nat, phase: nat, field: Field, count: nat) {
    Segment(ctl, Rest(conspire, maxPhase, ctl.fields, ctl.waiting, phase, field, count),
            ctl.(mid := None, fields := Without(ctl.fields, maxPhase)))
  }

  /** The round of `field` with `count` is followed by that of `field'` with `count'`, in the rounds
      that are run and in those that should be. */
  ghost predicate Precedes(ctl: Control, conspire: bool, maxPhase: nat, phase: nat, field: Field, count: nat,
                           ctl': Control, phase': nat, field': Field, count': nat)
  {
    var item := Probe(conspire, OtherRound(phase), maxPhase, field, count);
    && Step(Active(ctl, item)) == Active(ctl', Probe(conspire, OtherRound(phase'), maxPhase, field', count'))
    && Rest(conspire, maxPhase, ctl.fields, ctl.waiting, phase, field, count)
       == [item] + Rest(conspire, maxPhase, ctl'.fields, ctl'.waiting, phase', field', count')
    && ctl' == ctl.(mid := ctl'.mid, fields := ctl'.fields) && 1 <= count' <= ctl.waiting
    && Without(ctl'.fields, maxPhase) == Without(ctl.fields, maxPhase)
  }

  /** One more round in front of a campaign that ends in the same state. */
  lemma RunsMore(ctl: Control, conspire: bool, maxPhase: nat, phase: nat, field: Field, count: nat,
                 ctl': Control, phase': nat, field': Field, count': nat)
    requires Precedes(ctl, conspire, maxPhase, phase, field, count, ctl', phase', field', count')
    ensures ctl'.waiting == ctl.waiting
    ensures RunsRest(ctl', conspire, maxPhase, phase', field', count')
      ==> RunsRest(ctl, conspire, maxPhase, phase, field, count)
  {
    if RunsRest(ctl', conspire, maxPhase, phase', field', count') {
      SegmentCons(ctl, Probe(conspire, OtherRound(phase), maxPhase, field, count), ctl',
                  Rest(conspire, maxPhase, ctl'.fields, ctl'.waiting, phase', field', count'),
                  ctl.(mid := None, fields := Without(ctl.fields, maxPhase)));
    }
  }

  lemma CountMove(ctl: Control, conspire: bool, maxPhase: nat, phase: nat, field: Field, count: nat)
      returns (c1: Control)
    requires Probing(ctl, maxPhase, phase) && 1 <= count < ctl.waiting
    ensures Probing(c1, maxPhase, phase) && c1.waiting == ctl.waiting && c1.fields == ctl.fields
    ensures RunsRest(c1, conspire, maxPhase, phase, field, count + 1)
      ==> RunsRest(ctl, conspire, maxPhase, phase, field, count)
  {
    c1 := CountRound(ctl, conspire, maxPhase, phase, field, count);
    RunsMore(ctl, conspire, maxPhase, phase, field, count, c1, phase, field, count + 1);
  }

  lemma {:induction false} ProbeSegment(ctl: Control, conspire: bool, maxPhase: nat, phase: nat, field: Field,
      count: nat)
    requires Probing(ctl, maxPhase, phase) && 1 <= count <= ctl.waiting
    ensures RunsRest(ctl, conspire, maxPhase, phase, field, count)
    decreases maxPhase - phase, |ctl.fields[phase]|, ctl.waiting - count, 1
  {
    var n, fs := ctl.waiting, ctl.fields[phase];
    if count < n {
      var c1 := CountMove(ctl, conspire, maxPhase, phase, field, count);
      ProbeSegment(c1, conspire, maxPhase, phase, field, count + 1);
    } else if fs != [] {
      FieldSegment(ctl, conspire, maxPhase, phase, field);
    } else if phase < maxPhase {
      PhaseSegment(ctl, conspire, maxPhase, phase, field);
    } else {
      LastRound(ctl, conspire, maxPhase, field);
    }
  }

  lemma FieldMove(ctl: Control, conspire: bool, maxPhase: nat, phase: nat, field: Field)
      returns (c1: Control, last: Field)
    requires Probing(ctl, maxPhase, phase) && ctl.fields[phase] != []
    ensures Probing(c1, maxPhase, phase) && |c1.fields[phase]| < |ctl.fields[phase]|
    ensures c1.waiting == ctl.waiting
    ensures RunsRest(c1, conspire, maxPhase, phase, last, 1)
      ==> RunsRest(ctl, conspire, maxPhase, phase, field, ctl.waiting)
  {
    var fs := ctl.fields[phase];
    last := fs[|fs| - 1];
    c1 := FieldRound(ctl, conspire, maxPhase, phase, field);
    FieldRest(conspire, maxPhase, ctl.fields, ctl.waiting, phase, field);
    assert Without(c1.fields, maxPhase) == Without(ctl.fields, maxPhase);
    RunsMore(ctl, conspire, maxPhase, phase, field, ctl.waiting, c1, phase, last, 1);
  }

  lemma {:induction false} FieldSegment(ctl: Control, conspire: bool, maxPhase: nat, phase: nat, field: Field)
    requires Probing(ctl, maxPhase, phase) && ctl.fields[phase] != []
    ensures RunsRest(ctl, conspire, maxPhase, phase, field, ctl.waiting)
    decreases maxPhase - phase, |ctl.fields[phase]|, 0, 0
  {
    var c1, last := FieldMove(ctl, conspire, maxPhase, phase, field);
    ProbeSegment(c1, conspire, maxPhase, phase, last, 1);
  }

  lemma WithoutPhases(fields: map<nat, seq<Field>>, maxPhase: nat, phase: nat, fs: seq<Field>)
    requires 1 <= phase < maxPhase
    ensures Without((fields - {phase})[phase + 1 := fs], maxPhase) == Without(fields, maxPhase)
  {
  }

  /** The controller after the move to the next phase. */
  function PhaseCtl(ctl: Control, conspire: bool, maxPhase: nat, phase: nat): Control
    requires phase + 1 in ctl.fields && ctl.fields[phase + 1] != []
  {
    var gs := ctl.fields[phase + 1];
    ctl.(fields := (ctl.fields - {phase})[phase + 1 := gs[..|gs| - 1]],
         mid := Some(Probe(conspire, OtherRound(phase + 1), maxPhase, gs[|gs| - 1], 1)))
  }

  lemma PhaseProbing(ctl: Control, conspire: bool, maxPhase: nat, phase: nat)
    requires Probing(ctl, maxPhase, phase) && ctl.fields[phase] == [] && phase < maxPhase
    ensures phase + 1 in ctl.fields && ctl.fields[phase + 1] != []
    ensures Probing(PhaseCtl(ctl, conspire, maxPhase, phase), maxPhase, phase + 1)
  {
  }

  lemma PhasePrecedes(ctl: Control, conspire: bool, maxPhase: nat, phase: nat, field: Field)
    requires Probing(ctl, maxPhase, phase) && ctl.fields[phase] == [] && phase < maxPhase
    requires phase + 1 in ctl.fields && ctl.fields[phase + 1] != []
    ensures var c1, gs := PhaseCtl(ctl, conspire, maxPhase, phase), ctl.fields[phase + 1];
      RunsRest(c1, conspire, maxPhase, phase + 1, gs[|gs| - 1], 1)
      ==> RunsRest(ctl, conspire, maxPhase, phase, field, ctl.waiting)
  {
    var c1 := PhaseRound(ctl, conspire, maxPhase, phase, field);
    var gs := ctl.fields[phase + 1];
    PhaseRest(conspire, maxPhase, ctl.fields, ctl.waiting, phase, field);
    WithoutPhases(ctl.fields, maxPhase, phase, gs[..|gs| - 1]);
    RunsMore(ctl, conspire, maxPhase, phase, field, ctl.waiting, c1, phase + 1, gs[|gs| - 1], 1);
  }

  lemma PhaseMove(ctl: Control, conspire: bool, maxPhase: nat, phase: nat, field: Field)
      returns (c1: Control, last: Field)
    requires Probing(ctl, maxPhase, phase) && ctl.fields[phase] == [] && phase < maxPhase
    ensures Probing(c1, maxPhase, phase + 1)
    ensures c1.waiting == ctl.waiting
    ensures RunsRest(c1, conspire, maxPhase, phase + 1, last, 1)
      ==> RunsRest(ctl, conspire, maxPhase, phase, field, ctl.waiting)
  {
    PhaseProbing(ctl, conspire, maxPhase, phase);
    PhasePrecedes(ctl, conspire, maxPhase, phase, field);
    var gs := ctl.fields[phase + 1];
    c1, last := PhaseCtl(ctl, conspire, maxPhase, phase), gs[|gs| - 1];
  }

  lemma {:induction false} PhaseSegment(ctl: Control, conspire: bool, maxPhase: nat, phase: nat, field: Field)
    requires Probing(ctl, maxPhase, phase) && ctl.fields[phase] == [] && phase < maxPhase
    ensures RunsRest(ctl, conspire, maxPhase, phase, field, ctl.waiting)
    decreases maxPhase - phase, |ctl.fields[phase]|, 0, 0
  {
    var c1, last := PhaseMove(ctl, conspire, maxPhase, phase, field);
    ProbeSegment(c1, conspire, maxPhase, phase + 1, last, 1);
  }

  lemma LastRound(ctl: Control, conspire: bool, maxPhase: nat, field: Field)
    requires Probing(ctl, maxPhase, maxPhase) && ctl.fields[maxPhase] == []
    ensures RunsRest(ctl, conspire, maxPhase, maxPhase, field, ctl.waiting)
  {
    assert ctl.fields - {maxPhase} == Without(ctl.fields, maxPhase);
    SplitRest(conspire, maxPhase, ctl.fields, ctl.waiting, maxPhase, field, ctl.waiting);
  }
}

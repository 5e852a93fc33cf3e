/**
 Basic HotStuff as a step system: n nodes that run the handlers of `BasicNode`, a growing set
 of queued messages that are delivered to a node they are addressed to in any order, late or never,
 and the set of all ballots that were signed. `net` is what `mail` holds, without the addresses; `decided`
 are the certificates nodes decided on, `done` the commands that each node reported complete.

 `highFrom` remembers for which view a node last computed its high certificate and `got` which
 new-view reports it has consumed; the scheduler assumptions of the agreement theorem refer to them.
 */
module BasicSystem {
  import opened Common
  import opened BasicNode

  datatype Config = Config(fault: nat, peers: seq<PeerId>)

  datatype Cast = Cast(voter: nat, ballot: Ballot)

  datatype System = System(
    nodes: seq<Node>,
    net: set<Message>,
    mail: set<Send>,
    signed: set<Cast>,
    decided: set<QC>,
    done: set<(nat, string)>,
    highFrom: seq<Option<nat>>,
    got: set<(nat, NewView)>)

  datatype Action = Deliver(m: Message) | Request(cmd: string) | Timeout

  ghost predicate ValidConfig(c: Config) {
    && 1 <= |c.peers| <= 3 * c.fault + 1
    && forall i, j | 0 <= i < j < |c.peers| :: c.peers[i] != c.peers[j]
  }

  // ----- runs

  /** The key tables are stored: node i holds share i, and the tables agree with `peers`. */
  ghost predicate Wired(c: Config, i: nat, s: Node)
    requires i < |c.peers|
  {
    && s.id == c.peers[i] && s.fault == c.fault && s.keypair == Some(i)
    && forall p | p in s.pks :: s.pks[p] < |c.peers| && c.peers[s.pks[p]] == p
  }

  ghost predicate Init(c: Config, s: System) {
    && |s.nodes| == |c.peers| == |s.highFrom|
    && s.signed == {} && s.decided == {} && s.done == {} && s.got == {}
    && (forall i | 0 <= i < |s.nodes| ::
          && Wired(c, i, s.nodes[i]) && s.nodes[i].view == 1
          && s.nodes[i].highQC == s.nodes[i].prepareQC == s.nodes[i].lockedQC == None
          && s.nodes[i].signatures == map[] && s.nodes[i].newviews == map[]
          && s.highFrom[i] == None)
    // storing the tables moved every node from view 0 to view 1 and sent its leader the first reports
    && s.net == (set x | x in s.mail :: x.msg)
    && forall x | x in s.mail :: FirstReport(c, x)
  }

  ghost predicate FirstReport(c: Config, x: Send) {
    && |c.peers| > 0 && x.Unicast? && x.to == c.peers[1 % |c.peers|] && x.msg.NewViewMsg?
    && x.msg.newview.view == 0 && x.msg.newview.justify == None
    && x.msg.newview.from in c.peers && x.msg.newview.from != x.to
  }

  /** The message is queued for the node. */
  ghost predicate Queued(s: System, to: PeerId, m: Message) {
    m in s.net && (Broadcast(m) in s.mail || Unicast(to, m) in s.mail)
  }

  function React(s: Node, a: Action): Result {
    match a
    case Deliver(m) => Handle(s, m)
    case Request(cmd) => HandleRequest(s, cmd)
    case Timeout => EnterNextView(s)
  }

  function Messages(sends: seq<Send>): set<Message> {
    set x | x in sends :: x.msg
  }

  function Casts(i: nat, signed: Option<Ballot>): set<Cast> {
    if signed.Some? then {Cast(i, signed.value)} else {}
  }

  function Apply(s: System, i: nat, a: Action, r: Result): System
    requires i < |s.nodes| == |s.highFrom|
  {
    if r.Panic? then s
    else System(
      s.nodes[i := r.node],
      s.net + Messages(Sends(r.out)),
      s.mail + (set x | x in Sends(r.out)),
      s.signed + Casts(i, r.signed),
      s.decided + (if r.decided.Some? then {r.decided.value} else {}),
      if r.out.Complete? then s.done + {(i, r.out.cmd)} else s.done,
      if a.Deliver? && a.m.NewViewMsg? && r.out.Over? then s.highFrom[i := Some(a.m.newview.view)] else s.highFrom,
      if a.Deliver? && a.m.NewViewMsg? then s.got + {(i, a.m.newview)} else s.got)
  }

  /** The scheduler assumptions that a run keeps. */
  datatype Rules = Rules(once: bool, own: bool, single: bool)

  const SCHEDULED := Rules(true, true, true)

  /** A1 (once): at most one proposal per view. A2 (own): the proposer of view v uses the high
      certificate it computed from the reports of view v-1. A3 (single): a report is consumed once. */
  ghost predicate Scheduled(s: System, i: nat, a: Action, rules: Rules)
    requires i < |s.nodes| == |s.highFrom|
  {
    match a
    case Request(_) =>
      && (rules.once ==> forall p | PrepareMsg(p) in s.net :: p.view != s.nodes[i].view)
      && (rules.own ==> s.highFrom[i].Some? && s.highFrom[i].value + 1 == s.nodes[i].view)
    case Deliver(NewViewMsg(nv)) => rules.single ==> (i, nv) !in s.got
    case _ => true
  }

  ghost predicate Step(c: Config, s: System, i: nat, a: Action, s': System, rules: Rules) {
    && i < |s.nodes| == |s.highFrom|
    && (a.Deliver? ==> Queued(s, s.nodes[i].id, a.m))
    && Scheduled(s, i, a, rules)
    && s' == Apply(s, i, a, React(s.nodes[i], a))
  }

  ghost predicate Next(c: Config, s: System, s': System, rules: Rules) {
    exists i, a :: Step(c, s, i, a, s', rules)
  }

  function Last(tr: seq<System>): System
    requires |tr| > 0
  {
    tr[|tr| - 1]
  }

  /** A finite run, given by the states it passes through. */
  ghost predicate Run(c: Config, tr: seq<System>, rules: Rules)
    decreases |tr|, 1
  {
    if |tr| <= 1 then |tr| == 1 && Init(c, tr[0]) else Extended(c, tr, rules)
  }

  ghost predicate Extended(c: Config, tr: seq<System>, rules: Rules)
    requires |tr| > 1
    decreases |tr|, 0
  {
    Run(c, tr[..|tr| - 1], rules) && Next(c, tr[|tr| - 2], tr[|tr| - 1], rules)
  }

  // ----- ballots and certificates

  function Signers(signed: set<Cast>, b: Ballot): set<nat> {
    set x | x in signed && x.ballot == b :: x.voter
  }

  /** 2f+1 distinct nodes signed the ballot. */
  ghost predicate Certified(signed: set<Cast>, fault: nat, b: Ballot) {
    |Signers(signed, b)| >= 2 * fault + 1
  }

  lemma SignersGrow(signed: set<Cast>, signed': set<Cast>, b: Ballot)
    requires signed <= signed'
    ensures Signers(signed, b) <= Signers(signed', b) && |Signers(signed, b)| <= |Signers(signed', b)|
  {
    SubsetSize(Signers(signed, b), Signers(signed', b));
  }

  function BallotOf(qc: QC): Ballot {
    Ballot(qc.kind, qc.view, qc.block)
  }

  /** The certificate, if present, is of the given kind, correctly signed and has 2f+1 signers. */
  ghost predicate Good(signed: set<Cast>, fault: nat, kind: nat, qc: Option<QC>) {
    qc.Some? ==>
      && qc.value.kind == kind
      && qc.value.signature == Some(Combined(BallotOf(qc.value)))
      && Certified(signed, fault, BallotOf(qc.value))
  }

  lemma GoodGrows(signed: set<Cast>, signed': set<Cast>, fault: nat, kind: nat, qc: Option<QC>)
    requires signed <= signed' && Good(signed, fault, kind, qc)
    ensures Good(signed', fault, kind, qc)
  {
    if qc.Some? {
      SignersGrow(signed, signed', BallotOf(qc.value));
    }
  }

  // ----- what every step keeps

  ghost predicate Proposed(net: set<Message>, view: nat, block: Block) {
    exists p :: PrepareMsg(p) in net && p.view == view && p.block == block
  }

  /** A proposal extends the block of its justify, or starts a chain. */
  predicate Extends(p: Prepare) {
    p.block.parentHash == if p.justify.Some? then Digest(p.justify.value.block) else EMPTY_HASH
  }

  ghost predicate MessageOk(signed: set<Cast>, fault: nat, m: Message) {
    match m
    case NewViewMsg(nv) => Good(signed, fault, PREPARE, nv.justify)
    case PrepareMsg(p) => Good(signed, fault, PREPARE, p.justify) && Extends(p)
    case PreCommitMsg(v, j) => j.Some? && j.value.view == v && Good(signed, fault, PREPARE, j)
    case CommitMsg(v, j) => j.Some? && j.value.view == v && Good(signed, fault, PRE_COMMIT, j)
    case DecideMsg(v, j) => j.Some? && j.value.view == v && Good(signed, fault, COMMIT, j)
    case VoteMsg(kind, v) =>
      && v.share.Some? && v.share.value.Share?
      && (v.share.value.ballot == Ballot(kind, v.view, v.block) ==>
          Cast(v.share.value.signer, v.share.value.ballot) in signed)
  }

  /** Each ballot rests on the phase below it. */
  ghost predicate CastOk(signed: set<Cast>, net: set<Message>, fault: nat, b: Ballot) {
    && 1 <= b.kind <= 3
    && (b.kind == PREPARE ==> Proposed(net, b.view, b.block))
    && (b.kind == PRE_COMMIT ==> Certified(signed, fault, Ballot(PREPARE, b.view, b.block)))
    && (b.kind == COMMIT ==> Certified(signed, fault, Ballot(PRE_COMMIT, b.view, b.block)))
  }

  ghost predicate LogHonest(signed: set<Cast>, s: Node) {
    forall b | b in s.signatures :: s.signatures[b].Keys <= Signers(signed, b)
  }

  ghost predicate UpTo(qc: Option<QC>, view: nat) {
    qc.Some? ==> qc.value.view <= view
  }

  ghost predicate NodeOk(signed: set<Cast>, fault: nat, s: Node) {
    && Good(signed, fault, PREPARE, s.highQC)
    && Good(signed, fault, PREPARE, s.prepareQC) && UpTo(s.prepareQC, s.view)
    && Good(signed, fault, PRE_COMMIT, s.lockedQC) && UpTo(s.lockedQC, s.view)
    && (forall v, k | v in s.newviews && 0 <= k < |s.newviews[v]| ::
        Good(signed, fault, PREPARE, s.newviews[v][k].justify))
    && LogHonest(signed, s)
  }

  /** A pre-commit voter still holds a prepare certificate at least as recent, a commit voter a lock. */
  ghost predicate Holds(s: Node, b: Ballot) {
    && (b.kind == PRE_COMMIT ==> b.view <= s.view && s.prepareQC.Some? && s.prepareQC.value.view >= b.view)
    && (b.kind == COMMIT ==> b.view <= s.view && s.lockedQC.Some? && s.lockedQC.value.view >= b.view)
  }

  ghost predicate Inv(c: Config, s: System) {
    && |s.nodes| == |c.peers| == |s.highFrom|
    && (forall i | 0 <= i < |s.nodes| :: Wired(c, i, s.nodes[i]) && NodeOk(s.signed, c.fault, s.nodes[i]))
    && (forall m | m in s.net :: MessageOk(s.signed, c.fault, m))
    && (forall x | x in s.signed ::
          x.voter < |s.nodes| && CastOk(s.signed, s.net, c.fault, x.ballot) && Holds(s.nodes[x.voter], x.ballot))
    && forall q | q in s.decided :: Good(s.signed, c.fault, COMMIT, Some(q))
  }

  /** What one handler guarantees, the growing sets being given after the step. */
  ghost predicate ResultOk(signed: set<Cast>, net: set<Message>, fault: nat, s: Node, r: Result) {
    r.Ok? ==>
      && NodeOk(signed, fault, r.node)
      && r.node.id == s.id && r.node.fault == s.fault && r.node.keypair == s.keypair && r.node.pks == s.pks
      && (forall b :: Holds(s, b) ==> Holds(r.node, b))
      && (forall m | m in Sends(r.out) :: MessageOk(signed, fault, m.msg))
      && (r.signed.Some? ==> CastOk(signed, net, fault, r.signed.value) && Holds(r.node, r.signed.value))
      && Good(signed, fault, COMMIT, r.decided)
  }

  lemma {:induction false} HighQCGood(signed: set<Cast>, fault: nat, nvs: seq<NewView>, init: Option<QC>)
    requires Good(signed, fault, PREPARE, init)
    requires forall k | 0 <= k < |nvs| :: Good(signed, fault, PREPARE, nvs[k].justify)
    ensures Good(signed, fault, PREPARE, HighQC(nvs, init))
  {
    if nvs != [] {
      HighQCGood(signed, fault, nvs[..|nvs| - 1], init);
    }
  }

  lemma NewViewOk(signed: set<Cast>, net: set<Message>, s: Node, nv: NewView)
    requires NodeOk(signed, s.fault, s) && Good(signed, s.fault, PREPARE, nv.justify)
    ensures ResultOk(signed, net, s.fault, s, HandleNewView(s, nv))
  {
    var collected := Get(s.newviews, nv.view) + [nv];
    CollectedGood(signed, s, nv);
    ReportsOk(signed, s, nv.view, collected);
    HighQCGood(signed, s.fault, collected, s.prepareQC);
    var s1 := s.(newviews := s.newviews[nv.view := collected]);
    var r := HandleNewView(s, nv);
    assert r == if |collected| != 2 * s.fault + 1 then Quiet(s1)
        else Ok(s1.(highQC := HighQC(collected, s.prepareQC)), Over, None, None);
    HighOnly(signed, net, s1, r);
    SameLocks(signed, net, s, s1, r);
  }

  /** A result judged from a state that differs only in its collected reports. */
  lemma SameLocks(signed: set<Cast>, net: set<Message>, s: Node, s1: Node, r: Result)
    requires ResultOk(signed, net, s.fault, s1, r) && s1 == s.(newviews := s1.newviews)
    ensures ResultOk(signed, net, s.fault, s, r)
  {
    assert forall b :: Holds(s, b) <==> Holds(s1, b);
  }

  lemma CollectedGood(signed: set<Cast>, s: Node, nv: NewView)
    requires NodeOk(signed, s.fault, s) && Good(signed, s.fault, PREPARE, nv.justify)
    ensures var collected := Get(s.newviews, nv.view) + [nv];
      forall k | 0 <= k < |collected| :: Good(signed, s.fault, PREPARE, collected[k].justify)
  {
    var collected := Get(s.newviews, nv.view) + [nv];
    forall k | 0 <= k < |collected| ensures Good(signed, s.fault, PREPARE, collected[k].justify) {
      if k < |collected| - 1 {
        assert collected[k] == s.newviews[nv.view][k];
      }
    }
  }

  /** Only the high certificate differs, and nothing is sent, signed or decided. */
  lemma HighOnly(signed: set<Cast>, net: set<Message>, s: Node, r: Result)
    requires NodeOk(signed, s.fault, s) && r.Ok? && r.node == s.(highQC := r.node.highQC)
    requires Good(signed, s.fault, PREPARE, r.node.highQC)
    requires r.signed.None? && r.decided.None? && Sends(r.out) == []
    ensures ResultOk(signed, net, s.fault, s, r)
  {
  }

  lemma ReportsOk(signed: set<Cast>, s: Node, view: nat, collected: seq<NewView>)
    requires NodeOk(signed, s.fault, s)
    requires forall k | 0 <= k < |collected| :: Good(signed, s.fault, PREPARE, collected[k].justify)
    ensures NodeOk(signed, s.fault, s.(newviews := s.newviews[view := collected]))
  {
  }

  lemma EnterOk(signed: set<Cast>, net: set<Message>, s: Node)
    requires NodeOk(signed, s.fault, s)
    ensures ResultOk(signed, net, s.fault, s, EnterNextView(s))
  {
  }

  lemma DecideOk(signed: set<Cast>, net: set<Message>, s: Node, qc: QC, first: seq<Send>)
    requires NodeOk(signed, s.fault, s) && Good(signed, s.fault, COMMIT, Some(qc))
    requires forall m | m in first :: MessageOk(signed, s.fault, m.msg)
    ensures ResultOk(signed, net, s.fault, s, Decide(s, qc, first))
  {
    EnterOk(signed, net, s);
  }

  /** A certificate is formed only from 2f+1 shares that were checked one by one. */
  lemma CollectOk(signed: set<Cast>, s: Node, kind: Phase, v: Vote)
    requires NodeOk(signed, s.fault, s) && MessageOk(signed, s.fault, VoteMsg(kind, v))
    ensures var r := Collect(s, kind, v);
      && (!r.Bad? ==> NodeOk(signed, s.fault, r.node) && r.node == s.(signatures := r.node.signatures))
      && (r.Quorum? ==> r.qc.view == v.view && Good(signed, s.fault, kind, Some(r.qc)))
  {
    var r := Collect(s, kind, v);
    var b := Ballot(kind, v.view, v.block);
    if !r.Bad? && v.share.value == Share(s.pks[v.from], b) {
      var x := Cast(s.pks[v.from], b);
      var known := Shares(s.signatures, b)[s.pks[v.from] := v.share.value];
      assert x in signed && x.voter in Signers(signed, b);
      assert known.Keys <= Signers(signed, b);
      LogOk(signed, s, b, known);
      if r.Quorum? {
        SubsetSize(known.Keys, Signers(signed, b));
      }
    }
  }

  lemma LogOk(signed: set<Cast>, s: Node, b: Ballot, known: map<nat, Share>)
    requires NodeOk(signed, s.fault, s) && known.Keys <= Signers(signed, b)
    ensures NodeOk(signed, s.fault, s.(signatures := s.signatures[b := known]))
  {
  }

  lemma VoteOk(signed: set<Cast>, net: set<Message>, s: Node, kind: Phase, v: Vote)
    requires NodeOk(signed, s.fault, s) && MessageOk(signed, s.fault, VoteMsg(kind, v))
    ensures ResultOk(signed, net, s.fault, s, HandleVote(s, kind, v))
  {
    CollectOk(signed, s, kind, v);
    var r := Collect(s, kind, v);
    if !r.Bad? {
      assert forall b :: Holds(s, b) <==> Holds(r.node, b);
    }
    if r.Quorum? && kind == COMMIT {
      DecideOk(signed, net, r.node, r.qc, [Broadcast(DecideMsg(v.view, Some(r.qc)))]);
    } else if r.Quorum? {
      var m := if kind == PREPARE then PreCommitMsg(v.view, Some(r.qc)) else CommitMsg(v.view, Some(r.qc));
      assert MessageOk(signed, s.fault, m);
      assert HandleVote(s, kind, v) == Ok(r.node, Continue([Broadcast(m)]), None, None);
    }
  }

  /** The sets after the step are those before it plus what the handler produced. */
  ghost predicate Grown(i: nat, signed: set<Cast>, signed': set<Cast>, r: Result) {
    signed <= signed' && (r.Ok? && r.signed.Some? ==> Cast(i, r.signed.value) in signed')
  }

  lemma SignOk(i: nat, signed: set<Cast>, net: set<Message>, s: Node, kind: Phase, view: nat, block: Block)
    requires NodeOk(signed, s.fault, s) && s.keypair == Some(i)
    requires CastOk(signed, net, s.fault, Ballot(kind, view, block)) && Holds(s, Ballot(kind, view, block))
    requires Cast(i, Ballot(kind, view, block)) in signed
    ensures ResultOk(signed, net, s.fault, s, Sign(s, kind, view, block))
  {
  }

  lemma PrepareOk(i: nat, signed: set<Cast>, net: set<Message>, s: Node, p: Prepare)
    requires NodeOk(signed, s.fault, s) && s.keypair == Some(i) && PrepareMsg(p) in net
    requires Grown(i, signed, signed, HandlePrepare(s, p))
    ensures ResultOk(signed, net, s.fault, s, HandlePrepare(s, p))
  {
    if Acceptable(s.lockedQC, p) {
      SignOk(i, signed, net, s.(primary := p.from), PREPARE, p.view, p.block);
    }
  }

  lemma PreCommitOk(i: nat, signed: set<Cast>, net: set<Message>, s: Node, view: nat, j: Option<QC>)
    requires NodeOk(signed, s.fault, s) && s.keypair == Some(i)
    requires MessageOk(signed, s.fault, PreCommitMsg(view, j))
    requires Grown(i, signed, signed, HandlePreCommit(s, view, j))
    ensures ResultOk(signed, net, s.fault, s, HandlePreCommit(s, view, j))
  {
    var x := CheckQC(s, PREPARE, j);
    if x.Accept? {
      SignOk(i, signed, net, s.(prepareQC := Some(x.qc)), PRE_COMMIT, view, x.qc.block);
    }
  }

  lemma CommitOk(i: nat, signed: set<Cast>, net: set<Message>, s: Node, view: nat, j: Option<QC>)
    requires NodeOk(signed, s.fault, s) && s.keypair == Some(i)
    requires MessageOk(signed, s.fault, CommitMsg(view, j))
    requires Grown(i, signed, signed, HandleCommit(s, view, j))
    ensures ResultOk(signed, net, s.fault, s, HandleCommit(s, view, j))
  {
    var x := CheckQC(s, PRE_COMMIT, j);
    if x.Accept? {
      SignOk(i, signed, net, s.(lockedQC := Some(x.qc)), COMMIT, view, x.qc.block);
    }
  }

  lemma ReactOk(i: nat, signed: set<Cast>, net: set<Message>, s: Node, a: Action)
    requires NodeOk(signed, s.fault, s) && s.keypair == Some(i)
    requires a.Deliver? ==> a.m in net && MessageOk(signed, s.fault, a.m)
    requires Grown(i, signed, signed, React(s, a))
    ensures ResultOk(signed, net, s.fault, s, React(s, a))
  {
    match a
    case Deliver(m) => {
      match m
      case NewViewMsg(nv) => NewViewOk(signed, net, s, nv);
      case PrepareMsg(p) => PrepareOk(i, signed, net, s, p);
      case PreCommitMsg(v, j) => PreCommitOk(i, signed, net, s, v, j);
      case CommitMsg(v, j) => CommitOk(i, signed, net, s, v, j);
      case DecideMsg(v, j) => {
        var x := CheckQC(s, COMMIT, j);
        if x.Accept? {
          DecideOk(signed, net, s, x.qc, []);
        }
      }
      case VoteMsg(kind, v) => VoteOk(signed, net, s, kind, v);
    }
    case Request(cmd) =>
    case Timeout => EnterOk(signed, net, s);
  }

  lemma NodeOkGrows(signed: set<Cast>, signed': set<Cast>, fault: nat, s: Node)
    requires signed <= signed' && NodeOk(signed, fault, s)
    ensures NodeOk(signed', fault, s)
  {
    GoodGrows(signed, signed', fault, PREPARE, s.highQC);
    GoodGrows(signed, signed', fault, PREPARE, s.prepareQC);
    GoodGrows(signed, signed', fault, PRE_COMMIT, s.lockedQC);
    forall v, k | v in s.newviews && 0 <= k < |s.newviews[v]|
      ensures Good(signed', fault, PREPARE, s.newviews[v][k].justify)
    {
      GoodGrows(signed, signed', fault, PREPARE, s.newviews[v][k].justify);
    }
    forall b | b in s.signatures ensures s.signatures[b].Keys <= Signers(signed', b) {
      SignersGrow(signed, signed', b);
    }
  }

  lemma MessageOkGrows(signed: set<Cast>, signed': set<Cast>, fault: nat, m: Message)
    requires signed <= signed' && MessageOk(signed, fault, m)
    ensures MessageOk(signed', fault, m)
  {
    match m
    case NewViewMsg(nv) => GoodGrows(signed, signed', fault, PREPARE, nv.justify);
    case PrepareMsg(p) => GoodGrows(signed, signed', fault, PREPARE, p.justify);
    case PreCommitMsg(_, j) => GoodGrows(signed, signed', fault, PREPARE, j);
    case CommitMsg(_, j) => GoodGrows(signed, signed', fault, PRE_COMMIT, j);
    case DecideMsg(_, j) => GoodGrows(signed, signed', fault, COMMIT, j);
    case VoteMsg(_, _) =>
  }

  lemma CastOkGrows(signed: set<Cast>, net: set<Message>, signed': set<Cast>, net': set<Message>, fault: nat, b: Ballot)
    requires signed <= signed' && net <= net' && CastOk(signed, net, fault, b)
    ensures CastOk(signed', net', fault, b)
  {
    SignersGrow(signed, signed', Ballot(PREPARE, b.view, b.block));
    SignersGrow(signed, signed', Ballot(PRE_COMMIT, b.view, b.block));
  }

  lemma StepInv(c: Config, s: System, i: nat, a: Action, s': System, rules: Rules)
    requires Inv(c, s) && Step(c, s, i, a, s', rules)
    ensures Inv(c, s') && s.signed <= s'.signed && s.net <= s'.net && s.decided <= s'.decided
  {
    var r := React(s.nodes[i], a);
    assert Wired(c, i, s.nodes[i]) && NodeOk(s.signed, c.fault, s.nodes[i]);
    if r.Ok? {
      NodeOkGrows(s.signed, s'.signed, c.fault, s.nodes[i]);
      if a.Deliver? {
        MessageOkGrows(s.signed, s'.signed, c.fault, a.m);
      }
      ReactOk(i, s'.signed, s'.net, s.nodes[i], a);
      StepNodes(c, s, i, a, s', r);
      StepCasts(c, s, i, a, s', r);
    }
  }

  lemma StepNodes(c: Config, s: System, i: nat, a: Action, s': System, r: Result)
    requires Inv(c, s) && i < |s.nodes| && r.Ok? && s' == Apply(s, i, a, r)
    requires ResultOk(s'.signed, s'.net, c.fault, s.nodes[i], r)
    ensures forall j | 0 <= j < |s'.nodes| :: Wired(c, j, s'.nodes[j]) && NodeOk(s'.signed, c.fault, s'.nodes[j])
    ensures forall m | m in s'.net :: MessageOk(s'.signed, c.fault, m)
    ensures forall q | q in s'.decided :: Good(s'.signed, c.fault, COMMIT, Some(q))
  {
    forall j | 0 <= j < |s'.nodes| ensures Wired(c, j, s'.nodes[j]) && NodeOk(s'.signed, c.fault, s'.nodes[j]) {
      assert Wired(c, j, s.nodes[j]);
      if j != i {
        NodeOkGrows(s.signed, s'.signed, c.fault, s.nodes[j]);
      }
    }
    forall m | m in s'.net ensures MessageOk(s'.signed, c.fault, m) {
      if m in s.net {
        MessageOkGrows(s.signed, s'.signed, c.fault, m);
      }
    }
    forall q | q in s'.decided ensures Good(s'.signed, c.fault, COMMIT, Some(q)) {
      if q in s.decided {
        GoodGrows(s.signed, s'.signed, c.fault, COMMIT, Some(q));
      }
    }
  }

  lemma StepCasts(c: Config, s: System, i: nat, a: Action, s': System, r: Result)
    requires Inv(c, s) && i < |s.nodes| && r.Ok? && s' == Apply(s, i, a, r)
    requires ResultOk(s'.signed, s'.net, c.fault, s.nodes[i], r)
    ensures forall x | x in s'.signed ::
      x.voter < |s'.nodes| && CastOk(s'.signed, s'.net, c.fault, x.ballot) && Holds(s'.nodes[x.voter], x.ballot)
  {
    forall x | x in s'.signed
      ensures x.voter < |s'.nodes| && CastOk(s'.signed, s'.net, c.fault, x.ballot) && Holds(s'.nodes[x.voter], x.ballot)
    {
      if x in s.signed {
        CastOkGrows(s.signed, s.net, s'.signed, s'.net, c.fault, x.ballot);
        assert Holds(s.nodes[x.voter], x.ballot);
      }
    }
  }

  lemma {:induction false} RunInv(c: Config, tr: seq<System>, rules: Rules)
    requires Run(c, tr, rules)
    ensures Inv(c, Last(tr))
  {
    if |tr| == 1 {
    } else {
      assert Extended(c, tr, rules);
      RunInv(c, tr[..|tr| - 1], rules);
      var i, a :| Step(c, tr[|tr| - 2], i, a, tr[|tr| - 1], rules);
      StepInv(c, tr[|tr| - 2], i, a, tr[|tr| - 1], rules);
    }
  }

  // ----- phase ladder and lasting lock

  lemma Signer(signed: set<Cast>, fault: nat, b: Ballot) returns (j: nat)
    requires Certified(signed, fault, b)
    ensures Cast(j, b) in signed
  {
    var x :| x in Signers(signed, b);
    var y :| y in signed && y.ballot == b && y.voter == x;
    assert y == Cast(x, b);
    j := x;
  }

  /** Every signed ballot rests on the phase below it. */
  ghost predicate CastsOk(signed: set<Cast>, net: set<Message>, fault: nat) {
    forall x | x in signed :: CastOk(signed, net, fault, x.ballot)
  }

  lemma {:induction false} Rungs(signed: set<Cast>, net: set<Message>, fault: nat, view: nat, block: Block, kind: nat)
    requires CastsOk(signed, net, fault) && 1 <= kind <= 3 && Certified(signed, fault, Ballot(kind, view, block))
    ensures Proposed(net, view, block)
    ensures forall k | 1 <= k <= kind :: Certified(signed, fault, Ballot(k, view, block))
    decreases kind
  {
    var j := Signer(signed, fault, Ballot(kind, view, block));
    assert CastOk(signed, net, fault, Cast(j, Ballot(kind, view, block)).ballot);
    if kind > 1 {
      Rungs(signed, net, fault, view, block, kind - 1);
    }
  }

  /** A certified ballot rests on certified ballots of every lower phase, down to a proposal. */
  lemma {:induction false} Ladder(c: Config, s: System, view: nat, block: Block, kind: nat)
    requires Inv(c, s) && 1 <= kind <= 3 && Certified(s.signed, c.fault, Ballot(kind, view, block))
    ensures Proposed(s.net, view, block)
    ensures forall k | 1 <= k <= kind :: Certified(s.signed, c.fault, Ballot(k, view, block))
  {
    Rungs(s.signed, s.net, c.fault, view, block, kind);
  }

  /** In every state of every run, a decided (v, b) has 2f+1 PREPARE, PRE_COMMIT and COMMIT voters
      for exactly (v, b), and each of its COMMIT voters holds a lock of view at least v. */
  lemma {:induction false} PhaseLadder(c: Config, tr: seq<System>, rules: Rules, q: QC)
    requires Run(c, tr, rules) && q in Last(tr).decided
    ensures Certified(Last(tr).signed, c.fault, Ballot(PREPARE, q.view, q.block))
    ensures Certified(Last(tr).signed, c.fault, Ballot(PRE_COMMIT, q.view, q.block))
    ensures Certified(Last(tr).signed, c.fault, Ballot(COMMIT, q.view, q.block))
    ensures forall j: nat | Cast(j, Ballot(COMMIT, q.view, q.block)) in Last(tr).signed ::
      && j < |Last(tr).nodes|
      && Last(tr).nodes[j].lockedQC.Some? && Last(tr).nodes[j].lockedQC.value.view >= q.view
  {
    var s := Last(tr);
    RunInv(c, tr, rules);
    assert Good(s.signed, c.fault, COMMIT, Some(q));
    Ladder(c, s, q.view, q.block, COMMIT);
    forall j: nat | Cast(j, Ballot(COMMIT, q.view, q.block)) in s.signed
      ensures j < |s.nodes| && Holds(s.nodes[j], Ballot(COMMIT, q.view, q.block))
    {
      var x := Cast(j, Ballot(COMMIT, q.view, q.block));
      assert x in s.signed && Holds(s.nodes[x.voter], x.ballot);
    }
  }
}

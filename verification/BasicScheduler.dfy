/**
 Building runs of basic HotStuff: how a proposed block gets its three quorums. The runs of `BasicExact`
 that lose agreement are put together from these steps.
 */
module BasicScheduler {
  import opened Common
  import opened BasicNode
  import opened BasicSystem
  import C = ChainSystem

  ghost predicate Full(c: Config) {
    ValidConfig(c) && c.fault >= 1 && |c.peers| == 3 * c.fault + 1
  }

  ghost predicate Reach(c: Config, s: System, rules: Rules) {
    exists tr: seq<System> :: |tr| > 0 && Run(c, tr, rules) && Last(tr) == s
  }

  lemma {:induction false} RunLonger(c: Config, tr: seq<System>, rules: Rules)
    requires |tr| > 1 && Run(c, tr[..|tr| - 1], rules) && Next(c, tr[|tr| - 2], tr[|tr| - 1], rules)
    ensures Run(c, tr, rules)
  {
    assert Extended(c, tr, rules);
  }

  lemma Extend(c: Config, s: System, i: nat, a: Action, rules: Rules) returns (s': System)
    requires Reach(c, s, rules) && i < |s.nodes| == |s.highFrom| && (a.Deliver? ==> Queued(s, s.nodes[i].id, a.m))
    requires Scheduled(s, i, a, rules)
    ensures s' == Apply(s, i, a, React(s.nodes[i], a)) && Reach(c, s', rules)
  {
    s' := Apply(s, i, a, React(s.nodes[i], a));
    assert Step(c, s, i, a, s', rules);
    var tr: seq<System> :| |tr| > 0 && Run(c, tr, rules) && Last(tr) == s;
    var tr' := tr + [s'];
    assert tr'[..|tr'| - 1] == tr && tr'[|tr'| - 2] == s && Last(tr') == s';
    RunLonger(c, tr', rules);
  }

  // ----- the nodes of these runs

  /** Node i with the tables that key distribution stores. */
  ghost predicate Fit(c: Config, i: nat, s: Node)
    requires i < |c.peers|
  {
    && s.id == c.peers[i] && s.fault == c.fault && s.keypair == Some(i)
    && s.numbers == C.Dense(c.peers) && s.pks == C.KeyTable(c.peers)
  }

  /** A node that votes for `collector` in view v. */
  ghost predicate Follows(c: Config, s: Node, collector: nat, v: nat)
    requires collector < |c.peers|
  {
    s.view == v && s.primary == c.peers[collector]
  }

  /** All nodes but the collector follow it in view v. */
  ghost predicate Lab(c: Config, s: System, collector: nat, v: nat) {
    && |s.nodes| == |c.peers| == |s.highFrom| && collector < |c.peers|
    && (forall i | 0 <= i < |s.nodes| :: Fit(c, i, s.nodes[i]))
    && forall i | 0 <= i < |s.nodes| && i != collector :: Follows(c, s.nodes[i], collector, v)
  }

  /** What a step on the way to a certificate leaves alone; `collector` may be no node at all. */
  ghost predicate Beside(s: System, s': System, collector: nat) {
    && |s'.nodes| == |s.nodes| && s.net <= s'.net && s.mail <= s'.mail && s.decided <= s'.decided
    && s.done <= s'.done && s'.highFrom == s.highFrom && s'.got == s.got
    && (forall i | 0 <= i < |s.nodes| :: SameReports(s.nodes[i], s'.nodes[i]))
    && (forall p :: PrepareMsg(p) in s'.net <==> PrepareMsg(p) in s.net)
    && forall i | 0 <= i < |s.nodes| && i != collector :: s'.nodes[i].signatures == s.nodes[i].signatures
  }

  ghost predicate SameReports(s: Node, s': Node) {
    s'.highQC == s.highQC && s'.newviews == s.newviews
  }

  lemma BesideChain(s: System, s1: System, s2: System, collector: nat)
    requires Beside(s, s1, collector) && Beside(s1, s2, collector)
    ensures Beside(s, s2, collector)
  {
  }

  /** The message is queued with its address. */
  ghost predicate Mailed(s: System, x: Send) {
    x in s.mail && x.msg in s.net
  }

  function Certificate(kind: nat, v: nat, x: Block): QC {
    QC(kind, v, x, Some(Combined(Ballot(kind, v, x))))
  }

  /** What a proposal of block x in view v carries: the prepare certificate of its parent in the view before. */
  function JustifyOf(v: nat, x: Block): Option<QC> {
    if x.parentHash.Digest? && v > 0 then Some(Certificate(PREPARE, v - 1, x.parentHash.block)) else None
  }

  /** A node votes for the proposal of block x in view v. */
  ghost predicate Votable(s: Node, v: nat, x: Block) {
    Acceptable(s.lockedQC, Prepare(v, x, JustifyOf(v, x), s.id))
  }

  /** The node's certificates are older than view v, or those of block x in it. */
  ghost predicate Recent(s: Node, v: nat, x: Block) {
    && (s.prepareQC.Some? ==> s.prepareQC.value.view < v || s.prepareQC == Some(Certificate(PREPARE, v, x)))
    && (s.lockedQC.Some? ==> s.lockedQC.value.view < v || s.lockedQC == Some(Certificate(PRE_COMMIT, v, x)))
  }

  ghost predicate AllRecent(s: System, v: nat, x: Block) {
    forall i | 0 <= i < |s.nodes| :: Recent(s.nodes[i], v, x)
  }

  ghost predicate SameLocks(s: System, s': System) {
    |s.nodes| == |s'.nodes| && forall i | 0 <= i < |s.nodes| :: s'.nodes[i].lockedQC == s.nodes[i].lockedQC
  }

  /** The message that asks for votes of a kind on block x in view v. */
  function Ask(c: Config, collector: nat, kind: Phase, v: nat, x: Block): Message
    requires collector < |c.peers|
  {
    if kind == PREPARE then PrepareMsg(Prepare(v, x, JustifyOf(v, x), c.peers[collector]))
    else if kind == PRE_COMMIT then PreCommitMsg(v, Some(Certificate(PREPARE, v, x)))
    else CommitMsg(v, Some(Certificate(PRE_COMMIT, v, x)))
  }

  function VoteOf(c: Config, kind: Phase, v: nat, x: Block, j: nat): Message
    requires j < |c.peers|
  {
    VoteMsg(kind, Vote(v, x, Some(Share(j, Ballot(kind, v, x))), c.peers[j]))
  }

  function VoteTo(c: Config, collector: nat, kind: Phase, v: nat, x: Block, j: nat): Send
    requires j < |c.peers| && collector < |c.peers|
  {
    Unicast(c.peers[collector], VoteOf(c, kind, v, x, j))
  }

  // ----- one vote

  /** A node asked for a vote sends it to the collector, whatever it voted for before. */
  lemma SignOne(c: Config, s: System, rules: Rules, collector: nat, kind: Phase, v: nat, x: Block, j: nat)
    returns (s': System)
    requires Reach(c, s, rules) && Lab(c, s, collector, v) && j < |c.peers| && j != collector
    requires (kind == PREPARE ==> Votable(s.nodes[j], v, x)) && Mailed(s, Broadcast(Ask(c, collector, kind, v, x)))
    ensures Reach(c, s', rules) && Lab(c, s', collector, v) && Beside(s, s', collector)
    ensures s'.nodes[collector] == s.nodes[collector] && Mailed(s', VoteTo(c, collector, kind, v, x, j))
    ensures SignedOne(s, s', kind, v, x, j)
  {
    var a := Deliver(Ask(c, collector, kind, v, x));
    s' := Extend(c, s, j, a, rules);
    Signed(c, s.nodes[j], collector, kind, v, x, j);
    var r := React(s.nodes[j], a);
    AfterSign(c, s, s', collector, v, j, a, r, VoteTo(c, collector, kind, v, x, j));
    CertificatesSigned(s, s', a, r, kind, v, x, j);
  }

  /** What giving one vote does to the certificates. */
  ghost predicate SignedOne(s: System, s': System, kind: Phase, v: nat, x: Block, j: nat) {
    && j < |s.nodes| == |s'.nodes|
    && (kind != COMMIT ==> SameLocks(s, s'))
    && (AllRecent(s, v, x) ==> AllRecent(s', v, x))
    && (kind == PRE_COMMIT ==> s'.nodes[j].prepareQC == Some(Certificate(PREPARE, v, x)))
    && (kind == COMMIT ==> forall i | 0 <= i < |s.nodes| :: s'.nodes[i].prepareQC == s.nodes[i].prepareQC)
  }

  /** The same, of the node that votes. */
  ghost predicate SignedBy(s: Node, s': Node, kind: Phase, v: nat, x: Block) {
    && SameReports(s, s')
    && (kind != COMMIT ==> s'.lockedQC == s.lockedQC)
    && (Recent(s, v, x) ==> Recent(s', v, x))
    && (kind == PRE_COMMIT ==> s'.prepareQC == Some(Certificate(PREPARE, v, x)))
    && (kind == COMMIT ==> s'.prepareQC == s.prepareQC)
  }

  lemma Signed(c: Config, node: Node, collector: nat, kind: Phase, v: nat, x: Block, j: nat)
    requires collector < |c.peers| && j < |c.peers| && Fit(c, j, node) && Follows(c, node, collector, v)
    requires kind == PREPARE ==> Votable(node, v, x)
    ensures var r := Handle(node, Ask(c, collector, kind, v, x));
      && r.Ok? && Fit(c, j, r.node) && Follows(c, r.node, collector, v) && r.node.signatures == node.signatures
      && r.decided.None? && r.out == Continue([VoteTo(c, collector, kind, v, x, j)])
      && SignedBy(node, r.node, kind, v, x)
  {
    if kind == PREPARE {
      var s1 := node.(primary := c.peers[collector]);
      assert Handle(node, Ask(c, collector, kind, v, x)) == Sign(s1, kind, v, x);
    } else if kind == PRE_COMMIT {
      var s1 := node.(prepareQC := Some(Certificate(PREPARE, v, x)));
      assert Handle(node, Ask(c, collector, kind, v, x)) == Sign(s1, kind, v, x);
    } else {
      var s1 := node.(lockedQC := Some(Certificate(PRE_COMMIT, v, x)));
      assert Handle(node, Ask(c, collector, kind, v, x)) == Sign(s1, kind, v, x);
    }
  }

  lemma CertificatesSigned(s: System, s': System, a: Action, r: Result, kind: Phase, v: nat, x: Block, j: nat)
    requires j < |s.nodes| == |s.highFrom| && r.Ok? && s' == Apply(s, j, a, r)
    requires SignedBy(s.nodes[j], r.node, kind, v, x)
    ensures SignedOne(s, s', kind, v, x, j)
  {
  }

  lemma AfterSign(c: Config, s: System, s': System, collector: nat, v: nat, j: nat, a: Action, r: Result, x: Send)
    requires Lab(c, s, collector, v) && j < |c.peers| && j != collector && a.Deliver? && !a.m.NewViewMsg?
    requires r.Ok? && Fit(c, j, r.node) && Follows(c, r.node, collector, v) && SameReports(s.nodes[j], r.node)
    requires r.node.signatures == s.nodes[j].signatures && r.decided.None? && r.out == Continue([x]) && x.msg.VoteMsg?
    requires s' == Apply(s, j, a, r)
    ensures Lab(c, s', collector, v) && Beside(s, s', collector)
    ensures s'.nodes[collector] == s.nodes[collector] && Mailed(s', x)
  {
    assert Messages([x]) == {x.msg};
    assert x in Sends(r.out);
  }

  /** The next request of the collector, or its decision, is out. */
  ghost predicate Advanced(c: Config, s: System, collector: nat, kind: Phase, v: nat, x: Block)
    requires collector < |c.peers|
  {
    if kind == COMMIT then
      && Certificate(COMMIT, v, x) in s.decided && (collector, x.cmd) in s.done
      && Mailed(s, Broadcast(DecideMsg(v, Some(Certificate(COMMIT, v, x)))))
    else Mailed(s, Broadcast(Ask(c, collector, kind + 1, v, x)))
  }

  ghost predicate AllFit(c: Config, s: System) {
    && |s.nodes| == |c.peers| == |s.highFrom|
    && forall i | 0 <= i < |s.nodes| :: Fit(c, i, s.nodes[i])
  }

  /** Only the given node changes, and it still fits. */
  ghost predicate OnlyNode(c: Config, s: System, s': System, i: nat) {
    && AllFit(c, s') && |s.nodes| == |s'.nodes|
    && forall j | 0 <= j < |s.nodes| && j != i :: s'.nodes[j] == s.nodes[j]
  }

  /** The collector counts one vote; the 2f+1-st makes it ask for the next phase, or decide. */
  lemma CollectOne(c: Config, s: System, rules: Rules, collector: nat, kind: Phase, v: nat, x: Block, j: nat)
    returns (s': System)
    requires Full(c) && Reach(c, s, rules) && AllFit(c, s) && collector < |c.peers| && j < |c.peers|
    requires Mailed(s, VoteTo(c, collector, kind, v, x, j))
    requires j !in Shares(s.nodes[collector].signatures, Ballot(kind, v, x))
    ensures Reach(c, s', rules) && OnlyNode(c, s, s', collector) && Beside(s, s', collector)
    ensures SameCertificates(s, s')
    ensures var b := Ballot(kind, v, x);
      var known := Shares(s.nodes[collector].signatures, b);
      && s'.nodes[collector].signatures == s.nodes[collector].signatures[b := known[j := Share(j, b)]]
      && (|known| == 2 * c.fault ==> Advanced(c, s', collector, kind, v, x))
      && (|known| == 2 * c.fault && kind == COMMIT ==> LeftReport(c, s', collector, s.nodes[collector].view))
      && Left(c, s.nodes[collector], s'.nodes[collector], kind == COMMIT && |known| == 2 * c.fault)
  {
    var m := VoteOf(c, kind, v, x, j);
    C.KeyTableDense(c.peers);
    s' := Extend(c, s, collector, Deliver(m), rules);
    Counted(c, s.nodes[collector], collector, kind, v, x, j);
    var b := Ballot(kind, v, x);
    var known := Shares(s.nodes[collector].signatures, b);
    var s1 := s.nodes[collector].(signatures := s.nodes[collector].signatures[b := known[j := Share(j, b)]]);
    var r := React(s.nodes[collector], Deliver(m));
    AfterVote(c, s, s', collector, Deliver(m), r);
    AfterCount(c, s, s', collector, Deliver(m), kind, v, x, s1, |known| == 2 * c.fault, r);
  }

  lemma AfterCount(c: Config, s: System, s': System, collector: nat, a: Action, kind: Phase, v: nat, x: Block, s1: Node,
      quorum: bool, r: Result)
    requires AllFit(c, s) && collector < |c.peers| && CountedTo(c, collector, kind, v, x, s1, quorum, r)
    requires s' == Apply(s, collector, a, r)
    ensures s'.nodes[collector] == r.node
    ensures quorum ==> Advanced(c, s', collector, kind, v, x)
    ensures quorum && kind == COMMIT ==> LeftReport(c, s', collector, s1.view)
  {
  }

  /** The node has moved on to the next view, or stays. */
  ghost predicate Left(c: Config, node: Node, node': Node, moved: bool)
    requires |c.peers| > 0
  {
    if moved then node'.view == node.view + 1 && node'.primary == c.peers[(node.view + 1) % |c.peers|]
    else node'.view == node.view && node'.primary == node.primary
  }

  ghost predicate SameCertificates(s: System, s': System) {
    && |s.nodes| == |s'.nodes|
    && forall i | 0 <= i < |s.nodes| ::
         s'.nodes[i].prepareQC == s.nodes[i].prepareQC && s'.nodes[i].lockedQC == s.nodes[i].lockedQC
  }

  /** The leader of the view after v. */
  function LeaderAfter(c: Config, v: nat): nat
    requires |c.peers| > 0
  {
    (v + 1) % |c.peers|
  }

  function ReportTo(c: Config, v: nat, justify: Option<QC>, i: nat): Send
    requires i < |c.peers|
  {
    Unicast(c.peers[LeaderAfter(c, v)], NewViewMsg(NewView(v, justify, c.peers[i])))
  }

  /** Node i has left view v and its report to the next leader, if that is another node, is out. */
  ghost predicate LeftReport(c: Config, s: System, i: nat, v: nat)
    requires |c.peers| > 0
  {
    && i < |s.nodes| == |c.peers|
    && (i != LeaderAfter(c, v) ==> Mailed(s, ReportTo(c, v, s.nodes[i].prepareQC, i)))
  }

  lemma AfterVote(c: Config, s: System, s': System, collector: nat, a: Action, r: Result)
    requires AllFit(c, s) && collector < |c.peers| && a.Deliver? && a.m.VoteMsg?
    requires r.Ok? && Fit(c, collector, r.node) && forall m | m in Messages(Sends(r.out)) :: !m.PrepareMsg?
    requires SameHeld(s.nodes[collector], r.node)
    requires s' == Apply(s, collector, a, r)
    ensures OnlyNode(c, s, s', collector) && Beside(s, s', collector) && SameCertificates(s, s')
  {
  }

  ghost predicate SameHeld(s: Node, s': Node) {
    SameReports(s, s') && s'.prepareQC == s.prepareQC && s'.lockedQC == s.lockedQC
  }

  /** What counting a vote leads to; `s1` is the collector with the vote filed. */
  ghost predicate CountedTo(c: Config, i: nat, kind: Phase, v: nat, x: Block, s1: Node, quorum: bool, r: Result)
    requires i < |c.peers|
  {
    && r.Ok? && Fit(c, i, r.node) && r.node.signatures == s1.signatures && SameHeld(s1, r.node)
    && (forall m | m in Messages(Sends(r.out)) :: !m.PrepareMsg?)
    && Left(c, s1, r.node, kind == COMMIT && quorum)
    && (quorum && kind == COMMIT ==>
          && r.decided == Some(Certificate(COMMIT, v, x)) && r.out.Complete? && r.out.cmd == x.cmd
          && Broadcast(DecideMsg(v, Some(Certificate(COMMIT, v, x)))) in Sends(r.out)
          && (i != LeaderAfter(c, s1.view) ==> ReportTo(c, s1.view, s1.prepareQC, i) in Sends(r.out)))
    && (quorum && kind != COMMIT ==> Sends(r.out) == [Broadcast(Ask(c, i, kind + 1, v, x))])
  }

  /** What the handler of the vote does to the collector. */
  lemma Counted(c: Config, node: Node, i: nat, kind: Phase, v: nat, x: Block, j: nat)
    requires Full(c) && i < |c.peers| && j < |c.peers| && Fit(c, i, node)
    requires c.peers[j] in C.KeyTable(c.peers) && C.KeyTable(c.peers)[c.peers[j]] == j
    requires j !in Shares(node.signatures, Ballot(kind, v, x))
    ensures var b := Ballot(kind, v, x);
      var known := Shares(node.signatures, b);
      CountedTo(c, i, kind, v, x, node.(signatures := node.signatures[b := known[j := Share(j, b)]]),
                |known| == 2 * c.fault, Handle(node, VoteOf(c, kind, v, x, j)))
  {
    var b := Ballot(kind, v, x);
    var known := Shares(node.signatures, b);
    var m := VoteOf(c, kind, v, x, j);
    var s1 := node.(signatures := node.signatures[b := known[j := Share(j, b)]]);
    assert |known[j := Share(j, b)]| == |known| + 1;
    if |known| != 2 * c.fault {
      assert Handle(node, m) == Quiet(s1);
    } else {
      assert Collect(node, kind, m.vote) == Quorum(s1, Certificate(kind, v, x));
      CountedQuorum(c, node, s1, i, kind, v, x, m.vote);
    }
  }

  lemma CountedQuorum(c: Config, node: Node, s1: Node, i: nat, kind: Phase, v: nat, x: Block, vote: Vote)
    requires Full(c) && i < |c.peers| && Fit(c, i, s1) && vote.view == v
    requires Collect(node, kind, vote) == Quorum(s1, Certificate(kind, v, x))
    ensures CountedTo(c, i, kind, v, x, s1, true, HandleVote(node, kind, vote))
  {
    if kind == COMMIT {
      QuorumDecides(c, s1, i, v, x);
      assert HandleVote(node, kind, vote)
        == Decide(s1, Certificate(COMMIT, v, x), [Broadcast(DecideMsg(v, Some(Certificate(COMMIT, v, x))))]);
    } else {
      var next := Ask(c, i, kind + 1, v, x);
      assert HandleVote(node, kind, vote) == Ok(s1, Continue([Broadcast(next)]), None, None);
      assert Messages([Broadcast(next)]) == {next};
    }
  }

  lemma QuorumDecides(c: Config, s1: Node, i: nat, v: nat, x: Block)
    requires Full(c) && i < |c.peers| && Fit(c, i, s1)
    ensures var announced := Broadcast(DecideMsg(v, Some(Certificate(COMMIT, v, x))));
      CountedTo(c, i, COMMIT, v, x, s1, true, Decide(s1, Certificate(COMMIT, v, x), [announced]))
  {
    Leaves(c, i, s1);
    var announced := Broadcast(DecideMsg(v, Some(Certificate(COMMIT, v, x))));
    var sends := Sends(Decide(s1, Certificate(COMMIT, v, x), [announced]).out);
    assert sends[0] == announced;
    if i != LeaderAfter(c, s1.view) {
      assert sends[1] == ReportTo(c, s1.view, s1.prepareQC, i);
    }
  }

  /** Entering the next view only reports to its leader. */
  lemma Leaves(c: Config, i: nat, node: Node)
    requires Full(c) && i < |c.peers| && Fit(c, i, node)
    ensures var r := EnterNextView(node);
      var leader := c.peers[(node.view + 1) % |c.peers|];
      && r.Ok? && Fit(c, i, r.node) && Left(c, node, r.node, true)
          && r.node == node.(view := r.node.view, primary := leader)
      && r.decided.None?
      && Sends(r.out) == if leader == node.id then []
                         else [Unicast(leader, NewViewMsg(NewView(node.view, node.prepareQC, node.id)))]
  {
    C.DenseSize(c.peers);
  }

  // ----- one phase, and all three

  ghost predicate VotedFirst(node: Node, collector: nat, b: Ballot, m: nat) {
    && |Shares(node.signatures, b)| == m
    && forall j | j in Shares(node.signatures, b) :: exists k: nat :: k < m && j == Voter(collector, k)
  }

  ghost predicate OthersSame(node: Node, node': Node, b: Ballot) {
    forall d | d != b :: Shares(node'.signatures, d) == Shares(node.signatures, d)
  }

  /** The first m voters' votes have been counted since s. */
  ghost predicate Voted(c: Config, s: System, s': System, collector: nat, kind: Phase, v: nat, x: Block, m: nat) {
    && collector < |s.nodes| == |s'.nodes| == |c.peers|
    && VotedFirst(s'.nodes[collector], collector, Ballot(kind, v, x), m)
    && OthersSame(s.nodes[collector], s'.nodes[collector], Ballot(kind, v, x))
    && (m == 2 * c.fault + 1 ==> Advanced(c, s', collector, kind, v, x))
    && Left(c, s.nodes[collector], s'.nodes[collector], kind == COMMIT && m == 2 * c.fault + 1)
  }

  lemma VotedMore(node: Node, node': Node, collector: nat, b: Ballot, m: nat)
    requires VotedFirst(node, collector, b, m)
    requires var j := Voter(collector, m);
      && j !in Shares(node.signatures, b)
      && node'.signatures == node.signatures[b := Shares(node.signatures, b)[j := Share(j, b)]]
    ensures VotedFirst(node', collector, b, m + 1) && OthersSame(node, node', b)
  {
    var j := Voter(collector, m);
    forall i | i in Shares(node'.signatures, b) ensures exists k: nat :: k < m + 1 && i == Voter(collector, k) {
      if i == j {
        assert m < m + 1 && i == Voter(collector, m);
      } else {
        var k: nat :| k < m && i == Voter(collector, k);
        assert k < m + 1;
      }
    }
  }

  /** Every node that is asked for a PREPARE vote gives it. */
  ghost predicate AllVotable(s: System, collector: nat, kind: Phase, v: nat, x: Block) {
    kind == PREPARE ==> forall i | 0 <= i < |s.nodes| && i != collector :: Votable(s.nodes[i], v, x)
  }

  /** What a phase does to the certificates, and the collector's report once it has decided. */
  ghost predicate Keeping(c: Config, s: System, s': System, collector: nat, kind: Phase, v: nat, x: Block, m: nat)
    requires |c.peers| > 0
  {
    && |s.nodes| == |s'.nodes| == |c.peers| && collector < |s.nodes|
    && (kind != COMMIT ==> SameLocks(s, s'))
    && (AllRecent(s, v, x) ==> AllRecent(s', v, x))
    && (kind == COMMIT ==> forall i | 0 <= i < |s.nodes| :: s'.nodes[i].prepareQC == s.nodes[i].prepareQC)
    && (kind == COMMIT && m == 2 * c.fault + 1 ==> LeftReport(c, s', collector, s.nodes[collector].view))
  }

  lemma {:induction false} Phased(c: Config, s: System, rules: Rules, collector: nat, kind: Phase, v: nat, x: Block,
      m: nat)
    returns (s': System)
    requires Full(c) && Reach(c, s, rules) && Lab(c, s, collector, v) && m <= 2 * c.fault + 1
    requires AllVotable(s, collector, kind, v, x) && Mailed(s, Broadcast(Ask(c, collector, kind, v, x)))
    requires Shares(s.nodes[collector].signatures, Ballot(kind, v, x)) == map[]
    ensures Reach(c, s', rules) && Lab(c, s', collector, v) && Beside(s, s', collector)
    ensures Voted(c, s, s', collector, kind, v, x, m) && Keeping(c, s, s', collector, kind, v, x, m)
    decreases m
  {
    if m == 0 {
      s' := s;
    } else {
      var s1 := Phased(c, s, rules, collector, kind, v, x, m - 1);
      s' := PhasedMore(c, s1, rules, collector, kind, v, x, m - 1);
      BesideChain(s, s1, s', collector);
      VotedChain(c, s, s1, s', collector, kind, v, x, m - 1);
    }
  }

  /** One more vote is given and counted. */
  lemma PhasedMore(c: Config, s: System, rules: Rules, collector: nat, kind: Phase, v: nat, x: Block, m: nat)
    returns (s': System)
    requires Full(c) && Reach(c, s, rules) && Lab(c, s, collector, v) && m < 2 * c.fault + 1
    requires AllVotable(s, collector, kind, v, x) && Mailed(s, Broadcast(Ask(c, collector, kind, v, x)))
    requires VotedFirst(s.nodes[collector], collector, Ballot(kind, v, x), m)
    ensures Reach(c, s', rules) && Lab(c, s', collector, v) && Beside(s, s', collector)
    ensures Voted(c, s, s', collector, kind, v, x, m + 1) && Keeping(c, s, s', collector, kind, v, x, m + 1)
  {
    var j := Voter(collector, m);
    var s1 := SignOne(c, s, rules, collector, kind, v, x, j);
    assert j !in Shares(s1.nodes[collector].signatures, Ballot(kind, v, x));
    s' := CollectOne(c, s1, rules, collector, kind, v, x, j);
    VotedMore(s1.nodes[collector], s'.nodes[collector], collector, Ballot(kind, v, x), m);
    BesideChain(s, s1, s', collector);
    KeepingOne(c, s, s1, s', collector, kind, v, x, m);
  }

  lemma KeepingOne(c: Config, s: System, s1: System, s': System, collector: nat, kind: Phase, v: nat, x: Block, m: nat)
    requires |s.nodes| == |c.peers| && collector < |c.peers|
    requires SignedOne(s, s1, kind, v, x, Voter(collector, m)) && SameCertificates(s1, s')
    requires kind == COMMIT && m == 2 * c.fault ==> LeftReport(c, s', collector, s.nodes[collector].view)
    ensures Keeping(c, s, s', collector, kind, v, x, m + 1)
  {
    if AllRecent(s, v, x) {
      forall i | 0 <= i < |s'.nodes| ensures Recent(s'.nodes[i], v, x) {
        assert Recent(s1.nodes[i], v, x);
      }
    }
  }

  lemma VotedChain(c: Config, s: System, s1: System, s2: System, collector: nat, kind: Phase, v: nat, x: Block, m: nat)
    requires m <= 2 * c.fault
    requires Voted(c, s, s1, collector, kind, v, x, m) && Voted(c, s1, s2, collector, kind, v, x, m + 1)
    ensures Voted(c, s, s2, collector, kind, v, x, m + 1)
  {
  }

  /** The ballots of a block in a view that the collector has not seen a vote for. */
  ghost predicate Unseen(node: Node, v: nat, x: Block) {
    forall kind: Phase :: Shares(node.signatures, Ballot(kind, v, x)) == map[]
  }

  lemma StillUnseen(node: Node, node': Node, kind: Phase, v: nat, x: Block)
    requires OthersSame(node, node', Ballot(kind, v, x))
    ensures forall y | y != x && Unseen(node, v, y) :: Unseen(node', v, y)
  {
  }

  /** The first two phases of a proposed block: the collector asks for COMMIT votes. */
  lemma PreCommitBlock(c: Config, s: System, rules: Rules, collector: nat, v: nat, x: Block) returns (s': System)
    requires Full(c) && Reach(c, s, rules) && Lab(c, s, collector, v)
    requires AllVotable(s, collector, PREPARE, v, x) && Mailed(s, Broadcast(Ask(c, collector, PREPARE, v, x)))
    requires Unseen(s.nodes[collector], v, x)
    ensures Reach(c, s', rules) && Lab(c, s', collector, v) && Beside(s, s', collector)
    ensures Mailed(s', Broadcast(Ask(c, collector, COMMIT, v, x)))
    ensures Shares(s'.nodes[collector].signatures, Ballot(COMMIT, v, x)) == map[]
    ensures forall y | y != x && Unseen(s.nodes[collector], v, y) :: Unseen(s'.nodes[collector], v, y)
    ensures Left(c, s.nodes[collector], s'.nodes[collector], false)
  {
    var s1 := Phased(c, s, rules, collector, PREPARE, v, x, 2 * c.fault + 1);
    StillUnseen(s.nodes[collector], s1.nodes[collector], PREPARE, v, x);
    s' := Phased(c, s1, rules, collector, PRE_COMMIT, v, x, 2 * c.fault + 1);
    StillUnseen(s1.nodes[collector], s'.nodes[collector], PRE_COMMIT, v, x);
    BesideChain(s, s1, s', collector);
  }

  /** A proposed block is decided and the decision announced, and the collector leaves its view. */
  lemma DecideBlock(c: Config, s: System, rules: Rules, collector: nat, v: nat, x: Block) returns (s': System)
    requires Full(c) && Reach(c, s, rules) && Lab(c, s, collector, v)
    requires AllVotable(s, collector, PREPARE, v, x) && Mailed(s, Broadcast(Ask(c, collector, PREPARE, v, x)))
    requires Unseen(s.nodes[collector], v, x)
    ensures Reach(c, s', rules) && Lab(c, s', collector, v) && Beside(s, s', collector)
    ensures Advanced(c, s', collector, COMMIT, v, x) && LeftReport(c, s', collector, s.nodes[collector].view)
    ensures forall y | y != x && Unseen(s.nodes[collector], v, y) :: Unseen(s'.nodes[collector], v, y)
    ensures Left(c, s.nodes[collector], s'.nodes[collector], true)
  {
    var s1 := PreCommitBlock(c, s, rules, collector, v, x);
    s' := CommitBlock(c, s1, rules, collector, v, x);
    BesideChain(s, s1, s', collector);
  }

  /** The last phase: the collector has asked for COMMIT votes. */
  lemma CommitBlock(c: Config, s: System, rules: Rules, collector: nat, v: nat, x: Block) returns (s': System)
    requires Full(c) && Reach(c, s, rules) && Lab(c, s, collector, v)
    requires Mailed(s, Broadcast(Ask(c, collector, COMMIT, v, x)))
    requires Shares(s.nodes[collector].signatures, Ballot(COMMIT, v, x)) == map[]
    ensures Reach(c, s', rules) && Lab(c, s', collector, v) && Beside(s, s', collector)
    ensures Advanced(c, s', collector, COMMIT, v, x) && LeftReport(c, s', collector, s.nodes[collector].view)
    ensures forall y | y != x && Unseen(s.nodes[collector], v, y) :: Unseen(s'.nodes[collector], v, y)
    ensures Left(c, s.nodes[collector], s'.nodes[collector], true)
  {
    s' := Phased(c, s, rules, collector, COMMIT, v, x, 2 * c.fault + 1);
    StillUnseen(s.nodes[collector], s'.nodes[collector], COMMIT, v, x);
  }

  /** A node proposes a block that extends the one of its high certificate, or nothing without one. */
  lemma ProposeOne(c: Config, s: System, rules: Rules, i: nat, v: nat, x: Block) returns (s': System)
    requires Full(c) && Reach(c, s, rules) && Lab(c, s, i, v) && s.nodes[i].view == v
    requires Scheduled(s, i, Request(x.cmd), rules) && s.nodes[i].highQC == JustifyOf(v, x)
    requires x.parentHash == EMPTY_HASH || JustifyOf(v, x).Some?
    ensures var m := Ask(c, i, PREPARE, v, x);
      Reach(c, s', rules) && s' == s.(net := s.net + {m}, mail := s.mail + {Broadcast(m)})
  {
    s' := Extend(c, s, i, Request(x.cmd), rules);
    var m := Ask(c, i, PREPARE, v, x);
    assert Sends(React(s.nodes[i], Request(x.cmd)).out) == [Broadcast(m)];
    assert Messages([Broadcast(m)]) == {m} && (set y | y in [Broadcast(m)]) == {Broadcast(m)};
    assert s.nodes[i := s.nodes[i]] == s.nodes;
  }
}

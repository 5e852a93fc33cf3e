/**
 What becomes of a decision of basic HotStuff: it is announced to all nodes, and nodes report exactly the
 commands of decided blocks. From any state in which the nodes share a view, a proposed block can reach
 the point where every one of them has reported it complete.
 */
module BasicDecisions {
  import opened Common
  import opened BasicNode
  import opened BasicSystem
  import opened BasicScheduler

  // ----- every run

  function Announcement(q: QC): Send {
    Broadcast(DecideMsg(q.view, Some(q)))
  }

  ghost predicate ReportedBy(done: set<(nat, string)>, cmd: string) {
    exists i :: (i, cmd) in done
  }

  ghost predicate DecidedOn(decided: set<QC>, cmd: string) {
    exists q :: q in decided && q.block.cmd == cmd
  }

  ghost predicate Settled(s: System) {
    && s.net == (set x | x in s.mail :: x.msg)
    && (forall x | x in s.mail && x.msg.DecideMsg? :: x.msg.justify.Some? && x == Announcement(x.msg.justify.value))
    && (forall q | q in s.decided :: Announcement(q) in s.mail && ReportedBy(s.done, q.block.cmd))
    && forall x | x in s.done :: DecidedOn(s.decided, x.1)
  }

  /** A handler decides exactly when it reports, on what it announces or was told; it announces nothing
      else. */
  ghost predicate Decides(a: Action, r: Result) {
    r.Ok? ==>
      && (r.decided.Some? <==> r.out.Complete?)
      && (r.decided.Some? ==>
            var q := r.decided.value;
            && r.out.cmd == q.block.cmd
            && (Announcement(q) in Sends(r.out) || (a.Deliver? && a.m.DecideMsg? && a.m.justify == Some(q))))
      && forall x | x in Sends(r.out) && x.msg.DecideMsg? :: r.decided.Some? && x == Announcement(r.decided.value)
  }

  lemma DecideDecides(s: Node, q: QC, a: Action)
    ensures Decides(a, Decide(s, q, [Announcement(q)]))
    ensures a.Deliver? && a.m.DecideMsg? && a.m.justify == Some(q) ==> Decides(a, Decide(s, q, []))
  {
    var r := Decide(s, q, [Announcement(q)]);
    if r.Ok? {
      assert Sends(r.out)[0] == Announcement(q);
    }
  }

  lemma VoteDecides(s: Node, kind: Phase, v: Vote)
    ensures Decides(Deliver(VoteMsg(kind, v)), HandleVote(s, kind, v))
  {
    var x := Collect(s, kind, v);
    if x.Quorum? && kind == COMMIT {
      DecideDecides(x.node, x.qc, Deliver(VoteMsg(kind, v)));
    }
  }

  lemma ReactDecides(s: Node, a: Action)
    ensures Decides(a, React(s, a))
  {
    match a
    case Deliver(m) => {
      match m
      case NewViewMsg(_) =>
      case PrepareMsg(_) =>
      case PreCommitMsg(_, _) =>
      case CommitMsg(_, _) =>
      case DecideMsg(_, j) => {
        var x := CheckQC(s, COMMIT, j);
        if x.Accept? {
          DecideDecides(s, x.qc, a);
        }
      }
      case VoteMsg(kind, v) => VoteDecides(s, kind, v);
    }
    case Request(_) =>
    case Timeout =>
  }

  lemma StepSettled(c: Config, s: System, i: nat, a: Action, s': System, rules: Rules)
    requires Settled(s) && Step(c, s, i, a, s', rules)
    ensures Settled(s')
  {
    var r := React(s.nodes[i], a);
    ReactDecides(s.nodes[i], a);
    if r.Ok? {
      forall q | q in s'.decided ensures Announcement(q) in s'.mail && ReportedBy(s'.done, q.block.cmd) {
        if q in s.decided {
          var j :| (j, q.block.cmd) in s.done;
          assert (j, q.block.cmd) in s'.done;
        } else {
          assert (i, q.block.cmd) in s'.done;
        }
      }
      forall x | x in s'.done ensures DecidedOn(s'.decided, x.1) {
        if x in s.done {
          var q :| q in s.decided && q.block.cmd == x.1;
          assert q in s'.decided;
        } else {
          assert r.decided.value in s'.decided;
        }
      }
    }
  }

  lemma {:induction false} RunSettled(c: Config, tr: seq<System>, rules: Rules)
    requires Run(c, tr, rules)
    ensures Settled(Last(tr))
  {
    if |tr| > 1 {
      assert Extended(c, tr, rules);
      RunSettled(c, tr[..|tr| - 1], rules);
      var i, a :| Step(c, tr[|tr| - 2], i, a, tr[|tr| - 1], rules);
      StepSettled(c, tr[|tr| - 2], i, a, tr[|tr| - 1], rules);
    }
  }

  /** In every run, scheduled or not, each decision has been announced to all nodes, and the commands that
      nodes reported complete are exactly those of decided blocks. */
  lemma {:induction false} DecisionsAnnounced(c: Config, tr: seq<System>, rules: Rules)
    requires Run(c, tr, rules)
    ensures var s := Last(tr);
      && (forall q | q in s.decided :: Broadcast(DecideMsg(q.view, Some(q))) in s.mail)
      && forall cmd :: ReportedBy(s.done, cmd) <==> DecidedOn(s.decided, cmd)
  {
    RunSettled(c, tr, rules);
    var s := Last(tr);
    forall cmd ensures ReportedBy(s.done, cmd) <==> DecidedOn(s.decided, cmd) {
      if ReportedBy(s.done, cmd) {
        var i :| (i, cmd) in s.done;
        assert DecidedOn(s.decided, (i, cmd).1);
      }
    }
  }

  // ----- all nodes learn of a decision

  /** The nodes below m have reported the block and left the view; the others can still do so. */
  ghost predicate Told(c: Config, s: System, collector: nat, v: nat, x: Block, m: nat) {
    && AllFit(c, s) && collector < |c.peers| && Advanced(c, s, collector, COMMIT, v, x)
    && forall i: nat | i < |c.peers| ::
         if i == collector || i < m then
           (i, x.cmd) in s.done && Follows(c, s.nodes[i], LeaderAfter(c, v), v + 1) && LeftReport(c, s, i, v)
         else s.nodes[i].view == v
  }

  /** Only views change, and the reports and commands that go with them are added. */
  ghost predicate OnlyTold(s: System, s': System) {
    && Beside(s, s', |s.nodes|) && SameCertificates(s, s') && |s.highFrom| == |s'.highFrom|
    && forall i | 0 <= i < |s.nodes| :: s'.nodes[i].signatures == s.nodes[i].signatures
  }

  /** What the announcement does to a node of the view. */
  ghost predicate ToldBy(c: Config, m: nat, node: Node, v: nat, x: Block, r: Result)
    requires m < |c.peers|
  {
    && r.Ok? && r.out.Complete? && r.out.cmd == x.cmd && Fit(c, m, r.node)
    && Follows(c, r.node, LeaderAfter(c, v), v + 1)
    && r.node.signatures == node.signatures && SameHeld(node, r.node)
    && (forall y | y in Sends(r.out) :: y.msg.NewViewMsg?)
    && (m != LeaderAfter(c, v) ==> ReportTo(c, v, r.node.prepareQC, m) in Sends(r.out))
  }

  function Telling(v: nat, x: Block): Action {
    Deliver(DecideMsg(v, Some(Certificate(COMMIT, v, x))))
  }

  lemma Hears(c: Config, m: nat, node: Node, v: nat, x: Block)
    requires Full(c) && m < |c.peers| && Fit(c, m, node) && node.view == v
    ensures ToldBy(c, m, node, v, x, React(node, Telling(v, x)))
  {
    Leaves(c, m, node);
    var r := React(node, Telling(v, x));
    assert r == Decide(node, Certificate(COMMIT, v, x), []);
    if m != LeaderAfter(c, v) {
      assert Sends(r.out)[0] == ReportTo(c, v, r.node.prepareQC, m);
    }
  }

  lemma TellOne(c: Config, s: System, rules: Rules, collector: nat, v: nat, x: Block, m: nat) returns (s': System)
    requires Full(c) && Reach(c, s, rules) && m < |c.peers| && Told(c, s, collector, v, x, m)
    ensures Reach(c, s', rules) && Told(c, s', collector, v, x, m + 1) && OnlyTold(s, s')
  {
    if m == collector {
      s' := s;
    } else {
      s' := Extend(c, s, m, Telling(v, x), rules);
      Hears(c, m, s.nodes[m], v, x);
      AfterTelling(c, s, s', collector, v, x, m, React(s.nodes[m], Telling(v, x)));
    }
  }

  lemma AfterTelling(c: Config, s: System, s': System, collector: nat, v: nat, x: Block, m: nat, r: Result)
    requires Full(c) && m < |c.peers| && m != collector && Told(c, s, collector, v, x, m)
    requires ToldBy(c, m, s.nodes[m], v, x, r) && s' == Apply(s, m, Telling(v, x), r)
    ensures Told(c, s', collector, v, x, m + 1) && OnlyTold(s, s')
  {
    assert (m, x.cmd) in s'.done;
    forall i: nat | i < |c.peers| && i != m && (i == collector || i < m) ensures LeftReport(c, s', i, v) {
      assert LeftReport(c, s, i, v);
    }
  }

  lemma {:induction false} TellAll(c: Config, s: System, rules: Rules, collector: nat, v: nat, x: Block, m: nat)
      returns (s': System)
    requires Full(c) && Reach(c, s, rules) && m <= |c.peers| && Told(c, s, collector, v, x, 0)
    ensures Reach(c, s', rules) && Told(c, s', collector, v, x, m) && OnlyTold(s, s')
    decreases m
  {
    if m == 0 {
      s' := s;
    } else {
      var s1 := TellAll(c, s, rules, collector, v, x, m - 1);
      s' := TellOne(c, s1, rules, collector, v, x, m - 1);
      BesideChain(s, s1, s', |s.nodes|);
    }
  }

  lemma TellStart(c: Config, s: System, leader: nat, v: nat, x: Block)
    requires leader < |c.peers| && Lab(c, s, leader, v) && Advanced(c, s, leader, COMMIT, v, x)
    requires LeftReport(c, s, leader, v)
    requires s.nodes[leader].view == v + 1 && s.nodes[leader].primary == c.peers[LeaderAfter(c, v)]
    ensures Told(c, s, leader, v, x, 0)
  {
  }

  /** From any state whose nodes share a view, a proposed block can be reported complete by every node, all of
      which have then left the view and follow the next leader. */
  lemma AllReport(c: Config, s: System, rules: Rules, collector: nat, v: nat, x: Block) returns (s': System)
    requires Full(c) && Reach(c, s, rules) && Lab(c, s, collector, v) && s.nodes[collector].view == v
    requires AllVotable(s, collector, PREPARE, v, x)
    requires Mailed(s, Broadcast(PrepareMsg(Prepare(v, x, JustifyOf(v, x), c.peers[collector]))))
    requires Unseen(s.nodes[collector], v, x)
    ensures Reach(c, s', rules) && |s'.nodes| == |c.peers|
    ensures forall i: nat | i < |c.peers| ::
      (i, x.cmd) in s'.done && s'.nodes[i].view == v + 1 && s'.nodes[i].primary == c.peers[(v + 1) % |c.peers|]
  {
    var s1 := DecideBlock(c, s, rules, collector, v, x);
    TellStart(c, s1, collector, v, x);
    s' := TellAll(c, s1, rules, collector, v, x, |c.peers|);
  }
}

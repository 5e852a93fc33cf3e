/**
 Agreement across views for basic HotStuff, under the three scheduler assumptions of
 `BasicSystem.Scheduled`: any two decided blocks lie on one parent chain.
 */
module BasicAgreement {
  import opened Common
  import opened BasicNode
  import opened BasicSystem

  // ----- the invariant of scheduled runs

  /** A pre-commit ballot of a view below `view` is matched by a certificate at least as recent. */
  ghost predicate AtLeast(qc: Option<QC>, b: Ballot, view: nat) {
    b.kind == PRE_COMMIT && b.view < view ==> qc.Some? && qc.value.view >= b.view
  }

  /** Every node of `quorum` has reached `view`, and `qc` is at least as recent as every pre-commit
      ballot that a node of `quorum` signed below it. */
  ghost predicate CoveredBy(s: System, fault: nat, view: nat, qc: Option<QC>, quorum: set<nat>) {
    && Below(quorum, |s.nodes|) && |quorum| >= 2 * fault + 1
    && (forall j | j in quorum :: s.nodes[j].view >= view)
    && forall x | x in s.signed && x.voter in quorum :: AtLeast(qc, x.ballot, view)
  }

  ghost predicate Covered(s: System, fault: nat, view: nat, qc: Option<QC>) {
    exists quorum :: CoveredBy(s, fault, view, qc, quorum)
  }

  /** A report of node j: j has left the reported view, and the reported certificate is no newer than
      that view and at least as recent as every pre-commit ballot j signed up to it. */
  ghost predicate ReportOk(s: System, j: nat, nv: NewView)
    requires j < |s.nodes|
  {
    && s.nodes[j].view > nv.view
    && UpTo(nv.justify, nv.view)
    && forall x | x in s.signed && x.voter == j :: AtLeast(nv.justify, x.ballot, nv.view + 1)
  }

  ghost predicate ReportsOk(c: Config, s: System) {
    && |s.nodes| == |c.peers|
    && (forall nv | NewViewMsg(nv) in s.net :: nv.from in c.peers)
    && (forall nv, j | NewViewMsg(nv) in s.net && 0 <= j < |c.peers| && c.peers[j] == nv.from :: ReportOk(s, j, nv))
    && forall nv, nv' | NewViewMsg(nv) in s.net && NewViewMsg(nv') in s.net && nv.from == nv'.from
        && nv.view == nv'.view ::
         nv == nv'
  }

  /** The reports a node has collected for a view: queued reports of that view, each once. */
  ghost predicate CollectedOk(s: System, i: nat, view: nat, nvs: seq<NewView>) {
    && (forall k | 0 <= k < |nvs| :: nvs[k].view == view && NewViewMsg(nvs[k]) in s.net && (i, nvs[k]) in s.got)
    && forall k, l | 0 <= k < l < |nvs| :: nvs[k] != nvs[l]
  }

  ghost predicate HighOk(c: Config, s: System, i: nat)
    requires i < |s.nodes| == |s.highFrom|
  {
    s.highFrom[i].Some? ==>
      var v := s.highFrom[i].value;
      && Covered(s, c.fault, v + 1, s.nodes[i].highQC)
      && UpTo(s.nodes[i].highQC, if v < s.nodes[i].view then s.nodes[i].view else v)
  }

  ghost predicate ProposalOk(c: Config, s: System, p: Prepare) {
    && Covered(s, c.fault, p.view, p.justify)
    && (p.justify.Some? ==> p.justify.value.view < p.view)
  }

  ghost predicate Sched(c: Config, s: System) {
    && |s.nodes| == |c.peers| == |s.highFrom|
    && ReportsOk(c, s)
    && (forall i, v | 0 <= i < |s.nodes| && v in s.nodes[i].newviews :: CollectedOk(s, i, v, s.nodes[i].newviews[v]))
    && (forall i | 0 <= i < |s.nodes| :: HighOk(c, s, i))
    && (forall p | PrepareMsg(p) in s.net :: ProposalOk(c, s, p))
    && forall p, q | PrepareMsg(p) in s.net && PrepareMsg(q) in s.net && p.view == q.view :: p == q
  }

  // ----- what one handler does to views, reports, proposals and pre-commit ballots

  ghost predicate Effect(s: Node, a: Action, r: Result) {
    r.Ok? ==>
      && r.node.id == s.id
      && r.node.view >= s.view
      && (forall m | m in Sends(r.out) && m.msg.NewViewMsg? ::
            m.msg.newview == NewView(s.view, s.prepareQC, s.id) && r.node.view == s.view + 1 && r.signed.None?)
      && (forall m | m in Sends(r.out) && m.msg.PrepareMsg? :: a.Request? && m.msg.prepare == Proposal(s, a.cmd))
      && (r.signed.Some? && r.signed.value.kind == PRE_COMMIT ==> r.signed.value.view == s.view)
      && ((a.Deliver? && a.m.NewViewMsg?) || (r.node.newviews == s.newviews && r.node.highQC == s.highQC))
  }

  lemma DecideEffect(s: Node, qc: QC, first: seq<Send>, a: Action)
    requires forall m | m in first :: m.msg.DecideMsg?
    requires !(a.Deliver? && a.m.NewViewMsg?)
    ensures Effect(s, a, Decide(s, qc, first))
  {
  }

  lemma NewViewEffect(s: Node, nv: NewView)
    ensures Effect(s, Deliver(NewViewMsg(nv)), HandleNewView(s, nv))
  {
  }

  lemma PrepareEffect(s: Node, p: Prepare)
    ensures Effect(s, Deliver(PrepareMsg(p)), HandlePrepare(s, p))
  {
  }

  lemma PreCommitEffect(s: Node, v: nat, j: Option<QC>)
    requires j.Some? && j.value.view == v
    ensures Effect(s, Deliver(PreCommitMsg(v, j)), HandlePreCommit(s, v, j))
  {
  }

  lemma CommitEffect(s: Node, v: nat, j: Option<QC>)
    ensures Effect(s, Deliver(CommitMsg(v, j)), HandleCommit(s, v, j))
  {
  }

  lemma DecideMsgEffect(s: Node, v: nat, j: Option<QC>)
    ensures Effect(s, Deliver(DecideMsg(v, j)), HandleDecide(s, j))
  {
    var x := CheckQC(s, COMMIT, j);
    if x.Accept? {
      DecideEffect(s, x.qc, [], Deliver(DecideMsg(v, j)));
    }
  }

  lemma ReactEffect(signed: set<Cast>, s: Node, a: Action)
    requires a.Deliver? ==> MessageOk(signed, s.fault, a.m)
    ensures Effect(s, a, React(s, a))
  {
    match a
    case Deliver(m) => {
      match m
      case NewViewMsg(nv) => NewViewEffect(s, nv);
      case PrepareMsg(p) => PrepareEffect(s, p);
      case PreCommitMsg(v, j) => PreCommitEffect(s, v, j);
      case CommitMsg(v, j) => CommitEffect(s, v, j);
      case DecideMsg(v, j) => DecideMsgEffect(s, v, j);
      case VoteMsg(kind, v) => VoteEffect(s, kind, v);
    }
    case Request(cmd) =>
    case Timeout =>
  }

  lemma VoteEffect(s: Node, kind: Phase, v: Vote)
    ensures Effect(s, Deliver(VoteMsg(kind, v)), HandleVote(s, kind, v))
  {
    var x := Collect(s, kind, v);
    if x.Quorum? && kind == COMMIT {
      DecideEffect(x.node, x.qc, [Broadcast(DecideMsg(v.view, Some(x.qc)))], Deliver(VoteMsg(kind, v)));
    }
  }

  // ----- coverage survives every step

  /** What a step may add: ballots of node i, the pre-commit ones at i's view before the step. */
  ghost predicate Progress(s: System, i: nat, s': System)
    requires i < |s.nodes|
  {
    && |s'.nodes| == |s.nodes| && s.signed <= s'.signed
    && (forall j | 0 <= j < |s.nodes| :: s'.nodes[j].view >= s.nodes[j].view)
    && forall x | x in s'.signed && x !in s.signed ::
         x.voter == i && (x.ballot.kind == PRE_COMMIT ==> x.ballot.view == s.nodes[i].view)
  }

  lemma CoveredKept(s: System, i: nat, s': System, fault: nat, view: nat, qc: Option<QC>)
    requires i < |s.nodes| && Progress(s, i, s') && Covered(s, fault, view, qc)
    ensures Covered(s', fault, view, qc)
  {
    var quorum :| CoveredBy(s, fault, view, qc, quorum);
    assert CoveredBy(s', fault, view, qc, quorum);
  }

  // ----- a quorum of reports covers the certificate computed from them

  ghost function Index(c: Config, p: PeerId): (j: nat)
    requires p in c.peers
    ensures j < |c.peers| && c.peers[j] == p
  {
    var j :| 0 <= j < |c.peers| && c.peers[j] == p;
    j
  }

  ghost function Senders(c: Config, nvs: seq<NewView>): set<nat>
    requires forall k | 0 <= k < |nvs| :: nvs[k].from in c.peers
  {
    set k | 0 <= k < |nvs| :: Index(c, nvs[k].from)
  }

  lemma {:induction false} SendersCount(c: Config, nvs: seq<NewView>)
    requires forall k | 0 <= k < |nvs| :: nvs[k].from in c.peers
    requires forall k, l | 0 <= k < l < |nvs| :: nvs[k].from != nvs[l].from
    ensures |Senders(c, nvs)| == |nvs|
  {
    if nvs != [] {
      var n := |nvs| - 1;
      var init := nvs[..n];
      SendersCount(c, init);
      assert nvs == init + [nvs[n]];
      var j := Index(c, nvs[n].from);
      assert j !in Senders(c, init);
      SendersStep(c, init, nvs[n]);
    }
  }

  lemma SendersStep(c: Config, init: seq<NewView>, last: NewView)
    requires last.from in c.peers && forall k | 0 <= k < |init| :: init[k].from in c.peers
    ensures forall k | 0 <= k <= |init| :: (init + [last])[k].from in c.peers
    ensures Senders(c, init + [last]) == Senders(c, init) + {Index(c, last.from)}
  {
    var nvs := init + [last];
    forall x | x in Senders(c, init) + {Index(c, last.from)} ensures x in Senders(c, nvs) {
      if x == Index(c, last.from) {
        assert nvs[|init|] == last;
      } else {
        var k :| 0 <= k < |init| && Index(c, init[k].from) == x;
        assert nvs[k] == init[k];
      }
    }
  }

  lemma {:induction false} HighQCBounds(nvs: seq<NewView>, init: Option<QC>, bound: nat)
    requires UpTo(init, bound)
    requires forall k | 0 <= k < |nvs| :: UpTo(nvs[k].justify, bound)
    ensures UpTo(HighQC(nvs, init), bound)
    ensures forall k | 0 <= k < |nvs| && nvs[k].justify.Some? ::
      HighQC(nvs, init).Some? && nvs[k].justify.value.view <= HighQC(nvs, init).value.view
  {
    if nvs != [] {
      var n := |nvs| - 1;
      HighQCBounds(nvs[..n], init, bound);
      forall k | 0 <= k < n && nvs[k].justify.Some?
        ensures HighQC(nvs, init).Some? && nvs[k].justify.value.view <= HighQC(nvs, init).value.view
      {
        assert nvs[..n][k] == nvs[k];
      }
    }
  }

  lemma {:induction false} CollectedCover(c: Config, s: System, i: nat, view: nat, nvs: seq<NewView>, init: Option<QC>)
    requires ValidConfig(c) && ReportsOk(c, s) && CollectedOk(s, i, view, nvs) && |nvs| == 2 * c.fault + 1
    ensures Covered(s, c.fault, view + 1, HighQC(nvs, init))
  {
    var high := HighQC(nvs, init);
    forall k, l | 0 <= k < l < |nvs| ensures nvs[k].from != nvs[l].from {
      assert NewViewMsg(nvs[k]) in s.net && NewViewMsg(nvs[l]) in s.net;
    }
    forall k | 0 <= k < |nvs| ensures nvs[k].from in c.peers {
      assert NewViewMsg(nvs[k]) in s.net;
    }
    var quorum := Senders(c, nvs);
    SendersCount(c, nvs);
    var bound := Bound(nvs, init);
    HighQCBounds(nvs, init, bound);
    forall j | j in quorum
      ensures s.nodes[j].view >= view + 1
      ensures forall x | x in s.signed && x.voter == j :: AtLeast(high, x.ballot, view + 1)
    {
      var k :| 0 <= k < |nvs| && Index(c, nvs[k].from) == j;
      assert NewViewMsg(nvs[k]) in s.net && ReportOk(s, j, nvs[k]);
    }
    assert CoveredBy(s, c.fault, view + 1, high, quorum);
  }

  lemma {:induction false} Bound(nvs: seq<NewView>, init: Option<QC>) returns (bound: nat)
    ensures UpTo(init, bound) && forall k | 0 <= k < |nvs| :: UpTo(nvs[k].justify, bound)
  {
    if nvs == [] {
      bound := if init.Some? then init.value.view else 0;
    } else {
      var n := |nvs| - 1;
      var b := Bound(nvs[..n], init);
      bound := if UpTo(nvs[n].justify, b) then b else nvs[n].justify.value.view;
      forall k | 0 <= k < |nvs| ensures UpTo(nvs[k].justify, bound) {
        assert k < n ==> nvs[..n][k] == nvs[k];
      }
    }
  }

  // ----- one step

  lemma StepProgress(c: Config, s: System, i: nat, a: Action, s': System, r: Result)
    requires Inv(c, s) && i < |s.nodes| && r.Ok? && Effect(s.nodes[i], a, r) && s' == Apply(s, i, a, r)
    ensures Progress(s, i, s')
  {
  }

  lemma StepReports(c: Config, s: System, i: nat, a: Action, s': System, r: Result)
    requires ValidConfig(c) && Inv(c, s) && ReportsOk(c, s) && i < |s.nodes|
    requires r.Ok? && Effect(s.nodes[i], a, r) && s' == Apply(s, i, a, r) && Progress(s, i, s')
    ensures ReportsOk(c, s')
  {
    var node := s.nodes[i];
    assert Wired(c, i, node) && NodeOk(s.signed, c.fault, node);
    forall nv | NewViewMsg(nv) in s'.net && NewViewMsg(nv) !in s.net
      ensures nv == NewView(node.view, node.prepareQC, c.peers[i]) && r.node.view == node.view + 1
          && s'.signed == s.signed
    {
      var m :| m in Sends(r.out) && m.msg == NewViewMsg(nv);
    }
    forall nv, j | NewViewMsg(nv) in s'.net && 0 <= j < |c.peers| && c.peers[j] == nv.from ensures ReportOk(s', j, nv) {
      if NewViewMsg(nv) in s.net {
        assert ReportOk(s, j, nv);
      } else {
        assert j == i;
        forall x | x in s.signed && x.voter == i ensures AtLeast(node.prepareQC, x.ballot, node.view + 1) {
          assert Holds(s.nodes[x.voter], x.ballot);
        }
      }
    }
    forall older | NewViewMsg(older) in s.net && older.from == c.peers[i] ensures older.view < node.view {
      assert ReportOk(s, i, older);
    }
  }

  lemma CollectedGrows(s: System, s': System, j: nat, v: nat, nvs: seq<NewView>)
    requires CollectedOk(s, j, v, nvs) && s.net <= s'.net && s.got <= s'.got
    ensures CollectedOk(s', j, v, nvs)
  {
  }

  /** A report delivered once is not yet among those collected. */
  lemma CollectedMore(s: System, s': System, i: nat, v: nat, nvs: seq<NewView>, nv: NewView)
    requires CollectedOk(s, i, v, nvs) && s.net <= s'.net && s.got <= s'.got
    requires nv.view == v && NewViewMsg(nv) in s.net && (i, nv) !in s.got && (i, nv) in s'.got
    ensures CollectedOk(s', i, v, nvs + [nv])
  {
    forall k | 0 <= k < |nvs| ensures nvs[k] != nv {
      assert (i, nvs[k]) in s.got;
    }
  }

  lemma StepCollected(c: Config, s: System, i: nat, a: Action, s': System, r: Result)
    requires Sched(c, s) && i < |s.nodes| && Scheduled(s, i, a, SCHEDULED) && (a.Deliver? ==> a.m in s.net)
    requires r.Ok? && r == React(s.nodes[i], a) && Effect(s.nodes[i], a, r) && s' == Apply(s, i, a, r)
    ensures forall j, v | 0 <= j < |s'.nodes| && v in s'.nodes[j].newviews ::
        CollectedOk(s', j, v, s'.nodes[j].newviews[v])
  {
    forall j, v | 0 <= j < |s'.nodes| && v in s'.nodes[j].newviews
      ensures CollectedOk(s', j, v, s'.nodes[j].newviews[v])
    {
      var before := Get(s.nodes[j].newviews, v);
      assert CollectedOk(s, j, v, before);
      if j == i && a.Deliver? && a.m.NewViewMsg? && v == a.m.newview.view {
        assert s'.nodes[j].newviews[v] == before + [a.m.newview];
        CollectedMore(s, s', i, v, before, a.m.newview);
      } else {
        assert s'.nodes[j].newviews[v] == before;
        CollectedGrows(s, s', j, v, before);
      }
    }
  }

  lemma StepHigh(c: Config, s: System, i: nat, a: Action, s': System, r: Result)
    requires ValidConfig(c) && Inv(c, s) && Sched(c, s) && i < |s.nodes| && Progress(s, i, s')
    requires r.Ok? && r == React(s.nodes[i], a) && Effect(s.nodes[i], a, r) && s' == Apply(s, i, a, r)
    requires ReportsOk(c, s')
    requires forall j, v | 0 <= j < |s'.nodes| && v in s'.nodes[j].newviews ::
        CollectedOk(s', j, v, s'.nodes[j].newviews[v])
    ensures forall j | 0 <= j < |s'.nodes| :: HighOk(c, s', j)
  {
    forall j | 0 <= j < |s'.nodes| ensures HighOk(c, s', j) {
      if j == i && a.Deliver? && a.m.NewViewMsg? && r.out.Over? {
        NewHigh(c, s, i, a.m.newview, s');
      } else {
        HighKept(c, s, i, s', j);
      }
    }
  }

  lemma HighKept(c: Config, s: System, i: nat, s': System, j: nat)
    requires i < |s.nodes| && Progress(s, i, s') && j < |s.nodes| == |s.highFrom| == |s'.highFrom| && HighOk(c, s, j)
    requires s'.highFrom[j] == s.highFrom[j] && s'.nodes[j].highQC == s.nodes[j].highQC
    ensures HighOk(c, s', j)
  {
    if s.highFrom[j].Some? {
      CoveredKept(s, i, s', c.fault, s.highFrom[j].value + 1, s.nodes[j].highQC);
    }
  }

  /** Every collected report carries a certificate of a view its sender had left. */
  lemma CollectedBounds(c: Config, s: System, i: nat, view: nat, nvs: seq<NewView>)
    requires ReportsOk(c, s) && CollectedOk(s, i, view, nvs)
    ensures forall k | 0 <= k < |nvs| :: UpTo(nvs[k].justify, view)
  {
    forall k | 0 <= k < |nvs| ensures UpTo(nvs[k].justify, view) {
      assert NewViewMsg(nvs[k]) in s.net;
      var j :| 0 <= j < |c.peers| && c.peers[j] == nvs[k].from;
      assert ReportOk(s, j, nvs[k]);
    }
  }

  lemma NewHigh(c: Config, s: System, i: nat, nv: NewView, s': System)
    requires ValidConfig(c) && Inv(c, s) && i < |s.nodes| && HandleNewView(s.nodes[i], nv).out.Over?
    requires s' == Apply(s, i, Deliver(NewViewMsg(nv)), HandleNewView(s.nodes[i], nv))
    requires ReportsOk(c, s')
    requires CollectedOk(s', i, nv.view, s'.nodes[i].newviews[nv.view])
    ensures HighOk(c, s', i)
  {
    assert Wired(c, i, s.nodes[i]) && NodeOk(s.signed, c.fault, s.nodes[i]);
    NewHighOf(c, s.nodes[i], nv, s', i);
  }

  lemma NewHighOf(c: Config, node: Node, nv: NewView, s': System, i: nat)
    requires ValidConfig(c) && ReportsOk(c, s') && i < |s'.nodes| == |s'.highFrom| && node.fault == c.fault
    requires HandleNewView(node, nv).out.Over? && UpTo(node.prepareQC, node.view)
    requires s'.nodes[i] == HandleNewView(node, nv).node && s'.highFrom[i] == Some(nv.view)
    requires CollectedOk(s', i, nv.view, s'.nodes[i].newviews[nv.view])
    ensures HighOk(c, s', i)
  {
    var nvs := s'.nodes[i].newviews[nv.view];
    assert s'.nodes[i].highQC == HighQC(nvs, node.prepareQC) && s'.nodes[i].view == node.view;
    CollectedCover(c, s', i, nv.view, nvs, node.prepareQC);
    CollectedBounds(c, s', i, nv.view, nvs);
    HighQCBounds(nvs, node.prepareQC, if nv.view < node.view then node.view else nv.view);
  }

  lemma StepProposals(c: Config, s: System, i: nat, a: Action, s': System, r: Result)
    requires Inv(c, s) && Sched(c, s) && i < |s.nodes| && Scheduled(s, i, a, SCHEDULED) && Progress(s, i, s')
    requires r.Ok? && Effect(s.nodes[i], a, r) && s' == Apply(s, i, a, r)
    ensures forall p | PrepareMsg(p) in s'.net :: ProposalOk(c, s', p)
    ensures forall p, q | PrepareMsg(p) in s'.net && PrepareMsg(q) in s'.net && p.view == q.view :: p == q
  {
    var node := s.nodes[i];
    forall p | PrepareMsg(p) in s'.net && PrepareMsg(p) !in s.net ensures a.Request? && p == Proposal(node, a.cmd) {
      var m :| m in Sends(r.out) && m.msg == PrepareMsg(p);
    }
    forall p | PrepareMsg(p) in s'.net ensures ProposalOk(c, s', p) {
      if PrepareMsg(p) in s.net {
        assert ProposalOk(c, s, p);
      } else {
        NewProposal(c, s, i, a.cmd);
      }
      CoveredKept(s, i, s', c.fault, p.view, p.justify);
    }
  }

  /** The proposal of a scheduled request is covered, and its justify is older than its view. */
  lemma NewProposal(c: Config, s: System, i: nat, cmd: string)
    requires Inv(c, s) && Sched(c, s) && i < |s.nodes| && Scheduled(s, i, Request(cmd), SCHEDULED)
    ensures ProposalOk(c, s, Proposal(s.nodes[i], cmd))
  {
    var node := s.nodes[i];
    assert HighOk(c, s, i) && NodeOk(s.signed, c.fault, node);
    if node.highQC.Some? {
      Ladder(c, s, node.highQC.value.view, node.highQC.value.block, PREPARE);
      var p :| PrepareMsg(p) in s.net && p.view == node.highQC.value.view;
      assert p.view != node.view;
    }
  }

  lemma {:induction false} StepSched(c: Config, s: System, i: nat, a: Action, s': System)
    requires ValidConfig(c) && Inv(c, s) && Sched(c, s) && Step(c, s, i, a, s', SCHEDULED)
    ensures Sched(c, s')
  {
    var r := React(s.nodes[i], a);
    assert Wired(c, i, s.nodes[i]);
    ReactEffect(s.signed, s.nodes[i], a);
    if r.Ok? {
      StepProgress(c, s, i, a, s', r);
      StepReports(c, s, i, a, s', r);
      StepCollected(c, s, i, a, s', r);
      StepHigh(c, s, i, a, s', r);
      StepProposals(c, s, i, a, s', r);
    }
  }

  lemma InitSched(c: Config, s: System)
    requires Init(c, s)
    ensures Sched(c, s)
  {
  }

  lemma {:induction false} NextSched(c: Config, s: System, s': System)
    requires ValidConfig(c) && Inv(c, s) && Sched(c, s) && Next(c, s, s', SCHEDULED)
    ensures Sched(c, s')
  {
    var i, a :| Step(c, s, i, a, s', SCHEDULED);
    StepSched(c, s, i, a, s');
  }

  lemma {:induction false} RunSched(c: Config, tr: seq<System>)
    requires ValidConfig(c) && Run(c, tr, SCHEDULED)
    ensures Inv(c, Last(tr)) && Sched(c, Last(tr))
  {
    RunInv(c, tr, SCHEDULED);
    if |tr| == 1 {
      InitSched(c, tr[0]);
    } else {
      assert Extended(c, tr, SCHEDULED);
      var front := tr[..|tr| - 1];
      var s := Last(front);
      assert s == tr[|tr| - 2];
      RunSched(c, front);
      NextSched(c, s, tr[|tr| - 1]);
    }
  }

  // ----- agreement

  /** `b` is `d` or one of the blocks that `d` extends. */
  predicate Ancestor(b: Block, d: Block) {
    b == d || (d.parentHash.Digest? && Ancestor(b, d.parentHash.block))
  }

  /** The justify of a proposal later than a pre-commit quorum for (v, b) is of view v or later. */
  lemma LaterJustify(c: Config, s: System, view: nat, b: Block, p: Prepare)
    requires ValidConfig(c) && Inv(c, s) && Sched(c, s)
    requires Certified(s.signed, c.fault, Ballot(PRE_COMMIT, view, b))
    requires PrepareMsg(p) in s.net && view < p.view
    ensures p.justify.Some? && view <= p.justify.value.view < p.view
  {
    var voters := Signers(s.signed, Ballot(PRE_COMMIT, view, b));
    assert ProposalOk(c, s, p);
    var quorum :| CoveredBy(s, c.fault, p.view, p.justify, quorum);
    Overlap(voters, quorum, |c.peers|);
    var j :| j in voters * quorum;
    var x :| x in s.signed && x.voter == j && x.ballot == Ballot(PRE_COMMIT, view, b);
    assert AtLeast(p.justify, x.ballot, p.view);
  }

  /** Every proposal of a view later than a pre-commit quorum for (v, b) extends b. */
  lemma {:induction false} LaterExtends(c: Config, s: System, view: nat, b: Block, p: Prepare)
    requires ValidConfig(c) && Inv(c, s) && Sched(c, s)
    requires Certified(s.signed, c.fault, Ballot(PRE_COMMIT, view, b))
    requires PrepareMsg(p) in s.net && view < p.view
    ensures Ancestor(b, p.block)
    decreases p.view
  {
    LaterJustify(c, s, view, b, p);
    var qc := p.justify.value;
    assert MessageOk(s.signed, c.fault, PrepareMsg(p));
    Ladder(c, s, qc.view, qc.block, PREPARE);
    var q :| PrepareMsg(q) in s.net && q.view == qc.view && q.block == qc.block;
    if qc.view == view {
      Ladder(c, s, view, b, PRE_COMMIT);
    } else {
      LaterExtends(c, s, view, b, q);
    }
    assert p.block.parentHash == Digest(qc.block);
  }

  lemma {:induction false} DecidedBelow(c: Config, s: System, q: QC, q': QC)
    requires ValidConfig(c) && Inv(c, s) && Sched(c, s)
    requires q in s.decided && q' in s.decided && q.view <= q'.view
    ensures Ancestor(q.block, q'.block)
  {
    assert Good(s.signed, c.fault, COMMIT, Some(q)) && Good(s.signed, c.fault, COMMIT, Some(q'));
    Ladder(c, s, q.view, q.block, COMMIT);
    Ladder(c, s, q'.view, q'.block, COMMIT);
    var p :| PrepareMsg(p) in s.net && p.view == q.view && p.block == q.block;
    var p' :| PrepareMsg(p') in s.net && p'.view == q'.view && p'.block == q'.block;
    if q.view < q'.view {
      assert Certified(s.signed, c.fault, Ballot(PRE_COMMIT, q.view, q.block));
      LaterExtends(c, s, q.view, q.block, p');
    }
  }

  /** In every scheduled run, any two decided blocks lie on one parent chain. */
  lemma {:induction false} Agreement(c: Config, tr: seq<System>, q: QC, q': QC)
    requires ValidConfig(c) && Run(c, tr, SCHEDULED)
    requires q in Last(tr).decided && q' in Last(tr).decided
    ensures Ancestor(q.block, q'.block) || Ancestor(q'.block, q.block)
  {
    RunSched(c, tr);
    if q.view <= q'.view {
      DecidedBelow(c, Last(tr), q, q');
    } else {
      DecidedBelow(c, Last(tr), q', q);
    }
  }
}

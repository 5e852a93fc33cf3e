/**
 Chained HotStuff completes conflicting blocks when proposers skip a view: for every f >= 1 there is a
 closed run of 3f+1 nodes, all running this code, in which two branches take turns. The leader of each view
 collects the reports of the view before ahead of its votes, so that it proposes on the certificate of two
 views before; every node votes for both branches, and each branch completes its blocks.
 */
module ChainConflict {
  import opened Common
  import opened ChainNode
  import opened ChainSystem
  import opened ChainAgreement

  ghost predicate Full(c: Config) {
    ValidConfig(c) && |c.peers| == 3 * c.fault + 1
  }

  ghost predicate Reach(c: Config, s: System)
    requires ValidConfig(c)
  {
    exists tr: seq<System> :: |tr| > 0 && Run(c, tr, false) && Last(tr) == s
  }

  lemma {:induction false} RunLonger(c: Config, tr: seq<System>)
    requires ValidConfig(c) && |tr| > 1 && Run(c, tr[..|tr| - 1], false) && Next(c, tr[|tr| - 2], tr[|tr| - 1], false)
    ensures Run(c, tr, false)
  {
    assert Extended(c, tr, false);
  }

  lemma Extend(c: Config, s: System, i: nat, a: Action) returns (s': System)
    requires ValidConfig(c) && Reach(c, s) && i < |s.nodes| == |c.peers| && Enabled(c, s, i, a, false)
    ensures s' == Apply(s, i, React(s.nodes[i], a)) && Reach(c, s')
  {
    s' := Apply(s, i, React(s.nodes[i], a));
    assert Step(c, s, i, a, s', false);
    var tr: seq<System> :| |tr| > 0 && Run(c, tr, false) && Last(tr) == s;
    var tr' := tr + [s'];
    assert tr'[..|tr'| - 1] == tr && tr'[|tr'| - 2] == s && Last(tr') == s';
    RunLonger(c, tr');
  }

  // ----- one view

  function Leader(c: Config, view: nat): nat
    requires |c.peers| > 0
  {
    view % |c.peers|
  }

  function Certificate(v: nat, x: Block): QC {
    QC(v, x, Some(Combined(Ballot(v, x))))
  }

  function ProposalOf(c: Config, v: nat, x: Block): Generic
    requires |c.peers| > 0
  {
    Generic(v, Some(x), None, c.peers[Leader(c, v)])
  }

  function VoteOf(c: Config, v: nat, x: Block, j: nat): Send
    requires j < |c.peers|
  {
    Unicast(c.peers[NextLeader(c, v)], VoteMsg(Vote(v, x, Share(j, Ballot(v, x)), c.peers[j])))
  }

  function ReportOf(c: Config, v: nat, justify: Option<QC>, j: nat): Send
    requires j < |c.peers|
  {
    Unicast(c.peers[NextLeader(c, v)], GenericMsg(Generic(v, None, justify, c.peers[j])))
  }

  /** A block for view v: on nothing, or on a certificate of two views before. */
  ghost predicate Fits(x: Block, v: nat) {
    && ParentIsJustify(x)
    && match x.justify
       case None => 0 < v <= 2
       case Some(q) => q.view > 0 && q.view + 2 == v && (q.block.justify.Some? ==> q.block.justify.value.view + 2 < v)
  }

  /** Nothing of view v or later has reached the node; its lock is older still. */
  ghost predicate Before(s: Node, v: nat) {
    && Older(s.genericQC, v)
    && (s.lockedQC.Some? ==> s.lockedQC.value.view + 2 < v)
    && (forall b | b in s.signatures :: b.view < v)
    && (forall u | u in s.generics :: u < v)
  }

  ghost predicate Older(justify: Option<QC>, v: nat) {
    justify.Some? ==> justify.value.view < v
  }

  ghost predicate Lagging(justify: Option<QC>, v: nat) {
    justify.Some? ==> justify.value.view + 1 < v
  }

  /** All nodes have just entered view v; only its leader can hold the certificate of the view before. */
  ghost predicate Calm(c: Config, s: System, v: nat) {
    && |s.nodes| == |c.peers|
    && (forall i | 0 <= i < |s.nodes| :: Wired(c, i, s.nodes[i]) && s.nodes[i].view == v && Before(s.nodes[i], v))
    && forall i | 0 <= i < |s.nodes| && i != Leader(c, v) :: Lagging(s.nodes[i].genericQC, v)
  }

  /** The block three links above, if there is one. */
  function Above(x: Block): Option<Block> {
    if Linked(x).None? then None
    else if Linked(Linked(x).value).None? then None
    else Linked(Linked(Linked(x).value).value)
  }

  // ----- one node handles the proposal of the view

  /** What the handling leaves alone and how far it moves the certificates. */
  ghost predicate Moderate(s: Node, s': Node, x: Block) {
    && s'.highQC == s.highQC && s'.generics == s.generics
    && (s'.genericQC == s.genericQC || s'.genericQC == x.justify)
    && (s'.lockedQC == s.lockedQC || (x.justify.Some? && s'.lockedQC == x.justify.value.block.justify))
  }

  /** A node that does not collect the votes of view v has voted and left. */
  ghost predicate Gone(c: Config, j: nat, s: Node, s': Node, v: nat, x: Block)
    requires j < |c.peers|
  {
    Wired(c, j, s') && s'.view == v + 1 && s'.signatures == s.signatures && Moderate(s, s', x)
  }

  /** The collector has filed its own vote and stays. */
  ghost predicate Waits(c: Config, j: nat, s: Node, s': Node, v: nat, x: Block)
    requires j < |c.peers|
  {
    var own := map[j := Share(j, Ballot(v, x))];
    Wired(c, j, s') && s'.view == v && s'.signatures == s.signatures[Ballot(v, x) := own] && Moderate(s, s', x)
  }

  ghost predicate Handled(c: Config, j: nat, s: Node, s': Node, v: nat, x: Block)
    requires j < |c.peers|
  {
    if j == NextLeader(c, v) then Waits(c, j, s, s', v, x) else Gone(c, j, s, s', v, x)
  }

  /** A node's vote and report of view v. */
  function Posts(c: Config, j: nat, s: Node, v: nat, x: Block): seq<Send>
    requires j < |c.peers|
  {
    if j == NextLeader(c, v) then [] else [VoteOf(c, v, x, j), ReportOf(c, v, s.genericQC, j)]
  }

  lemma Safe(s: Node, v: nat, x: Block)
    requires Before(s, v) && Fits(x, v)
    ensures SafeNode(s.lockedQC, x)
  {
  }

  lemma AdvanceModerate(s: Node, x: Block)
    ensures Moderate(s, Advance(s, x).0, x)
    ensures var s' := Advance(s, x).0; s' == s.(genericQC := s'.genericQC, lockedQC := s'.lockedQC)
    ensures Advance(s, x).1 == Above(x)
  {
  }

  lemma VoteEffect(c: Config, j: nat, s: Node, v: nat, x: Block)
    requires Full(c) && j < |c.peers| && Wired(c, j, s) && s.view == v && Before(s, v)
    ensures var r := CastVote(s, x);
      && r.Ok? && Handled(c, j, s, r.node, v, x) && Sends(r.out) == Posts(c, j, s, v, x) && !r.out.Over?
      && r.node.genericQC == s.genericQC && r.node.lockedQC == s.lockedQC
  {
    WiredLookup(c, j, s, v);
    var b := Ballot(v, x);
    var share := Share(j, b);
    assert b !in s.signatures;
    if j == NextLeader(c, v) {
      assert Shares(s.signatures, b) == map[];
      assert CastVote(s, x) == Ok(RecordShare(s, b, j, share), Continue([]), [b]);
    } else {
      TimeOutEffect(c, j, s);
      var n := NextView(s);
      assert Sends(n.out) == [ReportOf(c, v, s.genericQC, j)];
      assert CastVote(s, x) == Ok(n.node, Continue([VoteOf(c, v, x, j)] + Sends(n.out)), [b]);
    }
  }

  lemma HandleEffect(c: Config, j: nat, s: Node, v: nat, x: Block)
    requires Full(c) && j < |c.peers| && Wired(c, j, s) && s.view == v && Before(s, v) && Fits(x, v)
    ensures var r := HandleGeneric(s, ProposalOf(c, v, x));
      && r.Ok? && Handled(c, j, s, r.node, v, x) && Sends(r.out) == Posts(c, j, s, v, x)
      && Executes(r.out, x)
  {
    var s1 := s.(taken := s.taken + {x.cmd});
    Safe(s1, v, x);
    VoteEffect(c, j, s1, v, x);
    var r := CastVote(s1, x);
    AdvanceModerate(r.node, x);
    var r' := HandleGeneric(s, ProposalOf(c, v, x));
    assert r' == ReplicaHandleGeneric(s1, x);
    assert r'.node == Advance(r.node, x).0;
  }

  /** The command of the block three links above is executed. */
  predicate Executes(out: PhaseState, x: Block) {
    !out.Over? && if Above(x).Some? then out.Complete? && out.executed == Above(x).value else out.Continue?
  }

  lemma ProposeEffect(c: Config, j: nat, s: Node, v: nat, x: Block)
    requires Full(c) && j == Leader(c, v) && Wired(c, j, s) && s.view == v && Before(s, v) && Fits(x, v)
    requires x.justify == s.highQC
    ensures var r := HandleRequest(s, x.cmd);
      && r.Ok? && Handled(c, j, s, r.node, v, x) && Executes(r.out, x)
      && Sends(r.out) == [Broadcast(GenericMsg(ProposalOf(c, v, x)))] + Posts(c, j, s, v, x)
  {
    var s1 := s.(taken := s.taken + {x.cmd});
    assert Proposal(s, x.cmd) == ProposalOf(c, v, x);
    HandleEffect(c, j, s1, v, x);
  }

  // ----- all nodes handle it

  ghost predicate Heard(c: Config, i: nat, v: nat, m: nat)
    requires |c.peers| > 0
  {
    i == Leader(c, v) || i < m
  }

  /** The only proposal sent is that of view v. */
  ghost predicate OneProposal(c: Config, net: set<Send>, net': set<Send>, v: nat, x: Block)
    requires |c.peers| > 0
  {
    forall p | p in net' && p.msg.GenericMsg? && p.msg.generic.block.Some? ::
      p in net || p.msg.generic == ProposalOf(c, v, x)
  }

  /** The leader and the nodes below m have handled the proposal. */
  ghost predicate Spreading(c: Config, s0: System, s: System, v: nat, x: Block, m: nat)
    requires |c.peers| > 0
  {
    && |s0.nodes| == |s.nodes| == |c.peers| && s0.done <= s.done
    && Broadcast(GenericMsg(ProposalOf(c, v, x))) in s.net && OneProposal(c, s0.net, s.net, v, x)
    && (Above(x).Some? ==> Above(x).value in s.done)
    && (forall i | 0 <= i < |s.nodes| ::
          if Heard(c, i, v, m) then Handled(c, i, s0.nodes[i], s.nodes[i], v, x) else s.nodes[i] == s0.nodes[i])
    && forall i, p | 0 <= i < |s.nodes| && Heard(c, i, v, m) && p in Posts(c, i, s0.nodes[i], v, x) :: p in s.net
  }

  lemma Proposed(c: Config, s0: System, v: nat, x: Block) returns (s: System)
    requires Full(c) && Reach(c, s0) && Calm(c, s0, v) && Fits(x, v)
    requires x.justify == s0.nodes[Leader(c, v)].highQC
    ensures Reach(c, s) && Spreading(c, s0, s, v, x, 0)
  {
    var i := Leader(c, v);
    s := Extend(c, s0, i, Propose(x.cmd));
    ProposeEffect(c, i, s0.nodes[i], v, x);
    AfterProposal(c, s0, s, v, x, React(s0.nodes[i], Propose(x.cmd)));
  }

  lemma AfterProposal(c: Config, s0: System, s: System, v: nat, x: Block, r: Result)
    requires Full(c) && |s0.nodes| == |c.peers| && s == Apply(s0, Leader(c, v), r)
    requires var i := Leader(c, v);
      && r.Ok? && Handled(c, i, s0.nodes[i], r.node, v, x) && Executes(r.out, x)
      && Sends(r.out) == [Broadcast(GenericMsg(ProposalOf(c, v, x)))] + Posts(c, i, s0.nodes[i], v, x)
    ensures Spreading(c, s0, s, v, x, 0)
  {
    var i := Leader(c, v);
    assert Sends(r.out)[0] == Broadcast(GenericMsg(ProposalOf(c, v, x)));
    assert forall p | p in Posts(c, i, s0.nodes[i], v, x) :: p in Sends(r.out);
  }

  lemma SpreadOne(c: Config, s0: System, s: System, v: nat, x: Block, m: nat) returns (s': System)
    requires Full(c) && Calm(c, s0, v) && Fits(x, v) && m < |c.peers|
    requires Reach(c, s) && Spreading(c, s0, s, v, x, m)
    ensures Reach(c, s') && Spreading(c, s0, s', v, x, m + 1)
  {
    if m == Leader(c, v) {
      s' := s;
    } else {
      var a := Deliver(GenericMsg(ProposalOf(c, v, x)));
      s' := Extend(c, s, m, a);
      HandleEffect(c, m, s.nodes[m], v, x);
      AfterHandling(c, s0, s, s', v, x, m, React(s.nodes[m], a));
    }
  }

  lemma AfterHandling(c: Config, s0: System, s: System, s': System, v: nat, x: Block, m: nat, r: Result)
    requires Full(c) && m < |c.peers| && m != Leader(c, v) && Spreading(c, s0, s, v, x, m) && s' == Apply(s, m, r)
    requires r.Ok? && Handled(c, m, s0.nodes[m], r.node, v, x) && Sends(r.out) == Posts(c, m, s0.nodes[m], v, x)
    requires Executes(r.out, x)
    ensures Spreading(c, s0, s', v, x, m + 1)
  {
    forall i, p | 0 <= i < |s.nodes| && Heard(c, i, v, m + 1) && p in Posts(c, i, s0.nodes[i], v, x)
      ensures p in s'.net
    {
      assert i != m ==> Heard(c, i, v, m);
    }
  }

  lemma {:induction false} Spread(c: Config, s0: System, v: nat, x: Block, m: nat) returns (s: System)
    requires Full(c) && Reach(c, s0) && Calm(c, s0, v) && Fits(x, v) && m <= |c.peers|
    requires x.justify == s0.nodes[Leader(c, v)].highQC
    ensures Reach(c, s) && Spreading(c, s0, s, v, x, m)
    decreases m
  {
    if m == 0 {
      s := Proposed(c, s0, v, x);
    } else {
      var s1 := Spread(c, s0, v, x, m - 1);
      s := SpreadOne(c, s0, s1, v, x, m - 1);
    }
  }

  // ----- the collector counts the reports

  /** Only the collector changes, and it sends nothing. */
  ghost predicate OnlyCollector(c: Config, s: System, s': System, k: nat) {
    && |s'.nodes| == |s.nodes| == |c.peers| && s'.net == s.net && s.done <= s'.done
    && forall i | 0 <= i < |s.nodes| && i != k :: s'.nodes[i] == s.nodes[i]
  }

  lemma OnlyChain(c: Config, s: System, s1: System, s2: System, k: nat)
    requires OnlyCollector(c, s, s1, k) && OnlyCollector(c, s1, s2, k)
    ensures OnlyCollector(c, s, s2, k)
  {
  }

  /** The i-th node before k, around the ring. */
  function Reporter(c: Config, k: nat, i: nat): nat
    requires k < |c.peers| && i + 1 < |c.peers|
  {
    if i < k then k - 1 - i else k + |c.peers| - 1 - i
  }

  lemma LeaderReports(c: Config, v: nat)
    requires |c.peers| > 1
    ensures Reporter(c, NextLeader(c, v), 0) == Leader(c, v) != NextLeader(c, v)
  {
    NextMod(v, |c.peers|);
  }

  predicate Below(q: Option<QC>, top: Option<QC>) {
    q.None? || (top.Some? && q.value.view < top.value.view)
  }

  /** The first report of a list carries `lead`, the others something older or nothing. */
  ghost predicate Leading(gs: seq<Generic>, lead: Option<QC>) {
    forall i | 0 <= i < |gs| :: if i == 0 then gs[i].justify == lead else Below(gs[i].justify, lead)
  }

  lemma {:induction false} LeadIsHigh(gs: seq<Generic>, lead: Option<QC>, own: Option<QC>)
    requires gs != [] && Leading(gs, lead) && Below(own, lead)
    ensures HighQC(gs, own) == lead
  {
    var front := gs[..|gs| - 1];
    if front != [] {
      LeadIsHigh(front, lead, own);
    } else {
      assert HighQC(front, own) == own;
    }
  }

  /** The collector has m reports of view v, that of the leader first. */
  ghost predicate Collecting(c: Config, k: nat, s: Node, s': Node, v: nat, lead: Option<QC>, m: nat)
    requires k < |c.peers|
  {
    && s'.signatures == s.signatures && s'.lockedQC == s.lockedQC && Below(s.genericQC, lead)
    && (forall u | u in s'.generics :: u == v || u in s.generics)
    && Wired(c, k, s') && s'.view == (if m == 2 * c.fault + 1 then v + 1 else v)
    && (if m == 2 * c.fault + 1 then s'.highQC == s'.genericQC == lead else s'.genericQC == s.genericQC)
    && |Get(s'.generics, v)| == m && Leading(Get(s'.generics, v), lead)
  }

  /** A report is only recorded. */
  predicate OnlyRecorded(s: Node, g: Generic, s': Node) {
    && s'.generics == s.generics[g.view := Get(s.generics, g.view) + [g]]
    && s'.signatures == s.signatures && s'.lockedQC == s.lockedQC
  }

  lemma {:induction false} CollectMore(c: Config, k: nat, s: Node, g: Generic)
    requires k < |c.peers| && Wired(c, k, s) && g.block.None? && |Get(s.generics, g.view)| < 2 * c.fault
    ensures var r := HandleGeneric(s, g);
      && r.Ok? && Wired(c, k, r.node) && !r.out.Complete? && Sends(r.out) == []
      && OnlyRecorded(s, g, r.node) && r.node.view == s.view && r.node.genericQC == s.genericQC
  {
    assert HandleGeneric(s, g) == HandleNewView(s, g);
  }

  lemma {:induction false} CollectLast(c: Config, k: nat, s: Node, g: Generic, lead: Option<QC>)
    requires Full(c) && k < |c.peers| && Wired(c, k, s)
    requires g.block.None? && s.view == g.view && |Get(s.generics, g.view)| == 2 * c.fault
    requires HighQC(Get(s.generics, g.view) + [g], s.genericQC) == lead
    ensures var r := HandleGeneric(s, g);
      && r.Ok? && Wired(c, k, r.node) && !r.out.Complete? && Sends(r.out) == []
      && OnlyRecorded(s, g, r.node) && r.node.view == s.view + 1 && r.node.highQC == r.node.genericQC == lead
  {
    assert HandleGeneric(s, g) == HandleNewView(s, g);
    WiredLookup(c, k, s, s.view + 1);
  }

  lemma {:induction false} CollectEffect(c: Config, k: nat, s0: Node, s: Node, g: Generic, v: nat, lead: Option<QC>,
                                         m: nat)
    requires Full(c) && k < |c.peers| && m < 2 * c.fault + 1 && Collecting(c, k, s0, s, v, lead, m)
    requires g.view == v && g.block.None? && if m == 0 then g.justify == lead else Below(g.justify, lead)
    ensures var r := HandleGeneric(s, g);
      && r.Ok? && !r.out.Complete? && Sends(r.out) == [] && Collecting(c, k, s0, r.node, v, lead, m + 1)
  {
    var gs := Get(s.generics, v) + [g];
    assert Leading(gs, lead);
    if m == 2 * c.fault {
      LeadIsHigh(gs, lead, s.genericQC);
      CollectLast(c, k, s, g, lead);
    } else {
      CollectMore(c, k, s, g);
    }
  }

  lemma CollectOne(c: Config, s0: System, s: System, v: nat, lead: Option<QC>, justify: Option<QC>, m: nat)
    returns (s': System)
    requires Full(c) && Reach(c, s) && |s0.nodes| == |s.nodes| == |c.peers| && m < 2 * c.fault + 1
    requires var k := NextLeader(c, v); Collecting(c, k, s0.nodes[k], s.nodes[k], v, lead, m)
    requires if m == 0 then justify == lead else Below(justify, lead)
    requires ReportOf(c, v, justify, Reporter(c, NextLeader(c, v), m)) in s.net
    ensures Reach(c, s') && OnlyCollector(c, s, s', NextLeader(c, v))
    ensures var k := NextLeader(c, v); Collecting(c, k, s0.nodes[k], s'.nodes[k], v, lead, m + 1)
  {
    var k := NextLeader(c, v);
    var g := ReportOf(c, v, justify, Reporter(c, k, m)).msg.generic;
    s' := Extend(c, s, k, Deliver(GenericMsg(g)));
    CollectEffect(c, k, s0.nodes[k], s.nodes[k], g, v, lead, m);
  }

  /** The reports of view v that are queued for its collector. */
  ghost predicate Queueing(c: Config, net: set<Send>, v: nat, lead: Option<QC>, justifies: seq<Option<QC>>)
    requires |c.peers| > 0
  {
    && |justifies| == |c.peers| && justifies[Leader(c, v)] == lead
    && forall i: nat | i < |c.peers| && i != NextLeader(c, v) ::
         ReportOf(c, v, justifies[i], i) in net && (i != Leader(c, v) ==> Below(justifies[i], lead))
  }

  lemma {:induction false} Collect(c: Config, s0: System, v: nat, lead: Option<QC>, justifies: seq<Option<QC>>,
                                   m: nat) returns (s: System)
    requires Full(c) && Reach(c, s0) && |s0.nodes| == |c.peers| && m <= 2 * c.fault + 1
    requires var k := NextLeader(c, v); Collecting(c, k, s0.nodes[k], s0.nodes[k], v, lead, 0)
    requires Queueing(c, s0.net, v, lead, justifies)
    ensures Reach(c, s) && OnlyCollector(c, s0, s, NextLeader(c, v))
    ensures var k := NextLeader(c, v); Collecting(c, k, s0.nodes[k], s.nodes[k], v, lead, m)
    decreases m
  {
    if m == 0 {
      s := s0;
    } else {
      var s1 := Collect(c, s0, v, lead, justifies, m - 1);
      var j := Reporter(c, NextLeader(c, v), m - 1);
      LeaderReports(c, v);
      s := CollectOne(c, s0, s1, v, lead, justifies[j], m - 1);
      OnlyChain(c, s0, s1, s, NextLeader(c, v));
    }
  }

  // ----- the collector counts the votes

  /** The collector's shares of the view's ballot: its own and those of the first m voters. */
  ghost predicate Counting(c: Config, k: nat, s: Node, s': Node, v: nat, x: Block, m: nat)
    requires k < |c.peers|
  {
    var b := Ballot(v, x);
    && Wired(c, k, s') && s' == s.(signatures := s'.signatures, genericQC := s'.genericQC)
    && (forall d | d in s'.signatures :: d == b || d in s.signatures)
    && |Shares(s'.signatures, b)| == m + 1
    && (forall j | j in Shares(s'.signatures, b) :: j == k || exists i: nat :: i < m && j == Voter(k, i))
    && (if m == 2 * c.fault then s'.genericQC == Some(Certificate(v, x)) else s'.genericQC == s.genericQC)
  }

  lemma CountOne(c: Config, s0: System, s: System, v: nat, x: Block, m: nat) returns (s': System)
    requires Full(c) && Reach(c, s) && |s0.nodes| == |s.nodes| == |c.peers| && m < 2 * c.fault
    requires var k := NextLeader(c, v); Counting(c, k, s0.nodes[k], s.nodes[k], v, x, m)
    requires VoteOf(c, v, x, Voter(NextLeader(c, v), m)) in s.net
    ensures Reach(c, s') && OnlyCollector(c, s, s', NextLeader(c, v))
    ensures var k := NextLeader(c, v); Counting(c, k, s0.nodes[k], s'.nodes[k], v, x, m + 1)
  {
    var k := NextLeader(c, v);
    var j := Voter(k, m);
    var vote := VoteOf(c, v, x, j).msg.vote;
    s' := Extend(c, s, k, Deliver(VoteMsg(vote)));
    KeyTableDense(c.peers);
    CountEffect(c, k, s.nodes[k], vote, j);
    var b := Ballot(v, x);
    var known := Shares(s.nodes[k].signatures, b);
    assert j !in known;
    forall i | i in Shares(s'.nodes[k].signatures, b) ensures i == k || exists l: nat :: l < m + 1 && i == Voter(k, l) {
      if i == j {
        assert m < m + 1 && i == Voter(k, m);
      } else if i != k {
        var l: nat :| l < m && i == Voter(k, l);
        assert l < m + 1;
      }
    }
  }

  lemma CountEffect(c: Config, k: nat, s: Node, vote: Vote, j: nat)
    requires Full(c) && k < |c.peers| && j < |c.peers| && Wired(c, k, s)
    requires c.peers[j] in s.pks && s.pks[c.peers[j]] == j && vote.from == c.peers[j]
    requires var b := Ballot(vote.view, vote.block); vote.share == Share(j, b) && j !in Shares(s.signatures, b)
    ensures var r := HandleVote(s, vote);
      var b := Ballot(vote.view, vote.block);
      var known := Shares(s.signatures, b);
      && r == Ok(s.(signatures := s.signatures[b := known[j := Share(j, b)]], genericQC := r.node.genericQC),
          Continue([]), [])
      && |known[j := Share(j, b)]| == |known| + 1
      && r.node.genericQC == if |known| == 2 * c.fault then Some(Certificate(vote.view, vote.block)) else s.genericQC
  {
    var b := Ballot(vote.view, vote.block);
    var known := Shares(s.signatures, b);
    assert |known[j := Share(j, b)]| == |known| + 1;
  }

  lemma {:induction false} Count(c: Config, s0: System, v: nat, x: Block, m: nat) returns (s: System)
    requires Full(c) && Reach(c, s0) && |s0.nodes| == |c.peers| && m <= 2 * c.fault
    requires var k := NextLeader(c, v); Counting(c, k, s0.nodes[k], s0.nodes[k], v, x, 0)
    requires forall i: nat | i < 2 * c.fault :: VoteOf(c, v, x, Voter(NextLeader(c, v), i)) in s0.net
    ensures Reach(c, s) && OnlyCollector(c, s0, s, NextLeader(c, v))
    ensures var k := NextLeader(c, v); Counting(c, k, s0.nodes[k], s.nodes[k], v, x, m)
    decreases m
  {
    if m == 0 {
      s := s0;
    } else {
      var s1 := Count(c, s0, v, x, m - 1);
      s := CountOne(c, s0, s1, v, x, m - 1);
      OnlyChain(c, s0, s1, s, NextLeader(c, v));
    }
  }

  // ----- a whole view

  lemma GoneBefore(c: Config, j: nat, s: Node, s': Node, v: nat, x: Block)
    requires j < |c.peers| && Before(s, v) && Fits(x, v) && Gone(c, j, s, s', v, x)
    ensures Before(s', v + 1) && Lagging(s'.genericQC, v + 1)
  {
  }

  lemma TimeOutEffect(c: Config, k: nat, s: Node)
    requires Full(c) && k < |c.peers| && Wired(c, k, s)
    ensures var r := NextView(s);
      && r.Ok? && Wired(c, k, r.node) && !r.out.Complete? && r.signed == [] && r.node.view == s.view + 1
      && r.node == s.(view := r.node.view, currentLeader := r.node.currentLeader, nextLeader := r.node.nextLeader)
  {
    WiredLookup(c, k, s, s.view + 1);
    WiredLookup(c, k, s, s.view + 2);
  }

  /** The proposal of view v is handled by all. The collector first counts the reports, of which the leader's
      carries the certificate of the view before, then the votes. */
  lemma Cross(c: Config, s0: System, v: nat, x: Block) returns (s: System)
    requires Full(c) && Reach(c, s0) && Calm(c, s0, v) && Fits(x, v) && Leads(c, s0, v)
    requires x.justify == s0.nodes[Leader(c, v)].highQC
    ensures Reach(c, s) && Crossed(c, s0, s, v, x)
  {
    var k, lead := NextLeader(c, v), s0.nodes[Leader(c, v)].genericQC;
    var s1 := Spread(c, s0, v, x, |c.peers|);
    var justifies := seq(|c.peers|, i requires 0 <= i < |c.peers| => s0.nodes[i].genericQC);
    CollectStart(c, s0, s1, v, x, justifies);
    var s2 := Collect(c, s1, v, lead, justifies, 2 * c.fault + 1);
    CountStart(c, s0, s1, s2, v, x, lead);
    s := Count(c, s2, v, x, 2 * c.fault);
    CrossEnd(c, s0, s1, s2, s, v, x);
  }

  /** The leader of view v holds the certificate of the view before, if there is one. */
  ghost predicate Leads(c: Config, s: System, v: nat)
    requires |s.nodes| == |c.peers| > 0
  {
    v > 0 && var q := s.nodes[Leader(c, v)].genericQC; if v == 1 then q.None? else q.Some? && q.value.view == v - 1
  }

  /** After view v its certificate and that of the view before are where the next leader needs them. */
  ghost predicate Crossed(c: Config, s: System, s': System, v: nat, x: Block)
    requires |s.nodes| == |c.peers| > 0
  {
    && Calm(c, s', v + 1) && s.done <= s'.done && OneProposal(c, s.net, s'.net, v, x)
    && s'.nodes[Leader(c, v + 1)].highQC == s.nodes[Leader(c, v)].genericQC
    && s'.nodes[Leader(c, v + 1)].genericQC == Some(Certificate(v, x))
    && (Above(x).Some? ==> Above(x).value in s'.done)
  }

  lemma CollectStart(c: Config, s0: System, s1: System, v: nat, x: Block, justifies: seq<Option<QC>>)
    requires Full(c) && Calm(c, s0, v) && Fits(x, v) && Leads(c, s0, v) && Spreading(c, s0, s1, v, x, |c.peers|)
    requires justifies == seq(|c.peers|, i requires 0 <= i < |c.peers| => s0.nodes[i].genericQC)
    ensures var k, lead := NextLeader(c, v), s0.nodes[Leader(c, v)].genericQC;
      Collecting(c, k, s1.nodes[k], s1.nodes[k], v, lead, 0) && Queueing(c, s1.net, v, lead, justifies)
  {
    var k := NextLeader(c, v);
    LeaderReports(c, v);
    assert Heard(c, k, v, |c.peers|) && Handled(c, k, s0.nodes[k], s1.nodes[k], v, x);
    forall i: nat | i < |c.peers| && i != k ensures ReportOf(c, v, justifies[i], i) in s1.net {
      assert Heard(c, i, v, |c.peers|) && ReportOf(c, v, s0.nodes[i].genericQC, i) in Posts(c, i, s0.nodes[i], v, x);
    }
  }

  lemma CountStart(c: Config, s0: System, s1: System, s2: System, v: nat, x: Block, lead: Option<QC>)
    requires Full(c) && Calm(c, s0, v) && Spreading(c, s0, s1, v, x, |c.peers|)
    requires OnlyCollector(c, s1, s2, NextLeader(c, v))
    requires var k := NextLeader(c, v); Collecting(c, k, s1.nodes[k], s2.nodes[k], v, lead, 2 * c.fault + 1)
    ensures var k := NextLeader(c, v); Counting(c, k, s2.nodes[k], s2.nodes[k], v, x, 0)
    ensures forall i: nat | i < 2 * c.fault :: VoteOf(c, v, x, Voter(NextLeader(c, v), i)) in s2.net
  {
    var k := NextLeader(c, v);
    assert Heard(c, k, v, |c.peers|) && Handled(c, k, s0.nodes[k], s1.nodes[k], v, x);
    forall i: nat | i < 2 * c.fault ensures VoteOf(c, v, x, Voter(k, i)) in s2.net {
      var j := Voter(k, i);
      assert Heard(c, j, v, |c.peers|) && VoteOf(c, v, x, j) in Posts(c, j, s0.nodes[j], v, x);
    }
  }

  /** The nodes that do not collect have left the view behind them. */
  lemma OthersBefore(c: Config, s0: System, s1: System, s: System, v: nat, x: Block, i: nat)
    requires Full(c) && Calm(c, s0, v) && Fits(x, v) && Spreading(c, s0, s1, v, x, |c.peers|)
    requires i < |s.nodes| == |c.peers| && i != NextLeader(c, v) && s.nodes[i] == s1.nodes[i]
    ensures Wired(c, i, s.nodes[i]) && s.nodes[i].view == v + 1 && Before(s.nodes[i], v + 1)
    ensures Lagging(s.nodes[i].genericQC, v + 1)
  {
    assert Heard(c, i, v, |c.peers|);
    GoneBefore(c, i, s0.nodes[i], s1.nodes[i], v, x);
  }

  lemma CrossEnd(c: Config, s0: System, s1: System, s2: System, s: System, v: nat, x: Block)
    requires Full(c) && Calm(c, s0, v) && Fits(x, v) && Spreading(c, s0, s1, v, x, |c.peers|)
    requires OnlyCollector(c, s1, s2, NextLeader(c, v)) && OnlyCollector(c, s2, s, NextLeader(c, v))
    requires var k, lead := NextLeader(c, v), s0.nodes[Leader(c, v)].genericQC;
      && Collecting(c, k, s1.nodes[k], s2.nodes[k], v, lead, 2 * c.fault + 1)
      && Counting(c, k, s2.nodes[k], s.nodes[k], v, x, 2 * c.fault)
    ensures Crossed(c, s0, s, v, x)
  {
    var k := NextLeader(c, v);
    assert Heard(c, k, v, |c.peers|) && Handled(c, k, s0.nodes[k], s1.nodes[k], v, x);
    CollectorBefore(c, k, s0.nodes[k], s1.nodes[k], s2.nodes[k], s.nodes[k], v, x, s0.nodes[Leader(c, v)].genericQC);
    assert Calm(c, s, v + 1) by {
      forall i | 0 <= i < |c.peers| && i != k
        ensures Wired(c, i, s.nodes[i]) && s.nodes[i].view == v + 1 && Before(s.nodes[i], v + 1)
        ensures Lagging(s.nodes[i].genericQC, v + 1)
      {
        OthersBefore(c, s0, s1, s, v, x, i);
      }
    }
  }

  lemma CollectorBefore(c: Config, k: nat, n0: Node, n1: Node, n2: Node, n3: Node, v: nat, x: Block, lead: Option<QC>)
    requires k < |c.peers| && Before(n0, v) && Fits(x, v) && Waits(c, k, n0, n1, v, x)
    requires Collecting(c, k, n1, n2, v, lead, 2 * c.fault + 1) && Counting(c, k, n2, n3, v, x, 2 * c.fault)
    ensures Before(n3, v + 1)
  {
  }

  // ----- two branches in turn

  /** The next block on a certificate. */
  function On(cmd: string, q: QC): Block {
    Block(cmd, Digest(q.block), Some(q))
  }

  /** The block of view v: odd views extend block a, even ones block b. */
  function Branch(v: nat): Block {
    if v <= 1 then Block("a", EMPTY_HASH, None)
    else if v == 2 then Block("b", EMPTY_HASH, None)
    else On("", Certificate(v - 2, Branch(v - 2)))
  }

  /** The certificate of view v in this run. */
  function Formed(v: nat): Option<QC> {
    if v == 0 then None else Some(Certificate(v, Branch(v)))
  }

  lemma {:induction false} BranchFits(v: nat)
    requires v > 0
    ensures Fits(Branch(v), v) && Branch(v).justify == Formed(if v <= 2 then 0 else v - 2)
  {
    if v > 2 {
      assert Branch(v - 2).justify.Some? ==> Branch(v - 2).justify.value.view == v - 4;
    }
  }

  /** The first v views have passed. */
  ghost predicate Passed(c: Config, s: System, v: nat)
    requires |c.peers| > 0
  {
    && Calm(c, s, v + 1) && AllWithin(s.net, 2)
    && s.nodes[Leader(c, v + 1)].highQC == Formed(if v == 0 then 0 else v - 1)
    && s.nodes[Leader(c, v + 1)].genericQC == Formed(v)
    && forall w: nat | 0 < w <= v && Above(Branch(w)).Some? :: Above(Branch(w)).value in s.done
  }

  /** However many views pass this way, both branches go on completing blocks. */
  lemma {:induction false} Views(c: Config, v: nat) returns (s: System)
    requires Full(c)
    ensures Reach(c, s) && Passed(c, s, v)
  {
    if v == 0 {
      s := Start(c);
    } else {
      var s0 := Views(c, v - 1);
      s := ViewOne(c, s0, v);
    }
  }

  lemma {:induction false} ViewOne(c: Config, s0: System, v: nat) returns (s: System)
    requires Full(c) && v > 0 && Reach(c, s0) && Passed(c, s0, v - 1)
    ensures Reach(c, s) && Passed(c, s, v)
  {
    BranchFits(v);
    PassedLeads(c, s0, v);
    s := Cross(c, s0, v, Branch(v));
    PassedOne(c, s0, s, v);
  }

  lemma {:induction false} PassedLeads(c: Config, s: System, v: nat)
    requires Full(c) && v > 0 && Passed(c, s, v - 1)
    ensures Calm(c, s, v) && Leads(c, s, v)
    ensures s.nodes[Leader(c, v)].highQC == Formed(if v <= 2 then 0 else v - 2)
  {
  }

  lemma {:induction false} PassedOne(c: Config, s0: System, s: System, v: nat)
    requires Full(c) && v > 0 && Passed(c, s0, v - 1) && Crossed(c, s0, s, v, Branch(v)) && Fits(Branch(v), v)
    requires Branch(v).justify == Formed(if v <= 2 then 0 else v - 2)
    ensures Passed(c, s, v)
  {
    forall w: nat | 0 < w <= v && Above(Branch(w)).Some? ensures Above(Branch(w)).value in s.done {
      if w < v {
        assert Above(Branch(w)).value in s0.done;
      }
    }
  }

  // ----- the run

  lemma Start(c: Config) returns (s: System)
    requires Full(c)
    ensures Reach(c, s) && Passed(c, s, 0)
  {
    s := System(seq(|c.peers|, i requires 0 <= i < |c.peers| => FirstNode(c, i)), {}, [], {});
    forall i | 0 <= i < |c.peers| ensures InitNode(c, i, s.nodes[i]) {
      FirstStored(c, i);
    }
    assert Init(c, s);
    assert Run(c, [s], false) && Last([s]) == s;
    StartCalm(c, s);
  }

  lemma FirstReady(c: Config, i: nat)
    requires Full(c) && i < |c.peers|
    ensures var s := FirstNode(c, i); Wired(c, i, s) && s.view == 1 && Before(s, 1)
  {
    FirstStored(c, i);
    InitNodeWired(c, i, FirstNode(c, i));
  }

  lemma StartCalm(c: Config, s: System)
    requires Full(c) && s.net == {} && |s.nodes| == |c.peers|
    requires forall i | 0 <= i < |s.nodes| :: s.nodes[i] == FirstNode(c, i)
    ensures Passed(c, s, 0)
  {
    forall i | 0 <= i < |c.peers| ensures Wired(c, i, s.nodes[i]) && s.nodes[i].view == 1 && Before(s.nodes[i], 1) {
      FirstReady(c, i);
    }
    assert Calm(c, s, 1);
    assert Formed(0) == None;
  }

  function FirstNode(c: Config, i: nat): Node
    requires i < |c.peers|
  {
    var fresh0 := Fresh(c.peers[i], i, c.fault);
    fresh0.(pks := KeyTable(c.peers), numbers := Dense(c.peers), view := 1,
            currentLeader := c.peers[1 % |c.peers|], nextLeader := c.peers[2 % |c.peers|])
  }

  lemma FirstStored(c: Config, i: nat)
    requires Full(c) && i < |c.peers|
    ensures InitNode(c, i, FirstNode(c, i))
  {
    KeyTableDense(c.peers);
    NumberTableDense(c.peers, c.peers);
    FirstView(c, i);
    StoresAll(c, i);
    assert Stored(c, i, c.peers, FirstNode(c, i));
  }

  lemma NothingAdded<K, V>(m: map<K, V>)
    ensures map[] + m == m
  {
  }

  /** Storing the table in the order of the peers leads to the first view. */
  lemma {:induction false} StoresAll(c: Config, i: nat)
    requires Full(c) && i < |c.peers| && forall p | p in c.peers :: p in KeyTable(c.peers)
    requires NumberTable(KeyTable(c.peers), c.peers) == Dense(c.peers)
    ensures var s := Fresh(c.peers[i], i, c.fault);
      StoreKeyTable(s, KeyTable(c.peers), c.peers) == NextView(s.(pks := KeyTable(c.peers), numbers := Dense(c.peers)))
  {
    NothingAdded(Dense(c.peers));
  }

  lemma FirstView(c: Config, i: nat)
    requires Full(c) && i < |c.peers|
    ensures var s := Fresh(c.peers[i], i, c.fault).(pks := KeyTable(c.peers), numbers := Dense(c.peers));
      NextView(s).Ok? && NextView(s).node == FirstNode(c, i)
  {
    DenseSize(c.peers);
  }

  /** Two conflicting blocks are completed in a closed run, for every f >= 1, although no proposal carries
      a certificate more than two views old. */
  lemma TwoCompleted(c: Config) returns (s: System)
    requires Full(c)
    ensures Reach(c, s) && AllWithin(s.net, 2) && Disagree(s)
  {
    s := Views(c, 8);
    BranchAbove(7);
    BranchAbove(8);
    assert Branch(1) in s.done && Branch(2) in s.done;
    assert !Ancestor(Branch(1), Branch(2)) && !Ancestor(Branch(2), Branch(1));
  }

  /** A block completes the one of six views before. */
  lemma {:induction false} BranchAbove(v: nat)
    requires v > 6
    ensures Above(Branch(v)) == Some(Branch(v - 6))
  {
    assert Linked(Branch(v)) == Some(Branch(v - 2));
    assert Linked(Branch(v - 2)) == Some(Branch(v - 4));
    assert Linked(Branch(v - 4)) == Some(Branch(v - 6));
  }

  // ----- the exact condition

  /** All closed runs complete blocks of one parent chain, as long as no proposal carries a certificate more
      than `gap` views old. */
  ghost predicate AllAgree(c: Config, gap: nat)
    requires ValidConfig(c)
  {
    forall s :: Reach(c, s) && AllWithin(s.net, gap) ==> !Disagree(s)
  }

  lemma Wider(net: set<Send>, gap: nat, gap': nat)
    requires AllWithin(net, gap) && gap <= gap'
    ensures AllWithin(net, gap')
  {
  }

  /** For every f >= 1 and n = 3f+1, all closed runs whose proposals carry certificates at most `gap` views
      old agree if and only if the certificate must be that of the view just before. */
  lemma AgreementExactly(c: Config, gap: nat)
    requires Full(c)
    ensures AllAgree(c, gap) <==> gap <= 1
  {
    if gap <= 1 {
      forall s | Reach(c, s) && AllWithin(s.net, gap) ensures !Disagree(s) {
        var tr: seq<System> :| |tr| > 0 && Run(c, tr, false) && Last(tr) == s;
        Wider(s.net, gap, 1);
        DirectAgrees(c, tr);
      }
    } else {
      var s := TwoCompleted(c);
      Wider(s.net, 2, gap);
    }
  }
}

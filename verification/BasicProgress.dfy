/**
 Scheduled runs of basic HotStuff can go on: for every f >= 1, n = 3f+1 and every list of commands there is a run
 that keeps all three scheduler assumptions, decides one block for each command, every block on the one before,
 and ends with every node having reported every command.
 */
module BasicProgress {
  import opened Common
  import opened BasicNode
  import opened BasicSystem
  import opened BasicScheduler
  import opened BasicDecisions
  import BasicExact

  /** The block of the k-th command. */
  function BlockAt(cmds: seq<string>, k: nat): Block
    requires k < |cmds|
  {
    Block(cmds[k], if k == 0 then EMPTY_HASH else Digest(BlockAt(cmds, k - 1)))
  }

  // ----- between two views

  /** No node has heard a report of view v or later. */
  ghost predicate Silent(s: System, v: nat) {
    && (forall x | x in s.got :: x.1.view < v)
    && forall i | 0 <= i < |s.nodes| :: forall u | u in s.nodes[i].newviews :: u < v
  }

  /** Nothing of view v or later has been proposed or voted on. */
  ghost predicate Unvoted(s: System, v: nat) {
    && (forall p | PrepareMsg(p) in s.net :: p.view < v)
    && forall i | 0 <= i < |s.nodes| :: NoShares(s.nodes[i], v)
  }

  ghost predicate NoShares(s: Node, v: nat) {
    forall b: Ballot | b.view >= v :: Shares(s.signatures, b) == map[]
  }

  /** All nodes follow the leader of view v, which has computed its high certificate: that of the block of the view
      before, if there is one, which no node has a newer certificate than. */
  ghost predicate Ready(c: Config, s: System, v: nat, prev: Option<Block>)
    requires |c.peers| > 0
  {
    var leader := v % |c.peers|;
    && v > 0 && AllFit(c, s) && (prev.None? <==> v == 1) && Silent(s, v) && Unvoted(s, v)
    && (forall i | 0 <= i < |s.nodes| :: Follows(c, s.nodes[i], leader, v))
    && s.highFrom[leader] == Some(v - 1)
    && s.nodes[leader].highQC == (if prev.None? then None else Some(Certificate(PREPARE, v - 1, prev.value)))
    && match prev
       case None => forall i | 0 <= i < |s.nodes| :: s.nodes[i].lockedQC.None? && s.nodes[i].prepareQC.None?
       case Some(y) => AllRecent(s, v - 1, y)
  }

  predicate Continues(x: Block, prev: Option<Block>) {
    x.parentHash == if prev.None? then EMPTY_HASH else Digest(prev.value)
  }

  /** Every node votes for a block that continues the chain. */
  lemma ReadyVotes(c: Config, s: System, v: nat, prev: Option<Block>, x: Block)
    requires |c.peers| > 0 && Ready(c, s, v, prev) && Continues(x, prev)
    ensures AllVotable(s, v % |c.peers|, PREPARE, v, x) && AllRecent(s, v, x)
    ensures s.nodes[v % |c.peers|].highQC == JustifyOf(v, x) && (x.parentHash == EMPTY_HASH || JustifyOf(v, x).Some?)
  {
    forall i | 0 <= i < |s.nodes| ensures Votable(s.nodes[i], v, x) && Recent(s.nodes[i], v, x) {
      if prev.Some? {
        assert Recent(s.nodes[i], v - 1, prev.value);
      }
    }
  }

  // ----- one view

  /** The block has been decided, and all nodes have reported it and left for the next leader, which holds its
      prepare certificate. */
  ghost predicate Grown(c: Config, s: System, v: nat, x: Block)
    requires |c.peers| > 0
  {
    var next := LeaderAfter(c, v);
    && AllFit(c, s) && Certificate(COMMIT, v, x) in s.decided && AllRecent(s, v, x)
    && s.nodes[next].prepareQC == Some(Certificate(PREPARE, v, x))
    && forall i: nat | i < |c.peers| ::
         (i, x.cmd) in s.done && Follows(c, s.nodes[i], next, v + 1) && LeftReport(c, s, i, v)
  }

  /** What a view leaves alone. */
  ghost predicate Passes(s: System, s': System, v: nat) {
    && |s.nodes| == |s'.nodes| && s.decided <= s'.decided && s.done <= s'.done
    && s.net <= s'.net && s.mail <= s'.mail && s'.got == s.got && s'.highFrom == s.highFrom
    && (forall p | PrepareMsg(p) in s'.net :: PrepareMsg(p) in s.net || p.view == v)
    && forall i | 0 <= i < |s.nodes| :: SameReports(s.nodes[i], s'.nodes[i]) && SameLater(s.nodes[i], s'.nodes[i], v)
  }

  ghost predicate SameLater(s: Node, s': Node, v: nat) {
    forall b: Ballot | b.view > v :: Shares(s'.signatures, b) == Shares(s.signatures, b)
  }

  lemma BesidePasses(s: System, s': System, leader: nat, v: nat)
    requires Beside(s, s', leader) && leader < |s.nodes| && SameLater(s.nodes[leader], s'.nodes[leader], v)
    ensures Passes(s, s', v)
  {
  }

  lemma PassesChain(s: System, s1: System, s2: System, v: nat)
    requires Passes(s, s1, v) && Passes(s1, s2, v)
    ensures Passes(s, s2, v)
  {
  }

  /** The leader asks for votes of a kind on the block, and has none yet of this kind or a later one. */
  ghost predicate Asking(c: Config, s: System, kind: Phase, v: nat, x: Block)
    requires |c.peers| > 0
  {
    var leader := v % |c.peers|;
    && Reach(c, s, SCHEDULED) && Lab(c, s, leader, v) && s.nodes[leader].view == v && AllRecent(s, v, x)
    && Mailed(s, Broadcast(Ask(c, leader, kind, v, x)))
    && forall k: Phase | k >= kind :: Shares(s.nodes[leader].signatures, Ballot(k, v, x)) == map[]
  }

  lemma StillMailed(s: System, s': System, v: nat, m: Send)
    requires Mailed(s, m) && Passes(s, s', v)
    ensures Mailed(s', m)
  {
  }

  /** One of the first two phases. */
  lemma OnePhase(c: Config, s: System, kind: Phase, v: nat, x: Block) returns (s': System)
    requires Full(c) && kind < COMMIT && Asking(c, s, kind, v, x) && AllVotable(s, v % |c.peers|, kind, v, x)
    ensures Asking(c, s', kind + 1, v, x) && Passes(s, s', v)
  {
    var leader := v % |c.peers|;
    s' := Phased(c, s, SCHEDULED, leader, kind, v, x, 2 * c.fault + 1);
    BesidePasses(s, s', leader, v);
  }

  /** The next leader takes part in the second phase. */
  lemma NextSigns(c: Config, s: System, v: nat, x: Block) returns (s': System)
    requires Full(c) && Asking(c, s, COMMIT, v, x)
    requires Mailed(s, Broadcast(Ask(c, v % |c.peers|, PRE_COMMIT, v, x)))
    ensures Asking(c, s', COMMIT, v, x) && Passes(s, s', v)
    ensures s'.nodes[LeaderAfter(c, v)].prepareQC == Some(Certificate(PREPARE, v, x))
  {
    var leader := v % |c.peers|;
    NextMod(v, |c.peers|);
    s' := SignOne(c, s, SCHEDULED, leader, PRE_COMMIT, v, x, LeaderAfter(c, v));
    BesidePasses(s, s', leader, v);
  }

  lemma FirstPhases(c: Config, s: System, v: nat, x: Block) returns (s': System)
    requires Full(c) && Asking(c, s, PREPARE, v, x) && AllVotable(s, v % |c.peers|, PREPARE, v, x)
    ensures Asking(c, s', COMMIT, v, x) && Passes(s, s', v)
    ensures s'.nodes[LeaderAfter(c, v)].prepareQC == Some(Certificate(PREPARE, v, x))
  {
    var s1 := OnePhase(c, s, PREPARE, v, x);
    var s2 := OnePhase(c, s1, PRE_COMMIT, v, x);
    StillMailed(s1, s2, v, Broadcast(Ask(c, v % |c.peers|, PRE_COMMIT, v, x)));
    s' := NextSigns(c, s2, v, x);
    PassesChain(s, s1, s2, v);
    PassesChain(s, s2, s', v);
  }

  /** The last phase, and the announcement to all nodes. */
  lemma LastPhase(c: Config, s: System, v: nat, x: Block) returns (s': System)
    requires Full(c) && Asking(c, s, COMMIT, v, x)
    requires s.nodes[LeaderAfter(c, v)].prepareQC == Some(Certificate(PREPARE, v, x))
    ensures Reach(c, s', SCHEDULED) && Grown(c, s', v, x) && Passes(s, s', v)
  {
    var s1 := CommitPhase(c, s, v, x);
    s' := TellAll(c, s1, SCHEDULED, v % |c.peers|, v, x, |c.peers|);
    ToldGrown(c, s1, s', v, x);
    PassesChain(s, s1, s', v);
  }

  lemma CommitPhase(c: Config, s: System, v: nat, x: Block) returns (s': System)
    requires Full(c) && Asking(c, s, COMMIT, v, x)
    requires s.nodes[LeaderAfter(c, v)].prepareQC == Some(Certificate(PREPARE, v, x))
    ensures Reach(c, s', SCHEDULED) && Told(c, s', v % |c.peers|, v, x, 0) && Passes(s, s', v) && AllRecent(s', v, x)
    ensures s'.nodes[LeaderAfter(c, v)].prepareQC == Some(Certificate(PREPARE, v, x))
  {
    var leader := v % |c.peers|;
    s' := Phased(c, s, SCHEDULED, leader, COMMIT, v, x, 2 * c.fault + 1);
    BesidePasses(s, s', leader, v);
    TellStart(c, s', leader, v, x);
  }

  lemma ToldGrown(c: Config, s: System, s': System, v: nat, x: Block)
    requires |c.peers| > 0 && AllRecent(s, v, x)
    requires |s.nodes| == |c.peers| && s.nodes[LeaderAfter(c, v)].prepareQC == Some(Certificate(PREPARE, v, x))
    requires Told(c, s', v % |c.peers|, v, x, |c.peers|) && OnlyTold(s, s')
    ensures Grown(c, s', v, x) && Passes(s, s', v)
  {
  }

  /** One view, from the proposal to the point where every node has reported it. */
  lemma Grow(c: Config, s: System, v: nat, prev: Option<Block>, x: Block) returns (s': System)
    requires Full(c) && Reach(c, s, SCHEDULED) && Ready(c, s, v, prev) && Continues(x, prev)
    ensures Reach(c, s', SCHEDULED) && Grown(c, s', v, x) && Passes(s, s', v)
  {
    var leader := v % |c.peers|;
    ReadyVotes(c, s, v, prev, x);
    var s1 := ProposeOne(c, s, SCHEDULED, leader, v, x);
    assert Passes(s, s1, v);
    assert Asking(c, s1, PREPARE, v, x) by {
      assert NoShares(s.nodes[leader], v);
    }
    var s2 := FirstPhases(c, s1, v, x);
    s' := LastPhase(c, s2, v, x);
    PassesChain(s, s1, s2, v);
    PassesChain(s, s2, s', v);
  }

  // ----- the reports of a view

  /** A certificate that is older than view v, or that of block x in it. */
  predicate UpToBlock(j: Option<QC>, v: nat, x: Block) {
    j.Some? ==> j.value.view < v || j == Some(Certificate(PREPARE, v, x))
  }

  lemma {:induction false} HighIsBlock(nvs: seq<NewView>, v: nat, x: Block)
    requires forall k | 0 <= k < |nvs| :: UpToBlock(nvs[k].justify, v, x)
    ensures HighQC(nvs, Some(Certificate(PREPARE, v, x))) == Some(Certificate(PREPARE, v, x))
  {
    if nvs != [] {
      HighIsBlock(nvs[..|nvs| - 1], v, x);
    }
  }

  /** The report of view v that the k-th voter has sent to the next leader. */
  function ReportOf(c: Config, s: System, v: nat, k: nat): NewView
    requires |s.nodes| == |c.peers| > 0 && Voter(LeaderAfter(c, v), k) < |c.peers|
  {
    var j := Voter(LeaderAfter(c, v), k);
    NewView(v, s.nodes[j].prepareQC, c.peers[j])
  }

  /** The next leader has collected m reports. */
  ghost predicate Heard(c: Config, node: Node, v: nat, x: Block, m: nat) {
    && node.prepareQC == Some(Certificate(PREPARE, v, x))
    && |Get(node.newviews, v)| == m && (forall k | 0 <= k < m :: UpToBlock(Get(node.newviews, v)[k].justify, v, x))
    && (m == 2 * c.fault + 1 ==> node.highQC == Some(Certificate(PREPARE, v, x)))
  }

  lemma {:induction false} HearsReport(c: Config, node: Node, v: nat, x: Block, m: nat, nv: NewView)
    requires node.fault == c.fault && m < 2 * c.fault + 1 && Heard(c, node, v, x, m)
    requires nv.view == v && UpToBlock(nv.justify, v, x)
    ensures var r := HandleNewView(node, nv);
      && r.Ok? && Heard(c, r.node, v, x, m + 1) && r.signed.None? && r.decided.None?
      && r.node == node.(newviews := r.node.newviews, highQC := r.node.highQC)
      && (forall u | u in r.node.newviews :: u in node.newviews || u == v)
      && r.out == if m == 2 * c.fault then Over else Continue([])
  {
    HighIsBlock(Get(node.newviews, v) + [nv], v, x);
  }

  /** What the next leader has consumed with the first m reports. */
  function HeardReports(c: Config, s: System, v: nat, m: nat): set<(nat, NewView)>
    requires |s.nodes| == |c.peers| > 0 && Voter(LeaderAfter(c, v), m) <= |c.peers|
  {
    set k: nat | k < m :: (LeaderAfter(c, v), ReportOf(c, s, v, k))
  }

  /** The next leader has consumed the first m reports of view v since `s0`. */
  ghost predicate Listened(c: Config, s0: System, s: System, v: nat, x: Block, m: nat)
    requires Full(c) && m <= 2 * c.fault + 1 && |s0.nodes| == |c.peers|
  {
    var next := LeaderAfter(c, v);
    && |s.nodes| == |c.peers| == |s.highFrom| && s.net == s0.net && s.mail == s0.mail
    && s.decided == s0.decided && s.done == s0.done
    && (forall i | 0 <= i < |s.nodes| && i != next :: s.nodes[i] == s0.nodes[i])
    && s.nodes[next] == s0.nodes[next].(newviews := s.nodes[next].newviews, highQC := s.nodes[next].highQC)
    && (forall u | u in s.nodes[next].newviews :: u in s0.nodes[next].newviews || u == v)
    && Heard(c, s.nodes[next], v, x, m)
    && s.got == s0.got + HeardReports(c, s0, v, m)
    && (m == 2 * c.fault + 1 ==> s.highFrom[next] == Some(v))
  }

  lemma ListenOne(c: Config, s0: System, s: System, v: nat, x: Block, m: nat) returns (s': System)
    requires Full(c) && Reach(c, s, SCHEDULED) && m < 2 * c.fault + 1
    requires Grown(c, s0, v, x) && Silent(s0, v) && Listened(c, s0, s, v, x, m)
    ensures Reach(c, s', SCHEDULED) && Listened(c, s0, s', v, x, m + 1)
  {
    var next := LeaderAfter(c, v);
    var j, nv := Voter(next, m), ReportOf(c, s0, v, m);
    assert Recent(s0.nodes[j], v, x) && LeftReport(c, s0, j, v);
    Unheard(c, s0, s, v, x, m);
    s' := Extend(c, s, next, Deliver(NewViewMsg(nv)), SCHEDULED);
    HearsReport(c, s.nodes[next], v, x, m, nv);
    AfterListening(c, s0, s, s', v, x, m, React(s.nodes[next], Deliver(NewViewMsg(nv))));
  }

  lemma Unheard(c: Config, s0: System, s: System, v: nat, x: Block, m: nat)
    requires Full(c) && m < 2 * c.fault + 1 && Silent(s0, v) && |s0.nodes| == |c.peers|
    requires Listened(c, s0, s, v, x, m)
    ensures (LeaderAfter(c, v), ReportOf(c, s0, v, m)) !in s.got
  {
    forall k: nat | k < m ensures ReportOf(c, s0, v, k) != ReportOf(c, s0, v, m) {
      assert Voter(LeaderAfter(c, v), k) < Voter(LeaderAfter(c, v), m) < |c.peers|;
    }
  }

  lemma AfterListening(c: Config, s0: System, s: System, s': System, v: nat, x: Block, m: nat, r: Result)
    requires Full(c) && m < 2 * c.fault + 1 && |s0.nodes| == |c.peers| && Listened(c, s0, s, v, x, m)
    requires s' == Apply(s, LeaderAfter(c, v), Deliver(NewViewMsg(ReportOf(c, s0, v, m))), r)
    requires r.Ok? && Heard(c, r.node, v, x, m + 1) && r.signed.None? && r.decided.None?
    requires var node := s.nodes[LeaderAfter(c, v)];
      && r.node == node.(newviews := r.node.newviews, highQC := r.node.highQC)
      && forall u | u in r.node.newviews :: u in node.newviews || u == v
    requires r.out == if m == 2 * c.fault then Over else Continue([])
    ensures Listened(c, s0, s', v, x, m + 1)
  {
    assert Messages([]) == {} && (set y | y in Sends(r.out)) == {};
    assert HeardReports(c, s0, v, m + 1) == HeardReports(c, s0, v, m) + {(LeaderAfter(c, v), ReportOf(c, s0, v, m))};
  }

  lemma {:induction false} Listen(c: Config, s0: System, v: nat, x: Block, m: nat) returns (s: System)
    requires Full(c) && Reach(c, s0, SCHEDULED) && m <= 2 * c.fault + 1
    requires Grown(c, s0, v, x) && Silent(s0, v)
    ensures Reach(c, s, SCHEDULED) && Listened(c, s0, s, v, x, m)
    decreases m
  {
    if m == 0 {
      s := s0;
    } else {
      var s1 := Listen(c, s0, v, x, m - 1);
      s := ListenOne(c, s0, s1, v, x, m - 1);
    }
  }

  // ----- from view to view

  lemma NextNodes(c: Config, s: System, s1: System, s2: System, v: nat, x: Block)
    requires Full(c) && Unvoted(s, v) && Grown(c, s1, v, x) && Passes(s, s1, v)
    requires Listened(c, s1, s2, v, x, 2 * c.fault + 1)
    ensures AllFit(c, s2) && AllRecent(s2, v, x) && Unvoted(s2, v + 1)
    ensures forall i | 0 <= i < |s2.nodes| :: Follows(c, s2.nodes[i], LeaderAfter(c, v), v + 1)
  {
    forall i | 0 <= i < |s2.nodes| ensures Recent(s2.nodes[i], v, x) && NoShares(s2.nodes[i], v + 1) {
      assert Recent(s1.nodes[i], v, x) && NoShares(s.nodes[i], v) && SameLater(s.nodes[i], s1.nodes[i], v);
    }
  }

  lemma NextSilent(c: Config, s: System, s1: System, s2: System, v: nat, x: Block)
    requires Full(c) && Silent(s, v) && Passes(s, s1, v) && |s1.nodes| == |c.peers|
    requires Listened(c, s1, s2, v, x, 2 * c.fault + 1)
    ensures Silent(s1, v) && Silent(s2, v + 1)
  {
    forall i | 0 <= i < |s1.nodes| ensures s1.nodes[i].newviews == s.nodes[i].newviews {
      assert SameReports(s.nodes[i], s1.nodes[i]);
    }
  }

  lemma NextReady(c: Config, s: System, s1: System, s2: System, v: nat, prev: Option<Block>, x: Block)
    requires Full(c) && Ready(c, s, v, prev) && Grown(c, s1, v, x) && Passes(s, s1, v)
    requires Listened(c, s1, s2, v, x, 2 * c.fault + 1)
    ensures Ready(c, s2, v + 1, Some(x))
  {
    NextNodes(c, s, s1, s2, v, x);
    NextSilent(c, s, s1, s2, v, x);
  }

  /** One view of a scheduled run: a block on the one before is decided and reported by every node. */
  lemma GrowOne(c: Config, s: System, v: nat, prev: Option<Block>, x: Block) returns (s': System)
    requires Full(c) && Reach(c, s, SCHEDULED) && Ready(c, s, v, prev) && Continues(x, prev)
    ensures Reach(c, s', SCHEDULED) && Ready(c, s', v + 1, Some(x))
    ensures s.decided <= s'.decided && s.done <= s'.done && Certificate(COMMIT, v, x) in s'.decided
    ensures ReportedByAll(c, s', x.cmd)
  {
    var s1 := Grow(c, s, v, prev, x);
    assert Silent(s1, v);
    s' := Listen(c, s1, v, x, 2 * c.fault + 1);
    NextReady(c, s, s1, s', v, prev, x);
  }

  /** After the first reports the leader of view 1 is ready. */
  lemma FirstReady(c: Config) returns (s: System)
    requires Full(c)
    ensures Reach(c, s, SCHEDULED) && Ready(c, s, 1, None)
  {
    s := BasicExact.Reports(c, SCHEDULED, 2 * c.fault + 1);
    SmallMod(1, |c.peers|);
    assert Silent(s, 1) && Unvoted(s, 1);
  }

  ghost predicate ReportedByAll(c: Config, s: System, cmd: string) {
    forall i: nat | i < |c.peers| :: (i, cmd) in s.done
  }

  /** The commands so far are decided, each on the one before, and reported by every node. */
  ghost predicate AllReported(c: Config, s: System, cmds: seq<string>) {
    forall k | 0 <= k < |cmds| ::
      && Certificate(COMMIT, k + 1, BlockAt(cmds, k)) in s.decided
      && ReportedByAll(c, s, cmds[k])
  }

  /** The block of the last command. */
  function LastBlock(cmds: seq<string>): Option<Block> {
    if cmds == [] then None else Some(BlockAt(cmds, |cmds| - 1))
  }

  /** All commands but the last. */
  function Front(cmds: seq<string>): seq<string>
    requires cmds != []
  {
    cmds[..|cmds| - 1]
  }

  lemma {:induction false} SameBlock(cmds: seq<string>, k: nat)
    requires k + 1 < |cmds|
    ensures BlockAt(cmds, k) == BlockAt(Front(cmds), k)
  {
    if k > 0 {
      SameBlock(cmds, k - 1);
    }
  }

  lemma {:induction false} BlockContinues(cmds: seq<string>)
    requires cmds != []
    ensures var x := BlockAt(cmds, |cmds| - 1); x.cmd == cmds[|cmds| - 1] && Continues(x, LastBlock(Front(cmds)))
  {
    if |cmds| > 1 {
      SameBlock(cmds, |cmds| - 2);
    }
  }

  lemma {:induction false} ReportedMore(c: Config, s: System, s': System, cmds: seq<string>)
    requires cmds != [] && AllReported(c, s, Front(cmds)) && s.decided <= s'.decided && s.done <= s'.done
    requires Certificate(COMMIT, |cmds|, BlockAt(cmds, |cmds| - 1)) in s'.decided
    requires ReportedByAll(c, s', cmds[|cmds| - 1])
    ensures AllReported(c, s', cmds)
  {
    forall k | 0 <= k < |cmds| - 1 ensures BlockAt(cmds, k) == BlockAt(Front(cmds), k) {
      SameBlock(cmds, k);
    }
  }

  lemma {:induction false} ViewOne(c: Config, s: System, cmds: seq<string>) returns (s': System)
    requires Full(c) && cmds != [] && Reach(c, s, SCHEDULED)
    requires AllReported(c, s, Front(cmds)) && Ready(c, s, |cmds|, LastBlock(Front(cmds)))
    ensures Reach(c, s', SCHEDULED) && AllReported(c, s', cmds) && Ready(c, s', |cmds| + 1, LastBlock(cmds))
  {
    BlockContinues(cmds);
    s' := GrowOne(c, s, |cmds|, LastBlock(Front(cmds)), BlockAt(cmds, |cmds| - 1));
    ReportedMore(c, s, s', cmds);
  }

  lemma {:induction false} Views(c: Config, cmds: seq<string>) returns (s: System)
    requires Full(c)
    ensures Reach(c, s, SCHEDULED) && AllReported(c, s, cmds) && Ready(c, s, |cmds| + 1, LastBlock(cmds))
    decreases |cmds|
  {
    if cmds == [] {
      s := FirstReady(c);
    } else {
      var s0 := Views(c, Front(cmds));
      s := ViewOne(c, s0, cmds);
    }
  }

  lemma RunTo(c: Config, s: System) returns (tr: seq<System>)
    requires Reach(c, s, SCHEDULED)
    ensures |tr| > 0 && Run(c, tr, SCHEDULED) && Last(tr) == s
  {
    tr :| |tr| > 0 && Run(c, tr, SCHEDULED) && Last(tr) == s;
  }

  lemma {:induction false} BlocksChain(cmds: seq<string>, k: nat)
    requires k < |cmds|
    ensures BlockAt(cmds, k).cmd == cmds[k]
    ensures BlockAt(cmds, k).parentHash == if k == 0 then Raw("") else Digest(BlockAt(cmds, k - 1))
  {
  }

  /** For every f >= 1, n = 3f+1 and every list of commands, some run that keeps all three scheduler assumptions
      decides in view k+1 a block for the k-th command that extends the block of the command before, and every
      node reports every command complete. */
  lemma {:induction false} CanGoOn(c: Config, cmds: seq<string>) returns (tr: seq<System>)
    requires Full(c)
    ensures |tr| > 0 && Run(c, tr, SCHEDULED) && AllReported(c, Last(tr), cmds)
  {
    var s := Views(c, cmds);
    tr := RunTo(c, s);
  }
}

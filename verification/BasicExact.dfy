/**
 The exact scheduler condition of basic HotStuff: for every f >= 1 and n = 3f+1, all runs under some of
 the assumptions A1, A2 and A3 agree if and only if all three are kept. Dropping any one of them leaves
 a run that decides two blocks of which neither extends the other.
 */
module BasicExact {
  import opened Common
  import opened BasicNode
  import opened BasicSystem
  import opened BasicScheduler
  import C = ChainSystem
  import BasicAgreement

  const BLOCK_A := Block("a", EMPTY_HASH)
  const BLOCK_B := Block("b", EMPTY_HASH)

  /** Two decided blocks of which neither extends the other. */
  ghost predicate Disagree(s: System) {
    exists q, q' :: q in s.decided && q' in s.decided
      && !BasicAgreement.Ancestor(q.block, q'.block) && !BasicAgreement.Ancestor(q'.block, q.block)
  }

  lemma Conflict(s: System, v: nat, w: nat)
    requires Certificate(COMMIT, v, BLOCK_A) in s.decided && Certificate(COMMIT, w, BLOCK_B) in s.decided
    ensures Disagree(s)
  {
    assert !BasicAgreement.Ancestor(BLOCK_A, BLOCK_B) && !BasicAgreement.Ancestor(BLOCK_B, BLOCK_A);
    var q, q' := Certificate(COMMIT, v, BLOCK_A), Certificate(COMMIT, w, BLOCK_B);
    assert q.block == BLOCK_A && q'.block == BLOCK_B;
  }

  // ----- the start

  function StartNode(c: Config, i: nat): Node
    requires |c.peers| >= 4 && i < |c.peers|
  {
    Node(c.peers[i], c.fault, Some(i), C.Dense(c.peers), C.KeyTable(c.peers), 1, c.peers[1],
         None, None, None, map[], map[])
  }

  function Report(c: Config, i: nat): NewView
    requires i < |c.peers|
  {
    NewView(0, None, c.peers[i])
  }

  /** Every node but node 1, the leader of view 1, has sent it its report of view 0. */
  function StartMail(c: Config): set<Send>
    requires |c.peers| >= 4
  {
    set i: nat | i < |c.peers| && i != 1 :: Unicast(c.peers[1], NewViewMsg(Report(c, i)))
  }

  function StartOf(c: Config): System
    requires |c.peers| >= 4
  {
    System(seq(|c.peers|, i requires 0 <= i < |c.peers| => StartNode(c, i)),
           set x | x in StartMail(c) :: x.msg,
           StartMail(c), {}, {}, {}, seq(|c.peers|, _ => None), {})
  }

  lemma Started(c: Config, rules: Rules)
    requires Full(c)
    ensures Reach(c, StartOf(c), rules) && Lab(c, StartOf(c), 1, 1)
  {
    var s := StartOf(c);
    forall i | 0 <= i < |s.nodes| ensures BasicSystem.Wired(c, i, s.nodes[i]) {
      StartWired(c, i);
    }
    SmallMod(1, |c.peers|);
    assert Init(c, s);
    assert Run(c, [s], rules) && Last([s]) == s;
  }

  lemma StartWired(c: Config, i: nat)
    requires Full(c) && i < |c.peers|
    ensures BasicSystem.Wired(c, i, StartNode(c, i))
  {
    var table := C.KeyTable(c.peers);
    C.KeyTableDense(c.peers);
    forall p | p in table ensures table[p] < |c.peers| && c.peers[table[p]] == p {
      var k :| 0 <= k < |c.peers| && c.peers[k] == p;
    }
  }

  // ----- collecting reports without a certificate

  lemma {:induction false} NoHigh(nvs: seq<NewView>)
    requires forall k | 0 <= k < |nvs| :: nvs[k].justify.None?
    ensures HighQC(nvs, None) == None
  {
    if nvs != [] {
      NoHigh(nvs[..|nvs| - 1]);
    }
  }

  /** The node has collected m reports of a view, none of which carries a certificate. */
  ghost predicate Collecting(s: Node, view: nat, m: nat) {
    && s.prepareQC == None && s.highQC == None && s.signatures == map[]
    && |Get(s.newviews, view)| == m
    && forall k | 0 <= k < m :: Get(s.newviews, view)[k].justify.None?
  }

  /** A report without a certificate leaves the high certificate empty. */
  lemma Heard(node: Node, nv: NewView, m: nat)
    requires nv.justify.None? && Collecting(node, nv.view, m)
    ensures var collected := Get(node.newviews, nv.view) + [nv];
      && HandleNewView(node, nv)
         == Ok(node.(newviews := node.newviews[nv.view := collected]),
               if m == 2 * node.fault then Over else Continue([]), None, None)
      && Collecting(node.(newviews := node.newviews[nv.view := collected]), nv.view, m + 1)
  {
    NoHigh(Get(node.newviews, nv.view) + [nv]);
  }

  /** What one report changes. */
  ghost predicate HeardOne(c: Config, s: System, s': System, i: nat, nv: NewView, m: nat) {
    && |s.nodes| == |s'.nodes| == |c.peers| == |s.highFrom| && i < |c.peers|
    && s'.net == s.net && s'.mail == s.mail && s'.decided == s.decided && s'.got == s.got + {(i, nv)}
    && (forall j | 0 <= j < |s.nodes| && j != i :: s'.nodes[j] == s.nodes[j])
    && s'.nodes[i] == s.nodes[i].(newviews := s'.nodes[i].newviews) && Collecting(s'.nodes[i], nv.view, m + 1)
    && (forall u | u in s'.nodes[i].newviews :: u in s.nodes[i].newviews || u == nv.view)
    && s'.highFrom == if m == 2 * c.fault then s.highFrom[i := Some(nv.view)] else s.highFrom
  }

  lemma HearOne(c: Config, s: System, rules: Rules, i: nat, nv: NewView, m: nat) returns (s': System)
    requires Reach(c, s, rules) && AllFit(c, s) && i < |c.peers|
    requires Mailed(s, Unicast(c.peers[i], NewViewMsg(nv))) && Scheduled(s, i, Deliver(NewViewMsg(nv)), rules)
    requires nv.justify.None? && Collecting(s.nodes[i], nv.view, m)
    ensures Reach(c, s', rules) && HeardOne(c, s, s', i, nv, m)
  {
    s' := Extend(c, s, i, Deliver(NewViewMsg(nv)), rules);
    Heard(s.nodes[i], nv, m);
    AfterReport(c, s, s', i, nv, m, React(s.nodes[i], Deliver(NewViewMsg(nv))));
  }

  lemma AfterReport(c: Config, s: System, s': System, i: nat, nv: NewView, m: nat, r: Result)
    requires AllFit(c, s) && i < |c.peers| && s' == Apply(s, i, Deliver(NewViewMsg(nv)), r)
    requires r.Ok? && r.node == s.nodes[i].(newviews := r.node.newviews) && Collecting(r.node, nv.view, m + 1)
    requires forall u | u in r.node.newviews :: u in s.nodes[i].newviews || u == nv.view
    requires r.out == (if m == 2 * c.fault then Over else Continue([])) && r.signed.None? && r.decided.None?
    ensures HeardOne(c, s, s', i, nv, m)
  {
    assert Messages([]) == {};
    assert s'.net == s.net && s'.mail == s.mail;
  }

  /** Node 1 has consumed the reports of the first m voters, each once. */
  ghost predicate Reported(c: Config, s: System, m: nat)
    requires Full(c) && m <= 2 * c.fault + 1
  {
    && Lab(c, s, 1, 1) && s.net == StartOf(c).net && s.mail == StartMail(c) && s.decided == {}
    && (forall i | 0 <= i < |s.nodes| && i != 1 :: s.nodes[i] == StartNode(c, i))
    && s.nodes[1] == StartNode(c, 1).(newviews := s.nodes[1].newviews) && Collecting(s.nodes[1], 0, m)
    && (forall u | u in s.nodes[1].newviews :: u == 0)
    && s.got == (set k: nat | k < m :: (1, Report(c, Voter(1, k))))
    && (m == 2 * c.fault + 1 ==> s.highFrom[1] == Some(0))
  }

  lemma {:induction false} Reports(c: Config, rules: Rules, m: nat) returns (s: System)
    requires Full(c) && m <= 2 * c.fault + 1
    ensures Reach(c, s, rules) && Reported(c, s, m)
    decreases m
  {
    if m == 0 {
      s := StartOf(c);
      Started(c, rules);
    } else {
      var s0 := Reports(c, rules, m - 1);
      s := ReportOne(c, s0, rules, m - 1);
    }
  }

  lemma ReportOne(c: Config, s: System, rules: Rules, m: nat) returns (s': System)
    requires Full(c) && m < 2 * c.fault + 1 && Reach(c, s, rules) && Reported(c, s, m)
    ensures Reach(c, s', rules) && Reported(c, s', m + 1)
  {
    var nv := Report(c, Voter(1, m));
    assert Unicast(c.peers[1], NewViewMsg(nv)) in s.mail;
    forall k: nat | k < m ensures Report(c, Voter(1, k)) != nv {
    }
    assert (1, nv) !in s.got;
    s' := HearOne(c, s, rules, 1, nv, m);
    assert s'.got == (set k: nat | k < m + 1 :: (1, Report(c, Voter(1, k))));
  }

  // ----- time-outs

  /** The nodes below m, and node 1, are in view 2 and follow its leader; the others are in view 1. */
  ghost predicate TimedOut(c: Config, s: System, m: nat)
    requires Full(c)
  {
    && AllFit(c, s)
    && forall i | 0 <= i < |s.nodes| :: if i == 1 || i < m then Follows(c, s.nodes[i], 2, 2) else s.nodes[i].view == 1
  }

  lemma {:induction false} TimeOuts(c: Config, s: System, rules: Rules, m: nat) returns (s': System)
    requires Full(c) && Reach(c, s, rules) && TimedOut(c, s, 0) && m <= |c.peers|
    ensures Reach(c, s', rules) && TimedOut(c, s', m) && Beside(s, s', |c.peers|)
    decreases m
  {
    if m == 0 {
      s' := s;
    } else {
      var s1 := TimeOuts(c, s, rules, m - 1);
      if m - 1 == 1 {
        s' := s1;
      } else {
        s' := TimeOutOne(c, s1, rules, m - 1);
        BesideChain(s, s1, s', |c.peers|);
      }
    }
  }

  lemma TimeOutOne(c: Config, s: System, rules: Rules, k: nat) returns (s': System)
    requires Full(c) && Reach(c, s, rules) && AllFit(c, s) && k < |c.peers| && s.nodes[k].view == 1
    ensures Reach(c, s', rules) && OnlyNode(c, s, s', k) && Beside(s, s', |c.peers|)
    ensures s'.nodes[k] == s.nodes[k].(view := 2, primary := c.peers[2])
    ensures k != 2 ==> Mailed(s', Unicast(c.peers[2], NewViewMsg(NewView(1, s.nodes[k].prepareQC, c.peers[k]))))
  {
    s' := Extend(c, s, k, Timeout, rules);
    Leaves(c, k, s.nodes[k]);
    SmallMod(2, |c.peers|);
    AfterTimeOut(c, s, s', k, React(s.nodes[k], Timeout));
  }

  lemma AfterTimeOut(c: Config, s: System, s': System, k: nat, r: Result)
    requires Full(c) && AllFit(c, s) && k < |c.peers| && s' == Apply(s, k, Timeout, r)
    requires r.Ok? && Fit(c, k, r.node) && r.node == s.nodes[k].(view := 2, primary := c.peers[2]) && r.decided.None?
    requires var x := Unicast(c.peers[2], NewViewMsg(NewView(1, s.nodes[k].prepareQC, c.peers[k])));
      Sends(r.out) == if k == 2 then [] else [x]
    ensures OnlyNode(c, s, s', k) && Beside(s, s', |c.peers|) && s'.nodes[k] == r.node
    ensures k != 2 ==> Mailed(s', Unicast(c.peers[2], NewViewMsg(NewView(1, s.nodes[k].prepareQC, c.peers[k]))))
  {
    var x := Unicast(c.peers[2], NewViewMsg(NewView(1, s.nodes[k].prepareQC, c.peers[k])));
    assert Messages([x]) == {x.msg} && Messages([]) == {} && x in [x];
  }

  // ----- without A1

  /** With two proposals in one view, two conflicting blocks can be decided in that view. */
  lemma WithoutA1(c: Config) returns (s: System)
    requires Full(c)
    ensures Reach(c, s, Rules(false, true, true)) && Disagree(s)
  {
    var rules := Rules(false, true, true);
    var s0 := Reports(c, rules, 2 * c.fault + 1);
    var s1 := ProposeOne(c, s0, rules, 1, 1, BLOCK_A);
    var s2 := ProposeOne(c, s1, rules, 1, 1, BLOCK_B);
    var s3 := DecideBlock(c, s2, rules, 1, 1, BLOCK_A);
    s := DecideBlock(c, s3, rules, 1, 1, BLOCK_B);
    Conflict(s, 1, 1);
  }

  // ----- without A2

  /** Node 1 has block a decided without waiting for reports. */
  lemma EarlyDecision(c: Config) returns (s: System)
    requires Full(c)
    ensures Reach(c, s, Rules(true, false, true)) && TimedOut(c, s, 0)
    ensures Certificate(COMMIT, 1, BLOCK_A) in s.decided && forall p | PrepareMsg(p) in s.net :: p.view == 1
    ensures s.nodes[2].highQC == None && s.nodes[2].signatures == map[]
  {
    var rules := Rules(true, false, true);
    Started(c, rules);
    var s1 := ProposeOne(c, StartOf(c), rules, 1, 1, BLOCK_A);
    s := DecideBlock(c, s1, rules, 1, 1, BLOCK_A);
    SmallMod(2, |c.peers|);
  }

  /** A proposer that ignores the reports can have a block decided that conflicts with an earlier one. */
  lemma WithoutA2(c: Config) returns (s: System)
    requires Full(c)
    ensures Reach(c, s, Rules(true, false, true)) && Disagree(s)
  {
    var rules := Rules(true, false, true);
    var s2 := EarlyDecision(c);
    var s3 := TimeOuts(c, s2, rules, |c.peers|);
    var s4 := ProposeOne(c, s3, rules, 2, 2, BLOCK_B);
    s := DecideBlock(c, s4, rules, 2, 2, BLOCK_B);
    Conflict(s, 1, 2);
  }

  // ----- without A3

  /** Node 2 has consumed node 1's empty report of view 1 m times. */
  ghost predicate Repeated(c: Config, s: System, m: nat)
    requires Full(c)
  {
    && Lab(c, s, 1, 1) && Collecting(s.nodes[2], 1, m)
    && Mailed(s, Unicast(c.peers[2], NewViewMsg(NewView(1, None, c.peers[1]))))
    && (m == 2 * c.fault + 1 ==> s.highFrom[2] == Some(1))
  }

  lemma {:induction false} Repeats(c: Config, s: System, m: nat) returns (s': System)
    requires Full(c) && m <= 2 * c.fault + 1
    requires Reach(c, s, Rules(true, true, false)) && Repeated(c, s, 0)
    ensures Reach(c, s', Rules(true, true, false)) && Repeated(c, s', m)
    ensures s'.net == s.net && s'.mail == s.mail && s'.decided == s.decided && s'.nodes[1] == s.nodes[1]
    decreases m
  {
    if m == 0 {
      s' := s;
    } else {
      var s1 := Repeats(c, s, m - 1);
      s' := HearOne(c, s1, Rules(true, true, false), 2, NewView(1, None, c.peers[1]), m - 1);
    }
  }

  /** Block a is proposed, node 1 leaves its view, and node 2 counts its report 2f+1 times. */
  lemma FirstHalf(c: Config) returns (s: System)
    requires Full(c)
    ensures Reach(c, s, Rules(true, true, false)) && Lab(c, s, 1, 1) && Follows(c, s.nodes[1], 2, 2)
    ensures Mailed(s, Broadcast(Ask(c, 1, PREPARE, 1, BLOCK_A))) && s.highFrom[2] == Some(1)
    ensures s.nodes[1].signatures == map[] && s.nodes[2].signatures == map[] && s.nodes[2].highQC == None
    ensures forall p | PrepareMsg(p) in s.net :: p.view == 1
  {
    var rules := Rules(true, true, false);
    var s0 := Reports(c, rules, 2 * c.fault + 1);
    var s1 := ProposeOne(c, s0, rules, 1, 1, BLOCK_A);
    var s2 := TimeOutOne(c, s1, rules, 1);
    assert Repeated(c, s2, 0) by {
      assert s2.nodes[2] == StartNode(c, 2);
    }
    s := Repeats(c, s2, 2 * c.fault + 1);
  }

  /** Block a is one counted COMMIT vote short of its decision. */
  ghost predicate AlmostDecided(c: Config, s: System)
    requires Full(c)
  {
    var b := Ballot(COMMIT, 1, BLOCK_A);
    var last := Voter(1, 2 * c.fault);
    && AllFit(c, s) && Mailed(s, VoteTo(c, 1, COMMIT, 1, BLOCK_A, last))
    && |Shares(s.nodes[1].signatures, b)| == 2 * c.fault && last !in Shares(s.nodes[1].signatures, b)
  }

  /** All but the last voter have given their COMMIT vote and been counted. */
  lemma MostVotes(c: Config, s: System) returns (s': System)
    requires Full(c) && Reach(c, s, Rules(true, true, false)) && Lab(c, s, 1, 1)
    requires Mailed(s, Broadcast(Ask(c, 1, PREPARE, 1, BLOCK_A))) && s.nodes[1].signatures == map[]
    ensures Reach(c, s', Rules(true, true, false)) && Lab(c, s', 1, 1) && Beside(s, s', 1)
    ensures VotedFirst(s'.nodes[1], 1, Ballot(COMMIT, 1, BLOCK_A), 2 * c.fault)
    ensures Left(c, s.nodes[1], s'.nodes[1], false) && Mailed(s', Broadcast(Ask(c, 1, COMMIT, 1, BLOCK_A)))
  {
    var rules := Rules(true, true, false);
    var s1 := PreCommitBlock(c, s, rules, 1, 1, BLOCK_A);
    s' := Phased(c, s1, rules, 1, COMMIT, 1, BLOCK_A, 2 * c.fault);
    BesideChain(s, s1, s', 1);
  }

  lemma SecondHalf(c: Config, s: System) returns (s': System)
    requires Full(c) && Reach(c, s, Rules(true, true, false)) && Lab(c, s, 1, 1) && Follows(c, s.nodes[1], 2, 2)
    requires Mailed(s, Broadcast(Ask(c, 1, PREPARE, 1, BLOCK_A))) && s.nodes[1].signatures == map[]
    ensures Reach(c, s', Rules(true, true, false)) && TimedOut(c, s', 0) && AlmostDecided(c, s') && Beside(s, s', 1)
  {
    var s1 := MostVotes(c, s);
    s' := SignOne(c, s1, Rules(true, true, false), 1, COMMIT, 1, BLOCK_A, Voter(1, 2 * c.fault));
    BesideChain(s, s1, s', 1);
  }

  /** A report that is counted 2f+1 times stands for a quorum: the leader of view 2 learns nothing of
      the block that is about to be decided, and has a conflicting one decided. */
  lemma WithoutA3(c: Config) returns (s: System)
    requires Full(c)
    ensures Reach(c, s, Rules(true, true, false)) && Disagree(s)
  {
    var rules := Rules(true, true, false);
    var s0 := FirstHalf(c);
    var s1 := SecondHalf(c, s0);
    var s2 := TimeOuts(c, s1, rules, |c.peers|);
    var s3 := ProposeOne(c, s2, rules, 2, 2, BLOCK_B);
    var s4 := DecideBlock(c, s3, rules, 2, 2, BLOCK_B);
    s := CollectOne(c, s4, rules, 1, COMMIT, 1, BLOCK_A, Voter(1, 2 * c.fault));
    Conflict(s, 1, 2);
  }

  // ----- the exact condition

  /** The assumptions of `weak` are among those of `strong`. */
  predicate Weaker(weak: Rules, strong: Rules) {
    (weak.once ==> strong.once) && (weak.own ==> strong.own) && (weak.single ==> strong.single)
  }

  lemma {:induction false} RunWeaker(c: Config, tr: seq<System>, weak: Rules, strong: Rules)
    requires Weaker(weak, strong) && Run(c, tr, strong)
    ensures Run(c, tr, weak)
    decreases |tr|
  {
    if |tr| > 1 {
      assert Extended(c, tr, strong);
      RunWeaker(c, tr[..|tr| - 1], weak, strong);
      var i, a :| Step(c, tr[|tr| - 2], i, a, tr[|tr| - 1], strong);
      assert Step(c, tr[|tr| - 2], i, a, tr[|tr| - 1], weak);
      assert Extended(c, tr, weak);
    }
  }

  lemma ReachWeaker(c: Config, s: System, weak: Rules, strong: Rules)
    requires Weaker(weak, strong) && Reach(c, s, strong)
    ensures Reach(c, s, weak)
  {
    var tr: seq<System> :| |tr| > 0 && Run(c, tr, strong) && Last(tr) == s;
    RunWeaker(c, tr, weak, strong);
  }

  ghost predicate AllAgree(c: Config, rules: Rules) {
    forall s :: Reach(c, s, rules) ==> !Disagree(s)
  }

  lemma ScheduledAgrees(c: Config)
    requires ValidConfig(c)
    ensures AllAgree(c, SCHEDULED)
  {
    forall s | Reach(c, s, SCHEDULED) ensures !Disagree(s) {
      var tr: seq<System> :| |tr| > 0 && Run(c, tr, SCHEDULED) && Last(tr) == s;
      forall q, q' | q in s.decided && q' in s.decided
        ensures BasicAgreement.Ancestor(q.block, q'.block) || BasicAgreement.Ancestor(q'.block, q.block)
      {
        BasicAgreement.Agreement(c, tr, q, q');
      }
    }
  }

  /** For every f >= 1 and n = 3f+1, all runs agree if and only if all three assumptions are kept. */
  lemma AgreementExactly(c: Config, rules: Rules)
    requires Full(c)
    ensures AllAgree(c, rules) <==> rules == SCHEDULED
  {
    if rules == SCHEDULED {
      ScheduledAgrees(c);
    } else {
      var s: System;
      if !rules.once {
        s := WithoutA1(c);
        ReachWeaker(c, s, rules, Rules(false, true, true));
      } else if !rules.own {
        s := WithoutA2(c);
        ReachWeaker(c, s, rules, Rules(true, false, true));
      } else {
        s := WithoutA3(c);
        ReachWeaker(c, s, rules, Rules(true, true, false));
      }
    }
  }
}

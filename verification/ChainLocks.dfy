/**
 What a chained HotStuff node signs, locks and completes, read off the history of signed ballots alone: in
 every run, open or closed, each ballot passes the lock that its signer's earlier ballots imply, each node
 holds exactly that lock, and the completed blocks are those that the signed ballots complete.
 */
module ChainLocks {
  import opened Common
  import opened ChainNode
  import opened ChainSystem

  // ----- one proposal

  /** The lock rule. */
  predicate Permits(lock: Option<QC>, b: Block) {
    match b.justify
    case None => true
    case Some(j) =>
      match lock
      case None => j.view > 0 || b.parentHash == Raw("")
      case Some(q) => j.view > q.view || b.parentHash == Digest(q.block)
  }

  /** The block that b extends, if b carries its certificate. */
  function Parent(b: Block): Option<Block> {
    match b.justify
    case None => None
    case Some(j) => if b.parentHash == Digest(j.block) then Some(j.block) else None
  }

  /** The certificate of the block two links above b. */
  function LockOf(b: Block): Option<QC> {
    match Parent(b)
    case None => None
    case Some(p) => if Parent(p).Some? then p.justify else None
  }

  /** The block three links above b. */
  function Completes(b: Block): Option<Block> {
    match LockOf(b)
    case None => None
    case Some(q) => Parent(q.block)
  }

  /** What signing block b of view v does to the certificates and to the execution. */
  ghost predicate Taken(s: Node, b: Block, s': Node, out: PhaseState) {
    && s'.genericQC == (if Parent(b).Some? then b.justify else s.genericQC)
    && s'.lockedQC == (if LockOf(b).Some? then LockOf(b) else s.lockedQC)
    && s'.highQC == s.highQC && s'.generics == s.generics && s'.taken == s.taken + {b.cmd}
    && !out.Over?
    && (out.Complete? <==> Completes(b).Some?) && (out.Complete? ==> Some(out.executed) == Completes(b))
  }

  /** The vote of view v leaves with the view, unless the node collects the votes itself. */
  ghost predicate VoteGiven(s: Node, b: Block, s': Node, sends: seq<Send>)
    requires s.keypair.Some? && s.id in s.pks
  {
    var share := Share(s.keypair.value, Ballot(s.view, b));
    if s.nextLeader == s.id then
      && sends == [] && s'.view == s.view
      && s'.signatures == s.signatures[
            Ballot(s.view, b) := Shares(s.signatures, Ballot(s.view, b))[s.pks[s.id] := share]]
    else
      && sends != [] && sends[0] == Unicast(s.nextLeader, VoteMsg(Vote(s.view, b, share, s.id)))
      && s'.view == s.view + 1 && s'.signatures == s.signatures
  }

  /** A node that can sign and look up leaders signs a proposal of its view exactly if the lock rule permits it:
      the justify is newer than the lock or the parent is the locked block; without a lock, the justify
      is not of view 0 or the parent is empty; without a justify, always. A refused proposal changes nothing
      but the record of taken commands. */
  lemma SignsExactly(s: Node, g: Generic)
    requires g.block.Some? && g.view == s.view && s.keypair.Some? && s.id in s.pks && LeaderKnown(s.numbers, s.view + 1)
    ensures var r := HandleGeneric(s, g);
      var b := g.block.value;
      && r.Ok?
      && if Permits(s.lockedQC, b)
         then r.signed == [Ballot(s.view, b)] && Taken(s, b, r.node, r.out) && VoteGiven(s, b, r.node, Sends(r.out))
         else r == Ok(s.(taken := s.taken + {b.cmd}), Continue([]), [])
  {
    var b := g.block.value;
    var s1 := s.(taken := s.taken + {b.cmd});
    assert NextView(s1).Ok?;
    if Permits(s.lockedQC, b) {
      var v := CastVote(s1, b);
      VoteCast(s1, b);
      AdvanceTakes(v.node, b);
      assert HandleGeneric(s, g).node == Advance(v.node, b).0;
    }
  }

  /** A node without a key gives no vote and stays in its view, but takes the certificates of a permitted block and
      executes; one with a key that it has no number for fails. */
  lemma KeylessTakes(s: Node, g: Generic)
    requires g.block.Some? && g.view == s.view && Permits(s.lockedQC, g.block.value)
    ensures var r := HandleGeneric(s, g);
      var b := g.block.value;
      && (s.keypair.None? ==>
            r.Ok? && r.signed == [] && Sends(r.out) == [] && Taken(s, b, r.node, r.out)
            && r.node == s.(genericQC := r.node.genericQC, lockedQC := r.node.lockedQC, taken := r.node.taken))
      && (s.keypair.Some? && s.id !in s.pks ==> r == Panic)
  {
    var b := g.block.value;
    AdvanceTakes(s.(taken := s.taken + {b.cmd}), b);
  }

  lemma VoteCast(s: Node, b: Block)
    requires s.keypair.Some? && s.id in s.pks && LeaderKnown(s.numbers, s.view + 1)
    ensures var r := CastVote(s, b);
      && r.Ok? && r.signed == [Ballot(s.view, b)] && r.out.Continue? && VoteGiven(s, b, r.node, Sends(r.out))
      && r.node.genericQC == s.genericQC && r.node.lockedQC == s.lockedQC && r.node.highQC == s.highQC
      && r.node.generics == s.generics && r.node.taken == s.taken
  {
    assert NextView(s).Ok?;
  }

  lemma AdvanceTakes(s: Node, b: Block)
    ensures var (s', executed) := Advance(s, b);
      && s' == s.(genericQC := if Parent(b).Some? then b.justify else s.genericQC,
                  lockedQC := if LockOf(b).Some? then LockOf(b) else s.lockedQC)
      && executed == Completes(b)
  {
  }

  // ----- the history of ballots

  /** The lock that the ballots of node i imply: that of its last ballot with a two-chain. */
  function LockAfter(h: seq<Cast>, i: nat): Option<QC> {
    if h == [] then None
    else
      var x := h[|h| - 1];
      if x.voter == i && LockOf(x.ballot.block).Some? then LockOf(x.ballot.block) else LockAfter(h[..|h| - 1], i)
  }

  /** Each ballot passes the lock that its signer's earlier ballots imply. */
  ghost predicate LocksKept(h: seq<Cast>) {
    forall k | 0 <= k < |h| :: Permits(LockAfter(h[..k], h[k].voter), h[k].ballot.block)
  }

  /** The blocks that some signed ballot completes. */
  ghost predicate Completed(h: seq<Cast>, b: Block) {
    exists k :: 0 <= k < |h| && Completes(h[k].ballot.block) == Some(b)
  }

  ghost predicate LocksHeld(s: System) {
    forall i | 0 <= i < |s.nodes| :: s.nodes[i].lockedQC == LockAfter(s.hist, i)
  }

  ghost predicate DoneExactly(s: System) {
    forall b :: b in s.done <==> Completed(s.hist, b)
  }

  ghost predicate ByHistory(s: System) {
    LocksHeld(s) && LocksKept(s.hist) && DoneExactly(s)
  }

  /** What an action signs and does with the lock: nothing, or one permitted ballot. */
  ghost predicate Locks(s: Node, r: Result) {
    r.Ok? ==>
      if r.signed == [] then r.node.lockedQC == s.lockedQC && !r.out.Complete?
      else
        var b := r.signed[0].block;
        && |r.signed| == 1 && Permits(s.lockedQC, b)
        && r.node.lockedQC == (if LockOf(b).Some? then LockOf(b) else s.lockedQC)
        && Executed(r.out) == Completes(b)
  }

  function Executed(out: PhaseState): Option<Block> {
    if out.Complete? then Some(out.executed) else None
  }

  lemma GenericLocks(s: Node, g: Generic)
    requires s.keypair.Some? && s.id in s.pks && LeaderKnown(s.numbers, s.view + 1)
    ensures Locks(s, HandleGeneric(s, g))
  {
    if g.block.Some? && g.view == s.view {
      SignsExactly(s, g);
    }
  }

  lemma ReactLocks(s: Node, a: Action)
    requires s.keypair.Some? && s.id in s.pks && LeaderKnown(s.numbers, s.view + 1)
    ensures Locks(s, React(s, a))
  {
    match a
    case Deliver(GenericMsg(g)) => GenericLocks(s, g);
    case Deliver(VoteMsg(v)) =>
    case Propose(cmd) => GenericLocks(s.(taken := s.taken + {cmd}), Proposal(s, cmd));
    case Timeout =>
  }

  lemma {:induction false} LockAfterMore(h: seq<Cast>, i: nat, b: Ballot, j: nat)
    ensures LockAfter(h + [Cast(i, b)], j)
      == if i == j && LockOf(b.block).Some? then LockOf(b.block) else LockAfter(h, j)
  {
    assert (h + [Cast(i, b)])[..|h|] == h;
  }

  lemma {:induction false} HistoryMore(h: seq<Cast>, x: Cast)
    requires LocksKept(h) && Permits(LockAfter(h, x.voter), x.ballot.block)
    ensures LocksKept(h + [x])
    ensures forall b :: Completed(h + [x], b) <==> Completed(h, b) || Completes(x.ballot.block) == Some(b)
  {
    var h' := h + [x];
    forall k | 0 <= k < |h'| ensures Permits(LockAfter(h'[..k], h'[k].voter), h'[k].ballot.block) {
      assert h'[..k] == h[..k];
      assert k == |h| ==> h[..k] == h;
    }
    forall b ensures Completed(h', b) <==> Completed(h, b) || Completes(x.ballot.block) == Some(b) {
      if Completed(h, b) {
        var k :| 0 <= k < |h| && Completes(h[k].ballot.block) == Some(b);
        assert h'[k] == h[k];
      }
      assert h'[|h|] == x;
    }
  }

  lemma StepHistory(s: System, i: nat, r: Result, s': System)
    requires i < |s.nodes| && ByHistory(s) && s' == Apply(s, i, r) && Locks(s.nodes[i], r)
    ensures ByHistory(s')
  {
    if r.Ok? {
      if r.signed == [] {
        assert Casts(i, r.signed) == [] && s'.hist == s.hist;
      } else {
        var b := r.signed[0];
        assert Casts(i, r.signed) == [Cast(i, b)];
        HistoryMore(s.hist, Cast(i, b));
        forall j | 0 <= j < |s.nodes| ensures s'.nodes[j].lockedQC == LockAfter(s'.hist, j) {
          LockAfterMore(s.hist, i, b, j);
        }
      }
    }
  }

  lemma {:induction false} InitHistory(c: Config, s: System)
    requires ValidConfig(c) && Init(c, s)
    ensures ByHistory(s)
  {
    forall i | 0 <= i < |s.nodes| ensures s.nodes[i].lockedQC == None {
      InitNodeWired(c, i, s.nodes[i]);
    }
  }

  lemma {:induction false} NextHistory(c: Config, s: System, s': System, open: bool)
    requires ValidConfig(c) && Inv(c, s) && ByHistory(s) && Next(c, s, s', open)
    ensures ByHistory(s')
  {
    var i, a :| Step(c, s, i, a, s', open);
    TakeStep(c, s, i, a, s', open);
  }

  lemma {:induction false} TakeStep(c: Config, s: System, i: nat, a: Action, s': System, open: bool)
    requires ValidConfig(c) && Inv(c, s) && ByHistory(s) && Step(c, s, i, a, s', open)
    ensures ByHistory(s')
  {
    var r := React(s.nodes[i], a);
    assert Locks(s.nodes[i], r) by {
      Ready(c, s, i);
      ReactLocks(s.nodes[i], a);
    }
    StepHistory(s, i, r, s');
  }

  lemma Ready(c: Config, s: System, i: nat)
    requires ValidConfig(c) && Inv(c, s) && i < |s.nodes|
    ensures var node := s.nodes[i];
      node.keypair.Some? && node.id in node.pks && LeaderKnown(node.numbers, node.view + 1)
  {
    assert Wired(c, i, s.nodes[i]);
    WiredLookup(c, i, s.nodes[i], s.nodes[i].view + 1);
  }

  lemma {:induction false} RunHistory(c: Config, tr: seq<System>, open: bool)
    requires ValidConfig(c) && Run(c, tr, open)
    ensures ByHistory(Last(tr))
  {
    if |tr| == 1 {
      InitHistory(c, tr[0]);
    } else {
      assert Extended(c, tr, open);
      var front := tr[..|tr| - 1];
      assert Last(front) == tr[|tr| - 2];
      RunHistory(c, front, open);
      RunInv(c, front, open);
      NextHistory(c, Last(front), tr[|tr| - 1], open);
    }
  }

  /** No ballot of any run, open or closed, is signed against the lock its signer held. */
  lemma {:induction false} NeverAgainstLock(c: Config, tr: seq<System>, open: bool, k: nat)
    requires ValidConfig(c) && Run(c, tr, open) && k < |Last(tr).hist|
    ensures var x := Last(tr).hist[k];
      match x.ballot.block.justify
      case None => true
      case Some(j) =>
        match LockAfter(Last(tr).hist[..k], x.voter)
        case None => j.view > 0 || x.ballot.block.parentHash == Raw("")
        case Some(lock) => j.view > lock.view || x.ballot.block.parentHash == Digest(lock.block)
  {
    RunHistory(c, tr, open);
    var h := Last(tr).hist;
    assert Permits(LockAfter(h[..k], h[k].voter), h[k].ballot.block);
  }

  /** In every run each node holds the lock of its last ballot with a two-chain, and exactly the blocks that
      top a three-chain of some ballot have been completed. */
  lemma {:induction false} LocksAndCompletions(c: Config, tr: seq<System>, open: bool)
    requires ValidConfig(c) && Run(c, tr, open)
    ensures var s := Last(tr);
      && (forall i | 0 <= i < |s.nodes| :: s.nodes[i].lockedQC == LockAfter(s.hist, i))
      && forall b :: b in s.done <==> Completed(s.hist, b)
  {
    RunHistory(c, tr, open);
  }
}

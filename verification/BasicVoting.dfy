/**
 What a basic HotStuff node votes for: exactly the proposals that extend their justify and pass the lock
 rule, and in scheduled runs every proposal of a view later than its lock.
 */
module BasicVoting {
  import opened Common
  import opened BasicNode
  import opened BasicSystem
  import opened BasicAgreement

  /** A node with a key votes for a proposal exactly if the block's parent is the block of the justify and
      the justify is newer than the lock or the parent is the locked block; without a lock, exactly if
      the justify is not of view 0; without a justify, exactly if the block has no parent. The vote is
      a share of the ballot of the proposal, sent to its sender. */
  lemma VotesExactly(s: Node, p: Prepare)
    requires s.keypair.Some?
    ensures var r := HandlePrepare(s, p);
      var b := Ballot(PREPARE, p.view, p.block);
      var vote := VoteMsg(PREPARE, Vote(p.view, p.block, Some(Share(s.keypair.value, b)), s.id));
      && r.Ok? && r.decided.None?
      && (if
            match p.justify
            case None => p.block.parentHash == Raw("")
            case Some(j) =>
              && p.block.parentHash == Digest(j.block)
              && match s.lockedQC
                 case None => j.view > 0
                 case Some(lock) => j.view > lock.view || j.block == lock.block
          then r == Ok(s.(primary := p.from), Continue([Unicast(p.from, vote)]), Some(b), None)
          else r == Ok(s, Continue([]), None, None))
  {
  }

  // ----- scheduled runs

  /** Views start at 1. */
  ghost predicate Positive(s: System) {
    && (forall i | 0 <= i < |s.nodes| :: s.nodes[i].view > 0)
    && forall p | PrepareMsg(p) in s.net :: p.view > 0
  }

  lemma StepPositive(c: Config, s: System, i: nat, a: Action, s': System, rules: Rules)
    requires Inv(c, s) && Positive(s) && Step(c, s, i, a, s', rules)
    ensures Positive(s')
  {
    var r := React(s.nodes[i], a);
    assert Wired(c, i, s.nodes[i]);
    ReactEffect(s.signed, s.nodes[i], a);
    if r.Ok? {
      forall p | PrepareMsg(p) in s'.net ensures p.view > 0 {
        if PrepareMsg(p) !in s.net {
          var m :| m in Sends(r.out) && m.msg == PrepareMsg(p);
        }
      }
    }
  }

  lemma {:induction false} NextPositive(c: Config, s: System, s': System, rules: Rules)
    requires Inv(c, s) && Positive(s) && Next(c, s, s', rules)
    ensures Positive(s')
  {
    var i, a :| Step(c, s, i, a, s', rules);
    StepPositive(c, s, i, a, s', rules);
  }

  lemma {:induction false} RunPositive(c: Config, tr: seq<System>, rules: Rules)
    requires Run(c, tr, rules)
    ensures Inv(c, Last(tr)) && Positive(Last(tr))
  {
    RunInv(c, tr, rules);
    if |tr| > 1 {
      assert Extended(c, tr, rules);
      var front := tr[..|tr| - 1];
      assert Last(front) == tr[|tr| - 2];
      RunPositive(c, front, rules);
      NextPositive(c, Last(front), tr[|tr| - 1], rules);
    }
  }

  /** The block of a proposal's justify is the locked one, or the justify is newer than the lock. */
  lemma JustifyPasses(c: Config, s: System, i: nat, p: Prepare)
    requires ValidConfig(c) && Inv(c, s) && Sched(c, s) && PrepareMsg(p) in s.net && i < |s.nodes|
    requires s.nodes[i].lockedQC.Some? && s.nodes[i].lockedQC.value.view < p.view
    ensures var lock := s.nodes[i].lockedQC.value;
      p.justify.Some? && (p.justify.value.view > lock.view || p.justify.value.block == lock.block)
  {
    var lock := s.nodes[i].lockedQC.value;
    assert NodeOk(s.signed, c.fault, s.nodes[i]);
    LaterJustify(c, s, lock.view, lock.block, p);
    var j := p.justify.value;
    if j.view == lock.view {
      assert MessageOk(s.signed, c.fault, PrepareMsg(p));
      Ladder(c, s, j.view, j.block, PREPARE);
      Ladder(c, s, lock.view, lock.block, PRE_COMMIT);
      var q :| PrepareMsg(q) in s.net && q.view == j.view && q.block == j.block;
      var q' :| PrepareMsg(q') in s.net && q'.view == lock.view && q'.block == lock.block;
      assert q == q';
    }
  }

  /** In every scheduled run, a queued proposal is voted for by every node that holds no lock of its view
      or a later one. */
  lemma {:induction false} ProposalsAccepted(c: Config, tr: seq<System>, i: nat, p: Prepare)
    requires ValidConfig(c) && Run(c, tr, SCHEDULED) && PrepareMsg(p) in Last(tr).net && i < |Last(tr).nodes|
    requires var lock := Last(tr).nodes[i].lockedQC; lock.Some? ==> lock.value.view < p.view
    ensures HandlePrepare(Last(tr).nodes[i], p).Ok?
    ensures HandlePrepare(Last(tr).nodes[i], p).signed == Some(Ballot(PREPARE, p.view, p.block))
  {
    var s := Last(tr);
    var node := s.nodes[i];
    RunSched(c, tr);
    RunPositive(c, tr, SCHEDULED);
    assert Wired(c, i, node) && MessageOk(s.signed, c.fault, PrepareMsg(p));
    if node.lockedQC.Some? {
      JustifyPasses(c, s, i, p);
    } else if p.justify.Some? {
      Ladder(c, s, p.justify.value.view, p.justify.value.block, PREPARE);
    }
    VotesExactly(node, p);
  }
}

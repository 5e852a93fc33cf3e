/**
 Agreement of chained HotStuff as long as no view fails: if every proposal carries the certificate of
 the view just before it (or none in view 1), all certified blocks, and so all completed ones, lie on
 one parent chain.
 */
module ChainAgreement {
  import opened Common
  import opened ChainNode
  import opened ChainSystem

  /** `b` is `d` or one of the blocks that `d` extends. */
  predicate Ancestor(b: Block, d: Block) {
    b == d || (d.parentHash.Digest? && Ancestor(b, d.parentHash.block))
  }

  /** A guard on proposals: the certificate is older than the view, by at most `gap` views. No certificate
      counts as one of view 0. */
  predicate Within(view: nat, justify: Option<QC>, gap: nat) {
    var base := if justify.None? then 0 else justify.value.view;
    base < view <= base + gap
  }

  ghost predicate AllWithin(net: set<Send>, gap: nat) {
    forall m | m in net && m.msg.GenericMsg? && m.msg.generic.block.Some? ::
      Within(m.msg.generic.view, m.msg.generic.block.value.justify, gap)
  }

  // ----- every ballot is for a queued proposal that is linked to its justify

  ghost predicate ProposalOf(net: set<Send>, g: Generic, b: Ballot) {
    Broadcast(GenericMsg(g)) in net && g.view == b.view && g.block == Some(b.block)
  }

  ghost predicate Proposed(net: set<Send>, b: Ballot) {
    exists g :: ProposalOf(net, g, b)
  }

  predicate ParentIsJustify(b: Block) {
    b.parentHash == if b.justify.Some? then Digest(b.justify.value.block) else EMPTY_HASH
  }

  /** Blocks travel in broadcasts and extend the block of their justify. */
  ghost predicate BlocksLinked(net: set<Send>) {
    forall m | m in net && m.msg.GenericMsg? && m.msg.generic.block.Some? ::
      m.Broadcast? && ParentIsJustify(m.msg.generic.block.value)
  }

  ghost predicate Sourced(s: System) {
    BlocksLinked(s.net) && forall k | 0 <= k < |s.hist| :: Proposed(s.net, s.hist[k].ballot)
  }

  lemma ReplicaSends(s: Node, b: Block)
    ensures var r := ReplicaHandleGeneric(s, b);
      r.Ok? ==>
        && (forall x | x in r.signed :: x == Ballot(s.view, b))
        && forall m | m in Sends(r.out) && m.msg.GenericMsg? :: m.msg.generic.block.None?
  {
  }

  lemma GenericSends(s: Node, g: Generic)
    ensures var r := HandleGeneric(s, g);
      r.Ok? ==>
        && (forall x | x in r.signed :: x.view == g.view && g.block == Some(x.block))
        && forall m | m in Sends(r.out) && m.msg.GenericMsg? :: m.msg.generic.block.None?
  {
    if g.block.Some? {
      ReplicaSends(s.(taken := s.taken + {g.block.value.cmd}), g.block.value);
    }
  }

  /** A handler signs only the proposal it works on, and sends no block but its own proposal. */
  lemma ReactSends(s: Node, a: Action)
    ensures var r := React(s, a);
      r.Ok? ==>
        && (forall x | x in r.signed :: Worked(s, a).Some? && x.view == Worked(s, a).value.view
                                         && Worked(s, a).value.block == Some(x.block))
        && (a.Propose? && r.signed != [] ==> Broadcast(GenericMsg(Proposal(s, a.cmd))) in Sends(r.out))
        && forall m | m in Sends(r.out) && m.msg.GenericMsg? && m.msg.generic.block.Some? ::
             a.Propose? && m == Broadcast(GenericMsg(Proposal(s, a.cmd)))
  {
    match a
    case Deliver(GenericMsg(g)) => GenericSends(s, g);
    case Propose(cmd) =>
      var g := Proposal(s, cmd);
      var s1 := s.(taken := s.taken + {cmd});
      GenericSends(s1, g);
      var own := Broadcast(GenericMsg(g));
      var r, r' := HandleGeneric(s1, g), HandleRequest(s, cmd);
      if r.Ok? && !r.out.Over? {
        assert r'.signed == r.signed && Sends(r'.out) == [own] + Sends(r.out);
      }
    case _ =>
  }

  lemma StepSourced(c: Config, s: System, i: nat, a: Action, s': System)
    requires ValidConfig(c) && Sourced(s) && Step(c, s, i, a, s', false)
    ensures Sourced(s')
  {
    var node := s.nodes[i];
    var r := React(node, a);
    ReactSends(node, a);
    if r.Ok? {
      forall k | 0 <= k < |s'.hist| ensures Proposed(s'.net, s'.hist[k].ballot) {
        if k < |s.hist| {
          assert s'.hist[k] == s.hist[k] && Proposed(s.net, s.hist[k].ballot);
          var g :| ProposalOf(s.net, g, s.hist[k].ballot);
          assert ProposalOf(s'.net, g, s.hist[k].ballot);
        } else {
          var b := r.signed[k - |s.hist|];
          assert s'.hist[k] == Cast(i, b) && b in r.signed;
          NewlyProposed(c, s, i, a, s', b);
        }
      }
    }
  }

  lemma NewlyProposed(c: Config, s: System, i: nat, a: Action, s': System, b: Ballot)
    requires ValidConfig(c) && BlocksLinked(s.net) && Step(c, s, i, a, s', false) && React(s.nodes[i], a).Ok?
    requires b in React(s.nodes[i], a).signed
    ensures Proposed(s'.net, b)
  {
    ReactSends(s.nodes[i], a);
    var g := Worked(s.nodes[i], a).value;
    if a.Deliver? {
      assert Queued(s.net, c.peers[i], GenericMsg(g));
    }
    assert ProposalOf(s'.net, g, b);
  }

  lemma {:induction false} RunSourced(c: Config, tr: seq<System>)
    requires ValidConfig(c) && Run(c, tr, false)
    ensures Sourced(Last(tr))
  {
    if |tr| > 1 {
      assert Extended(c, tr, false);
      var front := tr[..|tr| - 1];
      var s := Last(front);
      assert s == tr[|tr| - 2];
      RunSourced(c, front);
      var i, a :| Step(c, s, i, a, tr[|tr| - 1], false);
      StepSourced(c, s, i, a, tr[|tr| - 1]);
    }
  }

  // ----- one chain

  /** A certified ballot is for a queued proposal whose justify is certified too. */
  lemma CertifiedProposal(c: Config, s: System, b: Ballot) returns (g: Generic)
    requires Sourced(s) && AllBacked(c, s) && Certified(s.hist, c.fault, b)
    ensures ProposalOf(s.net, g, b) && Backed(s.hist, c.fault, b.block.justify)
  {
    var x :| x in Signers(s.hist, b);
    var k :| 0 <= k < |s.hist| && s.hist[k].ballot == b && s.hist[k].voter == x;
    g :| ProposalOf(s.net, g, s.hist[k].ballot);
    assert MessageBacked(s.hist, c.fault, Broadcast(GenericMsg(g)).msg);
  }

  /** If all proposals carry the certificate of the view before, a certified ballot of an earlier view is for
      an ancestor. */
  lemma {:induction false} OneChain(c: Config, tr: seq<System>, b: Ballot, d: Ballot)
    requires ValidConfig(c) && Run(c, tr, false) && AllWithin(Last(tr).net, 1)
    requires Certified(Last(tr).hist, c.fault, b) && Certified(Last(tr).hist, c.fault, d) && b.view <= d.view
    ensures Ancestor(b.block, d.block)
    decreases d.view
  {
    var s := Last(tr);
    if b.view == d.view {
      CertificateUnique(c, tr, false, b, d);
    } else {
      RunSourced(c, tr);
      RunBacked(c, tr);
      var gb := CertifiedProposal(c, s, b);
      var gd := CertifiedProposal(c, s, d);
      assert Within(b.view, b.block.justify, 1) by {
        assert Broadcast(GenericMsg(gb)) in s.net;
      }
      assert Within(d.view, d.block.justify, 1) && ParentIsJustify(d.block) by {
        assert Broadcast(GenericMsg(gd)) in s.net;
      }
      var q := d.block.justify.value;
      OneChain(c, tr, b, Ballot(q.view, q.block));
    }
  }

  /** Two completed blocks of which neither extends the other. */
  ghost predicate Disagree(s: System) {
    exists b, d :: b in s.done && d in s.done && !Ancestor(b, d) && !Ancestor(d, b)
  }

  /** If all proposals of a closed run carry the certificate of the view before, its completed blocks lie
      on one parent chain. */
  lemma {:induction false} DirectAgrees(c: Config, tr: seq<System>)
    requires ValidConfig(c) && Run(c, tr, false) && AllWithin(Last(tr).net, 1)
    ensures !Disagree(Last(tr))
  {
    var s := Last(tr);
    forall b, d | b in s.done && d in s.done ensures Ancestor(b, d) || Ancestor(d, b) {
      ThreeChainExecution(c, tr, b);
      ThreeChainExecution(c, tr, d);
      var b2, b3, b4 :| ThreeChain(s.hist, c.fault, b, b2, b3, b4);
      var d2, d3, d4 :| ThreeChain(s.hist, c.fault, d, d2, d3, d4);
      if b4.view <= d4.view {
        OneChain(c, tr, Ballot(b4.view, b), Ballot(d4.view, d));
      } else {
        OneChain(c, tr, Ballot(d4.view, d), Ballot(b4.view, b));
      }
    }
  }
}

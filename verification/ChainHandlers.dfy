/**
 What the chained HotStuff handlers beside the proposal handler do, in the protocol's terms, and where the
 reports and proposals of a run come from.
 */
module ChainHandlers {
  import opened Common
  import opened ChainNode
  import opened ChainSystem
  import opened ChainLocks

  // ----- one step

  /** Leaving a view: the leaders of the next two views are looked up modulo the number of nodes, and the new
      leader gets a report with the node's certificate, unless the node is that leader. */
  lemma LeavesView(s: Node)
    ensures var n := |s.numbers|;
      if n == 0 || (s.view + 1) % n !in s.numbers || (s.view + 2) % n !in s.numbers then NextView(s) == Panic
      else
        var leader := s.numbers[(s.view + 1) % n];
        var report := Unicast(leader, GenericMsg(Generic(s.view, None, s.genericQC, s.id)));
        NextView(s) == Ok(s.(view := s.view + 1, currentLeader := leader, nextLeader := s.numbers[(s.view + 2) % n]),
                          Continue(if leader == s.id then [] else [report]), [])
  {
  }

  /** The report that makes 2f+1 of its view moves the node on with the first of the newest certificates among
      its own and the reported ones; any other report is only kept. The node sends nothing. */
  lemma CountsReport(s: Node, g: Generic, high: Option<QC>)
    requires g.block.None?
    requires var all := (if g.view in s.generics then s.generics[g.view] else []) + [g];
      IsFirstNewest(high, all, s.genericQC)
    ensures var all := (if g.view in s.generics then s.generics[g.view] else []) + [g];
      var kept := s.(generics := s.generics[g.view := all]);
      HandleGeneric(s, g)
      == if |all| != 2 * s.fault + 1 then Ok(kept, Continue([]), [])
         else match NextView(kept.(highQC := high, genericQC := high))
              case Panic => Panic
              case Ok(s', _, _) => Ok(s', Over, [])
  {
    var all := (if g.view in s.generics then s.generics[g.view] else []) + [g];
    HighQCFirst(all, s.genericQC);
    FirstNewestUnique(high, HighQC(all, s.genericQC), all, s.genericQC);
  }

  predicate Newer(a: Option<QC>, b: Option<QC>) {
    a.Some? && (b.None? || a.value.view > b.value.view)
  }

  /** Of a node's own certificate and the reported ones, in this order, the first that no other is newer than. */
  ghost predicate IsFirstNewest(r: Option<QC>, gs: seq<Generic>, own: Option<QC>) {
    && !Newer(own, r) && (forall k | 0 <= k < |gs| :: !Newer(gs[k].justify, r))
    && (r == own
        || exists k :: 0 <= k < |gs| && gs[k].justify == r && Newer(r, own)
                       && forall j | 0 <= j < k :: Newer(r, gs[j].justify))
  }

  lemma FirstNewestUnique(a: Option<QC>, b: Option<QC>, gs: seq<Generic>, own: Option<QC>)
    requires IsFirstNewest(a, gs, own) && IsFirstNewest(b, gs, own)
    ensures a == b
  {
    if a != own && b != own {
      var k :| 0 <= k < |gs| && gs[k].justify == a && Newer(a, own) && forall j | 0 <= j < k :: Newer(a, gs[j].justify);
      var l :| 0 <= l < |gs| && gs[l].justify == b && Newer(b, own) && forall j | 0 <= j < l :: Newer(b, gs[j].justify);
      assert k == l;
    }
  }

  lemma {:induction false} HighQCFirst(gs: seq<Generic>, own: Option<QC>)
    ensures IsFirstNewest(HighQC(gs, own), gs, own)
  {
    if gs != [] {
      var n := |gs| - 1;
      var front, r := gs[..n], HighQC(gs[..n], own);
      HighQCFirst(front, own);
      if Newer(gs[n].justify, r) {
        assert gs[n].justify == HighQC(gs, own);
        forall j | 0 <= j < n ensures Newer(gs[n].justify, gs[j].justify) {
          assert front[j] == gs[j];
        }
      } else {
        forall k | 0 <= k < n ensures gs[k] == front[k] {
        }
        if r != own {
          var k :| 0 <= k < |front| && front[k].justify == r && Newer(r, own)
            && forall j | 0 <= j < k :: Newer(r, front[j].justify);
          assert gs[k].justify == r && forall j | 0 <= j < k :: Newer(r, gs[j].justify);
        }
      }
    }
  }

  /** A vote of an unknown sender fails; a share that is not the sender's for this ballot is ignored; any other is
      filed under its number, and the one that makes 2f+1 forms the certificate. */
  lemma CountsVote(s: Node, v: Vote)
    ensures var ballot := Ballot(v.view, v.block);
      if v.from !in s.pks then HandleVote(s, v) == Panic
      else if v.share != Share(s.pks[v.from], ballot) then HandleVote(s, v) == Ok(s, Continue([]), [])
      else
        var known := (if ballot in s.signatures then s.signatures[ballot] else map[])[s.pks[v.from] := v.share];
        var filed := s.(signatures := s.signatures[ballot := known]);
        if |known| != 2 * s.fault + 1 then HandleVote(s, v) == Ok(filed, Continue([]), [])
        else if s.keypair.None? then HandleVote(s, v) == Panic
        else
          HandleVote(s, v)
          == Ok(filed.(genericQC := Some(QC(v.view, v.block, Some(Combined(ballot))))), Continue([]), [])
  {
  }

  /** A request is proposed to all on the node's high certificate, or on nothing without one, and then handled as
      the node's own proposal. */
  lemma Proposes(s: Node, cmd: string)
    requires s.keypair.Some? && s.id in s.pks && LeaderKnown(s.numbers, s.view + 1)
    ensures var b := Block(cmd, if s.highQC.None? then Raw("") else Digest(s.highQC.value.block), s.highQC);
      var own := Generic(s.view, Some(b), None, s.id);
      var r := HandleGeneric(s, own);
      && r.Ok? && HandleRequest(s, cmd).Ok?
      && HandleRequest(s, cmd).node == r.node && HandleRequest(s, cmd).signed == r.signed
      && Sends(HandleRequest(s, cmd).out) == [Broadcast(GenericMsg(own))] + Sends(r.out)
      && Executed(HandleRequest(s, cmd).out) == Executed(r.out)
  {
    var s1 := s.(taken := s.taken + {cmd});
    GenericNoPanic(s, Proposal(s, cmd));
    GenericNoPanic(s1, Proposal(s, cmd));
    TakenTwice(s, s1, Proposal(s, cmd));
  }

  lemma TakenTwice(s: Node, s1: Node, g: Generic)
    requires g.block.Some? && s1 == s.(taken := s.taken + {g.block.value.cmd})
    ensures HandleGeneric(s1, g) == HandleGeneric(s, g) && !(HandleGeneric(s, g).Ok? && HandleGeneric(s, g).out.Over?)
  {
    assert s1.taken + {g.block.value.cmd} == s1.taken;
  }

  // ----- every run

  /** A report goes from another node to the leader of the view after it; a proposal goes to all. */
  ghost predicate Addressed(c: Config, m: Send)
    requires |c.peers| > 0
  {
    m.msg.GenericMsg? ==>
      && m.msg.generic.from in c.peers
      && if m.msg.generic.block.Some? then m.Broadcast?
         else m.Unicast? && m.to == c.peers[NextLeader(c, m.msg.generic.view)] && m.msg.generic.from != m.to
  }

  lemma VoteAddressed(c: Config, i: nat, s: Node, b: Block, m: Send)
    requires ValidConfig(c) && i < |c.peers| && Wired(c, i, s)
    requires CastVote(s, b).Ok? && m in Sends(CastVote(s, b).out)
    ensures Addressed(c, m)
  {
    LeaveAddressed(c, i, s, m);
  }

  lemma LeaveAddressed(c: Config, i: nat, s: Node, m: Send)
    requires ValidConfig(c) && i < |c.peers| && Wired(c, i, s)
    ensures NextView(s).Ok? && m in Sends(NextView(s).out) ==> Addressed(c, m)
  {
    WiredLookup(c, i, s, s.view + 1);
    LeavesView(s);
    if NextView(s).Ok? && m in Sends(NextView(s).out) {
      var leader := c.peers[NextLeader(c, s.view)];
      assert m == Unicast(leader, GenericMsg(Generic(s.view, None, s.genericQC, s.id))) && leader != s.id;
    }
  }

  lemma GenericAddressed(c: Config, i: nat, s: Node, g: Generic, m: Send)
    requires ValidConfig(c) && i < |c.peers| && Wired(c, i, s)
    requires HandleGeneric(s, g).Ok? && m in Sends(HandleGeneric(s, g).out)
    ensures Addressed(c, m)
  {
    if g.block.Some? {
      var s1 := s.(taken := s.taken + {g.block.value.cmd});
      assert m in Sends(CastVote(s1, g.block.value).out);
      VoteAddressed(c, i, s1, g.block.value, m);
    }
  }

  lemma ReactAddressed(c: Config, i: nat, s: Node, a: Action, m: Send)
    requires ValidConfig(c) && i < |c.peers| && Wired(c, i, s) && React(s, a).Ok? && m in Sends(React(s, a).out)
    ensures Addressed(c, m)
  {
    match a
    case Deliver(GenericMsg(g)) => GenericAddressed(c, i, s, g, m);
    case Deliver(VoteMsg(v)) => CountsVote(s, v);
    case Propose(cmd) =>
      WiredLookup(c, i, s, s.view + 1);
      Proposes(s, cmd);
      var g := Proposal(s, cmd);
      if m != Broadcast(GenericMsg(g)) {
        GenericAddressed(c, i, s, g, m);
      }
    case Timeout => LeaveAddressed(c, i, s, m);
  }

  lemma {:induction false} NextAddressed(c: Config, s: System, s': System, open: bool)
    requires ValidConfig(c) && Inv(c, s) && Next(c, s, s', open) && forall m | m in s.net :: Addressed(c, m)
    ensures forall m | m in s'.net :: Addressed(c, m)
  {
    var i, a :| Step(c, s, i, a, s', open);
    StepAddressed(c, s, i, a, s', open);
  }

  lemma StepAddressed(c: Config, s: System, i: nat, a: Action, s': System, open: bool)
    requires ValidConfig(c) && Inv(c, s) && Step(c, s, i, a, s', open) && forall m | m in s.net :: Addressed(c, m)
    ensures forall m | m in s'.net :: Addressed(c, m)
  {
    assert Wired(c, i, s.nodes[i]);
    forall m | m in s'.net ensures Addressed(c, m) {
      if m !in s.net {
        ReactAddressed(c, i, s.nodes[i], a, m);
      }
    }
  }

  /** In every run, open or closed, each queued report of a view was sent by a node to another one, the leader of
      the view after it, and each queued proposal to all nodes. */
  lemma {:induction false} RunAddressed(c: Config, tr: seq<System>, open: bool)
    requires ValidConfig(c) && Run(c, tr, open)
    ensures forall m | m in Last(tr).net :: Addressed(c, m)
  {
    if |tr| > 1 {
      assert Extended(c, tr, open);
      var front := tr[..|tr| - 1];
      assert Last(front) == tr[|tr| - 2];
      RunAddressed(c, front, open);
      RunInv(c, front, open);
      NextAddressed(c, Last(front), tr[|tr| - 1], open);
    }
  }
}

/** The basic HotStuff node as the object it is: handlers that update fields in place, each
    proved to compute the corresponding function of `BasicNode`. */
module BasicReplica {
  import opened Common
  import opened BasicNode

  class Log {
    var signatures: map<Ballot, map<nat, Share>>
    var newviews: map<nat, seq<NewView>>

    constructor ()
      ensures signatures == map[] && newviews == map[]
    {
      signatures, newviews := map[], map[];
    }

    method RecordNewView(view: nat, newview: NewView)
      modifies this
      ensures newviews == old(newviews)[view := Get(old(newviews), view) + [newview]]
      ensures signatures == old(signatures)
    {
      if view in newviews {
        newviews := newviews[view := newviews[view] + [newview]];
      } else {
        assert [] + [newview] == [newview];
        newviews := newviews[view := [newview]];
      }
    }

    /** The most recent certificate among the reports of a view and the node's own. */
    method GetHighQCByView(view: nat, prepareQC: Option<QC>) returns (high: Option<QC>)
      requires view in newviews
      ensures high == HighQC(newviews[view], prepareQC)
    {
      var nvs := newviews[view];
      high := prepareQC;
      for k := 0 to |nvs|
        invariant high == HighQC(nvs[..k], prepareQC)
      {
        assert nvs[..k + 1][..k] == nvs[..k];
        var justify := nvs[k].justify;
        if justify.None? {
          continue;
        }
        if high.None? {
          high := justify;
          continue;
        }
        if high.value.view < justify.value.view {
          high := justify;
        }
      }
      assert nvs[..|nvs|] == nvs;
    }

    method RecordPartialSignature(ballot: Ballot, number: nat, share: Share)
      modifies this
      ensures signatures == old(signatures)[ballot := Shares(old(signatures), ballot)[number := share]]
      ensures newviews == old(newviews)
    {
      if ballot in signatures {
        var known: map<nat, Share> := signatures[ballot];
        signatures := signatures[ballot := known[number := share]];
      } else {
        var first: map<nat, Share> := map[number := share];
        signatures := signatures[ballot := first];
      }
    }
  }

  /** The handler panicked exactly when the function says so, and otherwise left that state. */
  ghost predicate Matches(r: Result, ok: bool, node: Node, out: PhaseState, signed: Option<Ballot>,
      decided: Option<QC>)
  {
    ok == r.Ok? && (ok ==> r == Ok(node, out, signed, decided))
  }

  class BasicHotStuff {
    const id: PeerId
    const fault: nat
    const log: Log
    var keypair: Option<nat>
    var numbers: map<nat, PeerId>
    var pks: map<PeerId, nat>
    var view: nat
    var primary: PeerId
    var highQC: Option<QC>
    var prepareQC: Option<QC>
    var lockedQC: Option<QC>

    ghost function State(): Node
      reads this, log
    {
      Node(id, fault, keypair, numbers, pks, view, primary, highQC, prepareQC, lockedQC, log.signatures, log.newviews)
    }

    constructor (id: PeerId, fault: nat)
      ensures State() == Node(id, fault, None, map[], map[], 0, "", None, None, None, map[], map[])
      ensures fresh(log)
    {
      this.id, this.fault := id, fault;
      log := new Log();
      keypair, numbers, pks, view, primary := None, map[], map[], 0, "";
      highQC, prepareQC, lockedQC := None, None, None;
    }

    method EnterNextView() returns (ok: bool, sends: seq<Send>)
      modifies this
      ensures Matches(BasicNode.EnterNextView(old(State())), ok, State(), Continue(sends), None, None)
    {
      sends := [];
      var v := view + 1;
      var count := |numbers|;
      if count == 0 || v % count !in numbers {
        return false, sends;
      }
      primary := numbers[v % count];
      if primary != id {
        sends := [Unicast(primary, NewViewMsg(NewView(view, prepareQC, id)))];
      }
      view := v;
      ok := true;
    }

    method HandleNewView(newview: NewView) returns (ok: bool, out: PhaseState)
      modifies this, log
      ensures Matches(BasicNode.HandleNewView(old(State()), newview), ok, State(), out, None, None)
    {
      log.RecordNewView(newview.view, newview);
      if |log.newviews[newview.view]| == 2 * fault + 1 {
        highQC := log.GetHighQCByView(newview.view, prepareQC);
        return true, Over;
      }
      return true, Continue([]);
    }

    method HandleRequest(cmd: string) returns (out: PhaseState)
      ensures BasicNode.HandleRequest(State(), cmd) == Ok(State(), out, None, None)
    {
      var parentHash := if highQC.Some? then Digest(highQC.value.block) else EMPTY_HASH;
      out := Continue([Broadcast(PrepareMsg(Prepare(view, Block(cmd, parentHash), highQC, id)))]);
    }

    method Sign(kind: Phase, v: nat, block: Block) returns (out: PhaseState, ghost signed: Option<Ballot>)
      ensures BasicNode.Sign(State(), kind, v, block) == Ok(State(), out, signed, None)
    {
      out, signed := Continue([]), None;
      if keypair.Some? {
        var ballot := Ballot(kind, v, block);
        signed := Some(ballot);
        var vote := Vote(v, block, Some(Share(keypair.value, ballot)), id);
        out := Continue([Unicast(primary, VoteMsg(kind, vote))]);
      }
    }

    method HandlePrepare(p: Prepare) returns (out: PhaseState, ghost signed: Option<Ballot>)
      modifies this
      ensures BasicNode.HandlePrepare(old(State()), p) == Ok(State(), out, signed, None)
    {
      out, signed := Continue([]), None;
      if p.justify.None? && p.block.parentHash != EMPTY_HASH {
        return;
      }
      if p.justify.Some? {
        if p.block.parentHash != Digest(p.justify.value.block) {
          return;
        }
        if !SafeNode(lockedQC, p.block, p.justify.value) {
          return;
        }
      }
      primary := p.from;
      out, signed := Sign(PREPARE, p.view, p.block);
    }

    method Check(kind: nat, justify: Option<QC>) returns (check: BasicNode.Check)
      ensures check == CheckQC(State(), kind, justify)
    {
      if justify.None? {
        return Reject;
      }
      var qc := justify.value;
      if qc.signature.None? {
        return Reject;
      }
      if qc.kind != kind || qc.view != view {
        return Reject;
      }
      if keypair.None? {
        return Fail;
      }
      if qc.signature.value != Combined(Ballot(kind, qc.view, qc.block)) {
        return Reject;
      }
      return Accept(qc);
    }

    method HandlePreCommit(v: nat, justify: Option<QC>)
        returns (ok: bool, out: PhaseState, ghost signed: Option<Ballot>)
      modifies this
      ensures Matches(BasicNode.HandlePreCommit(old(State()), v, justify), ok, State(), out, signed, None)
    {
      ok, out, signed := true, Continue([]), None;
      var check := Check(PREPARE, justify);
      match check
      case Reject =>
      case Fail => ok := false;
      case Accept(qc) =>
        prepareQC := Some(qc);
        out, signed := Sign(PRE_COMMIT, v, qc.block);
    }

    method HandleCommit(v: nat, justify: Option<QC>) returns (ok: bool, out: PhaseState, ghost signed: Option<Ballot>)
      modifies this
      ensures Matches(BasicNode.HandleCommit(old(State()), v, justify), ok, State(), out, signed, None)
    {
      ok, out, signed := true, Continue([]), None;
      var check := Check(PRE_COMMIT, justify);
      match check
      case Reject =>
      case Fail => ok := false;
      case Accept(qc) =>
        lockedQC := Some(qc);
        out, signed := Sign(COMMIT, v, qc.block);
    }

    method HandleDecide(justify: Option<QC>) returns (ok: bool, out: PhaseState, ghost decided: Option<QC>)
      modifies this
      ensures Matches(BasicNode.HandleDecide(old(State()), justify), ok, State(), out, None, decided)
    {
      ok, out, decided := true, Continue([]), None;
      var check := Check(COMMIT, justify);
      match check
      case Reject =>
      case Fail => ok := false;
      case Accept(qc) =>
        var sends;
        ok, sends := EnterNextView();
        assert [] + sends == sends;
        out, decided := Complete(qc.block.cmd, sends), Some(qc);
    }

    /** The three vote collectors differ only in what they broadcast once 2f+1 shares are recorded. */
    method HandleVote(kind: Phase, vote: Vote) returns (ok: bool, out: PhaseState, ghost decided: Option<QC>)
      modifies this, log
      ensures Matches(BasicNode.HandleVote(old(State()), kind, vote), ok, State(), out, None, decided)
    {
      ok, out, decided := true, Continue([]), None;
      var ballot := Ballot(kind, vote.view, vote.block);
      if vote.from !in pks || vote.share.None? {
        return false, out, None;
      }
      var number := pks[vote.from];
      if vote.share.value != Share(number, ballot) {
        return;
      }
      log.RecordPartialSignature(ballot, number, vote.share.value);
      if |log.signatures[ballot]| != 2 * fault + 1 {
        return;
      }
      if keypair.None? {
        return false, out, None;
      }
      var qc := QC(kind, vote.view, vote.block, Some(Combined(ballot)));
      if kind == PREPARE {
        out := Continue([Broadcast(PreCommitMsg(vote.view, Some(qc)))]);
      } else if kind == PRE_COMMIT {
        out := Continue([Broadcast(CommitMsg(vote.view, Some(qc)))]);
      } else {
        var sends;
        ok, sends := EnterNextView();
        out := Complete(qc.block.cmd, [Broadcast(DecideMsg(vote.view, Some(qc)))] + sends);
        decided := Some(qc);
      }
    }
  }
}

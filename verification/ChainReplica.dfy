/** The chained HotStuff node as the object it is: handlers that update fields in place,
    each proved to compute the corresponding function of `ChainNode`. */
module ChainReplica {
  import opened Common
  import opened ChainNode

  /** What the maximum search over the collected justifies promises. */
  ghost predicate IsHighest(r: Option<QC>, gs: seq<Generic>, init: Option<QC>) {
    && (r == init || exists k :: 0 <= k < |gs| && gs[k].justify == r)
    && (init.Some? ==> r.Some? && init.value.view <= r.value.view)
    && forall k | 0 <= k < |gs| && gs[k].justify.Some? :: r.Some? && gs[k].justify.value.view <= r.value.view
  }

  lemma {:induction false} HighQCIsHighest(gs: seq<Generic>, init: Option<QC>)
    ensures IsHighest(HighQC(gs, init), gs, init)
  {
    if gs != [] {
      var n := |gs| - 1;
      HighQCIsHighest(gs[..n], init);
      var rest := HighQC(gs[..n], init);
      if rest != init {
        var k :| 0 <= k < n && gs[..n][k].justify == rest;
        assert gs[k].justify == rest;
      }
      forall k | 0 <= k < n && gs[k].justify.Some?
        ensures rest.Some? && gs[k].justify.value.view <= rest.value.view
      {
        assert gs[..n][k] == gs[k];
      }
      assert gs[n].justify == HighQC(gs, init) || HighQC(gs, init) == rest;
    }
  }

  class Log {
    var signatures: map<Ballot, map<nat, Share>>
    var generics: map<nat, seq<Generic>>

    constructor ()
      ensures signatures == map[] && generics == map[]
    {
      signatures, generics := map[], map[];
    }

    method RecordGeneric(view: nat, generic: Generic)
      modifies this
      ensures generics == old(generics)[view := Get(old(generics), view) + [generic]]
      ensures signatures == old(signatures)
    {
      if view in generics {
        generics := generics[view := generics[view] + [generic]];
      } else {
        assert [] + [generic] == [generic];
        generics := generics[view := [generic]];
      }
    }

    method GetHighQCByView(view: nat, genericQC: Option<QC>) returns (high: Option<QC>)
      requires view in generics
      ensures high == HighQC(generics[view], genericQC)
      ensures IsHighest(high, generics[view], genericQC)
    {
      var gs := generics[view];
      high := genericQC;
      for k := 0 to |gs|
        invariant high == HighQC(gs[..k], genericQC)
      {
        assert gs[..k + 1][..k] == gs[..k];
        var justify := gs[k].justify;
        if justify.None? {
          continue;
        }
        if high.None? {
          high := justify;
          continue;
        }
        if high.value.view < justify.value.view {
          high := justify;
        }
      }
      assert gs[..|gs|] == gs;
      HighQCIsHighest(gs, genericQC);
    }

    method RecordPartialSignature(ballot: Ballot, number: nat, share: Share)
      modifies this
      ensures signatures == old(signatures)[ballot := Shares(old(signatures), ballot)[number := share]]
      ensures generics == old(generics)
    {
      if ballot in signatures {
        var known: map<nat, Share> := signatures[ballot];
        signatures := signatures[ballot := known[number := share]];
      } else {
        var first: map<nat, Share> := map[number := share];
        signatures := signatures[ballot := first];
      }
    }
  }

  /** The handler panicked exactly when the function says so, and otherwise left that state. */
  ghost predicate Matches(r: Result, ok: bool, node: Node, out: PhaseState, signed: seq<Ballot>) {
    ok == r.Ok? && (ok ==> r == Ok(node, out, signed))
  }

  lemma {:induction false} TableMore(table: map<PeerId, nat>, order: seq<PeerId>, p: PeerId)
    requires p in table && forall q | q in order :: q in table
    ensures NumberTable(table, order + [p]) == NumberTable(table, order)[table[p] := p]
  {
    assert (order + [p])[..|order|] == order;
  }

  /** A node that has recorded one more report. */
  function Recorded(s: Node, g: Generic): Node {
    s.(generics := s.generics[g.view := Get(s.generics, g.view) + [g]])
  }

  lemma {:induction false} NewViewQuorum(s: Node, g: Generic, high: Option<QC>)
    requires |Recorded(s, g).generics[g.view]| == 2 * s.fault + 1
    requires high == HighQC(Recorded(s, g).generics[g.view], s.genericQC)
    ensures var r := ChainNode.NextView(Recorded(s, g).(highQC := high, genericQC := high));
      HandleNewView(s, g) == if r.Ok? then Ok(r.node, Over, []) else Panic
  {
  }

  lemma {:induction false} NewViewShort(s: Node, g: Generic)
    requires |Recorded(s, g).generics[g.view]| != 2 * s.fault + 1
    ensures HandleNewView(s, g) == Ok(Recorded(s, g), Continue([]), [])
  {
  }

  /** The time-out of a view in seconds; it doubles with every view that runs out of time. */
  const VIEW_TIMEOUT := 10

  class ChainHotStuff {
    const id: PeerId
    const fault: nat
    const log: Log
    var keypair: Option<nat>
    var numbers: map<nat, PeerId>
    var pks: map<PeerId, nat>
    var view: nat
    var currentLeader: PeerId
    var nextLeader: PeerId
    var highQC: Option<QC>
    var genericQC: Option<QC>
    var lockedQC: Option<QC>
    var taken: set<string>
    var currentViewTimeout: nat

    ghost function State(): Node
      reads this, log
    {
      Node(id, fault, keypair, numbers, pks, view, currentLeader, nextLeader,
           highQC, genericQC, lockedQC, taken, log.signatures, log.generics)
    }

    constructor (id: PeerId, fault: nat)
      ensures State() == Node(id, fault, None, map[], map[], 0, "", "", None, None, None, {}, map[], map[])
      ensures fresh(log) && currentViewTimeout == VIEW_TIMEOUT
    {
      currentViewTimeout := VIEW_TIMEOUT;
      this.id, this.fault := id, fault;
      log := new Log();
      keypair, numbers, pks := None, map[], map[];
      view, currentLeader, nextLeader := 0, "", "";
      highQC, genericQC, lockedQC, taken := None, None, None, {};
    }

    method ChangeLeader(v: nat) returns (ok: bool)
      modifies this`currentLeader, this`nextLeader
      ensures ok == LeaderKnown(numbers, v)
      ensures ok ==> currentLeader == numbers[v % |numbers|] && nextLeader == numbers[(v + 1) % |numbers|]
    {
      var count := |numbers|;
      if count == 0 {
        return false;
      }
      var leader, next := v % count, (v + 1) % count;
      if leader !in numbers || next !in numbers {
        return false;
      }
      currentLeader, nextLeader := numbers[leader], numbers[next];
      return true;
    }

    method NextView() returns (ok: bool, sends: seq<Send>)
      modifies this`currentLeader, this`nextLeader, this`view
      ensures Matches(ChainNode.NextView(old(State())), ok, State(), Continue(sends), [])
    {
      sends := [];
      var v := view + 1;
      ok := ChangeLeader(v);
      if !ok {
        return;
      }
      if currentLeader != id {
        sends := [Unicast(currentLeader, GenericMsg(Generic(view, None, genericQC, id)))];
      }
      view := v;
    }

    /** Walks the received key table in an order of the map's choosing. */
    method FillNumbers(table: map<PeerId, nat>) returns (ghost order: seq<PeerId>)
      modifies `numbers
      ensures forall p :: p in order <==> p in table
      ensures numbers == old(numbers) + NumberTable(table, order)
    {
      order := [];
      var todo := table.Keys;
      while todo != {}
        invariant forall p :: p in table <==> p in todo || p in order
        invariant forall p | p in order :: p in table
        invariant numbers == old(numbers) + NumberTable(table, order)
        decreases todo
      {
        var p :| p in todo;
        TableMore(table, order, p);
        order := order + [p];
        numbers := numbers[table[p] := p];
        todo := todo - {p};
      }
    }

    /** Stores the received key table and enters the next view. */
    method StoreKeyTable(table: map<PeerId, nat>) returns (ok: bool, ghost order: seq<PeerId>)
      modifies this
      ensures forall p :: p in order <==> p in table
      ensures var r := ChainNode.NextView(
                old(State()).(pks := table, numbers := old(numbers) + NumberTable(table, order)));
              ok == r.Ok? && (ok ==> r.node == State())
    {
      pks := table;
      order := FillNumbers(table);
      var sends;
      ok, sends := NextView();
    }

    predicate SafeNode(block: Block)
      reads this
    {
      ChainNode.SafeNode(lockedQC, block)
    }

    method HandleVote(vote: Vote) returns (ok: bool, out: PhaseState)
      modifies this, log
      ensures Matches(ChainNode.HandleVote(old(State()), vote), ok, State(), out, [])
    {
      ok, out := true, Continue([]);
      var ballot := Ballot(vote.view, vote.block);
      if vote.from !in pks {
        return false, out;
      }
      var number := pks[vote.from];
      if vote.share != Share(number, ballot) {
        return;
      }
      log.RecordPartialSignature(ballot, number, vote.share);
      if |log.signatures[ballot]| != 2 * fault + 1 {
        return;
      }
      if keypair.None? {
        return false, out;
      }
      genericQC := Some(QC(vote.view, vote.block, Some(Combined(ballot))));
    }

    method HandleNewViewGeneric(generic: Generic) returns (ok: bool, out: PhaseState)
      modifies this, log
      ensures Matches(HandleNewView(old(State()), generic), ok, State(), out, [])
    {
      log.RecordGeneric(generic.view, generic);
      ghost var recorded := Recorded(old(State()), generic);
      assert State() == recorded;
      if |log.generics[generic.view]| == 2 * fault + 1 {
        var high := log.GetHighQCByView(generic.view, genericQC);
        NewViewQuorum(old(State()), generic, high);
        highQC := high;
        genericQC := high;
        assert State() == recorded.(highQC := high, genericQC := high);
        var sends;
        ok, sends := NextView();
        return ok, Over;
      }
      NewViewShort(old(State()), generic);
      return true, Continue([]);
    }

    /** Signs the block; the collector of the votes keeps its own share, every other node sends its
        vote and leaves the view. */
    method CastVote(block: Block) returns (ok: bool, sends: seq<Send>, ghost signed: seq<Ballot>)
      modifies this, log
      ensures Matches(ChainNode.CastVote(old(State()), block), ok, State(), Continue(sends), signed)
      ensures ok ==> currentViewTimeout == VIEW_TIMEOUT
    {
      ok, sends, signed := true, [], [];
      ViewTimeoutStop();
      if keypair.None? {
        return;
      }
      var ballot := Ballot(view, block);
      var share := Share(keypair.value, ballot);
      signed := [ballot];
      if id !in pks {
        return false, [], signed;
      }
      if nextLeader == id {
        log.RecordPartialSignature(ballot, pks[id], share);
      } else {
        var vote := Unicast(nextLeader, VoteMsg(Vote(view, block, share, id)));
        var more;
        ok, more := NextView();
        sends := [vote] + more;
      }
    }

    /** Pre-commit, commit and decide steps on the ancestors of `b1`. */
    method Advance(b1: Block) returns (executed: Option<Block>)
      modifies this`genericQC, this`lockedQC
      ensures ChainNode.Advance(old(State()), b1) == (State(), executed)
    {
      executed := None;
      if b1.justify.None? || b1.parentHash != Digest(b1.justify.value.block) {
        return;
      }
      var b2 := b1.justify.value.block;
      genericQC := b1.justify;
      if b2.justify.None? || b2.parentHash != Digest(b2.justify.value.block) {
        return;
      }
      var b3 := b2.justify.value.block;
      lockedQC := b2.justify;
      if b3.justify.None? || b3.parentHash != Digest(b3.justify.value.block) {
        return;
      }
      executed := Some(b3.justify.value.block);
    }

    method ReplicaHandleGeneric(block: Block) returns (ok: bool, out: PhaseState, ghost signed: seq<Ballot>)
      modifies this, log
      ensures Matches(ChainNode.ReplicaHandleGeneric(old(State()), block), ok, State(), out, signed)
      ensures ok ==> currentViewTimeout == if old(SafeNode(block)) then VIEW_TIMEOUT else old(currentViewTimeout)
    {
      ok, out, signed := true, Continue([]), [];
      if !SafeNode(block) {
        return;
      }
      var sends;
      ok, sends, signed := CastVote(block);
      if !ok {
        return;
      }
      var executed := Advance(block);
      out := if executed.Some? then Complete(executed.value, sends) else Continue(sends);
    }

    method HandleGeneric(generic: Generic) returns (ok: bool, out: PhaseState, ghost signed: seq<Ballot>)
      modifies this, log
      ensures Matches(ChainNode.HandleGeneric(old(State()), generic), ok, State(), out, signed)
    {
      signed := [];
      if generic.block.None? {
        ok, out := HandleNewViewGeneric(generic);
        return;
      }
      taken := taken + {generic.block.value.cmd};
      if view != generic.view {
        return true, Continue([]), [];
      }
      ok, out, signed := ReplicaHandleGeneric(generic.block.value);
    }

    method HandleRequest(cmd: string) returns (ok: bool, out: PhaseState, ghost signed: seq<Ballot>)
      modifies this, log
      ensures Matches(ChainNode.HandleRequest(old(State()), cmd), ok, State(), out, signed)
    {
      taken := taken + {cmd};
      var parentHash := if highQC.Some? then Digest(highQC.value.block) else EMPTY_HASH;
      var generic := Generic(view, Some(Block(cmd, parentHash, highQC)), None, id);
      var own := [Broadcast(GenericMsg(generic))];
      ok, out, signed := HandleGeneric(generic);
      if ok {
        out := match out
          case Continue(sends) => Continue(own + sends)
          case Complete(b, sends) => Complete(b, own + sends)
          case Over => Continue([]);
      }
    }

    method ViewTimeoutStop()
      modifies this`currentViewTimeout
      ensures currentViewTimeout == VIEW_TIMEOUT
    {
      currentViewTimeout := VIEW_TIMEOUT;
    }

    /** Doubles the time-out, which may overflow, and enters the next view. */
    method ViewTimeout() returns (ok: bool, out: PhaseState)
      modifies this
      ensures old(currentViewTimeout) * 2 < U64_LIMIT ==>
        && Matches(ChainNode.NextView(old(State())), ok, State(), out, [])
        && currentViewTimeout == old(currentViewTimeout) * 2
      ensures old(currentViewTimeout) * 2 >= U64_LIMIT ==> !ok
    {
      if currentViewTimeout * 2 >= U64_LIMIT {
        return false, Continue([]);
      }
      currentViewTimeout := currentViewTimeout * 2;
      var sends;
      ok, sends := NextView();
      out := Continue(sends);
    }
  }
}

/**
 One node of chained HotStuff: its state and, for every handler, the function from
 the state before the handler to the state after it, the messages it queues and the
 ballots it signs.

 Digests are symbolic and therefore injective; a partial signature names its signer
 and the ballot it is for.
 */
module ChainNode {
  import opened Common

  type PeerId = string

  datatype Hash = Raw(text: string) | Digest(block: Block)

  datatype Block = Block(cmd: string, parentHash: Hash, justify: Option<QC>)

  datatype QC = QC(view: nat, block: Block, signature: Option<Signature>)

  datatype Signature = Combined(ballot: Ballot)

  /** What a vote signs: the digest of (GENERIC, view, block). */
  datatype Ballot = Ballot(view: nat, block: Block)

  datatype Share = Share(signer: nat, ballot: Ballot) | Forged

  datatype Generic = Generic(view: nat, block: Option<Block>, justify: Option<QC>, from: PeerId)

  datatype Vote = Vote(view: nat, block: Block, share: Share, from: PeerId)

  datatype Message = GenericMsg(generic: Generic) | VoteMsg(vote: Vote)

  datatype Send = Broadcast(msg: Message) | Unicast(to: PeerId, msg: Message)

  datatype PhaseState =
    | Continue(sends: seq<Send>)
    | Complete(executed: Block, sends: seq<Send>)
    | Over

  datatype Node = Node(
    id: PeerId,
    fault: nat,
    keypair: Option<nat>,
    numbers: map<nat, PeerId>,
    pks: map<PeerId, nat>,
    view: nat,
    currentLeader: PeerId,
    nextLeader: PeerId,
    highQC: Option<QC>,
    genericQC: Option<QC>,
    lockedQC: Option<QC>,
    taken: set<string>,
    signatures: map<Ballot, map<nat, Share>>,
    generics: map<nat, seq<Generic>>)

  /** `Panic` stands for a failed `unwrap`, after which the node takes no further step. */
  datatype Result = Panic | Ok(node: Node, out: PhaseState, signed: seq<Ballot>)

  const EMPTY_HASH := Raw("")

  function Sends(p: PhaseState): seq<Send> {
    if p.Over? then [] else p.sends
  }

  function Get<K, V>(m: map<K, seq<V>>, k: K): seq<V> {
    if k in m then m[k] else []
  }

  function Shares(signatures: map<Ballot, map<nat, Share>>, b: Ballot): map<nat, Share> {
    if b in signatures then signatures[b] else map[]
  }

  // ----- leaders and views

  predicate LeaderKnown(numbers: map<nat, PeerId>, view: nat) {
    && |numbers| > 0
    && view % |numbers| in numbers
    && (view + 1) % |numbers| in numbers
  }

  function NextView(s: Node): Result {
    var v := s.view + 1;
    if !LeaderKnown(s.numbers, v) then Panic else
    var leader := s.numbers[v % |s.numbers|];
    var next := s.numbers[(v + 1) % |s.numbers|];
    var s' := s.(view := v, currentLeader := leader, nextLeader := next);
    var newView := Generic(s.view, None, s.genericQC, s.id);
    Ok(s', Continue(if leader == s.id then [] else [Unicast(leader, GenericMsg(newView))]), [])
  }

  /** The number table that a loop over the entries of the key table `pks` builds. */
  function NumberTable(pks: map<PeerId, nat>, order: seq<PeerId>): map<nat, PeerId>
    requires forall p | p in order :: p in pks
  {
    if order == [] then map[]
    else
      var p := order[|order| - 1];
      NumberTable(pks, order[..|order| - 1])[pks[p] := p]
  }

  // ----- voting

  predicate SafeNode(lockedQC: Option<QC>, block: Block) {
    block.justify.None? ||
    if lockedQC.Some? then
      block.justify.value.view > lockedQC.value.view || block.parentHash == Digest(lockedQC.value.block)
    else
      block.justify.value.view > 0 || block.parentHash == EMPTY_HASH
  }

  function RecordShare(s: Node, b: Ballot, number: nat, share: Share): Node {
    s.(signatures := s.signatures[b := Shares(s.signatures, b)[number := share]])
  }

  function CastVote(s: Node, block: Block): Result {
    if s.keypair.None? then Ok(s, Continue([]), []) else
    if s.id !in s.pks then Panic else
    var ballot := Ballot(s.view, block);
    var share := Share(s.keypair.value, ballot);
    if s.nextLeader == s.id then
      Ok(RecordShare(s, ballot, s.pks[s.id], share), Continue([]), [ballot])
    else
      match NextView(s)
      case Panic => Panic
      case Ok(s', out, _) =>
        Ok(s', Continue([Unicast(s.nextLeader, VoteMsg(Vote(s.view, block, share, s.id)))] + Sends(out)), [ballot])
  }

  /** The parent block, when the block's parent hash is the digest of its justify's block. */
  function Linked(b: Block): Option<Block> {
    if b.justify.Some? && b.parentHash == Digest(b.justify.value.block) then Some(b.justify.value.block) else None
  }

  /** Pre-commit, commit and decide steps on the ancestors of a block that passed the safety test; the
      command of the block that is returned is executed. */
  function Advance(s: Node, b1: Block): (Node, Option<Block>) {
    if Linked(b1).None? then (s, None) else
    var b2 := Linked(b1).value;
    var s2 := s.(genericQC := b1.justify);
    if Linked(b2).None? then (s2, None) else
    var b3 := Linked(b2).value;
    var s3 := s2.(lockedQC := b2.justify);
    if Linked(b3).None? then (s3, None) else
    (s3, Linked(b3))
  }

  function ReplicaHandleGeneric(s: Node, block: Block): Result {
    if !SafeNode(s.lockedQC, block) then Ok(s, Continue([]), []) else
    match CastVote(s, block)
    case Panic => Panic
    case Ok(s1, out, signed) =>
      var (s2, executed) := Advance(s1, block);
      Ok(s2, if executed.Some? then Complete(executed.value, Sends(out)) else Continue(Sends(out)), signed)
  }

  // ----- collecting new views

  /** The running maximum of the loop over the collected justifies; the first of equals wins. */
  function HighQC(gs: seq<Generic>, init: Option<QC>): Option<QC> {
    if gs == [] then init
    else
      var rest := HighQC(gs[..|gs| - 1], init);
      var j := gs[|gs| - 1].justify;
      if j.Some? && (rest.None? || rest.value.view < j.value.view) then j else rest
  }

  function HandleNewView(s: Node, g: Generic): Result {
    var collected := Get(s.generics, g.view) + [g];
    var s1 := s.(generics := s.generics[g.view := collected]);
    if |collected| != 2 * s.fault + 1 then Ok(s1, Continue([]), []) else
    var high := HighQC(collected, s.genericQC);
    match NextView(s1.(highQC := high, genericQC := high))
    case Panic => Panic
    case Ok(s2, _, _) => Ok(s2, Over, [])
  }

  // ----- message handlers

  function HandleGeneric(s: Node, g: Generic): Result {
    if g.block.None? then HandleNewView(s, g) else
    var s1 := s.(taken := s.taken + {g.block.value.cmd});
    if s.view != g.view then Ok(s1, Continue([]), []) else
    ReplicaHandleGeneric(s1, g.block.value)
  }

  function Proposal(s: Node, cmd: string): Generic {
    var parent := if s.highQC.Some? then Digest(s.highQC.value.block) else EMPTY_HASH;
    Generic(s.view, Some(Block(cmd, parent, s.highQC)), None, s.id)
  }

  function HandleRequest(s: Node, cmd: string): Result {
    var s1 := s.(taken := s.taken + {cmd});
    var own := [Broadcast(GenericMsg(Proposal(s, cmd)))];
    match HandleGeneric(s1, Proposal(s, cmd))
    case Panic => Panic
    case Ok(s2, Continue(sends), signed) => Ok(s2, Continue(own + sends), signed)
    case Ok(s2, Complete(b, sends), signed) => Ok(s2, Complete(b, own + sends), signed)
    case Ok(s2, Over, signed) => Ok(s2, Continue([]), signed)
  }

  function HandleVote(s: Node, v: Vote): Result {
    if v.from !in s.pks then Panic else
    var ballot := Ballot(v.view, v.block);
    if v.share != Share(s.pks[v.from], ballot) then Ok(s, Continue([]), []) else
    var s1 := RecordShare(s, ballot, s.pks[v.from], v.share);
    if |Shares(s1.signatures, ballot)| != 2 * s.fault + 1 then Ok(s1, Continue([]), []) else
    if s.keypair.None? then Panic else
    Ok(s1.(genericQC := Some(QC(v.view, v.block, Some(Combined(ballot))))), Continue([]), [])
  }

  function Handle(s: Node, m: Message): Result {
    match m
    case GenericMsg(g) => HandleGeneric(s, g)
    case VoteMsg(v) => HandleVote(s, v)
  }
}

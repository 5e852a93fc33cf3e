/**
 One node of basic HotStuff: its state and, for every handler, the function from the state
 before the handler to the state after it, the messages it queues, the ballot it signs and the
 certificate it decides on.

 Digests are symbolic and therefore injective; a partial signature names its signer and the
 ballot it is for, a combined signature names its ballot.
 */
module BasicNode {
  import opened Common

  type PeerId = string

  /** The three kinds of votes: PREPARE, PRE_COMMIT and COMMIT. */
  type Phase = k: nat | 1 <= k <= 3 witness 1

  datatype Hash = Raw(text: string) | Digest(block: Block)

  datatype Block = Block(cmd: string, parentHash: Hash)

  /** What a vote signs: the digest of (message type, view, block). */
  datatype Ballot = Ballot(kind: nat, view: nat, block: Block)

  datatype Share = Share(signer: nat, ballot: Ballot) | Forged

  datatype Signature = Combined(ballot: Ballot) | ForgedSignature

  datatype QC = QC(kind: nat, view: nat, block: Block, signature: Option<Signature>)

  datatype Vote = Vote(view: nat, block: Block, share: Option<Share>, from: PeerId)

  datatype NewView = NewView(view: nat, justify: Option<QC>, from: PeerId)

  datatype Prepare = Prepare(view: nat, block: Block, justify: Option<QC>, from: PeerId)

  datatype Message =
    | NewViewMsg(newview: NewView)
    | PrepareMsg(prepare: Prepare)
    | PreCommitMsg(view: nat, justify: Option<QC>)
    | CommitMsg(view: nat, justify: Option<QC>)
    | DecideMsg(view: nat, justify: Option<QC>)
    | VoteMsg(kind: Phase, vote: Vote)

  datatype Send = Broadcast(msg: Message) | Unicast(to: PeerId, msg: Message)

  datatype PhaseState =
    | Continue(sends: seq<Send>)
    | Complete(cmd: string, sends: seq<Send>)
    | Over

  datatype Node = Node(
    id: PeerId,
    fault: nat,
    keypair: Option<nat>,
    numbers: map<nat, PeerId>,
    pks: map<PeerId, nat>,
    view: nat,
    primary: PeerId,
    highQC: Option<QC>,
    prepareQC: Option<QC>,
    lockedQC: Option<QC>,
    signatures: map<Ballot, map<nat, Share>>,
    newviews: map<nat, seq<NewView>>)

  /** `Panic` stands for a failed `unwrap`, after which the node takes no further step. */
  datatype Result = Panic | Ok(node: Node, out: PhaseState, signed: Option<Ballot>, decided: Option<QC>)

  const PREPARE: Phase := 1
  const PRE_COMMIT: Phase := 2
  const COMMIT: Phase := 3
  const EMPTY_HASH := Raw("")

  function Sends(p: PhaseState): seq<Send> {
    if p.Over? then [] else p.sends
  }

  function Quiet(s: Node): Result {
    Ok(s, Continue([]), None, None)
  }

  function Get(m: map<nat, seq<NewView>>, k: nat): seq<NewView> {
    if k in m then m[k] else []
  }

  function Shares(signatures: map<Ballot, map<nat, Share>>, b: Ballot): map<nat, Share> {
    if b in signatures then signatures[b] else map[]
  }

  // ----- views

  predicate LeaderKnown(numbers: map<nat, PeerId>, view: nat) {
    |numbers| > 0 && view % |numbers| in numbers
  }

  function EnterNextView(s: Node): Result {
    var v := s.view + 1;
    if !LeaderKnown(s.numbers, v) then Panic else
    var leader := s.numbers[v % |s.numbers|];
    var report := Unicast(leader, NewViewMsg(NewView(s.view, s.prepareQC, s.id)));
    Ok(s.(view := v, primary := leader), Continue(if leader == s.id then [] else [report]), None, None)
  }

  /** The running maximum of the loop over the collected justifies; the first of equals wins. */
  function HighQC(nvs: seq<NewView>, init: Option<QC>): Option<QC> {
    if nvs == [] then init
    else
      var rest := HighQC(nvs[..|nvs| - 1], init);
      var j := nvs[|nvs| - 1].justify;
      if j.Some? && (rest.None? || rest.value.view < j.value.view) then j else rest
  }

  function HandleNewView(s: Node, nv: NewView): Result {
    var collected := Get(s.newviews, nv.view) + [nv];
    var s1 := s.(newviews := s.newviews[nv.view := collected]);
    if |collected| != 2 * s.fault + 1 then Quiet(s1)
    else Ok(s1.(highQC := HighQC(collected, s.prepareQC)), Over, None, None)
  }

  // ----- proposing and voting

  function Proposal(s: Node, cmd: string): Prepare {
    var parent := if s.highQC.Some? then Digest(s.highQC.value.block) else EMPTY_HASH;
    Prepare(s.view, Block(cmd, parent), s.highQC, s.id)
  }

  function HandleRequest(s: Node, cmd: string): Result {
    Ok(s, Continue([Broadcast(PrepareMsg(Proposal(s, cmd)))]), None, None)
  }

  predicate SafeNode(lockedQC: Option<QC>, block: Block, qc: QC) {
    if lockedQC.Some? then
      qc.view > lockedQC.value.view || block.parentHash == Digest(lockedQC.value.block)
    else
      qc.view > 0 || block.parentHash == EMPTY_HASH
  }

  predicate Acceptable(lockedQC: Option<QC>, p: Prepare) {
    if p.justify.None? then p.block.parentHash == EMPTY_HASH
    else p.block.parentHash == Digest(p.justify.value.block) && SafeNode(lockedQC, p.block, p.justify.value)
  }

  /** Signs a ballot, if the node has a key, and sends the vote to the primary. */
  function Sign(s: Node, kind: Phase, view: nat, block: Block): Result {
    if s.keypair.None? then Quiet(s) else
    var ballot := Ballot(kind, view, block);
    var vote := Vote(view, block, Some(Share(s.keypair.value, ballot)), s.id);
    Ok(s, Continue([Unicast(s.primary, VoteMsg(kind, vote))]), Some(ballot), None)
  }

  function HandlePrepare(s: Node, p: Prepare): Result {
    if !Acceptable(s.lockedQC, p) then Quiet(s)
    else Sign(s.(primary := p.from), PREPARE, p.view, p.block)
  }

  // ----- certificates

  datatype Check = Reject | Fail | Accept(qc: QC)

  /** The checks that pre-commit, commit and decide make on the certificate they carry. */
  function CheckQC(s: Node, kind: nat, justify: Option<QC>): Check {
    if justify.None? || justify.value.signature.None? then Reject else
    var qc := justify.value;
    if qc.kind != kind || qc.view != s.view then Reject else
    if s.keypair.None? then Fail else
    if qc.signature.value != Combined(Ballot(kind, qc.view, qc.block)) then Reject else Accept(qc)
  }

  function HandlePreCommit(s: Node, view: nat, justify: Option<QC>): Result {
    match CheckQC(s, PREPARE, justify)
    case Reject => Quiet(s)
    case Fail => Panic
    case Accept(qc) => Sign(s.(prepareQC := Some(qc)), PRE_COMMIT, view, qc.block)
  }

  function HandleCommit(s: Node, view: nat, justify: Option<QC>): Result {
    match CheckQC(s, PRE_COMMIT, justify)
    case Reject => Quiet(s)
    case Fail => Panic
    case Accept(qc) => Sign(s.(lockedQC := Some(qc)), COMMIT, view, qc.block)
  }

  function Decide(s: Node, qc: QC, first: seq<Send>): Result {
    match EnterNextView(s)
    case Panic => Panic
    case Ok(s1, out, _, _) => Ok(s1, Complete(qc.block.cmd, first + Sends(out)), None, Some(qc))
  }

  function HandleDecide(s: Node, justify: Option<QC>): Result {
    match CheckQC(s, COMMIT, justify)
    case Reject => Quiet(s)
    case Fail => Panic
    case Accept(qc) => Decide(s, qc, [])
  }

  // ----- collecting votes

  datatype Collected = Bad | Wait(node: Node) | Quorum(node: Node, qc: QC)

  /** Checks and records one share; at exactly 2f+1 recorded shares a certificate is formed. */
  function Collect(s: Node, kind: Phase, v: Vote): Collected {
    if v.from !in s.pks || v.share.None? then Bad else
    var ballot := Ballot(kind, v.view, v.block);
    var number := s.pks[v.from];
    if v.share.value != Share(number, ballot) then Wait(s) else
    var known := Shares(s.signatures, ballot)[number := v.share.value];
    var s1 := s.(signatures := s.signatures[ballot := known]);
    if |known| != 2 * s.fault + 1 then Wait(s1) else
    if s.keypair.None? then Bad else
    Quorum(s1, QC(kind, v.view, v.block, Some(Combined(ballot))))
  }

  function HandleVote(s: Node, kind: Phase, v: Vote): Result {
    match Collect(s, kind, v)
    case Bad => Panic
    case Wait(s1) => Quiet(s1)
    case Quorum(s1, qc) =>
      if kind == PREPARE then Ok(s1, Continue([Broadcast(PreCommitMsg(v.view, Some(qc)))]), None, None)
      else if kind == PRE_COMMIT then Ok(s1, Continue([Broadcast(CommitMsg(v.view, Some(qc)))]), None, None)
      else Decide(s1, qc, [Broadcast(DecideMsg(v.view, Some(qc)))])
  }

  function Handle(s: Node, m: Message): Result {
    match m
    case NewViewMsg(nv) => HandleNewView(s, nv)
    case PrepareMsg(p) => HandlePrepare(s, p)
    case PreCommitMsg(v, j) => HandlePreCommit(s, v, j)
    case CommitMsg(v, j) => HandleCommit(s, v, j)
    case DecideMsg(_, j) => HandleDecide(s, j)
    case VoteMsg(kind, v) => HandleVote(s, kind, v)
  }

  // ----- why agreement needs the scheduler

  /** A node signs any acceptable proposal whatever its own view and whatever it signed before:
      acceptance depends on the lock alone. */
  lemma PrepareIgnoresViews(s: Node, view: nat, key: nat, p: Prepare)
    requires s.keypair == Some(key)
    ensures HandlePrepare(s, p).signed == HandlePrepare(s.(view := view), p).signed
    ensures HandlePrepare(s, p).signed.Some? <==>
      match p.justify
      case None => p.block.parentHash == Raw("")
      case Some(j) =>
        && p.block.parentHash == Digest(j.block)
        && match s.lockedQC
           case None => j.view > 0
           case Some(lock) => j.view > lock.view || j.block == lock.block
    ensures HandlePrepare(HandlePrepare(s, p).node, p).signed == HandlePrepare(s, p).signed
  {
  }
}

/** One PBFT replica: its log and state, and each message handler as a function of them. */
module PbftNode {
  import opened Common
  import opened PbftKeys
  import PbftNewView

  const WINDOW := 100
  const STABLE_CHECKPOINT_DELTA := 50

  /** What the handlers call: the key function over the hash, the request codec, signing, the digest
      chain and text checking. */
  datatype Foreign = Foreign(
    self: Bytes,
    key: Message -> Bytes,
    encode: Request -> Bytes,
    decode: Bytes -> Option<Request>,
    sign: Bytes -> Bytes,
    chain: (Bytes, Bytes) -> Bytes,
    isText: Bytes -> bool)

  /** Votes and replies are keyed by MessageKey; nothing is assumed about the other functions, nor about
      the keys of requests. */
  ghost predicate Standard(f: Foreign) {
    forall m | Recordable(m) :: MessageKey(m) == Some(f.key(m))
  }

  datatype Phase = NotRequest | Init | Prepared | Commited | Replied

  datatype Node = Node(
    view: u64,
    number: u64,
    faults: nat,
    isPrimary: bool,
    abnormal: bool,
    stable: u64,
    stableDigest: Bytes,
    commited: nat,
    checkpointState: Bytes,
    clientReplied: bool,
    requests: map<u64, Request>,
    messages: map<Bytes, seq<Message>>,
    checkpoints: map<(u64, Bytes), seq<CheckPoint>>,
    viewChanges: map<u64, seq<ViewChange>>,
    phases: map<Bytes, Phase>,
    pending: seq<Bytes>)

  /** What the signature check of a message finds: a sender id that is no peer id makes it panic. */
  datatype Auth = Verified | Rejected | NoPeer

  datatype Event = Deliver(m: Message, auth: Auth) | Timeout

  /** The broadcast messages are listed; ViewChange and NewView broadcasts are not. */
  datatype Result = Done(node: Node, sent: seq<Message>) | Panic

  // ----- the log

  function Bucket<K(==), V>(log: map<K, seq<V>>, key: K): seq<V> {
    if key in log then log[key] else []
  }

  function Push<K(==), V>(log: map<K, seq<V>>, key: K, v: V): map<K, seq<V>> {
    log[key := Bucket(log, key) + [v]]
  }

  function Record(f: Foreign, log: map<Bytes, seq<Message>>, m: Message): map<Bytes, seq<Message>> {
    Push(log, f.key(m), m)
  }

  /** The first request recorded for a number stays. */
  function RecordRequest(requests: map<u64, Request>, number: u64, r: Request): map<u64, Request> {
    if number in requests then requests else requests[number := r]
  }

  // ----- handlers

  function HandleRequest(f: Foreign, s: Node, r: Request): Result {
    if s.number + 1 == U64_LIMIT then Panic else
    var p := PrePrepare(s.view, s.number + 1, f.key(OfRequest(r)), f.encode(r), [], f.self);
    Done(s.(requests := RecordRequest(s.requests, s.number + 1, r)),
         [OfPrePrepare(p.(signature := f.sign(f.key(OfPrePrepare(p)))))])
  }

  predicate InWindow(s: Node, view: u64, number: u64) {
    s.stable < number <= s.stable + WINDOW && s.view == view
  }

  function HandlePrePrepare(f: Foreign, s: Node, m: PrePrepare): Result {
    if s.stable + WINDOW >= U64_LIMIT then Panic
    else if !InWindow(s, m.view, m.number) then Done(s, [])
    else
      match f.decode(m.m)
      case None => Panic
      case Some(r) =>
        var p := Prepare(s.view, m.number, m.mHash, f.self, []);
        Done(s.(requests := RecordRequest(s.requests, m.number, r),
                messages := Record(f, s.messages, OfPrePrepare(m)),
                pending := s.pending + [m.mHash]),
             [OfPrepare(p.(signature := f.sign(f.key(OfPrepare(p)))))])
  }

  /** The number has a local request with this hash. */
  predicate Expects(f: Foreign, s: Node, number: u64, mHash: Bytes) {
    number in s.requests && f.key(OfRequest(s.requests[number])) == mHash
  }

  predicate InPhase(s: Node, mHash: Bytes, phase: Phase) {
    mHash in s.phases && s.phases[mHash] == phase
  }

  function HandlePrepare(f: Foreign, s: Node, m: Prepare): Result {
    if InPhase(s, m.mHash, Prepared) then Done(s, [])
    else if s.stable + WINDOW >= U64_LIMIT then Panic
    else if !InWindow(s, m.view, m.number) || !Expects(f, s, m.number, m.mHash) then Done(s, [])
    else
      var s' := s.(messages := Record(f, s.messages, OfPrepare(m)));
      if |Bucket(s'.messages, f.key(OfPrepare(m)))| != 2 * s.faults then Done(s', [])
      else
        var c := Commit(s.view, m.number, m.mHash, f.self, []);
        Done(s'.(phases := s.phases[m.mHash := Prepared]),
             [OfCommit(c.(signature := f.sign(f.key(OfCommit(c)))))])
  }

  /** The text of every result, "ok!". */
  const OK_TEXT: Bytes := [111, 107, 33]

  function ReplyTo(f: Foreign, s: Node, number: u64, r: Request): Reply {
    var reply := Reply(r.clientId, r.timestamp, s.view, number, f.self, [], OK_TEXT);
    reply.(signature := f.sign(f.key(OfReply(reply))))
  }

  function CheckPoints(f: Foreign, s: Node, digest: Bytes): seq<Message> {
    if s.commited % STABLE_CHECKPOINT_DELTA == 0 && s.stable + STABLE_CHECKPOINT_DELTA < U64_LIMIT
    then [OfCheckPoint(CheckPoint(s.stable + STABLE_CHECKPOINT_DELTA, digest, f.self, []))] else []
  }

  /** The 2f-th commit: the request is executed and answered. */
  function Execute(f: Foreign, s: Node, number: u64, mHash: Bytes): Result
    requires number in s.requests
  {
    var digest := f.chain(s.checkpointState, mHash);
    var s' := s.(checkpointState := digest, commited := s.commited + 1, phases := s.phases[mHash := Commited],
                 pending := if s.pending == [] then [] else s.pending[1..]);
    Done(s', CheckPoints(f, s', digest) + [OfReply(ReplyTo(f, s, number, s.requests[number]))])
  }

  function HandleCommit(f: Foreign, s: Node, m: Commit): Result {
    if InPhase(s, m.mHash, Commited) then Done(s, [])
    else if s.stable + WINDOW >= U64_LIMIT then Panic
    else if !InWindow(s, m.view, m.number) || !Expects(f, s, m.number, m.mHash) then Done(s, [])
    else
      var s' := s.(messages := Record(f, s.messages, OfCommit(m)));
      if |Bucket(s'.messages, f.key(OfCommit(m)))| != 2 * s.faults then Done(s', [])
      else Execute(f, s', m.number, m.mHash)
  }

  function HandleReply(f: Foreign, s: Node, m: Reply): Result {
    var s' := s.(messages := Record(f, s.messages, OfReply(m)));
    if |Bucket(s'.messages, f.key(OfReply(m)))| != s.faults + 1 then Done(s', [])
    else if !f.isText(m.result) then Panic
    else Done(s'.(clientReplied := true), [])
  }

  /** A checkpoint that becomes stable drops the older checkpoint messages. The votes stay: they are
      dropped for the requests of a table that nothing fills. */
  function HandleCheckPoint(s: Node, m: CheckPoint): Node {
    var key := (m.maxNumber, m.digest);
    var s' := s.(checkpoints := Push(s.checkpoints, key, m));
    if |Bucket(s'.checkpoints, key)| != 2 * s.faults then s'
    else s'.(stable := m.maxNumber, stableDigest := m.digest, checkpoints := Dropped(s'.checkpoints, m.maxNumber))
  }

  function Dropped(cs: map<(u64, Bytes), seq<CheckPoint>>, stable: u64): map<(u64, Bytes), seq<CheckPoint>> {
    map key | key in cs && key.0 >= stable :: cs[key]
  }

  /** Entering the view change looks every pending request up in that same empty table. */
  function BroadcastViewChange(s: Node): Result {
    if s.abnormal then Done(s, [])
    else if s.pending != [] || s.view + 1 == U64_LIMIT then Panic
    else Done(s.(abnormal := true), [])
  }

  ghost predicate RebuildFails(vcs: seq<ViewChange>) {
    vcs == [] || vcs[0].stable + 1 == U64_LIMIT || (U64_LIMIT - 1) in PbftNewView.PreparedNumbers(vcs)
  }

  ghost function HandleViewChange(s: Node, m: ViewChange): Result {
    if m.newView <= s.view then Done(s, []) else
    var s' := s.(viewChanges := Push(s.viewChanges, m.newView, m));
    var vcs := Bucket(s'.viewChanges, m.newView);
    if |vcs| > s.faults && !s.abnormal then BroadcastViewChange(s')
    else if s.isPrimary && |vcs| > 2 * s.faults && RebuildFails(vcs) then Panic
    else Done(s', [])
  }

  /** No NewView is ever accepted, since the check of its ViewChanges never succeeds. */
  ghost function HandleNewView(s: Node, m: NewView): Result {
    if RebuildFails(m.viewChanges) then Panic else Done(s, [])
  }

  /** The signature check in front of a handler. */
  function Checked(s: Node, auth: Auth, r: Result): Result {
    match auth
    case NoPeer => Panic
    case Rejected => Done(s, [])
    case Verified => r
  }

  /** The dispatch on the mode and the kind of message. */
  ghost function Step(f: Foreign, s: Node, e: Event): Result {
    match e
    case Timeout => BroadcastViewChange(s)
    case Deliver(OfCheckPoint(m), _) => Done(HandleCheckPoint(s, m), [])
    case Deliver(OfViewChange(m), _) => HandleViewChange(s, m)
    case Deliver(OfNewView(m), _) => HandleNewView(s, m)
    case Deliver(m, auth) =>
      if s.abnormal then Done(s, []) else
      match m
      case OfRequest(r) => HandleRequest(f, s, r)
      case OfPrePrepare(p) => Checked(s, auth, HandlePrePrepare(f, s, p))
      case OfPrepare(p) => Checked(s, auth, HandlePrepare(f, s, p))
      case OfCommit(c) => Checked(s, auth, HandleCommit(f, s, c))
      case OfReply(r) => if s.clientReplied then Done(s, []) else Checked(s, auth, HandleReply(f, s, r))
      case _ => Done(s, [])
  }
}

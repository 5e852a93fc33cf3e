/**
 Chained HotStuff as a step system: n nodes that run the handlers of `ChainNode`, a
 growing set of queued messages that are delivered in any order, late or never, and the
 history of all ballots that were signed.

 A run is `open` when arbitrary proposals may be delivered besides the queued ones (a
 share still exists only if its signer signed); a closed run delivers queued messages only.
 */
module ChainSystem {
  import opened Common
  import opened ChainNode

  datatype Config = Config(fault: nat, peers: seq<PeerId>)

  /** A ballot together with the number of the node that signed it. */
  datatype Cast = Cast(voter: nat, ballot: Ballot)

  /** `done` holds the blocks whose command some node has reported complete. */
  datatype System = System(nodes: seq<Node>, net: set<Send>, hist: seq<Cast>, done: set<Block>)

  datatype Action = Deliver(m: Message) | Propose(cmd: string) | Timeout

  ghost predicate ValidConfig(c: Config) {
    && c.fault >= 1
    && 1 <= |c.peers| <= 3 * c.fault + 1
    && forall i, j | 0 <= i < j < |c.peers| :: c.peers[i] != c.peers[j]
  }

  // ----- key tables

  /** Key shares are handed out in number order to an enumeration of the peers. */
  function KeyTable(peers: seq<PeerId>): map<PeerId, nat> {
    if peers == [] then map[]
    else KeyTable(peers[..|peers| - 1])[peers[|peers| - 1] := |peers| - 1]
  }

  /** The node after the key tables are stored, the table being walked in the given order. */
  function StoreKeyTable(s: Node, pks: map<PeerId, nat>, order: seq<PeerId>): Result
    requires forall p | p in order :: p in pks
  {
    NextView(s.(pks := pks, numbers := s.numbers + NumberTable(pks, order)))
  }

  function Fresh(id: PeerId, number: nat, fault: nat): Node {
    Node(id, fault, Some(number), map[], map[], 0, "", "", None, None, None, {}, map[], map[])
  }

  lemma {:induction false} KeyTableDense(peers: seq<PeerId>)
    requires forall i, j | 0 <= i < j < |peers| :: peers[i] != peers[j]
    ensures forall p :: p in KeyTable(peers) <==> p in peers
    ensures forall i | 0 <= i < |peers| :: KeyTable(peers)[peers[i]] == i
  {
    if peers != [] {
      KeyTableDense(peers[..|peers| - 1]);
    }
  }

  function Dense(peers: seq<PeerId>): map<nat, PeerId> {
    map i | 0 <= i < |peers| :: peers[i]
  }

  lemma {:induction false} NumberTableIn(pks: map<PeerId, nat>, order: seq<PeerId>)
    requires forall p | p in order :: p in pks
    requires forall p, q | p in pks && q in pks && pks[p] == pks[q] :: p == q
    ensures forall k :: k in NumberTable(pks, order) <==> exists p :: p in order && pks[p] == k
    ensures forall p | p in order :: NumberTable(pks, order)[pks[p]] == p
  {
    if order != [] {
      var init, last := order[..|order| - 1], order[|order| - 1];
      NumberTableIn(pks, init);
      assert order == init + [last];
      assert forall p :: p in order <==> p in init || p == last;
    }
  }

  lemma {:induction false} NumbersDistinct(peers: seq<PeerId>)
    requires forall i, j | 0 <= i < j < |peers| :: peers[i] != peers[j]
    ensures forall p, q | p in KeyTable(peers) && q in KeyTable(peers) && KeyTable(peers)[p] == KeyTable(peers)[q] ::
        p == q
  {
    var pks := KeyTable(peers);
    KeyTableDense(peers);
    forall p, q | p in pks && q in pks && pks[p] == pks[q] ensures p == q {
      var i :| 0 <= i < |peers| && peers[i] == p;
      var j :| 0 <= j < |peers| && peers[j] == q;
      assert pks[peers[i]] == i && pks[peers[j]] == j;
    }
  }

  /** Storing a complete key table, in whatever order it is walked, yields the table 0..n-1. */
  lemma {:induction false} NumberTableDense(peers: seq<PeerId>, order: seq<PeerId>)
    requires forall i, j | 0 <= i < j < |peers| :: peers[i] != peers[j]
    requires forall p :: p in order <==> p in peers
    ensures forall p | p in order :: p in KeyTable(peers)
    ensures NumberTable(KeyTable(peers), order) == Dense(peers)
  {
    var pks := KeyTable(peers);
    KeyTableDense(peers);
    NumbersDistinct(peers);
    NumberTableIn(pks, order);
    forall k ensures k in NumberTable(pks, order) <==> k in Dense(peers) {
      if k in Dense(peers) {
        assert peers[k] in order && pks[peers[k]] == k;
      }
    }
  }

  lemma {:induction false} DenseSize(peers: seq<PeerId>)
    ensures |Dense(peers)| == |peers|
  {
    if peers != [] {
      var n := |peers| - 1;
      DenseSize(peers[..n]);
      assert Dense(peers) == Dense(peers[..n])[n := peers[n]];
    }
  }

  // ----- runs

  function NextLeader(c: Config, view: nat): nat
    requires |c.peers| > 0
  {
    (view + 1) % |c.peers|
  }

  ghost predicate Enumerates(order: seq<PeerId>, peers: seq<PeerId>) {
    forall p :: p in order <==> p in peers
  }

  ghost predicate Init(c: Config, s: System)
    requires ValidConfig(c)
  {
    && |s.nodes| == |c.peers| && s.net == {} && s.hist == [] && s.done == {}
    && forall i | 0 <= i < |s.nodes| :: InitNode(c, i, s.nodes[i])
  }

  ghost predicate InitNode(c: Config, i: nat, node: Node)
    requires i < |c.peers|
  {
    exists order :: Stored(c, i, order, node)
  }

  ghost predicate Stored(c: Config, i: nat, order: seq<PeerId>, node: Node)
    requires i < |c.peers|
  {
    && (forall p | p in order :: p in KeyTable(c.peers))
    && Enumerates(order, c.peers)
    && var r := StoreKeyTable(Fresh(c.peers[i], i, c.fault), KeyTable(c.peers), order);
       r.Ok? && r.node == node
  }

  ghost predicate Queued(net: set<Send>, to: PeerId, m: Message) {
    Broadcast(m) in net || Unicast(to, m) in net
  }

  ghost predicate Enabled(c: Config, s: System, i: nat, a: Action, open: bool)
    requires i < |c.peers|
  {
    a.Deliver? ==>
      || Queued(s.net, c.peers[i], a.m)
      || (open && match a.m
                  case GenericMsg(_) => true
                  case VoteMsg(v) => v.share.Share? ==> Cast(v.share.signer, v.share.ballot) in s.hist)
  }

  function React(s: Node, a: Action): Result {
    match a
    case Deliver(m) => Handle(s, m)
    case Propose(cmd) => HandleRequest(s, cmd)
    case Timeout => NextView(s)
  }

  function Casts(i: nat, signed: seq<Ballot>): seq<Cast> {
    seq(|signed|, k requires 0 <= k < |signed| => Cast(i, signed[k]))
  }

  function Apply(s: System, i: nat, r: Result): System
    requires i < |s.nodes|
  {
    if r.Panic? then s
    else System(
      s.nodes[i := r.node],
      s.net + (set m | m in Sends(r.out)),
      s.hist + Casts(i, r.signed),
      if r.out.Complete? then s.done + {r.out.executed} else s.done)
  }

  ghost predicate Step(c: Config, s: System, i: nat, a: Action, s': System, open: bool) {
    && i < |s.nodes| == |c.peers|
    && Enabled(c, s, i, a, open)
    && s' == Apply(s, i, React(s.nodes[i], a))
  }

  function Last<T>(s: seq<T>): T
    requires |s| > 0
  {
    s[|s| - 1]
  }

  ghost predicate Next(c: Config, s: System, s': System, open: bool) {
    exists i, a :: Step(c, s, i, a, s', open)
  }

  /** A finite run, given by the states it passes through. */
  ghost predicate Run(c: Config, tr: seq<System>, open: bool)
    requires ValidConfig(c)
    decreases |tr|, 1
  {
    if |tr| <= 1 then |tr| == 1 && Init(c, tr[0]) else Extended(c, tr, open)
  }

  ghost predicate Extended(c: Config, tr: seq<System>, open: bool)
    requires ValidConfig(c) && |tr| > 1
    decreases |tr|, 0
  {
    Run(c, tr[..|tr| - 1], open) && Next(c, tr[|tr| - 2], tr[|tr| - 1], open)
  }

  // ----- ballots

  function Signers(h: seq<Cast>, b: Ballot): set<nat> {
    set k | 0 <= k < |h| && h[k].ballot == b :: h[k].voter
  }

  /** 2f+1 distinct nodes signed the ballot. */
  predicate Certified(h: seq<Cast>, fault: nat, b: Ballot) {
    |Signers(h, b)| >= 2 * fault + 1
  }

  lemma SignersGrow(h: seq<Cast>, h': seq<Cast>, b: Ballot)
    requires h <= h'
    ensures Signers(h, b) <= Signers(h', b) && |Signers(h, b)| <= |Signers(h', b)|
  {
    forall x | x in Signers(h, b) ensures x in Signers(h', b) {
      var k :| 0 <= k < |h| && h[k].ballot == b && h[k].voter == x;
      assert h'[k] == h[k];
    }
    SubsetSize(Signers(h, b), Signers(h', b));
  }

  // ----- what every step keeps, in open and closed runs

  /** The tables and leader fields of node i. */
  ghost predicate Wired(c: Config, i: nat, s: Node)
    requires i < |c.peers|
  {
    && s.id == c.peers[i] && s.fault == c.fault && s.keypair == Some(i)
    && s.numbers == Dense(c.peers) && s.pks == KeyTable(c.peers)
    && s.currentLeader == c.peers[s.view % |c.peers|]
    && s.nextLeader == c.peers[NextLeader(c, s.view)]
  }

  /** Node i's own casts lie in the past: strictly, unless it is the collector of that view. */
  ghost predicate Behind(c: Config, h: seq<Cast>, i: nat, view: nat)
    requires |c.peers| > 0
  {
    forall k | 0 <= k < |h| && h[k].voter == i ::
      h[k].ballot.view < view || (h[k].ballot.view == view && i == NextLeader(c, view))
  }

  ghost predicate LogHonest(h: seq<Cast>, s: Node) {
    forall b | b in s.signatures :: s.signatures[b].Keys <= Signers(h, b)
  }

  /** Casts of one node have rising views, except at views it collects itself. */
  ghost predicate Ordered(c: Config, h: seq<Cast>)
    requires |c.peers| > 0
  {
    && (forall k | 0 <= k < |h| :: h[k].voter < |c.peers|)
    && forall k, l | 0 <= k < l < |h| && h[k].voter == h[l].voter && h[k].voter != NextLeader(c, h[k].ballot.view) ::
         h[k].ballot.view < h[l].ballot.view
  }

  ghost predicate VoteSent(c: Config, h: seq<Cast>, m: Send)
    requires |c.peers| > 0
  {
    m.msg.VoteMsg? ==>
      && m.Unicast? && m.to == c.peers[NextLeader(c, m.msg.vote.view)]
      && m.msg.vote.from in c.peers && m.msg.vote.share.Share?
      && m.msg.vote.share.ballot == Ballot(m.msg.vote.view, m.msg.vote.block)
      && Cast(m.msg.vote.share.signer, m.msg.vote.share.ballot) in h
  }

  ghost predicate Inv(c: Config, s: System)
    requires ValidConfig(c)
  {
    && |s.nodes| == |c.peers|
    && (forall i | 0 <= i < |s.nodes| ::
          Wired(c, i, s.nodes[i]) && Behind(c, s.hist, i, s.nodes[i].view) && LogHonest(s.hist, s.nodes[i]))
    && Ordered(c, s.hist)
    && forall m | m in s.net :: VoteSent(c, s.hist, m)
  }

  /** Everything one handler guarantees about the node that runs it: its tables stay, its view
      stays or moves one on together with the leader fields, it signs at most one ballot, of the view
      it was in, and leaves that view unless it collects its votes. */
  ghost predicate Shape(s: Node, r: Result, accepted: set<(Ballot, nat)>) {
    r.Ok? ==>
      && SameTables(s, r.node)
      && (SameLeaders(s, r.node) || Moved(s, r.node))
      && |r.signed| <= 1
      && (forall b | b in r.signed :: b.view == s.view && (s.nextLeader == s.id || Moved(s, r.node)))
      && LogShape(s, r, accepted)
      && (s.keypair.Some? ==> forall m | m in Sends(r.out) :: VoteShape(s, r, m))
  }

  ghost predicate SameTables(s: Node, s': Node) {
    s'.id == s.id && s'.fault == s.fault && s'.keypair == s.keypair && s'.numbers == s.numbers && s'.pks == s.pks
  }

  ghost predicate SameLeaders(s: Node, s': Node) {
    s'.view == s.view && s'.currentLeader == s.currentLeader && s'.nextLeader == s.nextLeader
  }

  ghost predicate Moved(s: Node, s': Node) {
    && s'.view == s.view + 1
    && LeaderKnown(s.numbers, s'.view)
    && s'.currentLeader == s.numbers[s'.view % |s.numbers|]
    && s'.nextLeader == s.numbers[(s'.view + 1) % |s.numbers|]
  }

  ghost predicate LogShape(s: Node, r: Result, accepted: set<(Ballot, nat)>)
    requires r.Ok?
  {
    forall b, j | b in r.node.signatures && j in r.node.signatures[b] ::
      || (b in s.signatures && j in s.signatures[b])
      || (b in r.signed && s.id in s.pks && j == s.pks[s.id])
      || (b, j) in accepted
  }

  ghost predicate VoteShape(s: Node, r: Result, m: Send)
    requires r.Ok? && s.keypair.Some?
  {
    m.msg.VoteMsg? ==>
      && m.Unicast? && m.to == s.nextLeader
      && m.msg.vote.view == s.view && m.msg.vote.from == s.id
      && Ballot(s.view, m.msg.vote.block) in r.signed
      && m.msg.vote.share == Share(s.keypair.value, Ballot(s.view, m.msg.vote.block))
  }

  lemma CastVoteShape(s: Node, b: Block)
    ensures Shape(s, CastVote(s, b), {})
  {
  }

  /** Another result that agrees on what the shape speaks of has the same shape. */
  lemma ShapeOnly(s: Node, r: Result, r': Result)
    requires r.Ok? && r'.Ok? && Shape(s, r, {})
    requires SameTables(r.node, r'.node) && SameLeaders(r.node, r'.node) && r'.node.signatures == r.node.signatures
    requires r'.signed == r.signed && forall m | m in Sends(r'.out) :: m in Sends(r.out) || m.msg.GenericMsg?
    ensures Shape(s, r', {})
  {
    assert s.keypair.Some? ==> forall m | m in Sends(r.out) :: VoteShape(s, r, m) ==> VoteShape(s, r', m);
  }

  lemma AdvanceFrame(s: Node, b: Block)
    ensures var s' := Advance(s, b).0; SameTables(s, s') && SameLeaders(s, s') && s'.signatures == s.signatures
  {
    var s' := Advance(s, b).0;
    assert s' == s.(genericQC := s'.genericQC, lockedQC := s'.lockedQC);
  }

  lemma ReplicaShape(s: Node, b: Block)
    ensures Shape(s, ReplicaHandleGeneric(s, b), {})
  {
    CastVoteShape(s, b);
    var r := CastVote(s, b);
    if r.Ok? && SafeNode(s.lockedQC, b) {
      AdvanceFrame(r.node, b);
      ShapeOnly(s, r, ReplicaHandleGeneric(s, b));
    }
  }

  lemma NewViewShape(s: Node, g: Generic)
    ensures Shape(s, HandleNewView(s, g), {})
  {
  }

  lemma GenericShape(s: Node, g: Generic)
    ensures Shape(s, HandleGeneric(s, g), {})
  {
    if g.block.None? {
      NewViewShape(s, g);
    } else {
      ReplicaShape(s.(taken := s.taken + {g.block.value.cmd}), g.block.value);
    }
  }

  lemma RequestShape(s: Node, cmd: string)
    ensures Shape(s, HandleRequest(s, cmd), {})
  {
    var s1 := s.(taken := s.taken + {cmd});
    var g := Proposal(s, cmd);
    GenericShape(s1, g);
    var r := HandleGeneric(s1, g);
    if r.Ok? {
      ShapeOnly(s1, r, HandleRequest(s, cmd));
    }
  }

  function Accepted(a: Action): set<(Ballot, nat)> {
    if a.Deliver? && a.m.VoteMsg? && a.m.vote.share.Share? then {(a.m.vote.share.ballot, a.m.vote.share.signer)} else {}
  }

  lemma VoteHandlerShape(s: Node, v: Vote)
    ensures Shape(s, HandleVote(s, v), Accepted(Deliver(VoteMsg(v))))
  {
  }

  lemma ReactShape(s: Node, a: Action)
    ensures Shape(s, React(s, a), Accepted(a))
  {
    match a
    case Deliver(GenericMsg(g)) => GenericShape(s, g);
    case Deliver(VoteMsg(v)) => VoteHandlerShape(s, v);
    case Propose(cmd) => RequestShape(s, cmd);
    case Timeout =>
  }

  // ----- the leader fields

  lemma WiredLookup(c: Config, i: nat, s: Node, view: nat)
    requires ValidConfig(c) && i < |c.peers| && Wired(c, i, s)
    ensures LeaderKnown(s.numbers, view) && |s.numbers| == |c.peers|
    ensures s.numbers[view % |c.peers|] == c.peers[view % |c.peers|]
    ensures s.numbers[NextLeader(c, view)] == c.peers[NextLeader(c, view)]
    ensures s.id in s.pks && s.pks[s.id] == i
    ensures s.nextLeader == s.id <==> i == NextLeader(c, s.view)
  {
    DenseSize(c.peers);
    KeyTableDense(c.peers);
  }

  /** No handler of a wired node panics, unless a vote names an unknown sender. */
  lemma {:induction false} WiredNoPanic(c: Config, i: nat, s: Node, a: Action)
    requires ValidConfig(c) && i < |c.peers| && Wired(c, i, s)
    ensures React(s, a).Panic? ==> a.Deliver? && a.m.VoteMsg? && a.m.vote.from !in c.peers
  {
    WiredLookup(c, i, s, s.view + 1);
    KeyTableDense(c.peers);
    NoPanic(s, a);
  }

  lemma NoPanic(s: Node, a: Action)
    requires LeaderKnown(s.numbers, s.view + 1) && s.keypair.Some? && s.id in s.pks
    ensures React(s, a).Panic? ==> a.Deliver? && a.m.VoteMsg? && a.m.vote.from !in s.pks
  {
    match a
    case Deliver(GenericMsg(g)) => GenericNoPanic(s, g);
    case Deliver(VoteMsg(v)) =>
    case Propose(cmd) => GenericNoPanic(s.(taken := s.taken + {cmd}), Proposal(s, cmd));
    case Timeout =>
  }

  lemma GenericNoPanic(s: Node, g: Generic)
    requires LeaderKnown(s.numbers, s.view + 1) && s.keypair.Some? && s.id in s.pks
    ensures HandleGeneric(s, g).Ok?
  {
    if g.block.Some? && s.view == g.view {
      var s1 := s.(taken := s.taken + {g.block.value.cmd});
      assert NextView(s1).Ok?;
      assert CastVote(s1, g.block.value).Ok?;
    }
  }

  lemma WiredKept(c: Config, i: nat, s: Node, r: Result, accepted: set<(Ballot, nat)>)
    requires ValidConfig(c) && i < |c.peers| && Wired(c, i, s) && r.Ok? && Shape(s, r, accepted)
    ensures Wired(c, i, r.node)
  {
    WiredLookup(c, i, s, s.view + 1);
  }

  lemma AppendSigners(h: seq<Cast>, i: nat, signed: seq<Ballot>, b: Ballot)
    ensures Signers(h, b) <= Signers(h + Casts(i, signed), b)
    ensures b in signed ==> i in Signers(h + Casts(i, signed), b)
  {
    var h' := h + Casts(i, signed);
    SignersGrow(h, h', b);
    if b in signed {
      var k :| 0 <= k < |signed| && signed[k] == b;
      assert h'[|h| + k] == Cast(i, b);
    }
  }

  lemma CastInSigners(h: seq<Cast>, x: Cast)
    requires x in h
    ensures x.voter in Signers(h, x.ballot)
  {
  }

  /** Entering the first view with dense tables wires a node. */
  lemma FirstViewWired(c: Config, i: nat, s: Node, node: Node)
    requires ValidConfig(c) && i < |c.peers|
    requires s == Fresh(c.peers[i], i, c.fault).(pks := KeyTable(c.peers), numbers := Dense(c.peers))
    requires NextView(s).Ok? && node == NextView(s).node
    ensures Wired(c, i, node)
    ensures node.signatures == map[] && node.generics == map[]
    ensures node.highQC == None && node.genericQC == None && node.lockedQC == None
  {
    DenseSize(c.peers);
  }

  lemma StoredNumbers(c: Config, i: nat, order: seq<PeerId>, node: Node)
    requires ValidConfig(c) && i < |c.peers| && Stored(c, i, order, node)
    ensures var s := Fresh(c.peers[i], i, c.fault).(pks := KeyTable(c.peers), numbers := Dense(c.peers));
      NextView(s).Ok? && node == NextView(s).node
  {
    NumberTableDense(c.peers, order);
    assert map[] + Dense(c.peers) == Dense(c.peers);
  }

  lemma InitNodeWired(c: Config, i: nat, node: Node)
    requires ValidConfig(c) && i < |c.peers| && InitNode(c, i, node)
    ensures Wired(c, i, node)
    ensures node.signatures == map[] && node.generics == map[]
    ensures node.highQC == None && node.genericQC == None && node.lockedQC == None
  {
    var order :| Stored(c, i, order, node);
    StoredNumbers(c, i, order, node);
    FirstViewWired(c, i, Fresh(c.peers[i], i, c.fault).(pks := KeyTable(c.peers), numbers := Dense(c.peers)), node);
  }

  lemma InitInv(c: Config, s: System)
    requires ValidConfig(c) && Init(c, s)
    ensures Inv(c, s)
  {
    forall i | 0 <= i < |s.nodes| ensures Wired(c, i, s.nodes[i]) && LogHonest(s.hist, s.nodes[i]) {
      InitNodeWired(c, i, s.nodes[i]);
    }
  }

  lemma StepInv(c: Config, s: System, i: nat, a: Action, s': System, open: bool)
    requires ValidConfig(c) && Inv(c, s) && Step(c, s, i, a, s', open)
    ensures Inv(c, s') && s.hist <= s'.hist && s.net <= s'.net
  {
    var node := s.nodes[i];
    var r := React(node, a);
    assert Wired(c, i, node);
    if r.Ok? {
      ReactShape(node, a);
      WiredKept(c, i, node, r, Accepted(a));
      WiredLookup(c, i, node, node.view);
      StepLogs(c, s, i, a, r, open);
      StepOrder(c, s, i, r, Accepted(a));
      StepVotes(c, s, i, r, Accepted(a));
    }
  }

  lemma StepVotes(c: Config, s: System, i: nat, r: Result, accepted: set<(Ballot, nat)>)
    requires ValidConfig(c) && Inv(c, s) && i < |s.nodes| && r.Ok? && Shape(s.nodes[i], r, accepted)
    ensures forall m | m in Apply(s, i, r).net :: VoteSent(c, Apply(s, i, r).hist, m)
  {
    var h' := Apply(s, i, r).hist;
    assert Wired(c, i, s.nodes[i]);
    forall m | m in Apply(s, i, r).net ensures VoteSent(c, h', m) {
      if m in s.net {
        assert VoteSent(c, s.hist, m);
      } else if m.msg.VoteMsg? {
        assert VoteShape(s.nodes[i], r, m);
        var k :| 0 <= k < |r.signed| && r.signed[k] == Ballot(m.msg.vote.view, m.msg.vote.block);
        assert h'[|s.hist| + k] == Cast(i, r.signed[k]);
      }
    }
  }

  lemma StepLogs(c: Config, s: System, i: nat, a: Action, r: Result, open: bool)
    requires ValidConfig(c) && Inv(c, s) && i < |s.nodes| && Enabled(c, s, i, a, open)
    requires r.Ok? && Shape(s.nodes[i], r, Accepted(a))
    ensures forall j | 0 <= j < |s.nodes| :: LogHonest(s.hist + Casts(i, r.signed), if j == i then r.node
        else s.nodes[j])
  {
    var h' := s.hist + Casts(i, r.signed);
    assert Wired(c, i, s.nodes[i]) && LogHonest(s.hist, s.nodes[i]);
    WiredLookup(c, i, s.nodes[i], s.nodes[i].view);
    forall b, x | b in r.node.signatures && x in r.node.signatures[b] ensures x in Signers(h', b) {
      AppendSigners(s.hist, i, r.signed, b);
      if (b, x) in Accepted(a) {
        AcceptedSigned(c, s, i, a, open);
      }
    }
    forall j | 0 <= j < |s.nodes| && j != i ensures LogHonest(h', s.nodes[j]) {
      assert LogHonest(s.hist, s.nodes[j]);
      forall b | b in s.nodes[j].signatures ensures s.nodes[j].signatures[b].Keys <= Signers(h', b) {
        AppendSigners(s.hist, i, r.signed, b);
      }
    }
  }

  lemma AcceptedSigned(c: Config, s: System, i: nat, a: Action, open: bool)
    requires ValidConfig(c) && Inv(c, s) && i < |s.nodes| && Enabled(c, s, i, a, open)
    ensures forall b, x | (b, x) in Accepted(a) :: x in Signers(s.hist, b)
  {
    if a.Deliver? && a.m.VoteMsg? && a.m.vote.share.Share? {
      var x := Cast(a.m.vote.share.signer, a.m.vote.share.ballot);
      if Queued(s.net, c.peers[i], a.m) {
        assert VoteSent(c, s.hist, Broadcast(a.m)) || VoteSent(c, s.hist, Unicast(c.peers[i], a.m));
      }
      CastInSigners(s.hist, x);
    }
  }

  /** One more cast of node i, of the view it is in. */
  lemma OrderedMore(c: Config, h: seq<Cast>, i: nat, b: Ballot)
    requires 0 < |c.peers| && i < |c.peers| && Ordered(c, h) && Behind(c, h, i, b.view)
    ensures Ordered(c, h + [Cast(i, b)])
  {
  }

  lemma BehindMore(c: Config, h: seq<Cast>, x: Cast, j: nat, view: nat)
    requires |c.peers| > 0 && Behind(c, h, j, view)
    requires x.voter == j ==> x.ballot.view < view || (x.ballot.view == view && j == NextLeader(c, view))
    ensures Behind(c, h + [x], j, view)
  {
  }

  /** Moving on keeps a node's casts behind it. */
  lemma BehindLater(c: Config, h: seq<Cast>, j: nat, view: nat, view': nat)
    requires |c.peers| > 0 && Behind(c, h, j, view) && view <= view'
    ensures Behind(c, h, j, view')
  {
  }

  lemma StepOrder(c: Config, s: System, i: nat, r: Result, accepted: set<(Ballot, nat)>)
    requires ValidConfig(c) && Inv(c, s) && i < |s.nodes| && r.Ok? && Shape(s.nodes[i], r, accepted)
    ensures Ordered(c, s.hist + Casts(i, r.signed))
    ensures forall j | 0 <= j < |s.nodes| ::
      Behind(c, s.hist + Casts(i, r.signed), j, if j == i then r.node.view else s.nodes[j].view)
  {
    var node := s.nodes[i];
    assert Wired(c, i, node) && Behind(c, s.hist, i, node.view);
    WiredLookup(c, i, node, node.view);
    if r.signed != [] {
      OrderedMore(c, s.hist, i, r.signed[0]);
    }
    forall j | 0 <= j < |s.nodes|
      ensures Behind(c, s.hist + Casts(i, r.signed), j, if j == i then r.node.view else s.nodes[j].view)
    {
      var view := if j == i then r.node.view else s.nodes[j].view;
      BehindLater(c, s.hist, j, s.nodes[j].view, view);
      if r.signed == [] {
        assert s.hist + Casts(i, r.signed) == s.hist;
      } else {
        assert r.signed[0] in r.signed;
        BehindMore(c, s.hist, Cast(i, r.signed[0]), j, view);
        assert s.hist + Casts(i, r.signed) == s.hist + [Cast(i, r.signed[0])];
      }
    }
    if r.signed == [] {
      assert s.hist + Casts(i, r.signed) == s.hist;
    } else {
      assert s.hist + Casts(i, r.signed) == s.hist + [Cast(i, r.signed[0])];
    }
  }

  lemma {:induction false} RunInv(c: Config, tr: seq<System>, open: bool)
    requires ValidConfig(c) && Run(c, tr, open)
    ensures Inv(c, Last(tr))
  {
    if |tr| == 1 {
      InitInv(c, tr[0]);
    } else {
      assert Extended(c, tr, open);
      RunInv(c, tr[..|tr| - 1], open);
      var i, a :| Step(c, tr[|tr| - 2], i, a, tr[|tr| - 1], open);
      StepInv(c, tr[|tr| - 2], i, a, tr[|tr| - 1], open);
    }
  }

  // ----- leader hand-over

  /** In every state that a run reaches the number table is 0..n-1, the leader fields are the entries
      for the view and the view after it, a lookup for the next view succeeds, and every queued vote
      of view v is addressed to the node that leads v+1. */
  lemma {:induction false} LeaderHandOver(c: Config, tr: seq<System>, open: bool, i: nat, m: Send)
    requires ValidConfig(c) && Run(c, tr, open) && i < |c.peers|
    ensures |Last(tr).nodes| == |c.peers|
    ensures var s := Last(tr).nodes[i];
      && (forall j :: j in s.numbers <==> 0 <= j < |c.peers|)
      && LeaderKnown(s.numbers, s.view) && LeaderKnown(s.numbers, s.view + 1)
      && s.currentLeader == s.numbers[s.view % |c.peers|]
      && s.nextLeader == s.numbers[(s.view + 1) % |c.peers|]
    ensures m in Last(tr).net && m.msg.VoteMsg? ==>
      m.Unicast? && m.to == c.peers[(m.msg.vote.view + 1) % |c.peers|]
  {
    RunInv(c, tr, open);
    DenseSize(c.peers);
    assert Wired(c, i, Last(tr).nodes[i]);
    assert m in Last(tr).net ==> VoteSent(c, Last(tr).hist, m);
  }

  /** In a closed run no enabled action makes a node panic; in an open run only a vote that was never
      queued and names no configured node does. */
  lemma {:induction false} RunNoPanic(c: Config, tr: seq<System>, open: bool, i: nat, a: Action)
    requires ValidConfig(c) && Run(c, tr, open) && i < |c.peers| && Enabled(c, Last(tr), i, a, open)
    ensures |Last(tr).nodes| == |c.peers|
    ensures React(Last(tr).nodes[i], a).Panic? ==>
      open && a.Deliver? && a.m.VoteMsg? && a.m.vote.from !in c.peers && !Queued(Last(tr).net, c.peers[i], a.m)
  {
    var s := Last(tr);
    RunInv(c, tr, open);
    assert Wired(c, i, s.nodes[i]);
    WiredNoPanic(c, i, s.nodes[i], a);
    if a.Deliver? && Queued(s.net, c.peers[i], a.m) {
      assert VoteSent(c, s.hist, Broadcast(a.m)) || VoteSent(c, s.hist, Unicast(c.peers[i], a.m));
    }
  }

  // ----- certificate uniqueness

  /** A node other than the view's collector never signs two ballots of one view. */
  lemma OneBallot(c: Config, h: seq<Cast>, x: nat, b1: Ballot, b2: Ballot)
    requires |c.peers| > 0 && Ordered(c, h)
    requires x in Signers(h, b1) && x in Signers(h, b2) && b1.view == b2.view && x != NextLeader(c, b1.view)
    ensures b1 == b2
  {
    var k :| 0 <= k < |h| && h[k] == Cast(x, b1);
    var l :| 0 <= l < |h| && h[l] == Cast(x, b2);
  }

  lemma SignersBelow(c: Config, h: seq<Cast>, b: Ballot)
    requires |c.peers| > 0 && Ordered(c, h)
    ensures Below(Signers(h, b), |c.peers|)
  {
  }

  /** In every run, even with arbitrary proposals delivered, two ballots of one view that both
      gather 2f+1 distinct shares are for the same block. */
  lemma {:induction false} CertificateUnique(c: Config, tr: seq<System>, open: bool, b1: Ballot, b2: Ballot)
    requires ValidConfig(c) && Run(c, tr, open)
    requires Certified(Last(tr).hist, c.fault, b1) && Certified(Last(tr).hist, c.fault, b2) && b1.view == b2.view
    ensures b1.block == b2.block
  {
    var h := Last(tr).hist;
    RunInv(c, tr, open);
    SignersBelow(c, h, b1);
    SignersBelow(c, h, b2);
    Overlap(Signers(h, b1), Signers(h, b2), |c.peers|);
    var x := OtherMember(Signers(h, b1) * Signers(h, b2), NextLeader(c, b1.view));
    OneBallot(c, h, x, b1, b2);
  }

  // ----- every certificate is backed (closed runs)

  /** The certificate, and every certificate nested in its block, has 2f+1 signers. */
  predicate Backed(h: seq<Cast>, fault: nat, qc: Option<QC>)
    decreases qc
  {
    qc.Some? ==>
      && Certified(h, fault, Ballot(qc.value.view, qc.value.block))
      && Backed(h, fault, qc.value.block.justify)
  }

  lemma {:induction false} BackedGrows(h: seq<Cast>, h': seq<Cast>, fault: nat, qc: Option<QC>)
    requires h <= h' && Backed(h, fault, qc)
    ensures Backed(h', fault, qc)
    decreases qc
  {
    if qc.Some? {
      SignersGrow(h, h', Ballot(qc.value.view, qc.value.block));
      BackedGrows(h, h', fault, qc.value.block.justify);
    }
  }

  ghost predicate NodeBacked(h: seq<Cast>, fault: nat, s: Node) {
    && Backed(h, fault, s.highQC) && Backed(h, fault, s.genericQC) && Backed(h, fault, s.lockedQC)
    && forall v, k | v in s.generics && 0 <= k < |s.generics[v]| :: Backed(h, fault, s.generics[v][k].justify)
  }

  ghost predicate SameSlots(s: Node, s': Node) {
    && s'.highQC == s.highQC && s'.genericQC == s.genericQC && s'.lockedQC == s.lockedQC
    && s'.generics == s.generics
  }

  ghost predicate MessageBacked(h: seq<Cast>, fault: nat, m: Message) {
    m.GenericMsg? ==>
      && Backed(h, fault, m.generic.justify)
      && (m.generic.block.Some? ==> Backed(h, fault, m.generic.block.value.justify))
  }

  /** Every signed block carries a justify that was backed before the block was signed. */
  ghost predicate CastsBacked(h: seq<Cast>, fault: nat) {
    forall k | 0 <= k < |h| :: Backed(h[..k], fault, h[k].ballot.block.justify)
  }

  ghost predicate AllBacked(c: Config, s: System) {
    && (forall i | 0 <= i < |s.nodes| :: NodeBacked(s.hist, c.fault, s.nodes[i]))
    && (forall m | m in s.net :: MessageBacked(s.hist, c.fault, m.msg))
    && CastsBacked(s.hist, c.fault)
  }

  /** What a handler may emit, when the state it starts from and the message are backed by `h`. */
  ghost predicate BackedResult(h: seq<Cast>, fault: nat, r: Result) {
    r.Ok? ==>
      && NodeBacked(h, fault, r.node)
      && (forall b | b in r.signed :: Backed(h, fault, b.block.justify))
      && forall m | m in Sends(r.out) :: MessageBacked(h, fault, m.msg)
  }

  lemma {:induction false} HighQCBacked(h: seq<Cast>, fault: nat, gs: seq<Generic>, init: Option<QC>)
    requires Backed(h, fault, init)
    requires forall k | 0 <= k < |gs| :: Backed(h, fault, gs[k].justify)
    ensures Backed(h, fault, HighQC(gs, init))
  {
    if gs != [] {
      HighQCBacked(h, fault, gs[..|gs| - 1], init);
    }
  }

  lemma {:induction false} CollectedBacked(h: seq<Cast>, s: Node, g: Generic)
    requires NodeBacked(h, s.fault, s) && Backed(h, s.fault, g.justify)
    ensures var collected := Get(s.generics, g.view) + [g];
      && (forall k | 0 <= k < |collected| :: Backed(h, s.fault, collected[k].justify))
      && NodeBacked(h, s.fault, s.(generics := s.generics[g.view := collected]))
  {
  }

  /** A view change only reports the node's own certificate. */
  lemma NextViewBacked(h: seq<Cast>, s: Node)
    requires NodeBacked(h, s.fault, s)
    ensures BackedResult(h, s.fault, NextView(s))
  {
    var r := NextView(s);
    if r.Ok? {
      assert SameSlots(s, r.node);
    }
  }

  lemma {:induction false} NewViewBacked(h: seq<Cast>, s: Node, g: Generic)
    requires NodeBacked(h, s.fault, s) && Backed(h, s.fault, g.justify)
    ensures BackedResult(h, s.fault, HandleNewView(s, g))
  {
    var collected := Get(s.generics, g.view) + [g];
    var s1 := s.(generics := s.generics[g.view := collected]);
    CollectedBacked(h, s, g);
    if |collected| != 2 * s.fault + 1 {
      assert HandleNewView(s, g) == Ok(s1, Continue([]), []);
    } else {
      var high := HighQC(collected, s.genericQC);
      HighQCBacked(h, s.fault, collected, s.genericQC);
      var n := NextView(s1.(highQC := high, genericQC := high));
      NextViewBacked(h, s1.(highQC := high, genericQC := high));
      assert HandleNewView(s, g) == if n.Panic? then Panic else Ok(n.node, Over, []);
    }
  }

  lemma {:induction false} CastVoteBacked(h: seq<Cast>, s: Node, b: Block)
    requires NodeBacked(h, s.fault, s) && Backed(h, s.fault, b.justify)
    ensures BackedResult(h, s.fault, CastVote(s, b))
  {
    var r := CastVote(s, b);
    if r.Ok? && s.keypair.Some? {
      assert SameSlots(s, r.node);
      assert r.signed == [Ballot(s.view, b)];
      if s.nextLeader != s.id {
        var n := NextView(s);
        assert forall m | m in Sends(r.out) :: m.msg.VoteMsg? || m in Sends(n.out);
        assert forall m | m in Sends(n.out) :: m.msg == GenericMsg(Generic(s.view, None, s.genericQC, s.id));
      }
    }
  }

  lemma {:induction false} AdvanceBacked(h: seq<Cast>, s: Node, b: Block)
    requires NodeBacked(h, s.fault, s) && Backed(h, s.fault, b.justify)
    ensures NodeBacked(h, s.fault, Advance(s, b).0)
  {
    var s' := Advance(s, b).0;
    assert s'.generics == s.generics && s'.highQC == s.highQC;
    assert s'.genericQC == s.genericQC || s'.genericQC == b.justify;
    assert s'.lockedQC == s.lockedQC || (b.justify.Some? && s'.lockedQC == b.justify.value.block.justify);
  }

  lemma {:induction false} ReplicaBacked(h: seq<Cast>, s: Node, b: Block)
    requires NodeBacked(h, s.fault, s) && Backed(h, s.fault, b.justify)
    ensures BackedResult(h, s.fault, ReplicaHandleGeneric(s, b))
  {
    var r, r' := CastVote(s, b), ReplicaHandleGeneric(s, b);
    CastVoteBacked(h, s, b);
    if r.Ok? && SafeNode(s.lockedQC, b) {
      AdvanceBacked(h, r.node, b);
      assert r'.node == Advance(r.node, b).0 && r'.signed == r.signed && Sends(r'.out) == Sends(r.out);
    }
  }

  lemma GenericBacked(h: seq<Cast>, s: Node, g: Generic)
    requires NodeBacked(h, s.fault, s) && MessageBacked(h, s.fault, GenericMsg(g))
    ensures BackedResult(h, s.fault, HandleGeneric(s, g))
  {
    if g.block.None? {
      NewViewBacked(h, s, g);
    } else {
      var s1 := s.(taken := s.taken + {g.block.value.cmd});
      assert SameSlots(s, s1);
      ReplicaBacked(h, s1, g.block.value);
    }
  }

  lemma RequestBacked(h: seq<Cast>, s: Node, cmd: string)
    requires NodeBacked(h, s.fault, s)
    ensures BackedResult(h, s.fault, HandleRequest(s, cmd))
  {
    var g := Proposal(s, cmd);
    var s1 := s.(taken := s.taken + {cmd});
    GenericBacked(h, s1, g);
    var r, r' := HandleGeneric(s1, g), HandleRequest(s, cmd);
    if r.Ok? {
      assert r'.signed == r.signed;
      assert forall m | m in Sends(r'.out) :: m in Sends(r.out) || m == Broadcast(GenericMsg(g));
    }
  }

  /** A certificate is formed only from 2f+1 shares that the collector checked one by one. */
  lemma VoteBacked(c: Config, h: seq<Cast>, s: Node, v: Vote)
    requires NodeBacked(h, s.fault, s) && LogHonest(h, s) && CastsBacked(h, s.fault)
    requires v.share.Share? ==> Cast(v.share.signer, v.share.ballot) in h
    ensures BackedResult(h, s.fault, HandleVote(s, v))
  {
    var r := HandleVote(s, v);
    var b := Ballot(v.view, v.block);
    if r.Ok? && r.node.genericQC != s.genericQC {
      CastInSigners(h, Cast(v.share.signer, b));
      assert r.node.signatures[b].Keys <= Signers(h, b);
      SubsetSize(r.node.signatures[b].Keys, Signers(h, b));
      var k :| 0 <= k < |h| && h[k] == Cast(v.share.signer, b);
      BackedGrows(h[..k], h, s.fault, b.block.justify);
    }
  }

  lemma ReactBacked(c: Config, s: System, i: nat, a: Action)
    requires ValidConfig(c) && Inv(c, s) && AllBacked(c, s) && i < |s.nodes| && Enabled(c, s, i, a, false)
    ensures BackedResult(s.hist, c.fault, React(s.nodes[i], a))
  {
    var node := s.nodes[i];
    assert Wired(c, i, node) && LogHonest(s.hist, node) && NodeBacked(s.hist, c.fault, node);
    match a
    case Deliver(m) =>
      var p := if Broadcast(m) in s.net then Broadcast(m) else Unicast(c.peers[i], m);
      assert p in s.net && MessageBacked(s.hist, c.fault, p.msg) && VoteSent(c, s.hist, p);
      match m {
        case GenericMsg(g) => GenericBacked(s.hist, node, g);
        case VoteMsg(v) => VoteBacked(c, s.hist, node, v);
      }
    case Propose(cmd) =>
      RequestBacked(s.hist, node, cmd);
    case Timeout =>
  }

  lemma NodeBackedGrows(h: seq<Cast>, h': seq<Cast>, fault: nat, s: Node)
    requires h <= h' && NodeBacked(h, fault, s)
    ensures NodeBacked(h', fault, s)
  {
    BackedGrows(h, h', fault, s.highQC);
    BackedGrows(h, h', fault, s.genericQC);
    BackedGrows(h, h', fault, s.lockedQC);
    forall v, k | v in s.generics && 0 <= k < |s.generics[v]| ensures Backed(h', fault, s.generics[v][k].justify) {
      BackedGrows(h, h', fault, s.generics[v][k].justify);
    }
  }

  lemma MessageBackedGrows(h: seq<Cast>, h': seq<Cast>, fault: nat, m: Message)
    requires h <= h' && MessageBacked(h, fault, m)
    ensures MessageBacked(h', fault, m)
  {
    if m.GenericMsg? {
      BackedGrows(h, h', fault, m.generic.justify);
      if m.generic.block.Some? {
        BackedGrows(h, h', fault, m.generic.block.value.justify);
      }
    }
  }

  lemma StepBacked(c: Config, s: System, i: nat, a: Action, s': System)
    requires ValidConfig(c) && Inv(c, s) && AllBacked(c, s) && Step(c, s, i, a, s', false)
    ensures AllBacked(c, s')
  {
    var r := React(s.nodes[i], a);
    ReactBacked(c, s, i, a);
    ReactShape(s.nodes[i], a);
    if r.Ok? {
      forall j | 0 <= j < |s'.nodes| ensures NodeBacked(s'.hist, c.fault, s'.nodes[j]) {
        NodeBackedGrows(s.hist, s'.hist, c.fault, s'.nodes[j]);
      }
      forall m | m in s'.net ensures MessageBacked(s'.hist, c.fault, m.msg) {
        MessageBackedGrows(s.hist, s'.hist, c.fault, m.msg);
      }
      forall k | 0 <= k < |s'.hist| ensures Backed(s'.hist[..k], c.fault, s'.hist[k].ballot.block.justify) {
        if k < |s.hist| {
          assert s'.hist[..k] == s.hist[..k] && s'.hist[k] == s.hist[k];
        } else {
          assert s'.hist[..k] == s.hist && s'.hist[k].ballot in r.signed;
        }
      }
    }
  }

  lemma InitBacked(c: Config, s: System)
    requires ValidConfig(c) && Init(c, s)
    ensures AllBacked(c, s)
  {
    forall i | 0 <= i < |s.nodes| ensures NodeBacked([], c.fault, s.nodes[i]) {
      InitNodeWired(c, i, s.nodes[i]);
    }
  }

  lemma NextBacked(c: Config, s: System, s': System)
    requires ValidConfig(c) && Inv(c, s) && AllBacked(c, s) && Next(c, s, s', false)
    ensures AllBacked(c, s')
  {
    var i, a :| Step(c, s, i, a, s', false);
    StepBacked(c, s, i, a, s');
  }

  lemma {:induction false} RunBacked(c: Config, tr: seq<System>)
    requires ValidConfig(c) && Run(c, tr, false)
    ensures Inv(c, Last(tr)) && AllBacked(c, Last(tr))
  {
    RunInv(c, tr, false);
    if |tr| == 1 {
      InitBacked(c, tr[0]);
    } else {
      assert Extended(c, tr, false);
      var front := tr[..|tr| - 1];
      var s := Last(front);
      assert s == tr[|tr| - 2];
      RunBacked(c, front);
      NextBacked(c, s, tr[|tr| - 1]);
    }
  }

  // ----- views fall along certified ancestry

  lemma {:induction false} FirstCast(h: seq<Cast>, b: Ballot) returns (k: nat)
    requires Signers(h, b) != {}
    ensures k < |h| && h[k].ballot == b && Signers(h[..k], b) == {}
  {
    var j :| 0 <= j < |h| && h[j].ballot == b;
    k := 0;
    while h[k].ballot != b
      invariant k <= j
      invariant forall i | 0 <= i < k :: h[i].ballot != b
      decreases j - k
    {
      k := k + 1;
    }
  }

  lemma NoSigner(h: seq<Cast>, b: Ballot, m: nat)
    requires m < |h| && Signers(h, b) == {}
    ensures h[m].ballot != b
  {
    if h[m].ballot == b {
      CastInSigners(h, h[m]);
    }
  }

  /** A node that signed `j` before the first cast of `b`, and does not collect the view of `j`,
      signs `b` only at a higher view. */
  lemma LaterIsHigher(c: Config, h: seq<Cast>, first: nat, j: Ballot, b: Ballot, x: nat)
    requires |c.peers| > 0 && Ordered(c, h) && first < |h| && Signers(h[..first], b) == {}
    requires x in Signers(h[..first], j) && x in Signers(h, b) && x != NextLeader(c, j.view)
    ensures j.view < b.view
  {
    var l :| 0 <= l < first && h[..first][l] == Cast(x, j);
    var m :| 0 <= m < |h| && h[m] == Cast(x, b);
    assert h[l] == Cast(x, j);
    if m < first {
      NoSigner(h[..first], b, m);
    }
  }

  /** When all proposals come from the nodes' own handlers, a block certified at view v has no justify
      or a justify of a view strictly below v. */
  lemma {:induction false} ViewsFall(c: Config, tr: seq<System>, b: Ballot)
    requires ValidConfig(c) && Run(c, tr, false) && Certified(Last(tr).hist, c.fault, b)
    ensures b.block.justify.Some? ==> b.block.justify.value.view < b.view
  {
    RunBacked(c, tr);
    if b.block.justify.Some? {
      ViewsFallIn(c, Last(tr).hist, b);
    }
  }

  lemma ViewsFallIn(c: Config, h: seq<Cast>, b: Ballot)
    requires ValidConfig(c) && Ordered(c, h) && CastsBacked(h, c.fault)
    requires Certified(h, c.fault, b) && b.block.justify.Some?
    ensures b.block.justify.value.view < b.view
  {
    var j := Ballot(b.block.justify.value.view, b.block.justify.value.block);
    var first := FirstCast(h, b);
    var early := Signers(h[..first], j) - {NextLeader(c, j.view)};
    assert Certified(h[..first], c.fault, j);
    SignersGrow(h[..first], h, j);
    SignersBelow(c, h, j);
    SignersBelow(c, h, b);
    Overlap(early, Signers(h, b), |c.peers|);
    var x :| x in early * Signers(h, b);
    LaterIsHigher(c, h, first, j, b, x);
  }

  // ----- three-chain execution

  /** `b` is certified and has two certified descendants, each linked by parent hash. */
  ghost predicate ThreeChain(h: seq<Cast>, fault: nat, b: Block, q2: QC, q3: QC, q4: QC) {
    && q4.block == b
    && q3.block.parentHash == Digest(q4.block) && q3.block.justify == Some(q4)
    && q2.block.parentHash == Digest(q3.block) && q2.block.justify == Some(q3)
    && Certified(h, fault, Ballot(q2.view, q2.block))
    && Certified(h, fault, Ballot(q3.view, q3.block))
    && Certified(h, fault, Ballot(q4.view, q4.block))
  }

  ghost predicate Chained(h: seq<Cast>, fault: nat, b: Block) {
    exists q2, q3, q4 :: ThreeChain(h, fault, b, q2, q3, q4)
  }

  lemma {:induction false} AdvanceChain(h: seq<Cast>, fault: nat, s: Node, b: Block)
    requires Backed(h, fault, b.justify) && Advance(s, b).1.Some?
    ensures Chained(h, fault, Advance(s, b).1.value)
  {
    var q2 := b.justify.value;
    var q3 := q2.block.justify.value;
    var q4 := q3.block.justify.value;
    assert Backed(h, fault, Some(q3)) && Backed(h, fault, Some(q4));
    assert ThreeChain(h, fault, Advance(s, b).1.value, q2, q3, q4);
  }

  lemma ChainedGrows(h: seq<Cast>, h': seq<Cast>, fault: nat, b: Block)
    requires h <= h' && Chained(h, fault, b)
    ensures Chained(h', fault, b)
  {
    var q2, q3, q4 :| ThreeChain(h, fault, b, q2, q3, q4);
    SignersGrow(h, h', Ballot(q2.view, q2.block));
    SignersGrow(h, h', Ballot(q3.view, q3.block));
    SignersGrow(h, h', Ballot(q4.view, q4.block));
    assert ThreeChain(h', fault, b, q2, q3, q4);
  }

  /** The proposal a step works on. */
  function Worked(s: Node, a: Action): Option<Generic> {
    match a
    case Deliver(GenericMsg(g)) => Some(g)
    case Propose(cmd) => Some(Proposal(s, cmd))
    case _ => None
  }

  /** A step that reports Complete does so for a block three links above the proposal it handles. */
  lemma CompleteFrom(s: Node, a: Action)
    requires React(s, a).Ok? && React(s, a).out.Complete?
    ensures Worked(s, a).Some? && Worked(s, a).value.block.Some?
    ensures exists s1 :: Advance(s1, Worked(s, a).value.block.value).1 == Some(React(s, a).out.executed)
  {
    var g := Worked(s, a).value;
    var s1 := s.(taken := s.taken + {g.block.value.cmd});
    var r := CastVote(s1, g.block.value);
    assert Advance(r.node, g.block.value).1 == Some(React(s, a).out.executed);
  }

  lemma WorkedBacked(c: Config, s: System, i: nat, a: Action)
    requires AllBacked(c, s) && i < |s.nodes| && i < |c.peers| && Enabled(c, s, i, a, false)
    requires Worked(s.nodes[i], a).Some? && Worked(s.nodes[i], a).value.block.Some?
    ensures Backed(s.hist, c.fault, Worked(s.nodes[i], a).value.block.value.justify)
  {
    match a
    case Deliver(m) =>
      var p := if Broadcast(m) in s.net then Broadcast(m) else Unicast(c.peers[i], m);
      assert MessageBacked(s.hist, c.fault, p.msg);
    case Propose(cmd) => assert NodeBacked(s.hist, c.fault, s.nodes[i]);
  }

  lemma StepDone(c: Config, s: System, i: nat, a: Action, s': System)
    requires ValidConfig(c) && AllBacked(c, s) && Step(c, s, i, a, s', false) && s.hist <= s'.hist
    requires forall b | b in s.done :: Chained(s.hist, c.fault, b)
    ensures forall b | b in s'.done :: Chained(s'.hist, c.fault, b)
  {
    forall b | b in s'.done ensures Chained(s'.hist, c.fault, b) {
      if b !in s.done {
        CompleteFrom(s.nodes[i], a);
        WorkedBacked(c, s, i, a);
        var x := Worked(s.nodes[i], a).value.block.value;
        var s1 :| Advance(s1, x).1 == Some(b);
        AdvanceChain(s.hist, c.fault, s1, x);
      }
      ChainedGrows(s.hist, s'.hist, c.fault, b);
    }
  }

  lemma {:induction false} RunDone(c: Config, tr: seq<System>)
    requires ValidConfig(c) && Run(c, tr, false)
    ensures forall b | b in Last(tr).done :: Chained(Last(tr).hist, c.fault, b)
  {
    if |tr| > 1 {
      assert Extended(c, tr, false);
      var front := tr[..|tr| - 1];
      var s := Last(front);
      assert s == tr[|tr| - 2];
      RunDone(c, front);
      RunBacked(c, front);
      var i, a :| Step(c, s, i, a, tr[|tr| - 1], false);
      StepInv(c, s, i, a, tr[|tr| - 1], false);
      StepDone(c, s, i, a, tr[|tr| - 1]);
    }
  }

  /** Every certificate in any queued proposal of a closed run is backed to any depth, and a block whose
      command was reported complete tops a certified three-chain whose views strictly fall. */
  lemma {:induction false} ThreeChainExecution(c: Config, tr: seq<System>, b: Block)
    requires ValidConfig(c) && Run(c, tr, false)
    ensures forall m | m in Last(tr).net :: MessageBacked(Last(tr).hist, c.fault, m.msg)
    ensures b in Last(tr).done ==>
      exists q2, q3, q4 :: ThreeChain(Last(tr).hist, c.fault, b, q2, q3, q4) && q4.view < q3.view < q2.view
  {
    RunBacked(c, tr);
    RunDone(c, tr);
    if b in Last(tr).done {
      var q2, q3, q4 :| ThreeChain(Last(tr).hist, c.fault, b, q2, q3, q4);
      ViewsFall(c, tr, Ballot(q2.view, q2.block));
      ViewsFall(c, tr, Ballot(q3.view, q3.block));
    }
  }
}

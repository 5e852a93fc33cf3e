/** PBFT messages and the byte strings that are hashed into the keys of the message log. */
module PbftKeys {
  import opened Common

  type byte = x: int | 0 <= x < 256

  type Bytes = seq<byte>

  datatype Request = Request(operation: Bytes, timestamp: Bytes, clientId: Bytes, signature: Bytes)

  datatype PrePrepare =
    PrePrepare(view: u64, number: u64, mHash: Bytes, m: Bytes, signature: Bytes, from: Bytes)

  datatype Prepare = Prepare(view: u64, number: u64, mHash: Bytes, from: Bytes, signature: Bytes)

  datatype Commit = Commit(view: u64, number: u64, mHash: Bytes, from: Bytes, signature: Bytes)

  datatype Reply =
    Reply(clientId: Bytes, timestamp: Bytes, view: u64, number: u64, from: Bytes, signature: Bytes, result: Bytes)

  datatype CheckPoint = CheckPoint(maxNumber: u64, digest: Bytes, from: Bytes, signature: Bytes)

  datatype ViewChange = ViewChange(
    newView: u64,
    stable: u64,
    checkpoints: seq<CheckPoint>,
    preprepares: seq<Message>,
    prepares: seq<Message>,
    from: Bytes,
    signature: Bytes)

  datatype NewView = NewView(view: u64, viewChanges: seq<ViewChange>, preprepares: seq<PrePrepare>, signature: Bytes)

  datatype Message =
    | OfRequest(request: Request)
    | OfPrePrepare(preprepare: PrePrepare)
    | OfPrepare(prepare: Prepare)
    | OfCommit(commit: Commit)
    | OfReply(reply: Reply)
    | OfCheckPoint(checkpoint: CheckPoint)
    | OfViewChange(viewChange: ViewChange)
    | OfNewView(newView: NewView)

  // ----- big-endian words

  function BigEndian(n: nat, width: nat): (r: Bytes)
    ensures |r| == width
  {
    if width == 0 then [] else BigEndian(n / 256, width - 1) + [n % 256]
  }

  function Value(b: Bytes): nat {
    if b == [] then 0 else 256 * Value(b[..|b| - 1]) + b[|b| - 1]
  }

  function Power(width: nat): nat {
    if width == 0 then 1 else 256 * Power(width - 1)
  }

  lemma {:induction false} ValueOfBigEndian(n: nat, width: nat)
    requires n < Power(width)
    ensures Value(BigEndian(n, width)) == n
  {
    if width > 0 {
      ValueOfBigEndian(n / 256, width - 1);
      var b := BigEndian(n, width);
      assert b[..|b| - 1] == BigEndian(n / 256, width - 1);
    }
  }

  lemma {:induction false} WordRoundTrip(n: u64)
    ensures Value(BigEndian(n, 8)) == n
  {
    assert Power(2) == 0x1_0000 && Power(4) == 0x1_0000_0000;
    assert Power(6) == 0x1_0000_0000_0000 && Power(8) == 0x1_0000_0000_0000_0000;
    ValueOfBigEndian(n, 8);
  }

  // ----- keys; the hash is taken to be injective, so a key is identified with what is hashed

  const PRE_PREPARE_PREFIX: byte := 1
  const PREPARE_PREFIX: byte := 2
  const COMMIT_PREFIX: byte := 3
  const REPLY_PREFIX: byte := 4

  function KeyImage(prefix: byte, view: u64, number: u64, digest: Bytes): Bytes {
    [prefix] + BigEndian(view, 8) + BigEndian(number, 8) + digest
  }

  function PrePrepareKeyByRequestHash(digest: Bytes, view: u64, number: u64): Bytes {
    KeyImage(PRE_PREPARE_PREFIX, view, number, digest)
  }

  function PrepareKeyByRequestHash(digest: Bytes, view: u64, number: u64): Bytes {
    KeyImage(PREPARE_PREFIX, view, number, digest)
  }

  function CommitKeyByRequestHash(digest: Bytes, view: u64, number: u64): Bytes {
    KeyImage(COMMIT_PREFIX, view, number, digest)
  }

  /** The key under which a message is recorded; only votes and replies have one here. */
  function MessageKey(m: Message): Option<Bytes> {
    match m
    case OfPrePrepare(p) => Some(KeyImage(PRE_PREPARE_PREFIX, p.view, p.number, p.mHash))
    case OfPrepare(p) => Some(KeyImage(PREPARE_PREFIX, p.view, p.number, p.mHash))
    case OfCommit(c) => Some(KeyImage(COMMIT_PREFIX, c.view, c.number, c.mHash))
    case OfReply(r) =>
      Some([REPLY_PREFIX] + r.clientId + r.timestamp + BigEndian(r.view, 8) + BigEndian(r.number, 8) + r.result)
    case _ => None
  }

  /** The messages that the log files under a key. */
  predicate Recordable(m: Message) {
    m.OfPrePrepare? || m.OfPrepare? || m.OfCommit? || m.OfReply?
  }

  lemma {:induction false} KeyParts(prefix: byte, view: u64, number: u64, digest: Bytes)
    ensures var k := KeyImage(prefix, view, number, digest);
      |k| >= 17 && k[0] == prefix && k[1..9] == BigEndian(view, 8) && k[9..17] == BigEndian(number, 8)
        && k[17..] == digest
  {
  }

  /** Two key pre-images are equal exactly if prefix, view, number and digest are. */
  lemma KeyImageInjective(p: byte, v: u64, n: u64, d: Bytes, p': byte, v': u64, n': u64, d': Bytes)
    ensures KeyImage(p, v, n, d) == KeyImage(p', v', n', d') <==> p == p' && v == v' && n == n' && d == d'
  {
    if KeyImage(p, v, n, d) == KeyImage(p', v', n', d') {
      KeyParts(p, v, n, d);
      KeyParts(p', v', n', d');
      WordRoundTrip(v);
      WordRoundTrip(v');
      WordRoundTrip(n);
      WordRoundTrip(n');
    }
  }

  /** The message that a vote lookup finds is exactly a vote of that kind, view, number and digest. */
  ghost predicate Votes(m: Message, prefix: byte, view: u64, number: u64, digest: Bytes) {
    match m
    case OfPrePrepare(p) => prefix == PRE_PREPARE_PREFIX && p.view == view && p.number == number && p.mHash == digest
    case OfPrepare(p) => prefix == PREPARE_PREFIX && p.view == view && p.number == number && p.mHash == digest
    case OfCommit(c) => prefix == COMMIT_PREFIX && c.view == view && c.number == number && c.mHash == digest
    case _ => false
  }

  lemma LookupFindsVotes(m: Message, prefix: byte, view: u64, number: u64, digest: Bytes)
    requires prefix in {PRE_PREPARE_PREFIX, PREPARE_PREFIX, COMMIT_PREFIX}
    ensures MessageKey(m) == Some(KeyImage(prefix, view, number, digest)) <==> Votes(m, prefix, view, number, digest)
  {
    KeyParts(prefix, view, number, digest);
    match m
    case OfPrePrepare(p) => KeyImageInjective(PRE_PREPARE_PREFIX, p.view, p.number, p.mHash, prefix, view, number,
        digest);
    case OfPrepare(p) => KeyImageInjective(PREPARE_PREFIX, p.view, p.number, p.mHash, prefix, view, number, digest);
    case OfCommit(c) => KeyImageInjective(COMMIT_PREFIX, c.view, c.number, c.mHash, prefix, view, number, digest);
    case OfReply(r) => assert MessageKey(m).value[0] == REPLY_PREFIX;
    case _ =>
  }

  /** The three lookups agree with the key a message is recorded under. */
  lemma LookupsAgree(m: Message, digest: Bytes, view: u64, number: u64)
    ensures MessageKey(m) == Some(PrePrepareKeyByRequestHash(digest, view, number))
      <==> m.OfPrePrepare? && m.preprepare.mHash == digest && m.preprepare.view == view && m.preprepare.number == number
    ensures MessageKey(m) == Some(PrepareKeyByRequestHash(digest, view, number))
      <==> m.OfPrepare? && m.prepare.mHash == digest && m.prepare.view == view && m.prepare.number == number
    ensures MessageKey(m) == Some(CommitKeyByRequestHash(digest, view, number))
      <==> m.OfCommit? && m.commit.mHash == digest && m.commit.view == view && m.commit.number == number
  {
    LookupFindsVotes(m, PRE_PREPARE_PREFIX, view, number, digest);
    LookupFindsVotes(m, PREPARE_PREFIX, view, number, digest);
    LookupFindsVotes(m, COMMIT_PREFIX, view, number, digest);
  }

  /** Reply keys join two fields of free length, so different replies can share one. Where the two fields
      are as long together, this takes the same concatenation of client id and timestamp and agreement on
      everything else. */
  lemma ReplyKeysCollide(a: Reply, b: Reply)
    requires |a.clientId + a.timestamp| == |b.clientId + b.timestamp|
    ensures MessageKey(OfReply(a)) == MessageKey(OfReply(b)) <==>
      && a.clientId + a.timestamp == b.clientId + b.timestamp
      && a.view == b.view && a.number == b.number && a.result == b.result
  {
    ReplyParts(a);
    ReplyParts(b);
    if MessageKey(OfReply(a)) == MessageKey(OfReply(b)) {
      WordRoundTrip(a.view);
      WordRoundTrip(b.view);
      WordRoundTrip(a.number);
      WordRoundTrip(b.number);
    } else if a.clientId + a.timestamp == b.clientId + b.timestamp && a.view == b.view && a.number == b.number
              && a.result == b.result {
      SameReplyKey(a, b);
    }
  }

  lemma SameReplyKey(a: Reply, b: Reply)
    requires a.clientId + a.timestamp == b.clientId + b.timestamp
    requires a.view == b.view && a.number == b.number && a.result == b.result
    ensures MessageKey(OfReply(a)) == MessageKey(OfReply(b))
  {
    ReplyImage(a);
    ReplyImage(b);
  }

  lemma ReplyImage(r: Reply)
    ensures MessageKey(OfReply(r))
      == Some([REPLY_PREFIX] + (r.clientId + r.timestamp) + BigEndian(r.view, 8) + BigEndian(r.number, 8) + r.result)
  {
    assert [REPLY_PREFIX] + r.clientId + r.timestamp == [REPLY_PREFIX] + (r.clientId + r.timestamp);
  }

  lemma ReplyParts(r: Reply)
    ensures var k := MessageKey(OfReply(r)).value;
      var n := 1 + |r.clientId + r.timestamp|;
      && |k| >= n + 16 && k[1..n] == r.clientId + r.timestamp
      && k[n..n + 8] == BigEndian(r.view, 8) && k[n + 8..n + 16] == BigEndian(r.number, 8) && k[n + 16..] == r.result
  {
  }

  /** Fields of other lengths can make replies of different views share a key. */
  lemma ReplyKeyPair()
    ensures var a := Reply([], [], 1, 0, [], [], [0]);
      var b := Reply([0], [], 256, 0, [], [], []);
      a.view != b.view && MessageKey(OfReply(a)) == MessageKey(OfReply(b))
  {
    var z6, z7, z8 := BigEndian(0, 6), BigEndian(0, 7), BigEndian(0, 8);
    ZeroWord(6);
    ZeroWord(7);
    ZeroWord(8);
    assert BigEndian(1, 8) == z7 + [1] && BigEndian(1, 7) == z6 + [1] && BigEndian(256, 8) == (z6 + [1]) + [0];
    ReplyImage(Reply([], [], 1, 0, [], [], [0]));
    ReplyImage(Reply([0], [], 256, 0, [], [], []));
    Shifted([REPLY_PREFIX], z6, z7, z8);
  }

  lemma Shifted(p: Bytes, z6: Bytes, z7: Bytes, z8: Bytes)
    requires z7 == [0] + z6 && [0] + z8 == z8 + [0]
    ensures p + ([] + []) + (z7 + [1]) + z8 + [0] == p + ([0] + []) + ((z6 + [1]) + [0]) + z8 + []
  {
    var left := p + ([] + []) + (z7 + [1]) + z8 + [0];
    var right := p + ([0] + []) + ((z6 + [1]) + [0]) + z8 + [];
    assert left == p + z7 + [1] + (z8 + [0]);
    assert right == p + ([0] + z6) + [1] + ([0] + z8);
  }

  lemma {:induction false} ZeroWord(width: nat)
    ensures forall k | 0 <= k < width :: BigEndian(0, width)[k] == 0
    ensures width > 0 ==> BigEndian(0, width) == [0] + BigEndian(0, width - 1)
    ensures [0] + BigEndian(0, width) == BigEndian(0, width) + [0]
  {
    if width > 0 {
      ZeroWord(width - 1);
    }
  }
}

/**
 What a PBFT replica sends over any sequence of deliveries: one Prepare for every PrePrepare it files, one
 Commit for every slot whose 2f-th Prepare it files, and no other vote; every vote is its own and signed.
 */
module PbftVotes {
  import opened Common
  import opened PbftKeys
  import opened PbftNode
  import opened PbftRun

  datatype Slot = Slot(view: u64, number: u64, digest: Bytes)

  predicate IsVote(m: Message, prefix: byte, x: Slot) {
    match m
    case OfPrePrepare(p) => prefix == PRE_PREPARE_PREFIX && Slot(p.view, p.number, p.mHash) == x
    case OfPrepare(p) => prefix == PREPARE_PREFIX && Slot(p.view, p.number, p.mHash) == x
    case OfCommit(c) => prefix == COMMIT_PREFIX && Slot(c.view, c.number, c.mHash) == x
    case _ => false
  }

  /** The number of votes of a kind for a slot among messages. */
  function Tally(ms: seq<Message>, prefix: byte, x: Slot): nat {
    if ms == [] then 0
    else Tally(ms[..|ms| - 1], prefix, x) + if IsVote(ms[|ms| - 1], prefix, x) then 1 else 0
  }

  lemma {:induction false} TallyPlus(a: seq<Message>, b: seq<Message>, prefix: byte, x: Slot)
    ensures Tally(a + b, prefix, x) == Tally(a, prefix, x) + Tally(b, prefix, x)
  {
    if b == [] {
      assert a + b == a;
    } else {
      assert (a + b)[..|a + b| - 1] == a + b[..|b| - 1];
      TallyPlus(a, b[..|b| - 1], prefix, x);
    }
  }

  lemma {:induction false} TallyCounts(ms: seq<Message>, prefix: byte, x: Slot)
    ensures Tally(ms, prefix, x) > 0 <==> exists k :: 0 <= k < |ms| && IsVote(ms[k], prefix, x)
  {
    if ms != [] {
      var front := ms[..|ms| - 1];
      TallyCounts(front, prefix, x);
      if Tally(front, prefix, x) > 0 {
        var k :| 0 <= k < |front| && IsVote(front[k], prefix, x);
        assert IsVote(ms[k], prefix, x);
      }
      if k :| 0 <= k < |ms| && IsVote(ms[k], prefix, x) && k < |front| {
        assert IsVote(front[k], prefix, x);
      }
    }
  }

  /** The number of votes of a kind that the log holds for a slot. */
  function Held(log: map<Bytes, seq<Message>>, prefix: byte, x: Slot): nat {
    |Bucket(log, KeyImage(prefix, x.view, x.number, x.digest))|
  }

  predicate IsVotePrefix(prefix: byte) {
    prefix == PRE_PREPARE_PREFIX || prefix == PREPARE_PREFIX || prefix == COMMIT_PREFIX
  }

  /** Filing a message adds it to its own slot, and to no other. */
  lemma FiledOnce(f: Foreign, log: map<Bytes, seq<Message>>, m: Message, prefix: byte, x: Slot)
    requires Standard(f) && Recordable(m) && IsVotePrefix(prefix)
    ensures Held(Record(f, log, m), prefix, x) == Held(log, prefix, x) + if IsVote(m, prefix, x) then 1 else 0
    ensures IsVote(m, prefix, x) ==> f.key(m) == KeyImage(prefix, x.view, x.number, x.digest)
  {
    assert MessageKey(m) == Some(f.key(m));
    LookupFindsVotes(m, prefix, x.view, x.number, x.digest);
  }

  // ----- one delivery

  /** 1 if filing took the Prepares of a slot to 2f, else 0. */
  function Crossed(faults: nat, before: nat, after: nat): nat {
    if before < 2 * faults <= after then 1 else 0
  }

  /** The votes sent match the votes filed. */
  ghost predicate Balanced(s: Node, s': Node, sent: seq<Message>, x: Slot) {
    && Held(s'.messages, PRE_PREPARE_PREFIX, x)
        == Held(s.messages, PRE_PREPARE_PREFIX, x) + Tally(sent, PREPARE_PREFIX, x)
    && Held(s'.messages, PREPARE_PREFIX, x) >= Held(s.messages, PREPARE_PREFIX, x)
    && (s.faults > 0 ==>
          Tally(sent, COMMIT_PREFIX, x)
          == Crossed(s.faults, Held(s.messages, PREPARE_PREFIX, x), Held(s'.messages, PREPARE_PREFIX, x)))
  }

  ghost predicate Prepares(f: Foreign, s: Node, s': Node, x: Slot) {
    Held(s'.messages, PREPARE_PREFIX, x) > Held(s.messages, PREPARE_PREFIX, x) ==> Expects(f, s', x.number, x.digest)
  }

  /** A vote of the replica itself, with its signature on the unsigned vote. */
  ghost predicate Own(f: Foreign, m: Message) {
    match m
    case OfPrePrepare(p) => p.from == f.self && p.signature == f.sign(f.key(OfPrePrepare(p.(signature := []))))
    case OfPrepare(p) => p.from == f.self && p.signature == f.sign(f.key(OfPrepare(p.(signature := []))))
    case OfCommit(c) => c.from == f.self && c.signature == f.sign(f.key(OfCommit(c.(signature := []))))
    case OfReply(r) => r.from == f.self && r.signature == f.sign(f.key(OfReply(r.(signature := []))))
    case _ => true
  }

  ghost predicate AllOwn(f: Foreign, ms: seq<Message>) {
    forall k | 0 <= k < |ms| :: Own(f, ms[k])
  }

  /** What a handler keeps for every slot. */
  ghost predicate KeepsVotes(f: Foreign, s: Node, r: Result) {
    r.Done? ==>
      && r.node.faults == s.faults && Extends(s.requests, r.node.requests) && AllOwn(f, r.sent)
      && forall x :: Balanced(s, r.node, r.sent, x) && Prepares(f, s, r.node, x)
  }

  lemma {:induction false} TallyOne(m: Message, prefix: byte, x: Slot)
    ensures Tally([m], prefix, x) == if IsVote(m, prefix, x) then 1 else 0
  {
    assert [m][..0] == [];
  }

  /** A handler that files nothing and sends no vote. */
  lemma StillVotes(f: Foreign, s: Node, r: Result)
    requires Still(s, r) && (r.Done? ==> forall k | 0 <= k < |r.sent| :: r.sent[k].OfPrePrepare? && Own(f, r.sent[k]))
    ensures KeepsVotes(f, s, r)
  {
    if r.Done? {
      forall x ensures Balanced(s, r.node, r.sent, x) {
        TallyCounts(r.sent, PREPARE_PREFIX, x);
        TallyCounts(r.sent, COMMIT_PREFIX, x);
      }
    }
  }

  lemma RequestVotes(f: Foreign, s: Node, m: Request)
    ensures KeepsVotes(f, s, HandleRequest(f, s, m))
  {
    RequestFrame(f, s, m);
    StillVotes(f, s, HandleRequest(f, s, m));
  }

  lemma PrePrepareVotes(f: Foreign, s: Node, m: PrePrepare)
    requires Standard(f)
    ensures KeepsVotes(f, s, HandlePrePrepare(f, s, m))
  {
    var r := HandlePrePrepare(f, s, m);
    PrePrepareFrame(f, s, m);
    if r.Done? && InWindow(s, m.view, m.number) {
      assert |r.sent| == 1;
      forall x ensures Balanced(s, r.node, r.sent, x) && Prepares(f, s, r.node, x) {
        FiledOnce(f, s.messages, OfPrePrepare(m), PRE_PREPARE_PREFIX, x);
        FiledOnce(f, s.messages, OfPrePrepare(m), PREPARE_PREFIX, x);
        TallyOne(r.sent[0], PREPARE_PREFIX, x);
        TallyOne(r.sent[0], COMMIT_PREFIX, x);
      }
    } else {
      StillVotes(f, s, r);
    }
  }

  lemma PrepareVotes(f: Foreign, s: Node, m: Prepare)
    requires Standard(f)
    ensures KeepsVotes(f, s, HandlePrepare(f, s, m))
  {
    var r := HandlePrepare(f, s, m);
    PrepareFrame(f, s, m);
    if r.Done? && Admits(f, s, Prepared, m.view, m.number, m.mHash) {
      forall x ensures Balanced(s, r.node, r.sent, x) && Prepares(f, s, r.node, x) {
        FiledOnce(f, s.messages, OfPrepare(m), PRE_PREPARE_PREFIX, x);
        FiledOnce(f, s.messages, OfPrepare(m), PREPARE_PREFIX, x);
        if r.sent != [] {
          TallyOne(r.sent[0], PREPARE_PREFIX, x);
          TallyOne(r.sent[0], COMMIT_PREFIX, x);
        }
      }
    } else if r.Done? {
      assert r == Done(s, []);
      StillVotes(f, s, r);
    }
  }

  lemma CommitVotes(f: Foreign, s: Node, m: Commit)
    requires Standard(f)
    ensures KeepsVotes(f, s, HandleCommit(f, s, m))
  {
    var r := HandleCommit(f, s, m);
    CommitFrame(f, s, m);
    if r.Done? && Admits(f, s, Commited, m.view, m.number, m.mHash) {
      CommitSends(f, s, m);
      forall x ensures Balanced(s, r.node, r.sent, x) && Prepares(f, s, r.node, x) {
        FiledOnce(f, s.messages, OfCommit(m), PRE_PREPARE_PREFIX, x);
        FiledOnce(f, s.messages, OfCommit(m), PREPARE_PREFIX, x);
        TallyCounts(r.sent, PREPARE_PREFIX, x);
        TallyCounts(r.sent, COMMIT_PREFIX, x);
      }
    } else if r.Done? {
      assert r == Done(s, []);
      StillVotes(f, s, r);
    }
  }

  lemma CommitSends(f: Foreign, s: Node, m: Commit)
    requires HandleCommit(f, s, m).Done?
    ensures var sent := HandleCommit(f, s, m).sent;
      AllOwn(f, sent) && forall k | 0 <= k < |sent| :: sent[k].OfCheckPoint? || sent[k].OfReply?
  {
  }

  lemma ReplyVotes(f: Foreign, s: Node, m: Reply)
    requires Standard(f)
    ensures KeepsVotes(f, s, HandleReply(f, s, m))
  {
    var r := HandleReply(f, s, m);
    ReplyFrame(f, s, m);
    if r.Done? {
      forall x ensures Balanced(s, r.node, r.sent, x) && Prepares(f, s, r.node, x) {
        FiledOnce(f, s.messages, OfReply(m), PRE_PREPARE_PREFIX, x);
        FiledOnce(f, s.messages, OfReply(m), PREPARE_PREFIX, x);
      }
    }
  }

  lemma CheckedVotes(f: Foreign, s: Node, auth: Auth, r: Result)
    requires KeepsVotes(f, s, r)
    ensures KeepsVotes(f, s, Checked(s, auth, r)) && KeepsVotes(f, s, Done(s, []))
  {
    StillVotes(f, s, Done(s, []));
  }

  lemma StepVotes(f: Foreign, s: Node, e: Event)
    requires Standard(f)
    ensures KeepsVotes(f, s, Step(f, s, e))
  {
    match e
    case Deliver(OfRequest(m), auth) =>
      RequestVotes(f, s, m);
      CheckedVotes(f, s, auth, HandleRequest(f, s, m));
    case Deliver(OfPrePrepare(m), auth) =>
      PrePrepareVotes(f, s, m);
      CheckedVotes(f, s, auth, HandlePrePrepare(f, s, m));
    case Deliver(OfPrepare(m), auth) =>
      PrepareVotes(f, s, m);
      CheckedVotes(f, s, auth, HandlePrepare(f, s, m));
    case Deliver(OfCommit(m), auth) =>
      CommitVotes(f, s, m);
      CheckedVotes(f, s, auth, HandleCommit(f, s, m));
    case Deliver(OfReply(m), auth) =>
      ReplyVotes(f, s, m);
      CheckedVotes(f, s, auth, HandleReply(f, s, m));
    case Deliver(OfCheckPoint(m), _) =>
      CheckPointFrame(s, m);
      StillVotes(f, s, Done(HandleCheckPoint(s, m), []));
    case Deliver(OfViewChange(m), _) =>
      ViewChangeFrame(s, m);
      StillVotes(f, s, HandleViewChange(s, m));
    case Deliver(OfNewView(m), _) =>
      StillVotes(f, s, HandleNewView(s, m));
    case Timeout =>
      BroadcastFrame(s);
      StillVotes(f, s, BroadcastViewChange(s));
  }

  // ----- runs

  ghost predicate SlotOk(f: Foreign, t: Trace, x: Slot) {
    && Tally(t.sent, PREPARE_PREFIX, x) == Held(t.node.messages, PRE_PREPARE_PREFIX, x)
    && (t.node.faults > 0 ==>
          Tally(t.sent, COMMIT_PREFIX, x)
          == if Held(t.node.messages, PREPARE_PREFIX, x) >= 2 * t.node.faults then 1 else 0)
    && (Held(t.node.messages, PREPARE_PREFIX, x) > 0 ==> Expects(f, t.node, x.number, x.digest))
  }

  lemma {:induction false} SlotKept(f: Foreign, t: Trace, e: Event, x: Slot)
    requires Standard(f) && SlotOk(f, t, x) && t.alive && Step(f, t.node, e).Done?
    ensures SlotOk(f, Next(f, t, e), x)
  {
    var r := Step(f, t.node, e);
    StepVotes(f, t.node, e);
    assert Balanced(t.node, r.node, r.sent, x) && Prepares(f, t.node, r.node, x);
    TallyPlus(t.sent, r.sent, PREPARE_PREFIX, x);
    TallyPlus(t.sent, r.sent, COMMIT_PREFIX, x);
  }

  lemma {:induction false} RunSlot(f: Foreign, s: Node, es: seq<Event>, x: Slot)
    requires Standard(f) && Fresh(s)
    ensures SlotOk(f, Exec(f, s, es), x)
  {
    if es != [] {
      var front := es[..|es| - 1];
      assert Exec(f, s, es) == ExecLast(f, s, es);
      RunSlot(f, s, front, x);
      var t := Exec(f, s, front);
      if t.alive && Step(f, t.node, es[|es| - 1]).Done? {
        SlotKept(f, t, es[|es| - 1], x);
      }
    }
  }

  lemma {:induction false} RunOwn(f: Foreign, s: Node, es: seq<Event>)
    requires Standard(f) && Fresh(s)
    ensures AllOwn(f, Exec(f, s, es).sent)
  {
    if es != [] {
      var front := es[..|es| - 1];
      assert Exec(f, s, es) == ExecLast(f, s, es);
      RunOwn(f, s, front);
      StepVotes(f, Exec(f, s, front).node, es[|es| - 1]);
    }
  }

  ghost predicate CommitSent(sent: seq<Message>, view: u64, number: u64) {
    exists k :: 0 <= k < |sent| && sent[k].OfCommit? && sent[k].commit.view == view && sent[k].commit.number == number
  }

  /** The slot has its request, and 2f Prepares for the hash of it are filed. */
  ghost predicate PreparedFor(f: Foreign, s: Node, view: u64, number: u64) {
    && number in s.requests
    && |Bucket(s.messages, PrepareKeyByRequestHash(f.key(OfRequest(s.requests[number])), view, number))| >= 2 * s.faults
  }

  /** Over any deliveries, a Commit for a view and number has been sent exactly if 2f Prepares for the hash of
      the number's request are filed. */
  lemma {:induction false} CommitIffPrepared(f: Foreign, s: Node, es: seq<Event>, view: u64, number: u64)
    requires Standard(f) && Fresh(s) && Exec(f, s, es).node.faults > 0
    ensures var t := Exec(f, s, es); CommitSent(t.sent, view, number) <==> PreparedFor(f, t.node, view, number)
  {
    var t := Exec(f, s, es);
    if CommitSent(t.sent, view, number) {
      var k :| 0 <= k < |t.sent| && t.sent[k].OfCommit? && t.sent[k].commit.view == view
        && t.sent[k].commit.number == number;
      CommitMatches(f, s, es, k);
    }
    if PreparedFor(f, t.node, view, number) {
      var x := Slot(view, number, f.key(OfRequest(t.node.requests[number])));
      RunSlot(f, s, es, x);
      TallyCounts(t.sent, COMMIT_PREFIX, x);
    }
  }

  /** Each Commit that was sent is for the hash of its number's request and rests on 2f filed Prepares of exactly
      its view, number and hash; no other Commit was sent for them. */
  lemma {:induction false} CommitMatches(f: Foreign, s: Node, es: seq<Event>, k: nat)
    requires Standard(f) && Fresh(s) && Exec(f, s, es).node.faults > 0
    requires k < |Exec(f, s, es).sent| && Exec(f, s, es).sent[k].OfCommit?
    ensures var t := Exec(f, s, es);
      var c := t.sent[k].commit;
      && c.number in t.node.requests && c.mHash == f.key(OfRequest(t.node.requests[c.number]))
      && |Bucket(t.node.messages, PrepareKeyByRequestHash(c.mHash, c.view, c.number))| >= 2 * t.node.faults
      && Tally(t.sent, COMMIT_PREFIX, Slot(c.view, c.number, c.mHash)) == 1
  {
    var t := Exec(f, s, es);
    var c := t.sent[k].commit;
    var x := Slot(c.view, c.number, c.mHash);
    RunSlot(f, s, es, x);
    assert IsVote(t.sent[k], COMMIT_PREFIX, x);
    TallyCounts(t.sent, COMMIT_PREFIX, x);
  }

  /** Over any deliveries, as many Prepares have been sent for a view, number and hash as PrePrepares with them
      are filed. */
  lemma {:induction false} PreparesMatch(f: Foreign, s: Node, es: seq<Event>, view: u64, number: u64, digest: Bytes)
    requires Standard(f) && Fresh(s)
    ensures var t := Exec(f, s, es);
      Tally(t.sent, PREPARE_PREFIX, Slot(view, number, digest))
      == |Bucket(t.node.messages, PrePrepareKeyByRequestHash(digest, view, number))|
  {
    RunSlot(f, s, es, Slot(view, number, digest));
  }

  /** Everything that was sent names the replica and carries its signature on the unsigned message. */
  lemma {:induction false} SentAreOwn(f: Foreign, s: Node, es: seq<Event>, k: nat)
    requires Standard(f) && Fresh(s) && k < |Exec(f, s, es).sent|
    ensures Own(f, Exec(f, s, es).sent[k])
  {
    RunOwn(f, s, es);
  }
}

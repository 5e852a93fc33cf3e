/**
 What a PBFT replica files and executes: the exact conditions under which a vote is filed, and over any
 sequence of deliveries the execution order that its Replies show, with the digest chain and the checkpoints
 that this order implies.
 */
module PbftExecution {
  import opened Common
  import opened PbftKeys
  import opened PbftNode
  import opened PbftRun

  // ----- one delivery

  /** A verified vote is filed exactly if its number is among the 100 after the stable checkpoint, its view is
      the replica's and, for Prepares and Commits, its number has a request of that hash and the hash has not
      passed that phase yet. */
  lemma FilesExactly(f: Foreign, s: Node, m: Message)
    requires !s.abnormal && s.stable + 100 < U64_LIMIT && Step(f, s, Deliver(m, Verified)).Done?
    ensures var s' := Step(f, s, Deliver(m, Verified)).node;
      match m
      case OfPrePrepare(p) =>
        s'.messages == if s.stable < p.number <= s.stable + 100 && p.view == s.view
                       then Push(s.messages, f.key(m), m) else s.messages
      case OfPrepare(p) =>
        s'.messages == if s.stable < p.number <= s.stable + 100 && p.view == s.view
                          && p.number in s.requests && f.key(OfRequest(s.requests[p.number])) == p.mHash
                          && !(p.mHash in s.phases && s.phases[p.mHash] == Prepared)
                       then Push(s.messages, f.key(m), m) else s.messages
      case OfCommit(c) =>
        s'.messages == if s.stable < c.number <= s.stable + 100 && c.view == s.view
                          && c.number in s.requests && f.key(OfRequest(s.requests[c.number])) == c.mHash
                          && !(c.mHash in s.phases && s.phases[c.mHash] == Commited)
                       then Push(s.messages, f.key(m), m) else s.messages
      case OfReply(_) => s'.messages == if s.clientReplied then s.messages else Push(s.messages, f.key(m), m)
      case _ => s'.messages == s.messages
  {
    StepFrame(f, s, Deliver(m, Verified));
    match m
    case OfPrePrepare(p) => PrePrepareFrame(f, s, p);
    case OfPrepare(p) => PrepareFrame(f, s, p);
    case OfCommit(c) => CommitFrame(f, s, c);
    case OfReply(r) => ReplyFrame(f, s, r);
    case OfCheckPoint(p) => CheckPointFrame(s, p);
    case OfViewChange(v) => ViewChangeFrame(s, v);
    case OfNewView(_) =>
    case OfRequest(r) => RequestFrame(f, s, r);
  }

  // ----- the execution order

  /** Every number of the Replies has a request. */
  ghost predicate Known(requests: map<u64, Request>, rs: seq<Reply>) {
    forall i | 0 <= i < |rs| :: rs[i].number in requests
  }

  /** The digest chain over the requests that were answered, in that order. */
  ghost function DigestAfter(f: Foreign, requests: map<u64, Request>, start: Bytes, rs: seq<Reply>): Bytes
    requires Known(requests, rs)
  {
    if rs == [] then start
    else
      var n := |rs| - 1;
      f.chain(DigestAfter(f, requests, start, rs[..n]), f.key(OfRequest(requests[rs[n].number])))
  }

  /** The digests of the checkpoints that are due: after every 50th execution. */
  ghost function Due(f: Foreign, s0: Node, requests: map<u64, Request>, rs: seq<Reply>): seq<Bytes>
    requires Known(requests, rs)
  {
    if rs == [] then []
    else
      Due(f, s0, requests, rs[..|rs| - 1])
      + if (s0.commited + |rs|) % 50 == 0 then [DigestAfter(f, requests, s0.checkpointState, rs)] else []
  }

  function CheckPointDigests(ms: seq<Message>): seq<Bytes> {
    if ms == [] then []
    else
      CheckPointDigests(ms[..|ms| - 1])
      + if ms[|ms| - 1].OfCheckPoint? then [ms[|ms| - 1].checkpoint.digest] else []
  }

  lemma {:induction false} DigestsPlus(a: seq<Message>, b: seq<Message>)
    ensures CheckPointDigests(a + b) == CheckPointDigests(a) + CheckPointDigests(b)
  {
    if b == [] {
      assert a + b == a;
    } else {
      assert (a + b)[..|a + b| - 1] == a + b[..|b| - 1];
      DigestsPlus(a, b[..|b| - 1]);
    }
  }

  lemma {:induction false} SameDigests(f: Foreign, s0: Node, a: map<u64, Request>, b: map<u64, Request>, rs: seq<Reply>)
    requires Known(a, rs) && Extends(a, b)
    ensures Known(b, rs)
    ensures DigestAfter(f, a, s0.checkpointState, rs) == DigestAfter(f, b, s0.checkpointState, rs)
    ensures Due(f, s0, a, rs) == Due(f, s0, b, rs)
  {
    if rs != [] {
      SameDigests(f, s0, a, b, rs[..|rs| - 1]);
    }
  }

  ghost predicate InOrder(f: Foreign, s0: Node, s: Node, rs: seq<Reply>, digests: seq<Bytes>) {
    && Known(s.requests, rs)
    && s.commited == s0.commited + |rs|
    && s.checkpointState == DigestAfter(f, s.requests, s0.checkpointState, rs)
    && digests == Due(f, s0, s.requests, rs)
  }

  /** A handler that executes nothing. */
  ghost predicate Idle(s: Node, r: Result) {
    r.Done? ==>
      && r.node.commited == s.commited && r.node.checkpointState == s.checkpointState
      && Extends(s.requests, r.node.requests)
      && (r.sent == [] || (|r.sent| == 1 && !r.sent[0].OfReply? && !r.sent[0].OfCheckPoint?))
  }

  /** The request of a number is executed: the digest chain grows, a Reply with the text ok! is sent, and
      before it a checkpoint if the count is a multiple of 50. */
  ghost predicate Executes(f: Foreign, s: Node, number: u64, r: Result) {
    r.Done? ==>
      && number in s.requests && r.node.requests == s.requests && r.node.commited == s.commited + 1
      && r.node.checkpointState == f.chain(s.checkpointState, f.key(OfRequest(s.requests[number])))
      && r.sent != [] && r.sent[|r.sent| - 1].OfReply?
      && (var y := r.sent[|r.sent| - 1].reply;
          && y.number == number && y.view == s.view && y.result == [111, 107, 33]
          && y.clientId == s.requests[number].clientId && y.timestamp == s.requests[number].timestamp)
      && if r.node.commited % 50 == 0
         then
           && |r.sent| == 2 && r.sent[0].OfCheckPoint? && r.sent[0].checkpoint.maxNumber == s.stable + 50
           && r.sent[0].checkpoint.digest == r.node.checkpointState && r.sent[0].checkpoint.from == f.self
         else |r.sent| == 1
  }

  lemma CommitExecutes(f: Foreign, s: Node, m: Commit)
    ensures Idle(s, HandleCommit(f, s, m)) || Executes(f, s, m.number, HandleCommit(f, s, m))
  {
    if HandleCommit(f, s, m).Done? && Admits(f, s, Commited, m.view, m.number, m.mHash) {
      var s1 := s.(messages := Record(f, s.messages, OfCommit(m)));
      assert HandleCommit(f, s, m) == Done(s1, []) || HandleCommit(f, s, m) == Execute(f, s1, m.number, m.mHash);
    }
  }

  lemma StepExecutes(f: Foreign, s: Node, e: Event)
    ensures Idle(s, Step(f, s, e)) || (e.Deliver? && e.m.OfCommit? && Executes(f, s, e.m.commit.number, Step(f, s, e)))
  {
    if e.Deliver? && e.m.OfCommit? {
      CommitExecutes(f, s, e.m.commit);
    } else {
      OthersIdle(f, s, e);
    }
  }

  lemma RequestIdle(f: Foreign, s: Node, m: Request)
    ensures Idle(s, HandleRequest(f, s, m))
  {
  }

  lemma PrePrepareIdle(f: Foreign, s: Node, m: PrePrepare)
    ensures Idle(s, HandlePrePrepare(f, s, m))
  {
  }

  lemma PrepareIdle(f: Foreign, s: Node, m: Prepare)
    ensures Idle(s, HandlePrepare(f, s, m))
  {
  }

  lemma ReplyIdle(f: Foreign, s: Node, m: Reply)
    ensures Idle(s, HandleReply(f, s, m))
  {
  }

  lemma CheckPointIdle(s: Node, m: CheckPoint)
    ensures Idle(s, Done(HandleCheckPoint(s, m), []))
  {
  }

  lemma ViewChangeIdle(s: Node, m: ViewChange)
    ensures Idle(s, HandleViewChange(s, m))
  {
  }

  lemma CheckedIdle(s: Node, auth: Auth, r: Result)
    requires Idle(s, r)
    ensures Idle(s, Checked(s, auth, r)) && Idle(s, Done(s, []))
  {
  }

  lemma OthersIdle(f: Foreign, s: Node, e: Event)
    requires e.Timeout? || !e.m.OfCommit?
    ensures Idle(s, Step(f, s, e))
  {
    match e
    case Deliver(OfRequest(m), auth) =>
      RequestIdle(f, s, m);
      CheckedIdle(s, auth, HandleRequest(f, s, m));
      assert Step(f, s, e) == if s.abnormal then Done(s, []) else HandleRequest(f, s, m);
    case Deliver(OfPrePrepare(m), auth) =>
      PrePrepareIdle(f, s, m);
      CheckedIdle(s, auth, HandlePrePrepare(f, s, m));
      assert Step(f, s, e) == if s.abnormal then Done(s, []) else Checked(s, auth, HandlePrePrepare(f, s, m));
    case Deliver(OfPrepare(m), auth) =>
      PrepareIdle(f, s, m);
      CheckedIdle(s, auth, HandlePrepare(f, s, m));
      assert Step(f, s, e) == if s.abnormal then Done(s, []) else Checked(s, auth, HandlePrepare(f, s, m));
    case Deliver(OfReply(m), auth) =>
      ReplyIdle(f, s, m);
      CheckedIdle(s, auth, HandleReply(f, s, m));
      assert Step(f, s, e) == if s.abnormal || s.clientReplied then Done(s, [])
          else Checked(s, auth, HandleReply(f, s, m));
    case Deliver(OfCheckPoint(m), _) =>
      CheckPointIdle(s, m);
      assert Step(f, s, e) == Done(HandleCheckPoint(s, m), []);
    case Deliver(OfViewChange(m), _) =>
      ViewChangeIdle(s, m);
      assert Step(f, s, e) == HandleViewChange(s, m);
    case Deliver(OfNewView(m), _) =>
      assert Step(f, s, e) == HandleNewView(s, m);
    case Timeout =>
      assert Step(f, s, e) == BroadcastViewChange(s);
  }

  lemma {:induction false} IdleKeeps(f: Foreign, s0: Node, s: Node, r: Result, rs: seq<Reply>, digests: seq<Bytes>)
    requires InOrder(f, s0, s, rs, digests) && r.Done? && Idle(s, r)
    ensures InOrder(f, s0, r.node, rs + RepliesIn(r.sent), digests + CheckPointDigests(r.sent))
  {
    SameDigests(f, s0, s.requests, r.node.requests, rs);
    if r.sent != [] {
      assert r.sent[..0] == [];
    }
    assert RepliesIn(r.sent) == [] && CheckPointDigests(r.sent) == [];
    assert rs + [] == rs && digests + [] == digests;
  }

  lemma {:induction false} Answer(f: Foreign, s: Node, number: u64, r: Result)
    requires r.Done? && Executes(f, s, number, r)
    ensures RepliesIn(r.sent) == [r.sent[|r.sent| - 1].reply]
    ensures CheckPointDigests(r.sent) == if r.node.commited % 50 == 0 then [r.node.checkpointState] else []
  {
    var before := r.sent[..|r.sent| - 1];
    if r.node.commited % 50 == 0 {
      assert before == [r.sent[0]] && before[..0] == [];
      assert CheckPointDigests(before) == [r.sent[0].checkpoint.digest] && RepliesIn(before) == [];
    } else {
      assert before == [] && RepliesIn(before) == [];
    }
  }

  lemma {:induction false} ExecuteKeepsOrder(f: Foreign, s0: Node, s: Node, number: u64, r: Result, rs: seq<Reply>,
      digests: seq<Bytes>)
    requires InOrder(f, s0, s, rs, digests) && r.Done? && Executes(f, s, number, r)
    ensures InOrder(f, s0, r.node, rs + RepliesIn(r.sent), digests + CheckPointDigests(r.sent))
  {
    Answer(f, s, number, r);
    var y := r.sent[|r.sent| - 1].reply;
    assert (rs + [y])[..|rs|] == rs;
  }

  lemma {:induction false} RunOrder(f: Foreign, s: Node, es: seq<Event>)
    ensures var t := Exec(f, s, es); InOrder(f, s, t.node, t.replies, CheckPointDigests(t.sent))
  {
    if es != [] {
      var front, e := es[..|es| - 1], es[|es| - 1];
      assert Exec(f, s, es) == ExecLast(f, s, es);
      RunOrder(f, s, front);
      var t := Exec(f, s, front);
      var r := Step(f, t.node, e);
      if t.alive && r.Done? {
        StepExecutes(f, t.node, e);
        DigestsPlus(t.sent, r.sent);
        if Idle(t.node, r) {
          IdleKeeps(f, s, t.node, r, t.replies, CheckPointDigests(t.sent));
        } else {
          ExecuteKeepsOrder(f, s, t.node, e.m.commit.number, r, t.replies, CheckPointDigests(t.sent));
        }
      }
    }
  }

  /** Over any deliveries from any state: one execution per Reply, the checkpoint state is the digest chain over the
      answered requests in the order of the Replies, and a checkpoint with that digest was sent after exactly
      every 50th execution. */
  lemma {:induction false} ExecutionOrder(f: Foreign, s: Node, es: seq<Event>)
    ensures var t := Exec(f, s, es);
      && Known(t.node.requests, t.replies)
      && t.node.commited == s.commited + |t.replies|
      && t.node.checkpointState == DigestAfter(f, t.node.requests, s.checkpointState, t.replies)
      && CheckPointDigests(t.sent) == Due(f, s, t.node.requests, t.replies)
  {
    RunOrder(f, s, es);
  }
}

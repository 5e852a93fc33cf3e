/**
 What holds of one PBFT replica after any sequence of deliveries, in any order and with any number of
 duplicates: which replies it has sent and what its log buckets hold.
 */
module PbftRun {
  import opened Common
  import opened PbftKeys
  import opened PbftNode

  /** The replica after a run, with what it has broadcast; after a panic nothing more happens. */
  datatype Trace = Trace(node: Node, alive: bool, replies: seq<Reply>, sent: seq<Message>)

  function RepliesIn(ms: seq<Message>): seq<Reply> {
    if ms == [] then []
    else RepliesIn(ms[..|ms| - 1]) + if ms[|ms| - 1].OfReply? then [ms[|ms| - 1].reply] else []
  }

  ghost function Next(f: Foreign, t: Trace, e: Event): Trace {
    if !t.alive then t else
    match Step(f, t.node, e)
    case Panic => t.(alive := false)
    case Done(s, sent) => Trace(s, true, t.replies + RepliesIn(sent), t.sent + sent)
  }

  ghost function Exec(f: Foreign, s: Node, es: seq<Event>): Trace
    decreases |es|, 1
  {
    if es == [] then Trace(s, true, [], []) else ExecLast(f, s, es)
  }

  ghost function ExecLast(f: Foreign, s: Node, es: seq<Event>): Trace
    requires es != []
    decreases |es|, 0
  {
    Next(f, Exec(f, s, es[..|es| - 1]), es[|es| - 1])
  }

  /** A replica that has recorded nothing yet. */
  ghost predicate Fresh(s: Node) {
    s.requests == map[] && s.messages == map[]
  }

  // ----- the invariant

  ghost predicate Filed(f: Foreign, log: map<Bytes, seq<Message>>) {
    forall key, m | key in log && m in log[key] :: f.key(m) == key && Recordable(m)
  }

  /** The commits recorded for a digest, view and number. */
  ghost function Commits(f: Foreign, s: Node, digest: Bytes, view: u64, number: u64): seq<Message> {
    Bucket(s.messages, CommitKey(f, digest, view, number))
  }

  /** The key of a commit, whoever signs it. */
  ghost function CommitKey(f: Foreign, digest: Bytes, view: u64, number: u64): Bytes {
    f.key(OfCommit(Commit(view, number, digest, [], [])))
  }

  /** The key law that runs rely on: a message has a commit's key exactly if it is such a commit. */
  ghost predicate CommitsKeyed(f: Foreign, m: Message) {
    forall d, v, n :: f.key(m) == CommitKey(f, d, v, n) <==>
      m.OfCommit? && m.commit.mHash == d && m.commit.view == v && m.commit.number == n
  }

  ghost predicate Lawful(f: Foreign) {
    forall m | Recordable(m) :: CommitsKeyed(f, m)
  }

  lemma KeyLaw(f: Foreign)
    requires Standard(f)
    ensures Lawful(f)
  {
    forall m, d, v, n | Recordable(m) ensures f.key(m) == CommitKey(f, d, v, n) <==>
      m.OfCommit? && m.commit.mHash == d && m.commit.view == v && m.commit.number == n
    {
      var c := OfCommit(Commit(v, n, d, [], []));
      assert MessageKey(c) == Some(f.key(c)) && MessageKey(m) == Some(f.key(m));
      LookupsAgree(m, d, v, n);
    }
    forall m | Recordable(m) ensures CommitsKeyed(f, m) {
    }
  }

  ghost function RequestHash(f: Foreign, s: Node, number: u64): Bytes
    requires number in s.requests
  {
    f.key(OfRequest(s.requests[number]))
  }

  ghost predicate CommitsExpected(f: Foreign, s: Node) {
    forall d, v, n :: Commits(f, s, d, v, n) != [] ==> Expects(f, s, n, d)
  }

  /** The slot has its request and 2f commits for it. */
  ghost predicate Decided(f: Foreign, s: Node, view: u64, number: u64) {
    number in s.requests && |Commits(f, s, RequestHash(f, s, number), view, number)| >= 2 * s.faults
  }

  ghost predicate Answers(f: Foreign, s: Node, r: Reply) {
    && Decided(f, s, r.view, r.number)
    && r.clientId == s.requests[r.number].clientId && r.timestamp == s.requests[r.number].timestamp
  }

  ghost predicate SlotsDistinct(rs: seq<Reply>) {
    forall i, j | 0 <= i < j < |rs| :: rs[i].view != rs[j].view || rs[i].number != rs[j].number
  }

  ghost predicate Answered(rs: seq<Reply>, view: u64, number: u64) {
    exists i | 0 <= i < |rs| :: rs[i].view == view && rs[i].number == number
  }

  ghost predicate Inv(f: Foreign, s: Node, rs: seq<Reply>) {
    && Filed(f, s.messages)
    && CommitsExpected(f, s)
    && (forall i | 0 <= i < |rs| :: Answers(f, s, rs[i]))
    && SlotsDistinct(rs)
    && (s.faults > 0 ==> forall v, n | Decided(f, s, v, n) :: Answered(rs, v, n))
  }

  // ----- steps that record no commit

  ghost predicate Extends(a: map<u64, Request>, b: map<u64, Request>) {
    forall n | n in a :: n in b && b[n] == a[n]
  }

  ghost predicate Quiet(f: Foreign, s: Node, s': Node) {
    && s'.faults == s.faults
    && Extends(s.requests, s'.requests)
    && Filed(f, s'.messages)
    && forall d, v, n :: Commits(f, s', d, v, n) == Commits(f, s, d, v, n)
  }

  lemma QuietRecord(f: Foreign, s: Node, s': Node, m: Message)
    requires Lawful(f)
    requires Filed(f, s.messages) && Recordable(m) && !m.OfCommit?
    requires s'.faults == s.faults && Extends(s.requests, s'.requests) && s'.messages == Record(f, s.messages, m)
    ensures Quiet(f, s, s')
  {
    forall d, v, n ensures Commits(f, s', d, v, n) == Commits(f, s, d, v, n) {
      assert CommitsKeyed(f, m);
    }
    FiledMore(f, s.messages, m);
  }

  /** A handler that records nothing, and one that records exactly the delivered message. */
  ghost predicate Still(s: Node, r: Result) {
    r.Done? ==>
      && r.node.view == s.view && r.node.faults == s.faults && Extends(s.requests, r.node.requests)
      && r.node.messages == s.messages
  }

  ghost predicate Files(f: Foreign, s: Node, m: Message, r: Result) {
    r.Done? ==>
      && r.node.view == s.view && r.node.faults == s.faults && Extends(s.requests, r.node.requests)
      && Recordable(m) && r.node.messages == Record(f, s.messages, m)
  }

  ghost predicate NoReply(r: Result) {
    r.Done? ==> r.sent == [] || (|r.sent| == 1 && !r.sent[0].OfReply?)
  }

  lemma RequestFrame(f: Foreign, s: Node, r: Request)
    ensures Still(s, HandleRequest(f, s, r)) && NoReply(HandleRequest(f, s, r))
  {
    var x := HandleRequest(f, s, r);
    if x.Done? {
      assert x.node == s.(requests := x.node.requests);
      assert |x.sent| == 1 && x.sent[0].OfPrePrepare?;
    }
  }

  lemma PrePrepareFrame(f: Foreign, s: Node, m: PrePrepare)
    ensures InWindow(s, m.view, m.number) ==> Files(f, s, OfPrePrepare(m), HandlePrePrepare(f, s, m))
    ensures !InWindow(s, m.view, m.number) ==> Still(s, HandlePrePrepare(f, s, m))
    ensures NoReply(HandlePrePrepare(f, s, m))
  {
  }

  predicate Admits(f: Foreign, s: Node, done: Phase, view: u64, number: u64, mHash: Bytes) {
    !InPhase(s, mHash, done) && InWindow(s, view, number) && Expects(f, s, number, mHash)
  }

  lemma PrepareFrame(f: Foreign, s: Node, m: Prepare)
    ensures Admits(f, s, Prepared, m.view, m.number, m.mHash) ==> Files(f, s, OfPrepare(m), HandlePrepare(f, s, m))
    ensures !Admits(f, s, Prepared, m.view, m.number, m.mHash) ==> Still(s, HandlePrepare(f, s, m))
    ensures NoReply(HandlePrepare(f, s, m))
  {
    var r := HandlePrepare(f, s, m);
    if r.Done? {
      assert r.node == s.(messages := r.node.messages, phases := r.node.phases);
    }
  }

  lemma CommitFrame(f: Foreign, s: Node, m: Commit)
    ensures Admits(f, s, Commited, m.view, m.number, m.mHash) ==> Files(f, s, OfCommit(m), HandleCommit(f, s, m))
    ensures !Admits(f, s, Commited, m.view, m.number, m.mHash) ==> Still(s, HandleCommit(f, s, m))
  {
    var r := HandleCommit(f, s, m);
    if r.Done? && Admits(f, s, Commited, m.view, m.number, m.mHash) {
      var s1 := s.(messages := Record(f, s.messages, OfCommit(m)));
      assert r == Done(s1, []) || r == Execute(f, s1, m.number, m.mHash);
    } else if r.Done? {
      assert r == Done(s, []);
    }
  }

  lemma ReplyFrame(f: Foreign, s: Node, m: Reply)
    ensures Files(f, s, OfReply(m), HandleReply(f, s, m)) && NoReply(HandleReply(f, s, m))
  {
  }

  lemma CheckPointFrame(s: Node, m: CheckPoint)
    ensures Still(s, Done(HandleCheckPoint(s, m), []))
  {
  }

  lemma BroadcastFrame(s: Node)
    ensures Still(s, BroadcastViewChange(s)) && NoReply(BroadcastViewChange(s))
  {
  }

  lemma ViewChangeFrame(s: Node, m: ViewChange)
    ensures Still(s, HandleViewChange(s, m)) && NoReply(HandleViewChange(s, m))
  {
    BroadcastFrame(s.(viewChanges := Push(s.viewChanges, m.newView, m)));
  }

  /** At most the delivered message is recorded. */
  ghost predicate Frame(f: Foreign, s: Node, e: Event, r: Result) {
    Still(s, r) || (e.Deliver? && Files(f, s, e.m, r))
  }

  lemma CheckedFrame(f: Foreign, s: Node, e: Event, auth: Auth, r: Result)
    requires Frame(f, s, e, r)
    ensures Frame(f, s, e, Checked(s, auth, r)) && (NoReply(r) ==> NoReply(Checked(s, auth, r)))
    ensures Frame(f, s, e, Done(s, [])) && NoReply(Done(s, []))
  {
    assert Still(s, Done(s, []));
  }

  lemma StepFrame(f: Foreign, s: Node, e: Event)
    ensures Frame(f, s, e, Step(f, s, e))
    ensures e.Timeout? || !e.m.OfCommit? ==> NoReply(Step(f, s, e))
  {
    match e
    case Deliver(OfRequest(m), auth) =>
      RequestFrame(f, s, m);
      CheckedFrame(f, s, e, auth, HandleRequest(f, s, m));
      assert Step(f, s, e) == if s.abnormal then Done(s, []) else HandleRequest(f, s, m);
    case Deliver(OfPrePrepare(m), auth) =>
      PrePrepareFrame(f, s, m);
      CheckedFrame(f, s, e, auth, HandlePrePrepare(f, s, m));
      assert Step(f, s, e) == if s.abnormal then Done(s, []) else Checked(s, auth, HandlePrePrepare(f, s, m));
    case Deliver(OfPrepare(m), auth) =>
      PrepareFrame(f, s, m);
      CheckedFrame(f, s, e, auth, HandlePrepare(f, s, m));
      assert Step(f, s, e) == if s.abnormal then Done(s, []) else Checked(s, auth, HandlePrepare(f, s, m));
    case Deliver(OfCommit(m), auth) =>
      CommitFrame(f, s, m);
      CheckedFrame(f, s, e, auth, HandleCommit(f, s, m));
      assert Step(f, s, e) == if s.abnormal then Done(s, []) else Checked(s, auth, HandleCommit(f, s, m));
    case Deliver(OfReply(m), auth) =>
      ReplyFrame(f, s, m);
      CheckedFrame(f, s, e, auth, HandleReply(f, s, m));
      assert Step(f, s, e) == if s.abnormal || s.clientReplied then Done(s, [])
          else Checked(s, auth, HandleReply(f, s, m));
    case Deliver(OfCheckPoint(m), auth) =>
      CheckPointFrame(s, m);
      assert Step(f, s, e) == Done(HandleCheckPoint(s, m), []);
    case Deliver(OfViewChange(m), auth) =>
      ViewChangeFrame(s, m);
      assert Step(f, s, e) == HandleViewChange(s, m);
    case Deliver(OfNewView(m), auth) =>
      assert Step(f, s, e) == HandleNewView(s, m);
    case Timeout =>
      BroadcastFrame(s);
      assert Step(f, s, e) == BroadcastViewChange(s);
  }

  lemma QuietHandlers(f: Foreign, s: Node, e: Event)
    requires Lawful(f)
    requires Filed(f, s.messages) && Step(f, s, e).Done?
    requires e.Timeout? || !e.m.OfCommit?
    ensures Quiet(f, s, Step(f, s, e).node) && RepliesIn(Step(f, s, e).sent) == []
  {
    StepFrame(f, s, e);
    QuietFrame(f, s, e, Step(f, s, e));
  }

  lemma QuietFrame(f: Foreign, s: Node, e: Event, r: Result)
    requires Lawful(f)
    requires Filed(f, s.messages) && r.Done? && Frame(f, s, e, r) && NoReply(r)
    requires e.Timeout? || !e.m.OfCommit?
    ensures Quiet(f, s, r.node) && RepliesIn(r.sent) == []
  {
    if r.sent != [] {
      assert r.sent[..0] == [];
    }
    if r.node.messages == s.messages {
      assert forall d, v, n :: Commits(f, r.node, d, v, n) == Commits(f, s, d, v, n);
    } else {
      QuietRecord(f, s, r.node, e.m);
    }
  }

  lemma QuietKeeps(f: Foreign, s: Node, s': Node, rs: seq<Reply>)
    requires Inv(f, s, rs) && Quiet(f, s, s')
    ensures Inv(f, s', rs)
  {
    forall d, v, n | Commits(f, s', d, v, n) != [] ensures Expects(f, s', n, d) {
      assert Commits(f, s, d, v, n) != [];
    }
    forall i | 0 <= i < |rs| ensures Answers(f, s', rs[i]) {
      assert Answers(f, s, rs[i]);
    }
    if s.faults > 0 {
      forall v, n | Decided(f, s', v, n) ensures Answered(rs, v, n) {
        assert Commits(f, s, RequestHash(f, s', n), v, n) != [];
        assert Decided(f, s, v, n);
      }
    }
  }

  // ----- a recorded commit

  lemma OtherCommits(f: Foreign, s: Node, s': Node, c: Commit, d: Bytes, v: u64, n: u64)
    requires Lawful(f)
    requires s'.messages == Record(f, s.messages, OfCommit(c))
    ensures if d == c.mHash && v == c.view && n == c.number then Commits(f, s', d, v, n)
        == Commits(f, s, d, v, n) + [OfCommit(c)]
            else Commits(f, s', d, v, n) == Commits(f, s, d, v, n)
  {
    assert CommitsKeyed(f, OfCommit(c));
  }

  lemma FiledMore(f: Foreign, log: map<Bytes, seq<Message>>, m: Message)
    requires Filed(f, log) && Recordable(m)
    ensures Filed(f, Record(f, log, m))
  {
  }

  /** Recording an expected commit keeps everything, except that its own slot may now be decided. */
  lemma CommitKeeps(f: Foreign, s: Node, s': Node, c: Commit, rs: seq<Reply>)
    requires Lawful(f)
    requires Inv(f, s, rs) && Expects(f, s, c.number, c.mHash)
    requires s'.messages == Record(f, s.messages, OfCommit(c)) && s'.requests == s.requests && s'.faults == s.faults
    ensures Filed(f, s'.messages) && CommitsExpected(f, s')
    ensures forall i | 0 <= i < |rs| :: Answers(f, s', rs[i])
    ensures s.faults > 0 ==>
      forall v, n | Decided(f, s', v, n) && !(v == c.view && n == c.number) :: Answered(rs, v, n)
  {
    FiledMore(f, s.messages, OfCommit(c));
    forall d, v, n | Commits(f, s', d, v, n) != [] ensures Expects(f, s', n, d) {
      OtherCommits(f, s, s', c, d, v, n);
    }
    forall i | 0 <= i < |rs| ensures Answers(f, s', rs[i]) {
      var r := rs[i];
      assert Answers(f, s, r);
      OtherCommits(f, s, s', c, RequestHash(f, s, r.number), r.view, r.number);
    }
    if s.faults > 0 {
      forall v, n | Decided(f, s', v, n) && !(v == c.view && n == c.number) ensures Answered(rs, v, n) {
        OtherCommits(f, s, s', c, RequestHash(f, s, n), v, n);
        assert Decided(f, s, v, n);
      }
    }
  }

  /** The 2f-th commit decides a slot that has not been answered before. */
  lemma NewlyDecided(f: Foreign, s: Node, c: Commit, rs: seq<Reply>)
    requires Inv(f, s, rs) && Expects(f, s, c.number, c.mHash)
    requires |Commits(f, s, c.mHash, c.view, c.number)| + 1 == 2 * s.faults
    ensures !Answered(rs, c.view, c.number)
  {
  }

  lemma ExecuteReplies(f: Foreign, s: Node, number: u64, mHash: Bytes)
    requires number in s.requests
    ensures RepliesIn(Execute(f, s, number, mHash).sent) == [ReplyTo(f, s, number, s.requests[number])]
  {
    var sent := Execute(f, s, number, mHash).sent;
    var before := sent[..|sent| - 1];
    assert RepliesIn(before) == [] by {
      if before != [] {
        assert |before| == 1 && before[0].OfCheckPoint? && before[..0] == [];
      }
    }
  }

  lemma CommitStep(f: Foreign, s: Node, c: Commit, rs: seq<Reply>)
    requires Lawful(f)
    requires Inv(f, s, rs) && HandleCommit(f, s, c).Done?
    ensures Inv(f, HandleCommit(f, s, c).node, rs + RepliesIn(HandleCommit(f, s, c).sent))
  {
    if !Admits(f, s, Commited, c.view, c.number, c.mHash) {
      assert HandleCommit(f, s, c) == Done(s, []);
      assert rs + RepliesIn([]) == rs;
    } else {
      var s1 := s.(messages := Record(f, s.messages, OfCommit(c)));
      CommitKeeps(f, s, s1, c, rs);
      OtherCommits(f, s, s1, c, c.mHash, c.view, c.number);
      assert CommitKey(f, c.mHash, c.view, c.number) == f.key(OfCommit(c)) by {
        assert CommitsKeyed(f, OfCommit(c));
      }
      if |Commits(f, s1, c.mHash, c.view, c.number)| == 2 * s.faults {
        assert HandleCommit(f, s, c) == Execute(f, s1, c.number, c.mHash);
        ExecuteKeeps(f, s, s1, c, rs);
      } else {
        assert HandleCommit(f, s, c) == Done(s1, []);
        assert rs + RepliesIn([]) == rs;
        StillUndecided(f, s, s1, c, rs);
      }
    }
  }

  /** What CommitKeeps establishes once the commit is recorded. */
  ghost predicate Recorded(f: Foreign, s: Node, s': Node, c: Commit, rs: seq<Reply>) {
    && s'.requests == s.requests && s'.faults == s.faults
    && Filed(f, s'.messages) && CommitsExpected(f, s')
    && (forall i | 0 <= i < |rs| :: Answers(f, s', rs[i]))
    && (s.faults > 0 ==> forall v, n | Decided(f, s', v, n) && !(v == c.view && n == c.number) :: Answered(rs, v, n))
    && Commits(f, s', c.mHash, c.view, c.number) == Commits(f, s, c.mHash, c.view, c.number) + [OfCommit(c)]
  }

  lemma ExecuteKeeps(f: Foreign, s: Node, s1: Node, c: Commit, rs: seq<Reply>)
    requires Inv(f, s, rs) && Recorded(f, s, s1, c, rs) && s1.view == c.view
    requires Expects(f, s, c.number, c.mHash) && |Commits(f, s1, c.mHash, c.view, c.number)| == 2 * s.faults
    ensures var r := Execute(f, s1, c.number, c.mHash); Inv(f, r.node, rs + RepliesIn(r.sent))
  {
    ExecuteReplies(f, s1, c.number, c.mHash);
    var reply := ReplyTo(f, s1, c.number, s1.requests[c.number]);
    CommitReplies(f, s, s1, c, rs, reply);
    var s' := Execute(f, s1, c.number, c.mHash).node;
    assert Quiet(f, s1, s') by {
      assert forall d, v, n :: Commits(f, s', d, v, n) == Commits(f, s1, d, v, n);
    }
    QuietKeeps(f, s1, s', rs + [reply]);
  }

  lemma CommitReplies(f: Foreign, s: Node, s1: Node, c: Commit, rs: seq<Reply>, r: Reply)
    requires Inv(f, s, rs) && Recorded(f, s, s1, c, rs)
    requires Expects(f, s, c.number, c.mHash) && |Commits(f, s1, c.mHash, c.view, c.number)| == 2 * s.faults
    requires r.view == c.view && r.number == c.number
    requires r.clientId == s.requests[c.number].clientId && r.timestamp == s.requests[c.number].timestamp
    ensures Inv(f, s1, rs + [r])
  {
    NewlyDecided(f, s, c, rs);
    var rs' := rs + [r];
    assert Answers(f, s1, r);
    forall i | 0 <= i < |rs'| ensures Answers(f, s1, rs'[i]) {
    }
    if s1.faults > 0 {
      forall v, n | Decided(f, s1, v, n) ensures Answered(rs', v, n) {
        if v == c.view && n == c.number {
          assert rs'[|rs|] == r;
        } else {
          var i :| 0 <= i < |rs| && rs[i].view == v && rs[i].number == n;
          assert rs'[i] == rs[i];
        }
      }
    }
    DistinctMore(rs, r);
  }

  lemma DistinctMore(rs: seq<Reply>, r: Reply)
    requires SlotsDistinct(rs) && !Answered(rs, r.view, r.number)
    ensures SlotsDistinct(rs + [r])
  {
  }

  lemma StillUndecided(f: Foreign, s: Node, s': Node, c: Commit, rs: seq<Reply>)
    requires Inv(f, s, rs) && Expects(f, s, c.number, c.mHash) && Recorded(f, s, s', c, rs)
    requires |Commits(f, s', c.mHash, c.view, c.number)| != 2 * s.faults
    ensures Inv(f, s', rs)
  {
    if s.faults > 0 && Decided(f, s', c.view, c.number) {
      assert Decided(f, s, c.view, c.number);
    }
  }

  // ----- runs

  lemma NextKeeps(f: Foreign, t: Trace, e: Event)
    requires Lawful(f)
    requires Inv(f, t.node, t.replies)
    ensures Inv(f, Next(f, t, e).node, Next(f, t, e).replies)
  {
    if t.alive && Step(f, t.node, e).Done? {
      if e.Timeout? || !e.m.OfCommit? {
        QuietHandlers(f, t.node, e);
        QuietKeeps(f, t.node, Step(f, t.node, e).node, t.replies);
        assert t.replies + [] == t.replies;
      } else if !t.node.abnormal && e.auth.Verified? {
        CommitStep(f, t.node, e.m.commit, t.replies);
      } else {
        assert t.replies + RepliesIn([]) == t.replies;
      }
    }
  }

  lemma {:induction false} ExecInv(f: Foreign, s: Node, es: seq<Event>)
    requires Lawful(f)
    requires Fresh(s)
    ensures Inv(f, Exec(f, s, es).node, Exec(f, s, es).replies)
  {
    if es != [] {
      assert Exec(f, s, es) == ExecLast(f, s, es);
      ExecInv(f, s, es[..|es| - 1]);
      NextKeeps(f, Exec(f, s, es[..|es| - 1]), es[|es| - 1]);
    }
  }

  /** A replica sends at most one Reply per view and number, and all its Replies for a number answer the
      one request recorded for it. */
  lemma {:induction false} OneReplyPerSlot(f: Foreign, s: Node, es: seq<Event>)
    requires Standard(f)
    requires Fresh(s)
    ensures var t := Exec(f, s, es);
      && (forall i, j | 0 <= i < j < |t.replies| ::
            t.replies[i].view != t.replies[j].view || t.replies[i].number != t.replies[j].number)
      && (forall i | 0 <= i < |t.replies| ::
            var r := t.replies[i];
            && r.number in t.node.requests
            && r.clientId == t.node.requests[r.number].clientId && r.timestamp == t.node.requests[r.number].timestamp)
  {
    KeyLaw(f);
    ExecInv(f, s, es);
    var t := Exec(f, s, es);
    forall i | 0 <= i < |t.replies| ensures Answers(f, t.node, t.replies[i]) {
    }
  }

  /** A slot has been answered exactly if 2f commits for the hash of its request are recorded. */
  lemma {:induction false} RepliedIffCommitted(f: Foreign, s: Node, es: seq<Event>, view: u64, number: u64)
    requires Standard(f)
    requires Fresh(s) && Exec(f, s, es).node.faults > 0
    ensures var t := Exec(f, s, es);
      Answered(t.replies, view, number) <==> Decided(f, t.node, view, number)
  {
    KeyLaw(f);
    ExecInv(f, s, es);
    var t := Exec(f, s, es);
    if Answered(t.replies, view, number) {
      var i :| 0 <= i < |t.replies| && t.replies[i].view == view && t.replies[i].number == number;
      assert Answers(f, t.node, t.replies[i]);
    }
  }

  /** Every bucket that a vote lookup reaches holds only votes of that kind, view, number and digest. */
  lemma {:induction false} BucketsHoldMatchingVotes(f: Foreign, s: Node, es: seq<Event>, prefix: byte, view: u64,
      number: u64, digest: Bytes, m: Message)
    requires Standard(f)
    requires Fresh(s) && prefix in {PRE_PREPARE_PREFIX, PREPARE_PREFIX, COMMIT_PREFIX}
    requires m in Bucket(Exec(f, s, es).node.messages, KeyImage(prefix, view, number, digest))
    ensures Votes(m, prefix, view, number, digest)
  {
    KeyLaw(f);
    ExecFiles(f, s, es);
    FiledMatches(f, Exec(f, s, es).node.messages, prefix, view, number, digest, m);
  }

  lemma {:induction false} ExecFiles(f: Foreign, s: Node, es: seq<Event>)
    requires Lawful(f) && Fresh(s)
    ensures Filed(f, Exec(f, s, es).node.messages)
  {
    ExecInv(f, s, es);
  }

  lemma FiledMatches(f: Foreign, log: map<Bytes, seq<Message>>, prefix: byte, view: u64, number: u64, digest: Bytes,
      m: Message)
    requires Standard(f) && Filed(f, log)
    requires prefix in {PRE_PREPARE_PREFIX, PREPARE_PREFIX, COMMIT_PREFIX}
    requires m in Bucket(log, KeyImage(prefix, view, number, digest))
    ensures Votes(m, prefix, view, number, digest)
  {
    LookupFindsVotes(m, prefix, view, number, digest);
  }

  /** The view never changes, and the request of a number is never replaced. */
  lemma {:induction false} RequestsWrittenOnce(f: Foreign, s: Node, es: seq<Event>, k: nat)
    requires k <= |es|
    ensures Exec(f, s, es).node.view == s.view
    ensures Extends(Exec(f, s, es[..k]).node.requests, Exec(f, s, es).node.requests)
    decreases |es|
  {
    if es != [] {
      var t := Exec(f, s, es[..|es| - 1]);
      assert Exec(f, s, es) == ExecLast(f, s, es);
      StepFrame(f, t.node, es[|es| - 1]);
      NextExtends(f, t, es[|es| - 1]);
      if k == |es| {
        assert es[..k] == es;
        RequestsWrittenOnce(f, s, es[..|es| - 1], 0);
      } else {
        RequestsWrittenOnce(f, s, es[..|es| - 1], k);
        assert es[..|es| - 1][..k] == es[..k];
      }
    }
  }

  lemma NextExtends(f: Foreign, t: Trace, e: Event)
    requires Frame(f, t.node, e, Step(f, t.node, e))
    ensures Next(f, t, e).node.view == t.node.view
    ensures Extends(t.node.requests, Next(f, t, e).node.requests)
  {
  }
}

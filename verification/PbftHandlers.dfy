/**
 What each PBFT handler does, in the protocol's terms, and what follows for runs about the numbers a primary
 assigns and about the stable checkpoint.
 */
module PbftHandlers {
  import opened Common
  import opened PbftKeys
  import opened PbftNode
  import opened PbftRun
  import PbftNewView

  // ----- votes

  /** A request is announced for the number after the replica's; the first request of that number stays. The
      replica's number is not advanced. */
  lemma Announces(f: Foreign, s: Node, r: Request)
    requires s.number + 1 < U64_LIMIT
    ensures var p := PrePrepare(s.view, s.number + 1, f.key(OfRequest(r)), f.encode(r), [], f.self);
      HandleRequest(f, s, r)
      == Done(s.(requests := if s.number + 1 in s.requests then s.requests else s.requests[s.number + 1 := r]),
              [OfPrePrepare(p.(signature := f.sign(f.key(OfPrePrepare(p)))))])
  {
  }

  /** The window of numbers after the stable checkpoint, in the replica's view. */
  predicate Open(s: Node, view: u64, number: u64) {
    s.stable < number && number - s.stable <= 100 && s.view == view
  }

  /** A PrePrepare in the window is filed with its request, if the number has none yet, its hash becomes pending and a
      Prepare for it is sent; a message that holds no request fails. */
  lemma PrePrepares(f: Foreign, s: Node, m: PrePrepare)
    ensures var r := HandlePrePrepare(f, s, m);
      var p := Prepare(m.view, m.number, m.mHash, f.self, []);
      if s.stable >= U64_LIMIT - 100 then r == Panic
      else if !Open(s, m.view, m.number) then r == Done(s, [])
      else if f.decode(m.m).None? then r == Panic
      else
        r == Done(s.(requests := if m.number in s.requests then s.requests
                                 else s.requests[m.number := f.decode(m.m).value],
                     messages := Push(s.messages, f.key(OfPrePrepare(m)), OfPrePrepare(m)),
                     pending := s.pending + [m.mHash]),
                  [OfPrepare(p.(signature := f.sign(f.key(OfPrepare(p)))))])
  {
  }

  predicate Requested(f: Foreign, s: Node, number: u64, mHash: Bytes) {
    number in s.requests && f.key(OfRequest(s.requests[number])) == mHash
  }

  /** A Prepare for the request of its number is filed, unless the hash is prepared already; the one that makes 2f
      prepares the hash and sends the Commit. */
  lemma Prepares(f: Foreign, s: Node, m: Prepare)
    ensures var r := HandlePrepare(f, s, m);
      if m.mHash in s.phases && s.phases[m.mHash] == Prepared then r == Done(s, [])
      else if s.stable >= U64_LIMIT - 100 then r == Panic
      else if !Open(s, m.view, m.number) || !Requested(f, s, m.number, m.mHash) then r == Done(s, [])
      else
        var log := Push(s.messages, f.key(OfPrepare(m)), OfPrepare(m));
        var c := Commit(m.view, m.number, m.mHash, f.self, []);
        r == if |log[f.key(OfPrepare(m))]| == 2 * s.faults
             then Done(s.(messages := log, phases := s.phases[m.mHash := Prepared]),
                       [OfCommit(c.(signature := f.sign(f.key(OfCommit(c)))))])
             else Done(s.(messages := log), [])
  {
  }

  lemma Executed(f: Foreign, s: Node, number: u64, mHash: Bytes)
    requires number in s.requests
    ensures Execute(f, s, number, mHash).node
      == s.(phases := s.phases[mHash := Commited], commited := s.commited + 1,
            checkpointState := f.chain(s.checkpointState, mHash),
            pending := if |s.pending| > 1 then s.pending[1..] else [])
  {
    assert |s.pending| == 1 ==> s.pending[1..] == [];
  }

  /** A Commit for the request of its number is filed, unless the hash is committed already; the one that makes 2f
      executes the request, commits the hash and takes the first hash off the pending ones. */
  lemma Commits(f: Foreign, s: Node, m: Commit)
    ensures var r := HandleCommit(f, s, m);
      if m.mHash in s.phases && s.phases[m.mHash] == Commited then r == Done(s, [])
      else if s.stable >= U64_LIMIT - 100 then r == Panic
      else if !Open(s, m.view, m.number) || !Requested(f, s, m.number, m.mHash) then r == Done(s, [])
      else
        var log := Push(s.messages, f.key(OfCommit(m)), OfCommit(m));
        if |log[f.key(OfCommit(m))]| != 2 * s.faults then r == Done(s.(messages := log), [])
        else
          && r.Done?
          && r.node == s.(messages := log, phases := s.phases[m.mHash := Commited], commited := s.commited + 1,
                          checkpointState := f.chain(s.checkpointState, m.mHash),
                          pending := if |s.pending| > 1 then s.pending[1..] else [])
  {
    if HandleCommit(f, s, m).Done? && Admits(f, s, Commited, m.view, m.number, m.mHash) {
      Executed(f, s.(messages := Push(s.messages, f.key(OfCommit(m)), OfCommit(m))), m.number, m.mHash);
    }
  }

  // ----- replies, checkpoints and view changes

  /** A Reply is filed; the one that makes f+1 completes the client's request, and fails if its result is not text. */
  lemma Replies(f: Foreign, s: Node, m: Reply)
    ensures var log := Push(s.messages, f.key(OfReply(m)), OfReply(m));
      HandleReply(f, s, m)
      == if |log[f.key(OfReply(m))]| != s.faults + 1 then Done(s.(messages := log), [])
         else if f.isText(m.result) then Done(s.(messages := log, clientReplied := true), [])
         else Panic
  {
  }

  /** A CheckPoint is filed; the one that makes 2f becomes the stable checkpoint, older or newer than the one before,
      and the filed ones of lower numbers are dropped. */
  lemma CheckPoints2f(s: Node, m: CheckPoint)
    ensures var s' := HandleCheckPoint(s, m);
      var filed := Push(s.checkpoints, (m.maxNumber, m.digest), m);
      && s' == s.(checkpoints := s'.checkpoints, stable := s'.stable, stableDigest := s'.stableDigest)
      && if |filed[(m.maxNumber, m.digest)]| == 2 * s.faults
         then
           && s'.stable == m.maxNumber && s'.stableDigest == m.digest
           && forall k :: (k in s'.checkpoints <==> k in filed && k.0 >= m.maxNumber)
                          && (k in s'.checkpoints ==> s'.checkpoints[k] == filed[k])
         else s'.checkpoints == filed && s'.stable == s.stable && s'.stableDigest == s.stableDigest
  {
  }

  /** A replica enters the view change once, and fails if a request is pending or there is no next view. */
  lemma TimesOut(s: Node)
    ensures BroadcastViewChange(s)
      == if s.abnormal then Done(s, [])
         else if |s.pending| > 0 || s.view == U64_LIMIT - 1 then Panic
         else Done(s.(abnormal := true), [])
  {
  }

  /** The new-view list of these ViewChanges cannot be computed: there is none of them, or a sum overflows. */
  ghost predicate Uncomputable(vcs: seq<ViewChange>) {
    |vcs| == 0 || vcs[0].stable == U64_LIMIT - 1
    || exists k, j :: 0 <= k < |vcs| && 0 <= j < |vcs[k].prepares| && vcs[k].prepares[j].OfPrepare?
                      && vcs[k].prepares[j].prepare.number == U64_LIMIT - 1
  }

  lemma RebuildFailsExactly(vcs: seq<ViewChange>)
    ensures RebuildFails(vcs) <==> Uncomputable(vcs)
  {
    if (U64_LIMIT - 1) in PbftNewView.PreparedNumbers(vcs) {
      var v, n :| v in vcs && n in PbftNewView.NumbersOf(v.prepares) && n == U64_LIMIT - 1;
      var m :| m in v.prepares && m.OfPrepare? && m.prepare.number == n;
      var k :| 0 <= k < |vcs| && vcs[k] == v;
      var j :| 0 <= j < |v.prepares| && v.prepares[j] == m;
      assert vcs[k].prepares[j].OfPrepare? && vcs[k].prepares[j].prepare.number == U64_LIMIT - 1;
    }
    if k, j :| 0 <= k < |vcs| && 0 <= j < |vcs[k].prepares| && vcs[k].prepares[j].OfPrepare?
               && vcs[k].prepares[j].prepare.number == U64_LIMIT - 1 {
      assert vcs[k].prepares[j] in vcs[k].prepares;
      assert (U64_LIMIT - 1) in PbftNewView.NumbersOf(vcs[k].prepares) && vcs[k] in vcs;
    }
  }

  /** A ViewChange for a later view is filed; beyond f of them the replica joins the view change if it has not yet,
      and otherwise the primary computes the new view beyond 2f. */
  lemma ViewChanges(s: Node, m: ViewChange)
    ensures var vcs := (if m.newView in s.viewChanges then s.viewChanges[m.newView] else []) + [m];
      var filed := s.(viewChanges := s.viewChanges[m.newView := vcs]);
      HandleViewChange(s, m)
      == if m.newView <= s.view then Done(s, [])
         else if |vcs| > s.faults && !s.abnormal then
           if |s.pending| > 0 || s.view == U64_LIMIT - 1 then Panic else Done(filed.(abnormal := true), [])
         else if s.isPrimary && |vcs| > 2 * s.faults && Uncomputable(vcs) then Panic
         else Done(filed, [])
  {
    var vcs := (if m.newView in s.viewChanges then s.viewChanges[m.newView] else []) + [m];
    RebuildFailsExactly(vcs);
    TimesOut(s.(viewChanges := s.viewChanges[m.newView := vcs]));
  }

  /** A NewView changes nothing, and fails if its list cannot be computed. */
  lemma NewViews(s: Node, m: NewView)
    ensures HandleNewView(s, m) == if Uncomputable(m.viewChanges) then Panic else Done(s, [])
  {
    RebuildFailsExactly(m.viewChanges);
  }

  /** The dispatch: CheckPoints, ViewChanges and NewViews always reach their handlers; everything else only in normal
      mode, and votes and Replies only behind the signature check, where an ill-formed sender fails. */
  lemma Dispatches(f: Foreign, s: Node, m: Message, auth: Auth)
    ensures var r := Step(f, s, Deliver(m, auth));
      match m
      case OfCheckPoint(c) => r == Done(HandleCheckPoint(s, c), [])
      case OfViewChange(v) => r == HandleViewChange(s, v)
      case OfNewView(n) => r == HandleNewView(s, n)
      case OfRequest(q) => r == if s.abnormal then Done(s, []) else HandleRequest(f, s, q)
      case _ =>
        r == if s.abnormal || (m.OfReply? && s.clientReplied) || auth.Rejected? then Done(s, [])
             else if auth.NoPeer? then Panic
             else match m
                  case OfPrePrepare(p) => HandlePrePrepare(f, s, p)
                  case OfPrepare(p) => HandlePrepare(f, s, p)
                  case OfCommit(c) => HandleCommit(f, s, c)
                  case OfReply(y) => HandleReply(f, s, y)
                  case _ => r
  {
  }

  // ----- every run

  /** Every PrePrepare of a run is for one and the same number, since the replica's number never advances. */
  ghost predicate SameSlot(s0: Node, t: Trace) {
    && t.node.view == s0.view && t.node.number == s0.number
    && forall k | 0 <= k < |t.sent| && t.sent[k].OfPrePrepare? ::
         t.sent[k].preprepare.view == s0.view && t.sent[k].preprepare.number == s0.number + 1
  }

  ghost predicate KeepsSlot(s: Node, r: Result) {
    r.Done? ==>
      && r.node.view == s.view && r.node.number == s.number
      && forall k | 0 <= k < |r.sent| && r.sent[k].OfPrePrepare? ::
           r.sent[k].preprepare.view == s.view && r.sent[k].preprepare.number == s.number + 1
  }

  lemma RequestKeepsSlot(f: Foreign, s: Node, m: Request)
    ensures KeepsSlot(s, HandleRequest(f, s, m))
  {
  }

  lemma PrePrepareKeepsSlot(f: Foreign, s: Node, m: PrePrepare)
    ensures KeepsSlot(s, HandlePrePrepare(f, s, m))
  {
  }

  lemma PrepareKeepsSlot(f: Foreign, s: Node, m: Prepare)
    ensures KeepsSlot(s, HandlePrepare(f, s, m))
  {
  }

  lemma CommitKeepsSlot(f: Foreign, s: Node, m: Commit)
    ensures KeepsSlot(s, HandleCommit(f, s, m))
  {
  }

  lemma ReplyKeepsSlot(f: Foreign, s: Node, m: Reply)
    ensures KeepsSlot(s, HandleReply(f, s, m))
  {
  }

  lemma OthersKeepSlot(f: Foreign, s: Node, m: Message)
    requires m.OfCheckPoint? || m.OfViewChange? || m.OfNewView?
    ensures KeepsSlot(s, Step(f, s, Deliver(m, Verified)))
  {
  }

  lemma StepKeepsSlot(f: Foreign, s: Node, e: Event)
    ensures KeepsSlot(s, Step(f, s, e))
  {
    match e
    case Timeout =>
    case Deliver(m, auth) =>
      match m
      case OfRequest(q) => RequestKeepsSlot(f, s, q);
      case OfPrePrepare(p) => PrePrepareKeepsSlot(f, s, p);
      case OfPrepare(p) => PrepareKeepsSlot(f, s, p);
      case OfCommit(c) => CommitKeepsSlot(f, s, c);
      case OfReply(y) => ReplyKeepsSlot(f, s, y);
      case _ => OthersKeepSlot(f, s, m);
  }

  lemma {:induction false} OneNumber(f: Foreign, s: Node, es: seq<Event>)
    ensures SameSlot(s, Exec(f, s, es))
  {
    if es != [] {
      assert Exec(f, s, es) == ExecLast(f, s, es);
      OneNumber(f, s, es[..|es| - 1]);
      StepKeepsSlot(f, Exec(f, s, es[..|es| - 1]).node, es[|es| - 1]);
    }
  }

  // ----- the stable checkpoint

  /** The stable checkpoint goes back exactly if a CheckPoint of a lower number is the 2f-th of its digest. */
  lemma StableFallsExactly(s: Node, m: CheckPoint)
    ensures HandleCheckPoint(s, m).stable < s.stable
      <==> m.maxNumber < s.stable && |Bucket(s.checkpoints, (m.maxNumber, m.digest))| + 1 == 2 * s.faults
  {
    CheckPoints2f(s, m);
  }

  function Copies(m: CheckPoint, k: nat): seq<Event> {
    if k == 0 then [] else Copies(m, k - 1) + [Deliver(OfCheckPoint(m), Verified)]
  }

  /** k copies of a CheckPoint, of a number and digest that nothing was filed for. */
  lemma {:induction false} Delivered(f: Foreign, s: Node, m: CheckPoint, k: nat)
    requires k <= 2 * s.faults && 0 < s.faults && Bucket(s.checkpoints, (m.maxNumber, m.digest)) == []
    ensures var t := Exec(f, s, Copies(m, k));
      && t.alive && t.node.faults == s.faults
      && |Bucket(t.node.checkpoints, (m.maxNumber, m.digest))| == k
      && (forall key | key != (m.maxNumber, m.digest) && Bucket(s.checkpoints, key) == [] ::
            Bucket(t.node.checkpoints, key) == [])
      && t.node.stable == if k == 2 * s.faults then m.maxNumber else s.stable
  {
    var es := Copies(m, k);
    if k > 0 {
      assert es[..|es| - 1] == Copies(m, k - 1) && es[|es| - 1] == Deliver(OfCheckPoint(m), Verified);
      assert Exec(f, s, es) == ExecLast(f, s, es);
      Delivered(f, s, m, k - 1);
      CheckPoints2f(Exec(f, s, Copies(m, k - 1)).node, m);
    }
  }

  /** For every f >= 1, late CheckPoints of number 50 take a replica back from the stable checkpoint 100. */
  lemma {:induction false} StableFallsBack(f: Foreign, s: Node, digest: Bytes)
    requires s.faults > 0 && s.checkpoints == map[]
    ensures var later := Exec(f, s, Copies(CheckPoint(100, digest, [], []), 2 * s.faults)).node;
      && later.stable == 100
      && Exec(f, later, Copies(CheckPoint(50, digest, [], []), 2 * s.faults)).node.stable == 50
  {
    Delivered(f, s, CheckPoint(100, digest, [], []), 2 * s.faults);
    var later := Exec(f, s, Copies(CheckPoint(100, digest, [], []), 2 * s.faults)).node;
    Delivered(f, later, CheckPoint(50, digest, [], []), 2 * s.faults);
  }
}

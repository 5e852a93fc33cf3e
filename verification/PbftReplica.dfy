/** The PBFT log and executor as objects whose handlers update them in place, against PbftNode. */
module PbftReplica {
  import opened Common
  import opened PbftKeys
  import opened PbftNode
  import PbftNewView

  class ConsensusLog {
    var requests: map<u64, Request>
    var messages: map<Bytes, seq<Message>>
    var checkpoints: map<(u64, Bytes), seq<CheckPoint>>
    var viewChanges: map<u64, seq<ViewChange>>
    var phases: map<Bytes, Phase>
    var pending: seq<Bytes>

    constructor ()
      ensures requests == map[] && messages == map[] && checkpoints == map[] && viewChanges == map[]
      ensures phases == map[] && pending == []
    {
      requests, messages, checkpoints, viewChanges := map[], map[], map[], map[];
      phases, pending := map[], [];
    }

    /** Only the first request of a number is kept. */
    method RecordRequest(number: u64, r: Request)
      modifies `requests
      ensures requests == PbftNode.RecordRequest(old(requests), number, r)
    {
      if number !in requests {
        requests := requests[number := r];
      }
    }

    method RecordMessage(key: Bytes, m: Message)
      modifies `messages
      ensures messages == Push(old(messages), key, m)
    {
      if key in messages {
        messages := messages[key := messages[key] + [m]];
      } else {
        messages := messages[key := [m]];
        assert [] + [m] == [m];
      }
    }

    method MessageCount(key: Bytes) returns (n: nat)
      ensures n == |Bucket(messages, key)|
    {
      return if key in messages then |messages[key]| else 0;
    }

    method RecordCheckPoint(m: CheckPoint)
      modifies `checkpoints
      ensures checkpoints == Push(old(checkpoints), (m.maxNumber, m.digest), m)
    {
      var key := (m.maxNumber, m.digest);
      if key in checkpoints {
        checkpoints := checkpoints[key := checkpoints[key] + [m]];
      } else {
        checkpoints := checkpoints[key := [m]];
        assert [] + [m] == [m];
      }
    }

    /** Drops the checkpoint messages below the stable one, key by key. */
    method DiscardBefore(stable: u64)
      modifies `checkpoints
      ensures checkpoints == Dropped(old(checkpoints), stable)
    {
      var todo := set key | key in checkpoints && key.0 < stable;
      while todo != {}
        invariant todo <= checkpoints.Keys
        invariant forall key | key in todo :: key.0 < stable
        invariant forall key | key in old(checkpoints) && (key.0 >= stable || key in todo) ::
          key in checkpoints && checkpoints[key] == old(checkpoints)[key]
        invariant forall key | key in checkpoints :: key in old(checkpoints) && (key.0 >= stable || key in todo)
        decreases |todo|
      {
        var key :| key in todo;
        todo := todo - {key};
        checkpoints := checkpoints - {key};
      }
    }

    method RecordViewChange(m: ViewChange)
      modifies `viewChanges
      ensures viewChanges == Push(old(viewChanges), m.newView, m)
    {
      if m.newView in viewChanges {
        viewChanges := viewChanges[m.newView := viewChanges[m.newView] + [m]];
      } else {
        viewChanges := viewChanges[m.newView := [m]];
        assert [] + [m] == [m];
      }
    }

    method UpdatePhase(mHash: Bytes, phase: Phase)
      modifies `phases
      ensures phases == old(phases)[mHash := phase]
    {
      phases := phases[mHash := phase];
    }

    method RecordCurrentRequest(mHash: Bytes)
      modifies `pending
      ensures pending == old(pending) + [mHash]
    {
      pending := pending + [mHash];
    }

    method RemoveCommitedRequest()
      modifies `pending
      ensures pending == if old(pending) == [] then [] else old(pending)[1..]
    {
      if pending != [] {
        pending := pending[1..];
      }
    }

    /** The new-view queries read the ViewChanges of one view. */
    method MaxSequenceNumberByView(view: u64) returns (max: u64)
      ensures PbftNewView.IsMaximum(max, PbftNewView.PreparedNumbers(Bucket(viewChanges, view)))
    {
      max := PbftNewView.MaxSequenceNumber(if view in viewChanges then viewChanges[view] else []);
    }

    method CreateNewViewPrePrepares(view: u64, min: u64, max: u64) returns (l: Option<seq<PrePrepare>>)
      ensures l.None? <==> min + 1 == U64_LIMIT || max + 1 == U64_LIMIT
      ensures l.Some? ==>
        PbftNewView.IsNewViewList(l.value, view, min, max, PbftNewView.AllPrePrepares(Bucket(viewChanges, view)))
    {
      var vcs := if view in viewChanges then viewChanges[view] else [];
      var t := PbftNewView.CollectPrePrepares(vcs);
      l := PbftNewView.Rebuild(t, view, min, max, PbftNewView.AllPrePrepares(vcs));
    }
  }

  datatype Outcome = Sent(ms: seq<Message>) | Panicked

  class Executor {
    const f: Foreign
    const log: ConsensusLog
    const faults: nat
    const isPrimary: bool
    var view: u64
    var number: u64
    var abnormal: bool
    var stable: u64
    var stableDigest: Bytes
    var commited: nat
    var checkpointState: Bytes
    var clientReplied: bool

    ghost function State(): Node
      reads this, log
    {
      Node(view, number, faults, isPrimary, abnormal, stable, stableDigest, commited, checkpointState, clientReplied,
           log.requests, log.messages, log.checkpoints, log.viewChanges, log.phases, log.pending)
    }

    ghost predicate Matches(r: Result, o: Outcome)
      reads this, log
    {
      match r
      case Done(s, sent) => o == Sent(sent) && State() == s
      case Panic => o == Panicked
    }

    constructor (f: Foreign, faults: nat, isPrimary: bool, checkpointState: Bytes)
      ensures this.f == f && fresh(log)
      ensures State() == Node(0, 0, faults, isPrimary, false, 0, [], 0, checkpointState, false, map[], map[], map[],
          map[], map[], [])
    {
      this.f, this.faults, this.isPrimary, this.checkpointState := f, faults, isPrimary, checkpointState;
      view, number, abnormal, stable, stableDigest, commited, clientReplied := 0, 0, false, 0, [], 0, false;
      log := new ConsensusLog();
    }

    method HandleRequest(r: Request) returns (o: Outcome)
      modifies log`requests
      ensures Matches(PbftNode.HandleRequest(f, old(State()), r), o)
    {
      if number + 1 == U64_LIMIT {
        return Panicked;
      }
      log.RecordRequest(number + 1, r);
      var p := PrePrepare(view, number + 1, f.key(OfRequest(r)), f.encode(r), [], f.self);
      var signature := f.sign(f.key(OfPrePrepare(p)));
      return Sent([OfPrePrepare(p.(signature := signature))]);
    }

    method HandlePrePrepare(m: PrePrepare) returns (o: Outcome)
      modifies log`requests, log`messages, log`pending
      ensures Matches(PbftNode.HandlePrePrepare(f, old(State()), m), o)
    {
      if stable + WINDOW >= U64_LIMIT {
        return Panicked;
      }
      if m.number <= stable || m.number > stable + WINDOW {
        return Sent([]);
      }
      if view != m.view {
        return Sent([]);
      }
      var r := f.decode(m.m);
      if r.None? {
        return Panicked;
      }
      log.RecordRequest(m.number, r.value);
      log.RecordMessage(f.key(OfPrePrepare(m)), OfPrePrepare(m));
      var p := Prepare(view, m.number, m.mHash, f.self, []);
      var signature := f.sign(f.key(OfPrepare(p)));
      log.RecordCurrentRequest(m.mHash);
      return Sent([OfPrepare(p.(signature := signature))]);
    }

    method HandlePrepare(m: Prepare) returns (o: Outcome)
      modifies log`messages, log`phases
      ensures Matches(PbftNode.HandlePrepare(f, old(State()), m), o)
    {
      if m.mHash in log.phases && log.phases[m.mHash] == Prepared {
        return Sent([]);
      }
      if stable + WINDOW >= U64_LIMIT {
        return Panicked;
      }
      if m.number <= stable || m.number > stable + WINDOW {
        return Sent([]);
      }
      if view != m.view {
        return Sent([]);
      }
      if m.number !in log.requests || f.key(OfRequest(log.requests[m.number])) != m.mHash {
        return Sent([]);
      }
      log.RecordMessage(f.key(OfPrepare(m)), OfPrepare(m));
      var count := log.MessageCount(f.key(OfPrepare(m)));
      if count != 2 * faults {
        return Sent([]);
      }
      log.UpdatePhase(m.mHash, Prepared);
      var c := Commit(view, m.number, m.mHash, f.self, []);
      var signature := f.sign(f.key(OfCommit(c)));
      return Sent([OfCommit(c.(signature := signature))]);
    }

    method HandleCommit(m: Commit) returns (o: Outcome)
      modifies `checkpointState, `commited, log`messages, log`phases, log`pending
      ensures Matches(PbftNode.HandleCommit(f, old(State()), m), o)
    {
      if m.mHash in log.phases && log.phases[m.mHash] == Commited {
        return Sent([]);
      }
      if stable + WINDOW >= U64_LIMIT {
        return Panicked;
      }
      if m.number <= stable || m.number > stable + WINDOW {
        return Sent([]);
      }
      if view != m.view {
        return Sent([]);
      }
      if m.number !in log.requests || f.key(OfRequest(log.requests[m.number])) != m.mHash {
        return Sent([]);
      }
      log.RecordMessage(f.key(OfCommit(m)), OfCommit(m));
      var count := log.MessageCount(f.key(OfCommit(m)));
      if count != 2 * faults {
        return Sent([]);
      }
      o := ExecuteRequest(m.number, m.mHash);
    }

    method ExecuteRequest(n: u64, mHash: Bytes) returns (o: Outcome)
      requires n in log.requests && stable + WINDOW < U64_LIMIT
      modifies `checkpointState, `commited, log`phases, log`pending
      ensures Matches(Execute(f, old(State()), n, mHash), o)
    {
      var r := log.requests[n];
      checkpointState := f.chain(checkpointState, mHash);
      log.RemoveCommitedRequest();
      commited := commited + 1;
      var sent: seq<Message> := [];
      if commited % STABLE_CHECKPOINT_DELTA == 0 {
        sent := [OfCheckPoint(CheckPoint(stable + STABLE_CHECKPOINT_DELTA, checkpointState, f.self, []))];
      }
      log.UpdatePhase(mHash, Commited);
      var reply := Reply(r.clientId, r.timestamp, view, n, f.self, [], OK_TEXT);
      var signature := f.sign(f.key(OfReply(reply)));
      return Sent(sent + [OfReply(reply.(signature := signature))]);
    }

    method HandleReply(m: Reply) returns (o: Outcome)
      modifies `clientReplied, log`messages
      ensures Matches(if old(clientReplied) then Done(old(State()), [])
          else PbftNode.HandleReply(f, old(State()), m), o)
    {
      if clientReplied {
        return Sent([]);
      }
      log.RecordMessage(f.key(OfReply(m)), OfReply(m));
      var count := log.MessageCount(f.key(OfReply(m)));
      if count == faults + 1 {
        clientReplied := true;
        if !f.isText(m.result) {
          return Panicked;
        }
      }
      return Sent([]);
    }

    method HandleCheckPoint(m: CheckPoint)
      modifies `stable, `stableDigest, log`checkpoints
      ensures State() == PbftNode.HandleCheckPoint(old(State()), m)
    {
      log.RecordCheckPoint(m);
      if |log.checkpoints[(m.maxNumber, m.digest)]| == 2 * faults {
        stable := m.maxNumber;
        stableDigest := m.digest;
        log.DiscardBefore(stable);
      }
    }

    method BroadcastViewChange() returns (o: Outcome)
      modifies `abnormal
      ensures Matches(PbftNode.BroadcastViewChange(old(State())), o)
    {
      if abnormal {
        return Sent([]);
      }
      abnormal := true;
      if log.pending != [] || view + 1 == U64_LIMIT {
        return Panicked;
      }
      return Sent([]);
    }

    /** The primary's NewView, built from the ViewChanges recorded for the view. */
    method BroadcastNewView(v: u64) returns (nv: Option<NewView>)
      ensures PbftNewView.IsNewView(nv, v, Bucket(log.viewChanges, v))
      ensures nv.None? <==> RebuildFails(Bucket(log.viewChanges, v))
    {
      var vcs := if v in log.viewChanges then log.viewChanges[v] else [];
      nv := None;
      if vcs != [] {
        var max := log.MaxSequenceNumberByView(v);
        var l := log.CreateNewViewPrePrepares(v, vcs[0].stable, max);
        nv := if l.None? then None else Some(NewView(v, vcs, l.value, []));
      }
      NewViewExists(nv, v, vcs);
    }

    method HandleViewChange(m: ViewChange) returns (o: Outcome, nv: Option<NewView>)
      modifies `abnormal, log`viewChanges
      ensures Matches(PbftNode.HandleViewChange(old(State()), m), o)
      ensures nv.Some? ==> isPrimary && PbftNewView.IsNewView(nv, m.newView, Bucket(log.viewChanges, m.newView))
    {
      nv := None;
      if m.newView <= view {
        return Sent([]), None;
      }
      log.RecordViewChange(m);
      var count := |log.viewChanges[m.newView]|;
      if count > faults && !abnormal {
        o := BroadcastViewChange();
        return;
      }
      if isPrimary && count > 2 * faults {
        nv := BroadcastNewView(m.newView);
        if nv.None? {
          return Panicked, None;
        }
      }
      o := Sent([]);
    }

    /** The replica's own search for the largest Prepare number. */
    method MaxSequenceNumberByViewChanges(vcs: seq<ViewChange>) returns (max: u64)
      ensures PbftNewView.IsMaximum(max, PbftNewView.PreparedNumbers(vcs))
    {
      max := 0;
      var i := 0;
      while i < |vcs|
        invariant i <= |vcs| && PbftNewView.IsMaximum(max, PbftNewView.PreparedNumbers(vcs[..i]))
      {
        var ms, j := vcs[i].prepares, 0;
        PbftNewView.MoreViewChanges(vcs, i);
        while j < |ms|
          invariant j <= |ms|
          invariant PbftNewView.IsMaximum(max, PbftNewView.PreparedNumbers(vcs[..i]) + PbftNewView.NumbersOf(ms[..j]))
        {
          PbftNewView.MoreMessages(ms, j);
          if ms[j].OfPrepare? && ms[j].prepare.number > max {
            max := ms[j].prepare.number;
          }
          j := j + 1;
        }
        assert ms[..|ms|] == ms;
        i := i + 1;
      }
      assert vcs[..|vcs|] == vcs;
    }

    /** The replica's own table of first PrePrepares. */
    method FirstPrePrepares(vcs: seq<ViewChange>) returns (t: map<u64, PrePrepare>)
      ensures PbftNewView.FirstTable(t, PbftNewView.AllPrePrepares(vcs))
    {
      t := map[];
      var i := 0;
      while i < |vcs|
        invariant i <= |vcs| && PbftNewView.FirstTable(t, PbftNewView.AllPrePrepares(vcs[..i]))
      {
        var ms, j := vcs[i].preprepares, 0;
        ghost var before := PbftNewView.AllPrePrepares(vcs[..i]);
        assert before + PbftNewView.PrePreparesOf(ms[..0]) == before;
        while j < |ms|
          invariant j <= |ms| && PbftNewView.FirstTable(t, before + PbftNewView.PrePreparesOf(ms[..j]))
        {
          PbftNewView.TableNext(t, before, ms, j);
          if ms[j].OfPrePrepare? && ms[j].preprepare.number !in t {
            t := t[ms[j].preprepare.number := ms[j].preprepare];
          }
          j := j + 1;
        }
        assert ms[..|ms|] == ms && vcs[..i + 1][..i] == vcs[..i];
        i := i + 1;
      }
      assert vcs[..|vcs|] == vcs;
    }

    /** The replica's own list, compared with the received one as far as both go. */
    method VerifyPrePrepares(vcs: seq<ViewChange>, pps: seq<PrePrepare>, newView: u64) returns (r: Option<bool>)
      ensures PbftNewView.IsVerdict(r, newView, vcs, pps)
    {
      if vcs == [] {
        return None;
      }
      var min := vcs[0].stable;
      var max := MaxSequenceNumberByViewChanges(vcs);
      var t := FirstPrePrepares(vcs);
      if min == U64_LIMIT - 1 || max == U64_LIMIT - 1 {
        return None;
      }
      ghost var all := PbftNewView.AllPrePrepares(vcs);
      var n: nat := if max < min then 0 else max - min;
      var list: seq<PrePrepare> := [];
      for k := 0 to n
        invariant |list| == k
        invariant forall j | 0 <= j < k :: PbftNewView.Entry(list[j], newView, min + 1 + j, all)
      {
        var i: u64 := min + 1 + k;
        var entry := if i in t then t[i] else PbftNewView.Filler(newView, i);
        assert PbftNewView.Entry(entry, newView, i, all);
        list := list + [entry];
      }
      assert PbftNewView.IsNewViewList(list, newView, min, max, all);
      var same := SameOnCommon(list, pps);
      return Some(same);
    }

    method SameOnCommon(a: seq<PrePrepare>, b: seq<PrePrepare>) returns (same: bool)
      ensures same <==> PbftNewView.AgreeOnCommon(a, b)
    {
      var k := 0;
      while k < |a| && k < |b|
        invariant k <= |a| && k <= |b|
        invariant forall j | 0 <= j < k :: a[j] == b[j]
      {
        if a[k] != b[k] {
          return false;
        }
        k := k + 1;
      }
      return true;
    }

    /** The verdict is never positive, so what would follow an accepted NewView does not happen. */
    method HandleNewView(m: NewView) returns (o: Outcome)
      ensures Matches(PbftNode.HandleNewView(State(), m), o)
    {
      var viewChangesValid := PbftNewView.VerifyViewChanges(m.viewChanges, stable, stableDigest, faults);
      var prePreparesValid := VerifyPrePrepares(m.viewChanges, m.preprepares, m.view);
      VerdictExists(prePreparesValid, m.view, m.viewChanges, m.preprepares);
      if prePreparesValid.None? {
        return Panicked;
      }
      var accepted := prePreparesValid.value && viewChangesValid;
      assert !accepted;
      return Sent([]);
    }
  }

  lemma MaximumAtLimit(max: u64, numbers: set<u64>)
    requires PbftNewView.IsMaximum(max, numbers)
    ensures max + 1 == U64_LIMIT <==> (U64_LIMIT - 1) in numbers
  {
  }

  lemma NewViewExists(nv: Option<NewView>, view: u64, vcs: seq<ViewChange>)
    requires PbftNewView.IsNewView(nv, view, vcs)
    ensures nv.None? <==> RebuildFails(vcs)
  {
    if vcs != [] {
      var max: u64 :| PbftNewView.IsMaximum(max, PbftNewView.PreparedNumbers(vcs))
        && (nv.None? <==> vcs[0].stable + 1 == U64_LIMIT || max + 1 == U64_LIMIT);
      MaximumAtLimit(max, PbftNewView.PreparedNumbers(vcs));
    }
  }

  lemma VerdictExists(r: Option<bool>, view: u64, vcs: seq<ViewChange>, pps: seq<PrePrepare>)
    requires PbftNewView.IsVerdict(r, view, vcs, pps)
    ensures r.None? <==> RebuildFails(vcs)
  {
    if vcs != [] {
      var max: u64 :| PbftNewView.IsMaximum(max, PbftNewView.PreparedNumbers(vcs))
        && (r.None? <==> vcs[0].stable + 1 == U64_LIMIT || max + 1 == U64_LIMIT);
      MaximumAtLimit(max, PbftNewView.PreparedNumbers(vcs));
    }
  }
}

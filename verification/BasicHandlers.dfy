/** What the basic HotStuff handlers beside the prepare handler do, in the protocol's terms. */
module BasicHandlers {
  import opened Common
  import opened BasicNode

  // ----- reports and proposals

  /** Leaving a view: the leader of the next view is looked up modulo the number of nodes and gets a report with
      the node's prepare certificate, unless the node is that leader. */
  lemma LeavesView(s: Node)
    ensures var n := |s.numbers|;
      if n == 0 || (s.view + 1) % n !in s.numbers then EnterNextView(s) == Panic
      else
        var leader := s.numbers[(s.view + 1) % n];
        var report := Unicast(leader, NewViewMsg(NewView(s.view, s.prepareQC, s.id)));
        EnterNextView(s) == Ok(s.(view := s.view + 1, primary := leader),
                               Continue(if leader == s.id then [] else [report]), None, None)
  {
  }

  predicate Newer(a: Option<QC>, b: Option<QC>) {
    a.Some? && (b.None? || a.value.view > b.value.view)
  }

  /** Of a node's own certificate and the reported ones, in this order, the first that no other is newer than. */
  ghost predicate IsFirstNewest(r: Option<QC>, nvs: seq<NewView>, own: Option<QC>) {
    && !Newer(own, r) && (forall k | 0 <= k < |nvs| :: !Newer(nvs[k].justify, r))
    && (r == own
        || exists k :: 0 <= k < |nvs| && nvs[k].justify == r && Newer(r, own)
                       && forall j | 0 <= j < k :: Newer(r, nvs[j].justify))
  }

  lemma FirstNewestUnique(a: Option<QC>, b: Option<QC>, nvs: seq<NewView>, own: Option<QC>)
    requires IsFirstNewest(a, nvs, own) && IsFirstNewest(b, nvs, own)
    ensures a == b
  {
    if a != own && b != own {
      var k :| 0 <= k < |nvs| && nvs[k].justify == a && forall j | 0 <= j < k :: Newer(a, nvs[j].justify);
      var l :| 0 <= l < |nvs| && nvs[l].justify == b && forall j | 0 <= j < l :: Newer(b, nvs[j].justify);
      assert k == l;
    }
  }

  lemma {:induction false} HighQCFirst(nvs: seq<NewView>, own: Option<QC>)
    ensures IsFirstNewest(HighQC(nvs, own), nvs, own)
  {
    if nvs != [] {
      var n := |nvs| - 1;
      var front, r := nvs[..n], HighQC(nvs[..n], own);
      HighQCFirst(front, own);
      if Newer(nvs[n].justify, r) {
        assert nvs[n].justify == HighQC(nvs, own);
        forall j | 0 <= j < n ensures Newer(nvs[n].justify, nvs[j].justify) {
          assert front[j] == nvs[j];
        }
      } else {
        forall k | 0 <= k < n ensures nvs[k] == front[k] {
        }
        if r != own {
          var k :| 0 <= k < |front| && front[k].justify == r && Newer(r, own)
            && forall j | 0 <= j < k :: Newer(r, front[j].justify);
          assert nvs[k].justify == r && forall j | 0 <= j < k :: Newer(r, nvs[j].justify);
        }
      }
    }
  }

  /** The report that makes 2f+1 of its view gives the node its high certificate, the first of the newest among its
      prepare certificate and the reported ones; any other report is only kept. */
  lemma CountsReport(s: Node, nv: NewView, high: Option<QC>)
    requires IsFirstNewest(high, (if nv.view in s.newviews then s.newviews[nv.view] else []) + [nv], s.prepareQC)
    ensures var all := (if nv.view in s.newviews then s.newviews[nv.view] else []) + [nv];
      var kept := s.(newviews := s.newviews[nv.view := all]);
      HandleNewView(s, nv) == if |all| != 2 * s.fault + 1 then Ok(kept, Continue([]), None, None)
                              else Ok(kept.(highQC := high), Over, None, None)
  {
    var all := (if nv.view in s.newviews then s.newviews[nv.view] else []) + [nv];
    HighQCFirst(all, s.prepareQC);
    FirstNewestUnique(high, HighQC(all, s.prepareQC), all, s.prepareQC);
  }

  /** A request is proposed to all on the node's high certificate, or on nothing without one, and changes nothing. */
  lemma Proposes(s: Node, cmd: string)
    ensures var b := Block(cmd, if s.highQC.None? then Raw("") else Digest(s.highQC.value.block));
      HandleRequest(s, cmd)
      == Ok(s, Continue([Broadcast(PrepareMsg(Prepare(s.view, b, s.highQC, s.id)))]), None, None)
  {
  }

  // ----- certificates

  /** The certificate is of the kind and of the node's view, and its signature is on its own ballot. */
  predicate Passes(s: Node, kind: nat, justify: Option<QC>) {
    justify.Some? &&
    var qc := justify.value;
    qc.kind == kind && qc.view == s.view && qc.signature == Some(Combined(Ballot(kind, qc.view, qc.block)))
  }

  /** Without a key the signature of a certificate of the right kind and view cannot be checked. */
  predicate Uncheckable(s: Node, kind: nat, justify: Option<QC>) {
    s.keypair.None? && justify.Some? && justify.value.kind == kind && justify.value.view == s.view
    && justify.value.signature.Some?
  }

  /** A pre-commit message is followed exactly if its certificate passes: the certificate is kept and the primary gets
      a PRE_COMMIT vote. */
  lemma PreCommits(s: Node, view: nat, justify: Option<QC>)
    ensures var r := HandlePreCommit(s, view, justify);
      if Uncheckable(s, 1, justify) then r == Panic
      else if !Passes(s, 1, justify) then r == Ok(s, Continue([]), None, None)
      else
        var b := Ballot(2, view, justify.value.block);
        var vote := Vote(view, justify.value.block, Some(Share(s.keypair.value, b)), s.id);
        r == Ok(s.(prepareQC := justify), Continue([Unicast(s.primary, VoteMsg(2, vote))]), Some(b), None)
  {
  }

  /** A commit message is followed exactly if its certificate passes: it becomes the lock and the primary gets a COMMIT
      vote. */
  lemma Commits(s: Node, view: nat, justify: Option<QC>)
    ensures var r := HandleCommit(s, view, justify);
      if Uncheckable(s, 2, justify) then r == Panic
      else if !Passes(s, 2, justify) then r == Ok(s, Continue([]), None, None)
      else
        var b := Ballot(3, view, justify.value.block);
        var vote := Vote(view, justify.value.block, Some(Share(s.keypair.value, b)), s.id);
        r == Ok(s.(lockedQC := justify), Continue([Unicast(s.primary, VoteMsg(3, vote))]), Some(b), None)
  {
  }

  /** What a node does on a decision: it reports the command and leaves the view, after announcing if asked to. */
  ghost predicate Finishes(s: Node, qc: QC, first: seq<Send>, r: Result) {
    match EnterNextView(s)
    case Panic => r == Panic
    case Ok(s', out, _, _) => r == Ok(s', Complete(qc.block.cmd, first + Sends(out)), None, Some(qc))
  }

  /** A decide message is followed exactly if its certificate passes. */
  lemma Decides(s: Node, justify: Option<QC>)
    ensures var r := HandleDecide(s, justify);
      if Uncheckable(s, 3, justify) then r == Panic
      else if !Passes(s, 3, justify) then r == Ok(s, Continue([]), None, None)
      else Finishes(s, justify.value, [], r)
  {
  }

  /** A vote of an unknown sender or without a share fails; a share that is not the sender's for this ballot is ignored;
      any other is filed under its number, and the one that makes 2f+1 forms the certificate, which is sent to
      all with the message of the next phase, or decided on. */
  lemma CountsVote(s: Node, kind: Phase, v: Vote)
    ensures var r := HandleVote(s, kind, v);
      var ballot := Ballot(kind, v.view, v.block);
      if v.from !in s.pks || v.share.None? then r == Panic
      else if v.share.value != Share(s.pks[v.from], ballot) then r == Ok(s, Continue([]), None, None)
      else
        var known := (if ballot in s.signatures then s.signatures[ballot] else map[])[s.pks[v.from] := v.share.value];
        var filed := s.(signatures := s.signatures[ballot := known]);
        var qc := QC(kind, v.view, v.block, Some(Combined(ballot)));
        if |known| != 2 * s.fault + 1 then r == Ok(filed, Continue([]), None, None)
        else if s.keypair.None? then r == Panic
        else if kind == 1 then r == Ok(filed, Continue([Broadcast(PreCommitMsg(v.view, Some(qc)))]), None, None)
        else if kind == 2 then r == Ok(filed, Continue([Broadcast(CommitMsg(v.view, Some(qc)))]), None, None)
        else Finishes(filed, qc, [Broadcast(DecideMsg(v.view, Some(qc)))], r)
  {
  }
}

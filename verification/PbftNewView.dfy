/**
 PBFT new view: the primary rebuilds the PrePrepares of unfinished numbers from the ViewChanges, and
 every replica recomputes them to check the NewView.
 */
module PbftNewView {
  import opened Common
  import opened PbftKeys

  /** The hash text of a no-op, "NULL". */
  const NULL_HASH: Bytes := [78, 85, 76, 76]

  // ----- the largest prepared number

  function NumbersOf(ms: seq<Message>): set<u64> {
    set m | m in ms && m.OfPrepare? :: m.prepare.number
  }

  function PreparedNumbers(vcs: seq<ViewChange>): set<u64> {
    set v, n | v in vcs && n in NumbersOf(v.prepares) :: n
  }

  /** The maximum, 0 if there is nothing. */
  ghost predicate IsMaximum(max: u64, numbers: set<u64>) {
    && (forall n | n in numbers :: n <= max)
    && (max == 0 || max in numbers)
  }

  lemma MaximumUnique(a: u64, b: u64, numbers: set<u64>)
    requires IsMaximum(a, numbers) && IsMaximum(b, numbers)
    ensures a == b
  {
  }

  lemma MoreMessages(ms: seq<Message>, k: nat)
    requires k < |ms|
    ensures NumbersOf(ms[..k + 1]) == NumbersOf(ms[..k]) + (if ms[k].OfPrepare? then {ms[k].prepare.number} else {})
  {
    assert ms[..k + 1] == ms[..k] + [ms[k]];
  }

  lemma MoreViewChanges(vcs: seq<ViewChange>, k: nat)
    requires k < |vcs|
    ensures PreparedNumbers(vcs[..k + 1]) == PreparedNumbers(vcs[..k]) + NumbersOf(vcs[k].prepares)
  {
    assert vcs[..k + 1] == vcs[..k] + [vcs[k]];
  }

  /** The loop over all Prepares of all ViewChanges, whatever other messages they carry. */
  method MaxSequenceNumber(vcs: seq<ViewChange>) returns (max: u64)
    ensures IsMaximum(max, PreparedNumbers(vcs))
  {
    max := 0;
    for i := 0 to |vcs|
      invariant IsMaximum(max, PreparedNumbers(vcs[..i]))
    {
      var ms := vcs[i].prepares;
      MoreViewChanges(vcs, i);
      for j := 0 to |ms|
        invariant IsMaximum(max, PreparedNumbers(vcs[..i]) + NumbersOf(ms[..j]))
      {
        MoreMessages(ms, j);
        if ms[j].OfPrepare? && ms[j].prepare.number > max {
          max := ms[j].prepare.number;
        }
      }
      assert ms[..|ms|] == ms;
    }
    assert vcs[..|vcs|] == vcs;
  }

  // ----- the first PrePrepare of every number

  function PrePreparesOf(ms: seq<Message>): seq<PrePrepare> {
    if ms == [] then []
    else PrePreparesOf(ms[..|ms| - 1]) + if ms[|ms| - 1].OfPrePrepare? then [ms[|ms| - 1].preprepare] else []
  }

  /** All PrePrepares, in ViewChange order. */
  function AllPrePrepares(vcs: seq<ViewChange>): seq<PrePrepare> {
    if vcs == [] then [] else AllPrePrepares(vcs[..|vcs| - 1]) + PrePreparesOf(vcs[|vcs| - 1].preprepares)
  }

  /** p is the leftmost entry for number i. */
  ghost predicate IsFirst(ps: seq<PrePrepare>, i: u64, p: PrePrepare) {
    exists k | 0 <= k < |ps| :: ps[k] == p && p.number == i && forall j | 0 <= j < k :: ps[j].number != i
  }

  ghost predicate Mentions(ps: seq<PrePrepare>, i: u64) {
    exists k | 0 <= k < |ps| :: ps[k].number == i
  }

  /** The table holds the first PrePrepare of every mentioned number and nothing else. */
  ghost predicate FirstTable(t: map<u64, PrePrepare>, ps: seq<PrePrepare>) {
    && (forall i: u64 :: i in t <==> Mentions(ps, i))
    && (forall i: u64 :: i in t ==> IsFirst(ps, i, t[i]))
  }

  lemma FirstUnique(ps: seq<PrePrepare>, i: u64, p: PrePrepare, q: PrePrepare)
    requires IsFirst(ps, i, p) && IsFirst(ps, i, q)
    ensures p == q
  {
  }

  lemma FirstMore(ps: seq<PrePrepare>, p: PrePrepare, i: u64, q: PrePrepare)
    requires IsFirst(ps, i, q)
    ensures IsFirst(ps + [p], i, q)
  {
    var k :| 0 <= k < |ps| && ps[k] == q && q.number == i && forall j | 0 <= j < k :: ps[j].number != i;
    assert (ps + [p])[k] == q;
  }

  lemma MentionsMore(ps: seq<PrePrepare>, p: PrePrepare, i: u64)
    ensures Mentions(ps + [p], i) <==> Mentions(ps, i) || p.number == i
  {
    if Mentions(ps, i) {
      var k :| 0 <= k < |ps| && ps[k].number == i;
      assert (ps + [p])[k].number == i;
    }
    assert (ps + [p])[|ps|] == p;
  }

  /** One insertion that keeps an existing entry. */
  lemma TableMore(t: map<u64, PrePrepare>, ps: seq<PrePrepare>, p: PrePrepare)
    requires FirstTable(t, ps)
    ensures FirstTable(if p.number in t then t else t[p.number := p], ps + [p])
  {
    var t' := if p.number in t then t else t[p.number := p];
    forall i: u64 ensures (i in t' <==> Mentions(ps + [p], i)) && (i in t' ==> IsFirst(ps + [p], i, t'[i])) {
      MentionsMore(ps, p, i);
      if i in t {
        FirstMore(ps, p, i, t[i]);
      } else if i == p.number {
        assert (ps + [p])[|ps|] == p;
      }
    }
  }

  lemma TableNext(t: map<u64, PrePrepare>, before: seq<PrePrepare>, ms: seq<Message>, j: nat)
    requires j < |ms| && FirstTable(t, before + PrePreparesOf(ms[..j]))
    ensures var m := ms[j];
      FirstTable(if m.OfPrePrepare? && m.preprepare.number !in t then t[m.preprepare.number := m.preprepare] else t,
                 before + PrePreparesOf(ms[..j + 1]))
  {
    assert ms[..j + 1][..j] == ms[..j];
    if ms[j].OfPrePrepare? {
      TableMore(t, before + PrePreparesOf(ms[..j]), ms[j].preprepare);
      assert before + PrePreparesOf(ms[..j]) + [ms[j].preprepare] == before + PrePreparesOf(ms[..j + 1]);
    } else {
      assert PrePreparesOf(ms[..j + 1]) == PrePreparesOf(ms[..j]);
    }
  }

  /** The loop over all PrePrepares of all ViewChanges; an entry is never replaced. */
  method CollectPrePrepares(vcs: seq<ViewChange>) returns (t: map<u64, PrePrepare>)
    ensures FirstTable(t, AllPrePrepares(vcs))
  {
    t := map[];
    for i := 0 to |vcs|
      invariant FirstTable(t, AllPrePrepares(vcs[..i]))
    {
      var ms := vcs[i].preprepares;
      ghost var before := AllPrePrepares(vcs[..i]);
      assert before + PrePreparesOf(ms[..0]) == before;
      for j := 0 to |ms|
        invariant FirstTable(t, before + PrePreparesOf(ms[..j]))
      {
        TableNext(t, before, ms, j);
        if ms[j].OfPrePrepare? && ms[j].preprepare.number !in t {
          t := t[ms[j].preprepare.number := ms[j].preprepare];
        }
      }
      assert ms[..|ms|] == ms && vcs[..i + 1][..i] == vcs[..i];
    }
    assert vcs[..|vcs|] == vcs;
  }

  // ----- the list of a new view

  function Filler(view: u64, number: u64): PrePrepare {
    PrePrepare(view, number, NULL_HASH, [], [], [])
  }

  /** The list is contiguous from min + 1 to max; its entry for i is the first PrePrepare for i in
      ViewChange order, or a no-op if there is none. */
  ghost predicate IsNewViewList(l: seq<PrePrepare>, view: u64, min: u64, max: u64, ps: seq<PrePrepare>) {
    && |l| == (if max < min then 0 else max - min)
    && forall k | 0 <= k < |l| :: Entry(l[k], view, min + 1 + k, ps)
  }

  ghost predicate Entry(p: PrePrepare, view: u64, i: u64, ps: seq<PrePrepare>) {
    && p.number == i
    && if Mentions(ps, i) then IsFirst(ps, i, p) else p == Filler(view, i)
  }

  lemma EntryUnique(p: PrePrepare, q: PrePrepare, view: u64, i: u64, ps: seq<PrePrepare>)
    requires Entry(p, view, i, ps) && Entry(q, view, i, ps)
    ensures p == q
  {
    if Mentions(ps, i) {
      FirstUnique(ps, i, p, q);
    }
  }

  lemma ListUnique(a: seq<PrePrepare>, b: seq<PrePrepare>, view: u64, min: u64, max: u64, ps: seq<PrePrepare>)
    requires IsNewViewList(a, view, min, max, ps) && IsNewViewList(b, view, min, max, ps)
    ensures a == b
  {
    forall k | 0 <= k < |a| ensures a[k] == b[k] {
      EntryUnique(a[k], b[k], view, min + 1 + k, ps);
    }
  }

  /** The range of numbers is computed with 64-bit sums, so the largest word overflows. */
  method Rebuild(t: map<u64, PrePrepare>, view: u64, min: u64, max: u64, ghost ps: seq<PrePrepare>)
    returns (l: Option<seq<PrePrepare>>)
    requires FirstTable(t, ps)
    ensures l.None? <==> min + 1 == U64_LIMIT || max + 1 == U64_LIMIT
    ensures l.Some? ==> IsNewViewList(l.value, view, min, max, ps)
  {
    if min + 1 == U64_LIMIT || max + 1 == U64_LIMIT {
      return None;
    }
    var list: seq<PrePrepare> := [];
    var i := min + 1;
    while i < max + 1
      invariant min + 1 <= i && (i <= max + 1 || i == min + 1)
      invariant |list| == i - min - 1
      invariant forall k | 0 <= k < |list| :: Entry(list[k], view, min + 1 + k, ps)
    {
      var entry := if i in t then t[i] else Filler(view, i);
      assert Entry(entry, view, i, ps);
      list := list + [entry];
      i := i + 1;
    }
    return Some(list);
  }

  // ----- primary

  /** What the primary of a new view sends; nothing if it has no ViewChange or a sum overflows. */
  ghost predicate IsNewView(nv: Option<NewView>, view: u64, vcs: seq<ViewChange>) {
    if vcs == [] then nv.None?
    else
      exists max: u64 | IsMaximum(max, PreparedNumbers(vcs)) ::
        if vcs[0].stable + 1 == U64_LIMIT || max + 1 == U64_LIMIT then nv.None?
        else
          && nv.Some? && nv.value.view == view && nv.value.viewChanges == vcs
          && IsNewViewList(nv.value.preprepares, view, vcs[0].stable, max, AllPrePrepares(vcs))
  }

  // ----- replica

  /** The lists agree on their common length. */
  ghost predicate AgreeOnCommon<T>(a: seq<T>, b: seq<T>) {
    forall k | 0 <= k < |a| && k < |b| :: a[k] == b[k]
  }

  /** The check recomputes the list: it panics when the primary would, and otherwise accepts exactly
      the lists that agree with the recomputed one on their common length. */
  ghost predicate IsVerdict(r: Option<bool>, view: u64, vcs: seq<ViewChange>, pps: seq<PrePrepare>) {
    if vcs == [] then r.None?
    else
      exists max: u64 | IsMaximum(max, PreparedNumbers(vcs)) ::
        if vcs[0].stable + 1 == U64_LIMIT || max + 1 == U64_LIMIT then r.None?
        else
          && r.Some?
          && exists l :: IsNewViewList(l, view, vcs[0].stable, max, AllPrePrepares(vcs)) && (r.value
              <==> AgreeOnCommon(l, pps))
  }

  /** The verdict against the recomputed list, which is unique. */
  lemma {:induction false} VerdictOn(r: Option<bool>, view: u64, vcs: seq<ViewChange>, pps: seq<PrePrepare>, max: u64,
      l: seq<PrePrepare>)
    requires IsVerdict(r, view, vcs, pps) && vcs != []
    requires IsMaximum(max, PreparedNumbers(vcs)) && vcs[0].stable + 1 != U64_LIMIT && max + 1 != U64_LIMIT
    requires IsNewViewList(l, view, vcs[0].stable, max, AllPrePrepares(vcs))
    ensures r == Some(AgreeOnCommon(l, pps))
  {
    var max': u64 :| IsMaximum(max', PreparedNumbers(vcs))
      && if vcs[0].stable + 1 == U64_LIMIT || max' + 1 == U64_LIMIT then r.None?
         else
           && r.Some?
           && exists x :: IsNewViewList(x, view, vcs[0].stable, max', AllPrePrepares(vcs))
                          && (r.value <==> AgreeOnCommon(x, pps));
    MaximumUnique(max, max', PreparedNumbers(vcs));
    var x :| IsNewViewList(x, view, vcs[0].stable, max, AllPrePrepares(vcs)) && (r.value <==> AgreeOnCommon(x, pps));
    ListUnique(x, l, view, vcs[0].stable, max, AllPrePrepares(vcs));
  }

  // ----- primary and replica together

  /** Every NewView that the primary builds passes the check of its PrePrepares. */
  lemma PrimaryAndReplicaAgree(nv: NewView, view: u64, vcs: seq<ViewChange>, r: Option<bool>)
    requires IsNewView(Some(nv), view, vcs)
    requires IsVerdict(r, nv.view, nv.viewChanges, nv.preprepares)
    ensures r == Some(true)
  {
    var max: u64 :| IsMaximum(max, PreparedNumbers(vcs))
        && IsNewViewList(nv.preprepares, view, vcs[0].stable, max, AllPrePrepares(vcs))
      && vcs[0].stable + 1 != U64_LIMIT && max + 1 != U64_LIMIT;
    VerdictOn(r, view, vcs, nv.preprepares, max, nv.preprepares);
  }

  /** The check alone does not pin the list down: of the lists of full length exactly the right one is
      accepted, but so is every shorter prefix and every longer extension. */
  lemma {:induction false} VerdictByLength(view: u64, vcs: seq<ViewChange>, max: u64, l: seq<PrePrepare>,
      pps: seq<PrePrepare>, r: Option<bool>)
    requires vcs != [] && IsMaximum(max, PreparedNumbers(vcs)) && IsVerdict(r, view, vcs, pps)
    requires vcs[0].stable + 1 != U64_LIMIT && max + 1 != U64_LIMIT
    requires IsNewViewList(l, view, vcs[0].stable, max, AllPrePrepares(vcs))
    ensures r == Some(pps <= l || l <= pps)
    ensures |pps| == |l| ==> (r == Some(true) <==> pps == l)
  {
    VerdictOn(r, view, vcs, pps, max, l);
    if AgreeOnCommon(l, pps) {
      if |pps| <= |l| {
        assert pps == l[..|pps|];
      } else {
        assert l == pps[..|l|];
      }
    }
  }

  // ----- the entries that are not fillers

  /** The PrePrepares of unexecuted numbers, in the arbitrary order of the table. */
  method NotExecuted(vcs: seq<ViewChange>, min: u64, max: u64) returns (r: seq<PrePrepare>)
    ensures forall a, b | 0 <= a < b < |r| :: r[a].number != r[b].number
    ensures forall p :: p in r <==> min < p.number <= max && IsFirst(AllPrePrepares(vcs), p.number, p)
  {
    var t := CollectPrePrepares(vcs);
    ghost var all := AllPrePrepares(vcs);
    forall i: u64 | i in t ensures t[i].number == i {
      assert IsFirst(all, i, t[i]);
    }
    r := Within(t, min, max);
    forall p: PrePrepare ensures p.number in t && t[p.number] == p <==> IsFirst(all, p.number, p) {
      if IsFirst(all, p.number, p) {
        assert Mentions(all, p.number);
        FirstUnique(all, p.number, p, t[p.number]);
      }
    }
  }

  /** The filter over the table's entries. */
  method Within(t: map<u64, PrePrepare>, min: u64, max: u64) returns (r: seq<PrePrepare>)
    requires forall i | i in t :: t[i].number == i
    ensures forall a, b | 0 <= a < b < |r| :: r[a].number != r[b].number
    ensures forall p :: p in r <==> min < p.number <= max && p.number in t && t[p.number] == p
  {
    var todo := t.Keys;
    r := [];
    while todo != {}
      invariant todo <= t.Keys
      invariant forall a, b | 0 <= a < b < |r| :: r[a].number != r[b].number
      invariant forall p | p in r :: p.number in t && p.number !in todo && min < p.number <= max && t[p.number] == p
      invariant forall i | i in t && i !in todo && min < i <= max :: t[i] in r
      decreases |todo|
    {
      var i: u64 :| i in todo;
      todo := todo - {i};
      if min < i <= max {
        r := r + [t[i]];
      }
    }
  }

  /** The entries of a new-view list that are not fillers are exactly the unexecuted PrePrepares, each
      at the one position of its number. */
  lemma FillersAside(l: seq<PrePrepare>, view: u64, min: u64, max: u64, ps: seq<PrePrepare>, p: PrePrepare)
    requires IsNewViewList(l, view, min, max, ps)
    ensures min < p.number <= max && IsFirst(ps, p.number, p)
      <==> Mentions(ps, p.number) && exists k | 0 <= k < |l| :: l[k] == p
    ensures forall j, k | 0 <= j < k < |l| :: l[j].number != l[k].number
  {
    if min < p.number <= max && IsFirst(ps, p.number, p) {
      var k := p.number - min - 1;
      assert Mentions(ps, p.number) && Entry(l[k], view, min + 1 + k, ps);
      FirstUnique(ps, p.number, p, l[k]);
    }
    forall j, k | 0 <= j < k < |l| ensures l[j].number != l[k].number {
      assert Entry(l[j], view, min + 1 + j, ps) && Entry(l[k], view, min + 1 + k, ps);
    }
    if Mentions(ps, p.number) && exists k | 0 <= k < |l| :: l[k] == p {
      var k :| 0 <= k < |l| && l[k] == p;
      assert Entry(l[k], view, min + 1 + k, ps);
    }
  }

  /** The entry for a number is the PrePrepare for it that comes first among all, or, if there is none, one of the new
      view with the hash text NULL and nothing else. */
  lemma EntryExactly(l: seq<PrePrepare>, view: u64, min: u64, max: u64, ps: seq<PrePrepare>, i: u64)
    requires IsNewViewList(l, view, min, max, ps) && min < i <= max
    ensures var p := l[i - min - 1];
      if exists k :: 0 <= k < |ps| && ps[k].number == i
      then exists k :: 0 <= k < |ps| && ps[k] == p && p.number == i && forall j | 0 <= j < k :: ps[j].number != i
      else p == PrePrepare(view, i, [78, 85, 76, 76], [], [], [])
  {
    assert Entry(l[i - min - 1], view, i, ps);
  }

  /** The PrePrepares of ViewChanges are taken in the order of the ViewChanges. */
  lemma {:induction false} OrderKept(a: seq<ViewChange>, b: seq<ViewChange>)
    ensures AllPrePrepares(a + b) == AllPrePrepares(a) + AllPrePrepares(b)
  {
    if b == [] {
      assert a + b == a;
    } else {
      var n, all := |b| - 1, a + b;
      assert all[..|all| - 1] == a + b[..n] && all[|all| - 1] == b[n];
      OrderKept(a, b[..n]);
      Reassociate(AllPrePrepares(a), AllPrePrepares(b[..n]), PrePreparesOf(b[n].preprepares));
    }
  }

  /** Those of one ViewChange are taken in the order of its messages; others are passed over. */
  lemma {:induction false} MessageOrderKept(a: seq<Message>, b: seq<Message>)
    ensures PrePreparesOf(a + b) == PrePreparesOf(a) + PrePreparesOf(b)
  {
    if b == [] {
      assert a + b == a;
    } else {
      var n, all := |b| - 1, a + b;
      assert all[..|all| - 1] == a + b[..n] && all[|all| - 1] == b[n];
      MessageOrderKept(a, b[..n]);
      Reassociate(PrePreparesOf(a), PrePreparesOf(b[..n]), if b[n].OfPrePrepare? then [b[n].preprepare] else []);
    }
  }

  lemma Reassociate<T>(a: seq<T>, b: seq<T>, c: seq<T>)
    ensures a + (b + c) == (a + b) + c
  {
  }

  lemma {:induction false} SingleKept(m: Message, v: ViewChange)
    ensures PrePreparesOf([m]) == if m.OfPrePrepare? then [m.preprepare] else []
    ensures AllPrePrepares([v]) == PrePreparesOf(v.preprepares)
  {
    assert [m][..0] == [] && [v][..0] == [];
  }

  // ----- the other half of the check

  /** A checkpoint sender is counted only if it has been counted before, so none ever is. */
  method VerifyViewChange(v: ViewChange, stable: u64, digest: Bytes, faults: nat) returns (r: bool)
    ensures !r
  {
    var ids: set<Bytes> := {};
    for k := 0 to |v.checkpoints|
      invariant ids == {}
    {
      var c := v.checkpoints[k];
      if c.maxNumber == stable && c.digest == digest && c.from in ids {
        ids := ids + {c.from};
      }
    }
    r := |ids| > 2 * faults;
  }

  /** The same test makes the check of the ViewChanges fail on every list. */
  method VerifyViewChanges(vcs: seq<ViewChange>, stable: u64, digest: Bytes, faults: nat) returns (r: bool)
    ensures !r
  {
    var ids: set<Bytes> := {};
    for k := 0 to |vcs|
      invariant ids == {}
    {
      var v := vcs[k];
      var ok := VerifyViewChange(v, stable, digest, faults);
      if v.from in ids && ok {
        ids := ids + {v.from};
      }
    }
    r := |ids| > 2 * faults;
  }
}

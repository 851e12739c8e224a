/** The server copies of one draft: APPEND the new bytes, look their UID up by
    Message-ID, destroy the prior copy as best one can, store the new id.

    A copy is a UID carrying a Message-ID. Any step may fail, an APPEND or an
    EXPUNGE may take effect without being acknowledged, the process may stop
    anywhere, the mailbox may be renamed or renumbered, and the draft may be
    discarded while a save is in flight. */
module Drafts {
  import opened Wrappers

  datatype Ref = Ref(box: Box, uid: nat)

  /** A mailbox name with its UIDVALIDITY: what a UID is good for. */
  datatype Box = Box(folder: string, uv: nat)

  datatype Pc =
    | Idle
    | Saving(prior: Option<Ref>, mid: nat)
    | Appended(prior: Option<Ref>, mid: nat)
    | Found(prior: Option<Ref>, ref: Ref)
    | Cleaned(ref: Ref)

  /** `stored` is the draft row's server id, `present` whether the row exists.
      `used`, `ever`, `failedDestroys` and `untracked` are a ledger: boxes seen,
      whether an APPEND ever took effect, destroys not known to have worked, and
      appended copies whose id is not, or no longer, stored. */
  datatype State = State(
    box: Box,
    uidnext: nat,
    copies: map<nat, nat>,
    stored: Option<Ref>,
    present: bool,
    pc: Pc,
    used: set<Box>,
    ever: bool,
    failedDestroys: nat,
    untracked: nat)

  datatype Fate = Done | Refused | Unacknowledged

  datatype Event =
    | Read(mid: nat)
    | Append(fate: Fate)
    | Lookup(uid: nat)
    | LookupFails
    | Destroy(fate: Fate)
    | StoreId(ok: bool)
    | Discard
    | Recreate
    | Rebuild(box: Box, uidnext: nat, copies: map<nat, nat>)
    | ForeignExpunge(uid: nat)
    | Crash

  predicate Carries(copies: map<nat, nat>, uid: nat, mid: nat) {
    uid in copies && copies[uid] == mid
  }

  /** The highest UID whose Message-ID matches. */
  ghost predicate IsNewest(copies: map<nat, nat>, mid: nat, uid: nat) {
    Carries(copies, uid, mid) && forall u: nat | Carries(copies, u, mid) :: u <= uid
  }

  /** The same messages under new UIDs. */
  ghost predicate Renumbered(before: map<nat, nat>, after: map<nat, nat>) {
    |before| == |after| && forall u | u in before :: exists v: nat :: Carries(after, v, before[u])
  }

  predicate Mutable(pc: Pc) {
    !pc.Found?
  }

  ghost predicate CanStep(m: State, e: Event) {
    match e
    case Read(_) => m.pc.Idle?
    case Append(_) => m.pc.Saving?
    case Lookup(uid) => m.pc.Appended? && IsNewest(m.copies, m.pc.mid, uid)
    case LookupFails => m.pc.Appended?
    case Destroy(_) => m.pc.Found?
    case StoreId(_) => m.pc.Cleaned?
    case Rebuild(box, uidnext, copies) =>
      Mutable(m.pc) && box !in m.used && Renumbered(m.copies, copies) && forall u | u in copies :: u < uidnext
    case ForeignExpunge(uid) => uid in m.copies
    case _ => true
  }

  function Append1(m: State, mid: nat): State {
    m.(copies := m.copies[m.uidnext := mid], uidnext := m.uidnext + 1, ever := true)
  }

  /** A prior id from another folder or UIDVALIDITY names nothing here. */
  predicate Names(m: State, prior: Ref) {
    prior.box == m.box
  }

  function Apply(m: State, e: Event): State {
    match e
    case Read(mid) => m.(pc := Saving(m.stored, mid))
    case Append(fate) =>
      if !m.pc.Saving? then m
      else (match fate
            case Done => Append1(m, m.pc.mid).(pc := Appended(m.pc.prior, m.pc.mid))
            case Refused => m.(pc := Idle)
            case Unacknowledged => Append1(m, m.pc.mid).(pc := Idle, untracked := m.untracked + 1))
    case Lookup(uid) => if m.pc.Appended? then m.(pc := Found(m.pc.prior, Ref(m.box, uid))) else m
    case LookupFails => m.(pc := Idle, untracked := m.untracked + 1)
    case Destroy(fate) =>
      if !m.pc.Found? then m
      else if m.pc.prior.None? then m.(pc := Cleaned(m.pc.ref))
      else
        var prior := m.pc.prior.value;
        m.(pc := Cleaned(m.pc.ref),
           copies := if Names(m, prior) && !fate.Refused? then m.copies - {prior.uid} else m.copies,
           failedDestroys := m.failedDestroys + if Names(m, prior) && fate.Done? then 0 else 1)
    case StoreId(ok) =>
      if !m.pc.Cleaned? then m
      else if ok && m.present then m.(stored := Some(m.pc.ref), pc := Idle)
      else m.(pc := Idle, untracked := m.untracked + 1)
    case Discard =>
      m.(present := false, stored := None, untracked := m.untracked + if m.stored.Some? then 1 else 0)
    case Recreate => m.(present := true)
    case Rebuild(box, uidnext, copies) =>
      m.(box := box, uidnext := uidnext, copies := copies, used := m.used + {box})
    case ForeignExpunge(uid) => m.(copies := m.copies - {uid})
    case Crash => m.(pc := Idle, untracked := m.untracked + if m.pc.Idle? || m.pc.Saving? then 0 else 1)
  }

  ghost predicate Step(m: State, e: Event, n: State) {
    CanStep(m, e) && n == Apply(m, e)
  }

  function Start(box: Box, uidnext: nat): State {
    State(box, uidnext, map[], None, true, Idle, {box}, false, 0, 0)
  }

  ghost predicate IsRun(ms: seq<State>, es: seq<Event>) {
    && |ms| == |es| + 1 && ms[0] == Start(ms[0].box, ms[0].uidnext)
    && forall i | 0 <= i < |es| :: Step(ms[i], es[i], ms[i + 1])
  }

  /** Only this client removes copies. */
  predicate OwnOnly(es: seq<Event>) {
    forall i | 0 <= i < |es| :: !es[i].ForeignExpunge?
  }

  // ---------- the invariant ----------

  function Prior(pc: Pc): Option<Ref> {
    if pc.Saving? || pc.Appended? || pc.Found? then pc.prior else None
  }

  predicate Refers(m: State, r: Ref) {
    r.box in m.used && (r.box == m.box ==> r.uid < m.uidnext)
  }

  predicate Older(m: State, prior: Option<Ref>, uid: nat) {
    prior.Some? && Names(m, prior.value) ==> prior.value.uid < uid
  }

  /** A reference that may still account for one copy. */
  function Tracks(m: State, r: Option<Ref>): nat {
    if r.Some? && (!Names(m, r.value) || r.value.uid in m.copies) then 1 else 0
  }

  predicate WellFormed(m: State) {
    && m.box in m.used
    && (forall u | u in m.copies :: u < m.uidnext)
    && (m.stored.Some? ==> Refers(m, m.stored.value))
    && (Prior(m.pc).Some? ==> Refers(m, Prior(m.pc).value))
    && (m.pc.Found? || m.pc.Cleaned? ==> Refers(m, m.pc.ref))
    && (m.pc.Saving? || m.pc.Appended? || m.pc.Found? ==> m.stored == m.pc.prior || m.stored.None?)
  }

  /** The copy just written is there, above any prior one. */
  ghost predicate NewCopy(m: State) {
    match m.pc
    case Appended(prior, mid) => exists u: nat :: Carries(m.copies, u, mid) && Older(m, prior, u)
    case Found(prior, ref) => ref.box == m.box && ref.uid in m.copies && Older(m, prior, ref.uid)
    case Cleaned(ref) => Tracks(m, Some(ref)) == 1
    case _ => true
  }

  /** What holds while only this client removes copies. */
  ghost predicate OwnInv(m: State) {
    WellFormed(m) && NewCopy(m) && (m.ever ==> m.copies != map[]) && (!m.pc.Idle? && !m.pc.Saving? ==> m.ever)
  }

  function One(b: bool): nat {
    if b then 1 else 0
  }

  /** The appended copy, wherever it is now: `n` is its UID if it is still there. */
  predicate AppendedAs(m: State, n: nat)
    requires m.pc.Appended?
  {
    && (n in m.copies ==> Carries(m.copies, n, m.pc.mid) && Older(m, m.pc.prior, n))
    && |m.copies| <= m.failedDestroys + m.untracked + Tracks(m, m.stored) + One(n in m.copies)
  }

  /** How many copies there can be, whoever else removes some. */
  ghost predicate Bounded(m: State) {
    match m.pc
    case Appended(_, _) => exists n: nat :: AppendedAs(m, n)
    case Found(prior, ref) =>
      && ref.box == m.box
      && |m.copies| <= m.failedDestroys + m.untracked + Tracks(m, m.stored)
                       + One(ref.uid in m.copies && prior != Some(ref))
    case Cleaned(ref) => |m.copies| <= m.failedDestroys + m.untracked + Tracks(m, Some(ref))
    case _ => |m.copies| <= m.failedDestroys + m.untracked + Tracks(m, m.stored)
  }

  ghost predicate Inv(m: State) {
    WellFormed(m) && Bounded(m)
  }

  lemma Removed(before: map<nat, nat>, uid: nat)
    ensures |before - {uid}| == |before| - One(uid in before)
  {
    assert (before - {uid}).Keys == before.Keys - {uid};
  }

  lemma Added(before: map<nat, nat>, uid: nat, mid: nat)
    requires uid !in before
    ensures |before[uid := mid]| == |before| + 1
  {
    assert before[uid := mid].Keys == before.Keys + {uid};
  }

  // ---------- the bound, step by step ----------

  lemma AppendBounds(m: State, e: Event, n: State)
    requires Inv(m) && Step(m, e, n) && e.Append?
    ensures Inv(n)
  {
    if !e.fate.Refused? {
      Added(m.copies, m.uidnext, m.pc.mid);
      if e.fate.Done? {
        assert AppendedAs(n, m.uidnext);
      }
    }
  }

  lemma LookupBounds(m: State, e: Event, n: State)
    requires Inv(m) && Step(m, e, n) && e.Lookup?
    ensures Inv(n)
  {
    var k: nat :| AppendedAs(m, k);
    if k in m.copies {
      assert Carries(m.copies, k, m.pc.mid) && k <= e.uid;
    }
  }

  /** What a destroy does to the count, against what the prior id accounted for. */
  lemma DestroyCounts(m: State, e: Event, n: State)
    requires Inv(m) && Step(m, e, n) && e.Destroy?
    ensures |n.copies| <= n.failedDestroys + n.untracked + One(m.pc.ref.uid in n.copies)
  {
    if m.pc.prior.Some? {
      Removed(m.copies, m.pc.prior.value.uid);
    }
  }

  lemma DestroyBounds(m: State, e: Event, n: State)
    requires Inv(m) && Step(m, e, n) && e.Destroy?
    ensures Inv(n)
  {
    DestroyCounts(m, e, n);
  }

  lemma RebuildBounds(m: State, e: Event, n: State)
    requires Inv(m) && Step(m, e, n) && e.Rebuild?
    ensures Inv(n)
  {
    if m.pc.Appended? {
      var k: nat :| AppendedAs(m, k);
      if k in m.copies {
        var v: nat :| Carries(n.copies, v, m.copies[k]);
        assert AppendedAs(n, v);
      } else {
        assert AppendedAs(n, n.uidnext);
      }
    }
  }

  lemma ForeignBounds(m: State, e: Event, n: State)
    requires Inv(m) && Step(m, e, n) && e.ForeignExpunge?
    ensures Inv(n)
  {
    Removed(m.copies, e.uid);
    if m.pc.Appended? {
      var k: nat :| AppendedAs(m, k);
      assert AppendedAs(n, k);
    }
  }

  lemma DiscardBounds(m: State, e: Event, n: State)
    requires Inv(m) && Step(m, e, n) && (e.Discard? || e.Recreate?)
    ensures Inv(n)
  {
    if m.pc.Appended? {
      var k: nat :| AppendedAs(m, k);
      assert AppendedAs(n, k);
    }
  }

  lemma StepBounds(m: State, e: Event, n: State)
    requires Inv(m) && Step(m, e, n)
    ensures Inv(n)
  {
    match e
    case Append(_) => AppendBounds(m, e, n);
    case Lookup(_) => LookupBounds(m, e, n);
    case Destroy(_) => DestroyBounds(m, e, n);
    case Rebuild(_, _, _) => RebuildBounds(m, e, n);
    case ForeignExpunge(_) => ForeignBounds(m, e, n);
    case Discard => DiscardBounds(m, e, n);
    case Recreate => DiscardBounds(m, e, n);
    case _ =>
  }

  lemma {:induction false} RunBounds(ms: seq<State>, es: seq<Event>, k: nat)
    requires IsRun(ms, es) && k <= |es|
    ensures Inv(ms[k])
  {
    if k > 0 {
      RunBounds(ms, es, k - 1);
      assert Step(ms[k - 1], es[k - 1], ms[k]);
      StepBounds(ms[k - 1], es[k - 1], ms[k]);
    }
  }

  // ---------- never none, step by step ----------

  lemma StepKeeps(m: State, e: Event, n: State)
    requires OwnInv(m) && Step(m, e, n) && !e.ForeignExpunge?
    ensures OwnInv(n)
  {
    match e
    case Append(_) => AppendKeeps(m, e, n);
    case Rebuild(_, _, _) => RebuildKeeps(m, e, n);
    case Lookup(_) => LookupKeeps(m, e, n);
    case _ =>
  }

  lemma AppendKeeps(m: State, e: Event, n: State)
    requires OwnInv(m) && Step(m, e, n) && e.Append?
    ensures OwnInv(n)
  {
    if !e.fate.Refused? {
      assert Carries(n.copies, m.uidnext, m.pc.mid);
    }
  }

  lemma LookupKeeps(m: State, e: Event, n: State)
    requires OwnInv(m) && Step(m, e, n) && e.Lookup?
    ensures OwnInv(n)
  {
    var u: nat :| Carries(m.copies, u, m.pc.mid) && Older(m, m.pc.prior, u);
    assert u <= e.uid;
  }

  lemma RebuildKeeps(m: State, e: Event, n: State)
    requires OwnInv(m) && Step(m, e, n) && e.Rebuild?
    ensures OwnInv(n)
  {
    if m.pc.Appended? {
      var u: nat :| Carries(m.copies, u, m.pc.mid) && Older(m, m.pc.prior, u);
      var v: nat :| Carries(n.copies, v, m.copies[u]);
      assert Older(n, m.pc.prior, v);
    }
  }

  lemma {:induction false} RunKeeps(ms: seq<State>, es: seq<Event>, k: nat)
    requires IsRun(ms, es) && OwnOnly(es) && k <= |es|
    ensures OwnInv(ms[k])
  {
    if k > 0 {
      RunKeeps(ms, es, k - 1);
      assert Step(ms[k - 1], es[k - 1], ms[k]);
      StepKeeps(ms[k - 1], es[k - 1], ms[k]);
    }
  }

  // ---------- theorems ----------

  lemma {:induction false} EverStays(ms: seq<State>, es: seq<Event>, i: nat, k: nat)
    requires IsRun(ms, es) && i < k <= |es| && es[i].Append? && !es[i].fate.Refused?
    ensures ms[k].ever
  {
    assert Step(ms[k - 1], es[k - 1], ms[k]);
    if i < k - 1 {
      EverStays(ms, es, i, k - 1);
    }
  }

  /** Once an APPEND took effect there is always a copy, at every later moment of
      every run of saves, retries, failures and crashes in which no other client
      expunges. */
  lemma NeverZeroCopies(ms: seq<State>, es: seq<Event>, i: nat, k: nat)
    requires IsRun(ms, es) && OwnOnly(es)
    requires i < k <= |es| && es[i].Append? && !es[i].fate.Refused?
    ensures ms[k].copies != map[]
  {
    EverStays(ms, es, i, k);
    RunKeeps(ms, es, k);
  }

  /** Between saves, at most one copy beyond the failed destroys and the copies
      whose id was not kept; one more while a save is between its APPEND and its
      destroy. Whatever other clients expunge only lowers the count. */
  lemma CopiesBounded(ms: seq<State>, es: seq<Event>, k: nat)
    requires IsRun(ms, es) && k <= |es|
    ensures |ms[k].copies| <=
              1 + ms[k].failedDestroys + ms[k].untracked
              + if ms[k].pc.Appended? || ms[k].pc.Found? then 1 else 0
  {
    RunBounds(ms, es, k);
  }

  // ---------- other clients ----------

  /** The save that runs at `k` made its APPEND at `a`. */
  predicate SaveOf(es: seq<Event>, a: nat, k: nat) {
    a < k <= |es| && es[a].Append? && forall i | a < i < k :: !es[i].Append?
  }

  /** No other client expunged while that save had appended and not yet looked up. */
  predicate Undisturbed(ms: seq<State>, es: seq<Event>, a: nat, k: nat)
    requires |ms| == |es| + 1 && k <= |es|
  {
    forall i | a < i < k && ms[i].pc.Appended? :: !es[i].ForeignExpunge?
  }

  /** The copy to look up is above any prior one; so is the one found. */
  ghost predicate NewIsAbove(m: State) {
    match m.pc
    case Appended(prior, mid) => exists u: nat :: Carries(m.copies, u, mid) && Older(m, prior, u)
    case Found(prior, ref) => ref.box == m.box && Older(m, prior, ref.uid)
    case _ => true
  }

  lemma StepStaysAbove(m: State, e: Event, n: State)
    requires WellFormed(m) && NewIsAbove(m) && Step(m, e, n)
    requires m.pc.Appended? ==> !e.ForeignExpunge?
    ensures NewIsAbove(n)
  {
    match e
    case Append(_) =>
      if e.fate.Done? {
        assert Carries(n.copies, m.uidnext, m.pc.mid);
      }
    case Lookup(_) =>
      var u: nat :| Carries(m.copies, u, m.pc.mid) && Older(m, m.pc.prior, u);
      assert u <= e.uid;
    case Rebuild(_, _, _) =>
      if m.pc.Appended? {
        var u: nat :| Carries(m.copies, u, m.pc.mid) && Older(m, m.pc.prior, u);
        var v: nat :| Carries(n.copies, v, m.copies[u]);
        assert Older(n, m.pc.prior, v);
      }
    case _ =>
  }

  lemma AppendIsAbove(m: State, e: Event, n: State)
    requires WellFormed(m) && Step(m, e, n) && e.Append?
    ensures NewIsAbove(n)
  {
    StepStaysAbove(m, e, n);
  }

  lemma Shorter(ms: seq<State>, es: seq<Event>, a: nat, k: nat)
    requires |ms| == |es| + 1 && SaveOf(es, a, k) && Undisturbed(ms, es, a, k) && a < k - 1
    ensures SaveOf(es, a, k - 1) && Undisturbed(ms, es, a, k - 1)
    ensures ms[k - 1].pc.Appended? ==> !es[k - 1].ForeignExpunge?
  {
  }

  lemma {:induction false} SaveStaysAbove(ms: seq<State>, es: seq<Event>, a: nat, k: nat)
    requires IsRun(ms, es) && SaveOf(es, a, k) && Undisturbed(ms, es, a, k)
    ensures NewIsAbove(ms[k])
  {
    RunBounds(ms, es, k - 1);
    assert Step(ms[k - 1], es[k - 1], ms[k]);
    if a < k - 1 {
      Shorter(ms, es, a, k);
      SaveStaysAbove(ms, es, a, k - 1);
      StepStaysAbove(ms[k - 1], es[k - 1], ms[k]);
    } else {
      AppendIsAbove(ms[k - 1], es[k - 1], ms[k]);
    }
  }

  /** A save that no other client disturbed between its APPEND and its lookup does
      not destroy the copy it found, whatever was expunged before or after. */
  lemma FoundSurvives(ms: seq<State>, es: seq<Event>, a: nat, k: nat)
    requires IsRun(ms, es) && k < |es| && es[k].Destroy? && SaveOf(es, a, k) && Undisturbed(ms, es, a, k)
    ensures ms[k].pc.Found? && ms[k].pc.prior != Some(ms[k].pc.ref)
    ensures ms[k].pc.ref.uid in ms[k].copies ==> ms[k].pc.ref.uid in ms[k + 1].copies
  {
    assert Step(ms[k], es[k], ms[k + 1]);
    SaveStaysAbove(ms, es, a, k);
  }

  /** So this client never takes the last copy itself: no step of its own empties
      the mailbox of copies, provided the save's new copy was left alone up to the
      destroy. */
  lemma OwnStepsLeaveOne(ms: seq<State>, es: seq<Event>, a: nat, k: nat)
    requires IsRun(ms, es) && k < |es| && !es[k].ForeignExpunge? && ms[k].copies != map[]
    requires es[k].Destroy? ==> SaveOf(es, a, k) && Undisturbed(ms, es, a, k) && ms[k].pc.Found?
                                && ms[k].pc.ref.uid in ms[k].copies
    ensures ms[k + 1].copies != map[]
  {
    assert Step(ms[k], es[k], ms[k + 1]);
    if es[k].Destroy? {
      FoundSurvives(ms, es, a, k);
      assert ms[k].pc.ref.uid in ms[k + 1].copies;
    } else if es[k].Rebuild? {
      assert |ms[k + 1].copies| == |ms[k].copies|;
    }
  }

  predicate Smooth(e: Event) {
    match e
    case Read(_) => true
    case Append(fate) => fate.Done?
    case Lookup(_) => true
    case Destroy(fate) => fate.Done?
    case StoreId(ok) => ok
    case _ => false
  }

  predicate Settled(m: State) {
    && m.failedDestroys == 0 && m.untracked == 0 && m.present
    && (m.stored.Some? ==> Names(m, m.stored.value))
    && (Prior(m.pc).Some? ==> Names(m, Prior(m.pc).value))
    && (m.pc.Found? || m.pc.Cleaned? ==> Names(m, m.pc.ref))
    && (m.pc.Idle? && m.stored.None? ==> !m.ever)
    && (m.pc.Saving? && m.stored.None? ==> !m.ever)
  }

  lemma {:induction false} SmoothSettles(ms: seq<State>, es: seq<Event>, k: nat)
    requires IsRun(ms, es) && k <= |es| && forall i | 0 <= i < |es| :: Smooth(es[i])
    ensures Settled(ms[k])
  {
    if k > 0 {
      SmoothSettles(ms, es, k - 1);
      assert Step(ms[k - 1], es[k - 1], ms[k]) && Smooth(es[k - 1]);
    }
  }

  /** Saves without a failure leave exactly one copy, the one whose id is stored. */
  lemma SmoothLeavesOne(ms: seq<State>, es: seq<Event>, i: nat, k: nat)
    requires IsRun(ms, es) && (forall j | 0 <= j < |es| :: Smooth(es[j]))
    requires i < k <= |es| && es[i].Append? && ms[k].pc.Idle?
    ensures ms[k].stored.Some? && ms[k].copies.Keys == {ms[k].stored.value.uid}
  {
    assert Smooth(es[i]);
    EverStays(ms, es, i, k);
    SmoothSettles(ms, es, k);
    RunKeeps(ms, es, k);
    RunBounds(ms, es, k);
    var u := ms[k].stored.value.uid;
    assert u in ms[k].copies;
    assert |ms[k].copies.Keys - {u}| == |ms[k].copies.Keys| - 1;
  }

  /** The client's own destroy takes the copy it has just found exactly when the
      lookup found the prior copy itself and the EXPUNGE took effect. */
  lemma DestroyTakesFound(m: State, e: Event, n: State)
    requires m.pc.Found? && m.pc.ref.box == m.box && m.pc.ref.uid in m.copies
    requires e.Destroy? && Step(m, e, n)
    ensures m.pc.ref.uid !in n.copies <==> m.pc.prior == Some(m.pc.ref) && !e.fate.Refused?
  {
  }

  function At(next: nat, copies: map<nat, nat>, stored: Option<Ref>, pc: Pc): State {
    State(DRAFTS, next, copies, stored, true, pc, {DRAFTS}, true, 0, 0)
  }

  const DRAFTS := Box("Drafts", 1)
  const FIRST := Ref(DRAFTS, 1)

  lemma Then(ms: seq<State>, es: seq<Event>, e: Event) returns (ns: seq<State>, fs: seq<Event>)
    requires IsRun(ms, es) && CanStep(ms[|es|], e)
    ensures IsRun(ns, fs) && fs == es + [e] && ns == ms + [Apply(ms[|es|], e)]
  {
    ns, fs := ms + [Apply(ms[|es|], e)], es + [e];
  }

  lemma SavedOnce() returns (ms: seq<State>, es: seq<Event>)
    ensures IsRun(ms, es) && ms[|es|] == At(2, map[1 := 7], Some(FIRST), Idle)
    ensures es == [Read(7), Append(Done), Lookup(1), Destroy(Done), StoreId(true)]
  {
    ms, es := Then([Start(DRAFTS, 1)], [], Read(7));
    ms, es := Then(ms, es, Append(Done));
    assert Carries(map[1 := 7], 1, 7);
    ms, es := Then(ms, es, Lookup(1));
    ms, es := Then(ms, es, Destroy(Done));
    ms, es := Then(ms, es, StoreId(true));
  }

  lemma RetryLosesNewCopy() returns (ms: seq<State>, es: seq<Event>)
    ensures IsRun(ms, es) && ms[|es|] == At(3, map[1 := 7], Some(FIRST), Appended(Some(FIRST), 7))
    ensures |es| == 8 && es[7] == ForeignExpunge(2)
    ensures forall i | 0 <= i < 7 :: Smooth(es[i])
  {
    ms, es := SavedOnce();
    ms, es := Then(ms, es, Read(7));
    ms, es := Then(ms, es, Append(Done));
    ms, es := Then(ms, es, ForeignExpunge(2));
    assert map[1 := 7, 2 := 7] - {2} == map[1 := 7];
  }

  /** Another client's expunge of the new copy alone can make that happen: the
      retried bytes carry the same Message-ID, the lookup finds the old copy, and
      the save ends with none. */
  lemma ForeignExpungeLeavesNone() returns (ms: seq<State>, es: seq<Event>)
    ensures IsRun(ms, es) && !OwnOnly(es)
    ensures forall i | 0 <= i < |es| :: Smooth(es[i]) || es[i] == ForeignExpunge(2)
    ensures ms[|es|].pc.Idle? && ms[|es|].copies == map[] && ms[|es|].stored.Some?
  {
    ms, es := RetryLosesNewCopy();
    assert Carries(map[1 := 7], 1, 7);
    ms, es := Then(ms, es, Lookup(1));
    ms, es := Then(ms, es, Destroy(Done));
    ms, es := Then(ms, es, StoreId(true));
    assert es[7].ForeignExpunge?;
  }

  /** Between the lookup and the destroy it takes two to leave none: another client
      expunges the new copy and the save destroys the prior one. */
  lemma ForeignExpungeBeforeDestroy() returns (ms: seq<State>, es: seq<Event>)
    ensures IsRun(ms, es) && |es| == 10 && es[8] == ForeignExpunge(2)
    ensures forall i | 0 <= i < |es| :: Smooth(es[i]) || i == 8
    ensures ms[8].pc.Found? && |ms[8].copies| == 2 && ms[10].copies == map[]
  {
    ms, es := SavedOnce();
    ms, es := Then(ms, es, Read(8));
    ms, es := Then(ms, es, Append(Done));
    var two := map[1 := 7, 2 := 8];
    assert Carries(two, 2, 8);
    ms, es := Then(ms, es, Lookup(2));
    Added(map[1 := 7], 2, 8);
    ms, es := Then(ms, es, ForeignExpunge(2));
    assert two - {2} == map[1 := 7];
    ms, es := Then(ms, es, Destroy(Done));
    assert map[1 := 7] - {1} == map[];
  }
}

/** What a pull's start still says later on: the base of a cursor stays put while
    the UIDVALIDITY does, and what was stored at the start stays stored. */
module MirrorStarts {
  import opened Wrappers
  import opened Imap
  import opened Mirror
  import opened MirrorInvariants
  import P = HistoryPipeline

  ghost predicate CursorCurrent(m: State) {
    m.cursor.Some? && m.cursor.value.uv == m.server.uv
  }

  // ---------- the base ----------

  predicate SelectFits(since: Option<Cursor>, sel: Cursor, lo: nat) {
    if since.Some? then since.value.uidnext <= sel.uidnext else lo <= sel.uidnext
  }

  predicate DeliveryFits(m: State, d: Delivery) {
    d.base <= d.cursor.uidnext && (m.cursor.Some? ==> d.base == m.base)
  }

  /** The base lies within its cursor's UID space, and only a cycle that starts
      without a cursor moves it. */
  predicate BaseInv(m: State) {
    && (m.cursor.Some? ==> m.base <= m.cursor.value.uidnext)
    && match m.sync
       case Mismatch => m.cursor.Some? && m.cursor.value.uv < m.server.uv
       case Selected(since, _, sel, lo) => SelectFits(since, sel, lo)
       case Fetched(since, _, sel, lo, _) => SelectFits(since, sel, lo)
       case Delivered(d, _) => DeliveryFits(m, d)
       case Stored(d) => DeliveryFits(m, d)
       case Known(d, _) => DeliveryFits(m, d)
       case Pruning(d, _, _) => DeliveryFits(m, d)
       case Updating(d, _, _) => DeliveryFits(m, d)
       case _ => true
  }

  lemma SelectKeepsBase(m: State, limit: nat, n: State)
    requires Inv(m) && BaseInv(m) && Step(m, Select(limit), n)
    ensures BaseInv(n)
  {
  }

  lemma DeliverKeepsBase(m: State, e: Event, n: State)
    requires BaseInv(m) && SyncInv(m) && Step(m, e, n) && (e.FetchFlags? || e.FlagsFail?)
    ensures BaseInv(n)
  {
  }

  lemma CycleKeepsBase(m: State, e: Event, n: State)
    requires BaseInv(m) && SyncInv(m) && Step(m, e, n) && CycleEvent(e)
    requires !e.Select? && !e.FetchFlags? && !e.FlagsFail?
    ensures BaseInv(n)
  {
  }

  lemma OthersKeepBase(m: State, e: Event, n: State)
    requires BaseInv(m) && Step(m, e, n) && !CycleEvent(e)
    ensures BaseInv(n)
  {
    UvGrows(m, e, n);
    assert e.Cut? || n.sync == m.sync;
  }

  lemma UvGrows(m: State, e: Event, n: State)
    requires Step(m, e, n)
    ensures m.server.uv <= n.server.uv
  {
  }

  lemma BaseKeeps(m: State, e: Event, n: State)
    requires Inv(m) && BaseInv(m) && Step(m, e, n)
    ensures BaseInv(n)
  {
    if e.Select? {
      SelectKeepsBase(m, e.limit, n);
    } else if e.FetchFlags? || e.FlagsFail? {
      DeliverKeepsBase(m, e, n);
    } else if CycleEvent(e) {
      CycleKeepsBase(m, e, n);
    } else {
      OthersKeepBase(m, e, n);
    }
  }

  /** A cursor of the current UIDVALIDITY stays current, with its base, for as
      long as the UIDVALIDITY stays. */
  lemma BaseStays(m: State, e: Event, n: State)
    requires Inv(m) && BaseInv(m) && Step(m, e, n)
    requires CursorCurrent(m) && n.server.uv == m.server.uv
    ensures CursorCurrent(n) && n.base == m.base
  {
  }

  // ---------- what was stored ----------

  /** A live message's row is never lost, and a live message below an earlier
      UIDNEXT was live then. */
  lemma LiveStays(m: State, e: Event, n: State)
    requires Inv(m) && Step(m, e, n) && n.server.uv == m.server.uv
    ensures m.server.uidnext <= n.server.uidnext
    ensures forall u | u in n.server.msgs && u < m.server.uidnext :: u in m.server.msgs
    ensures forall u | u in n.server.msgs && MsgId(n.server.uv, u) in m.rows :: MsgId(n.server.uv, u) in n.rows
  {
    if e.ServerMoves? {
      ServerOnly(m, e, n);
    } else if e.Prune? {
      assert !Live(m.server, e.id);
    }
  }

  lemma ServerOnly(m: State, e: Event, n: State)
    requires e.ServerMoves? && Step(m, e, n) && n.server.uv == m.server.uv
    ensures n.rows == m.rows && m.server.uidnext <= n.server.uidnext
    ensures forall u | u in n.server.msgs && u < m.server.uidnext :: u in m.server.msgs
  {
  }

  predicate Started(m: State) {
    m.history.Some? || m.pull.Some?
  }

  /** The cursor the pull found, if it was of the UIDVALIDITY of its day. */
  predicate FoundCursor(b: Snapshot) {
    b.cursor.Some? && b.cursor.value.uv == b.server.uv
  }

  /** The start as it was taken. */
  ghost predicate SnapshotSound(b: Snapshot) {
    && RowsSound(b.server, b.rows) && LowestIn(b.rows, b.anchor)
    && (FoundCursor(b) ==> b.base <= b.cursor.value.uidnext <= b.server.uidnext)
  }

  /** The start against the present, while the UIDVALIDITY is the same. */
  ghost predicate Descends(b: Snapshot, m: State) {
    && b.server.uidnext <= m.server.uidnext
    && (forall u | u in m.server.msgs && u < b.server.uidnext :: u in b.server.msgs)
    && (forall u | u in m.server.msgs && MsgId(m.server.uv, u) in b.rows :: MsgId(m.server.uv, u) in m.rows)
    && (FoundCursor(b) ==> CursorCurrent(m) && m.base == b.base)
  }

  ghost predicate StartInv(m: State) {
    Started(m) ==>
      && SnapshotSound(m.began) && m.began.server.uv <= m.server.uv
      && (Stable(m) ==> Descends(m.began, m))
  }

  predicate NewStart(e: Event) {
    (e.PullStarts? && e.anew) || e.PullTrivial?
  }

  lemma StartTaken(m: State, e: Event, n: State)
    requires Inv(m) && BaseInv(m) && Step(m, e, n) && NewStart(e)
    ensures StartInv(n)
  {
    assert n.began == TakenNow(m, e.anchor);
    assert SnapshotSound(n.began);
  }

  lemma StartFrame(m: State, e: Event, n: State)
    requires Step(m, e, n) && !NewStart(e)
    ensures n.began == m.began && (Started(n) ==> Started(m))
  {
  }

  lemma StartKeepsOn(m: State, e: Event, n: State)
    requires Inv(m) && BaseInv(m) && StartInv(m) && Step(m, e, n)
    ensures StartInv(n)
  {
    UvGrows(m, e, n);
    if NewStart(e) {
      StartTaken(m, e, n);
    } else {
      StartFrame(m, e, n);
      if Started(n) && Stable(n) {
        LiveStays(m, e, n);
        if FoundCursor(m.began) {
          BaseStays(m, e, n);
        }
      }
    }
  }

  lemma {:induction false} RunStarts(ms: seq<State>, es: seq<Event>, k: nat)
    requires IsRun(ms, es) && k <= |es|
    ensures Inv(ms[k]) && BaseInv(ms[k]) && StartInv(ms[k])
  {
    RunKeeps(ms, es, k);
    if k > 0 {
      RunStarts(ms, es, k - 1);
      assert Step(ms[k - 1], es[k - 1], ms[k]);
      BaseKeeps(ms[k - 1], es[k - 1], ms[k]);
      StartKeepsOn(ms[k - 1], es[k - 1], ms[k]);
    }
  }

  // ---------- conditions a pull can start under ----------

  /** Some stored row is of the UIDVALIDITY of the day; otherwise every row is
      stale and the lowest UID among them means nothing. */
  ghost predicate Rooted(b: Snapshot) {
    exists id :: id in b.rows && id.uv == b.server.uv
  }

  /** What a pull may end without having asked for: all from its start up, and if
      that is above UIDNEXT, all below its first chunk too. */
  predicate PassedOver(b: Snapshot, u: nat) {
    b.anchor <= u || (b.server.uidnext < b.anchor && u < Low(b.anchor))
  }

  /** The cursor was current, and no live message below its base that the pull may
      pass over was missing from the store. */
  ghost predicate Unbroken(b: Snapshot) {
    FoundCursor(b) &&
    forall u | u in b.server.msgs && u < b.base && PassedOver(b, u) :: MsgId(b.server.uv, u) in b.rows
  }

  /** Rows of the current UIDVALIDITY, none below the base: nothing can be missing
      between the lowest of them and the base, and the lowest is below UIDNEXT. */
  lemma AllAboveBase(b: Snapshot)
    requires SnapshotSound(b) && FoundCursor(b)
    requires forall id | id in b.rows :: id.uv == b.server.uv && b.base <= id.uid
    ensures Rooted(b) && Unbroken(b)
  {
    var id :| id in b.rows && id.uid == b.anchor;
    assert id.uv == b.server.uv;
  }

  lemma RootedIsSane(m: State)
    requires Started(m) && StartInv(m) && Rooted(m.began)
    ensures Sane(m)
  {
    var id :| id in m.began.rows && id.uv == m.began.server.uv;
    assert m.began.anchor <= id.uid;
  }
}

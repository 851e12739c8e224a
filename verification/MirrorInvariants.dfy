/** What every reachable state of the folder mirror satisfies. */
module MirrorInvariants {
  import opened Wrappers
  import opened Imap
  import opened Mirror
  import P = HistoryPipeline

  // ---------- the store against the server ----------

  /** A cursor read at some SELECT: nothing that existed then lies at or above
      its UIDNEXT, and whatever came or changed later has a higher modseq. */
  ghost predicate CursorSound(s: Server, c: Cursor) {
    && c.uv <= s.uv
    && c.hms >= 1
    && c.uidnext >= 1
    && (c.uv == s.uv ==>
          && c.uidnext <= s.uidnext
          && c.hms <= s.hms
          && forall u | u in s.msgs && u >= c.uidnext :: s.msgs[u].modseq > c.hms)
  }

  /** Every live UID in [base, uidnext) has a row. */
  ghost predicate Arrived(s: Server, rows: Rows, c: Cursor, base: nat) {
    forall u | u in s.msgs && base <= u < c.uidnext :: MsgId(s.uv, u) in rows
  }

  /** No flag change up to the cursor's modseq is missing locally. */
  ghost predicate FlagsKept(s: Server, rows: Rows, c: Cursor, base: nat) {
    forall u | u in s.msgs && base <= u && MsgId(s.uv, u) in rows && s.msgs[u].modseq <= c.hms ::
      rows[MsgId(s.uv, u)] == s.msgs[u].flags
  }

  ghost predicate Mirrored(s: Server, rows: Rows, c: Cursor, base: nat) {
    CursorSound(s, c) && (c.uv == s.uv ==> Arrived(s, rows, c, base) && FlagsKept(s, rows, c, base))
  }

  /** Local ids were all seen on the server once. */
  ghost predicate RowsSound(s: Server, rows: Rows) {
    forall id | id in rows ::
      id.uv <= s.uv && (id.uv == s.uv ==> 1 <= id.uid < s.uidnext)
  }

  /** Flags read after the SELECT that gave `hms`. */
  ghost predicate Accurate(s: Server, uv: nat, hms: nat, m: map<nat, Flags>) {
    && uv <= s.uv
    && (uv == s.uv ==>
          && hms <= s.hms
          && forall u | u in m ::
            && 1 <= u < s.uidnext
            && (u in s.msgs && s.msgs[u].modseq <= hms ==> m[u] == s.msgs[u].flags))
  }

  /** The rows as they will be once the pending flag updates are applied. */
  function Final(rows: Rows, uv: nat, updates: map<nat, Flags>): (r: Rows)
    ensures r.Keys == rows.Keys
  {
    map id | id in rows ::
      if id.uv == uv && id.uid in updates then updates[id.uid] else rows[id]
  }

  ghost predicate OlderThan(cursor: Option<Cursor>, c: Cursor) {
    cursor.Some? ==> cursor.value.uv == c.uv && cursor.value.hms <= c.hms
  }

  /** What a delivered answer will amount to once it is written. */
  ghost predicate Promised(m: State, rows: Rows, d: Delivery, todo: map<nat, Flags>) {
    && OlderThan(m.cursor, d.cursor)
    && Accurate(m.server, d.cursor.uv, d.cursor.hms, todo)
    && Mirrored(m.server, Final(rows, d.cursor.uv, todo), d.cursor, d.base)
  }

  ghost predicate SelectedInv(m: State, since: Option<Cursor>, sel: Cursor, lo: nat) {
    && since == m.cursor
    && sel.uv == m.server.uv
    && CursorSound(m.server, sel)
    && lo >= 1
    && OlderThan(since, sel)
    && (since.Some? ==> lo == since.value.uidnext)
  }

  ghost predicate GotAll(s: Server, lo: nat, uidnext: nat, got: map<nat, Flags>) {
    forall u | u in s.msgs && lo <= u < uidnext :: u in got
  }

  ghost predicate SyncInv(m: State) {
    match m.sync
    case Idle => true
    case Mismatch => true
    case Asking(since, _) => since == m.cursor
    case Selected(since, _, sel, lo) => SelectedInv(m, since, sel, lo)
    case Fetched(since, _, sel, lo, got) =>
      && SelectedInv(m, since, sel, lo)
      && GotAll(m.server, lo, sel.uidnext, got)
      && Accurate(m.server, sel.uv, sel.hms, got)
    case Delivered(d, got) =>
      && Accurate(m.server, d.cursor.uv, d.cursor.hms, got)
      && Promised(m, m.rows + Ids(d.cursor.uv, got), d, d.updates)
    case Stored(d) => Promised(m, m.rows, d, d.updates)
    case Known(d, ids) =>
      && Promised(m, m.rows, d, d.updates)
      && forall id | id in m.rows && Live(m.server, id) :: id in ids
    case Pruning(d, ids, todo) =>
      && Promised(m, m.rows, d, d.updates)
      && todo <= m.rows.Keys
      && m.rows.Keys - todo <= ids
      && forall id | id in todo :: !Live(m.server, id)
    case Updating(d, listed, todo) =>
      && Promised(m, m.rows, d, todo)
      && (listed.Some? ==> m.rows.Keys <= listed.value)
  }

  // ---------- the history pull ----------

  ghost predicate Stable(m: State) {
    m.server.uv == m.began.server.uv
  }

  /** The pull set out from inside the UID space of its day. */
  ghost predicate Sane(m: State) {
    m.began.anchor <= m.began.server.uidnext
  }

  /** Every live UID of the pulled range from `anchor` up is in the store. */
  ghost predicate Covered(m: State, anchor: nat) {
    Stable(m) ==> forall u | u in m.server.msgs && anchor <= u < m.began.anchor && u < m.began.server.uidnext :: MsgId(m.server.uv, u) in m.rows
  }

  /** What lived at the start within a chunk's reach of `hi` is gone. */
  ghost predicate NothingInChunk(m: State, hi: nat) {
    Stable(m) ==> forall u | u in m.server.msgs && u < m.began.anchor && u < m.began.server.uidnext :: !(Low(hi) <= u < hi)
  }

  /** A chunk accounts for everything between its own anchor and the one above; if
      it leaves the anchor where it was, there is nothing in reach. */
  ghost predicate Fills(m: State, hi: nat, c: P.Chunk) {
    && c.next <= hi
    && (c.next == hi ==> NothingInChunk(m, hi))
    && RowsSound(m.server, c.headers)
    && (Stable(m) ==>
          && (forall u | u in m.server.msgs && c.next <= u < hi && u < m.began.anchor && u < m.began.server.uidnext ::
                MsgId(m.server.uv, u) in c.headers)
          && (Sane(m) ==> c.next < hi))
  }

  ghost predicate Chain(m: State, hi: nat, cs: seq<P.Chunk>) {
    cs == [] || (Fills(m, hi, cs[0]) && Chain(m, cs[0].next, cs[1..]))
  }

  ghost predicate Working(p: P.State) {
    P.ReceiverOpen(p) && !p.consumer.Closing?
  }

  ghost predicate PipelineInv(m: State, p: P.State) {
    && P.Budgeted(p) && P.StatusInv(p)
    && p.last <= m.began.anchor
    && (Stable(m) && Sane(m) ==> !p.stuck)
    && (p.stuck ==> NothingInChunk(m, p.last))
    && (Working(p) ==> Chain(m, p.last, P.Outstanding(p)))
    && (m.gap ==> p.producer.Fetching? && NothingInChunk(m, p.producer.anchor))
    && (p.consumer.Recording? ==> m.sync.Idle? && p.consumer.chunk.headers.Keys <= m.rows.Keys)
    && (P.ReceiverOpen(p) && m.history.Some? ==> m.history.value == HistoryRow(P.Running, p.last))
  }

  ghost predicate PullInv(m: State) {
    && (m.history.Some? || m.pull.Some? ==>
          m.began.server.uv <= m.server.uv && (Stable(m) ==> m.began.server.uidnext <= m.server.uidnext))
    && (m.history.Some? ==>
          && m.history.value.anchor <= m.began.anchor
          && Covered(m, m.history.value.anchor)
          && (m.history.value.status == P.Completed && Stable(m) && Sane(m) ==>
                m.history.value.anchor <= 1)
          && (m.history.value.status == P.Completed && m.history.value.anchor > 1 ==>
                NothingInChunk(m, m.history.value.anchor)))
    && (m.pull.Some? ==> PipelineInv(m, m.pull.value))
    && (m.gap ==> m.pull.Some?)
  }

  ghost predicate Inv(m: State) {
    && ValidServer(m.server)
    && RowsSound(m.server, m.rows)
    && (m.cursor.Some? ==> Mirrored(m.server, m.rows, m.cursor.value, m.base))
    && SyncInv(m)
    && PullInv(m)
  }

  // ---------- the server moves ----------

  lemma ServerKeepsMirrored(s: Server, e: ServerEvent, rows: Rows, c: Cursor, base: nat)
    requires ValidServer(s) && Enabled(s, e) && RowsSound(s, rows)
    requires Mirrored(s, rows, c, base)
    ensures Mirrored(After(s, e), rows, c, base)
  {
  }

  lemma ServerKeepsAccurate(s: Server, e: ServerEvent, uv: nat, hms: nat, m: map<nat, Flags>)
    requires ValidServer(s) && Enabled(s, e) && Accurate(s, uv, hms, m)
    ensures Accurate(After(s, e), uv, hms, m)
  {
  }

  lemma ServerKeepsRows(s: Server, e: ServerEvent, rows: Rows)
    requires ValidServer(s) && Enabled(s, e) && RowsSound(s, rows)
    ensures RowsSound(After(s, e), rows)
    ensures forall id | id in rows && Live(After(s, e), id) :: Live(s, id)
  {
  }

  lemma ServerKeepsPromise(m: State, e: ServerEvent, n: State, rows: Rows, d: Delivery, todo: map<nat, Flags>)
    requires ValidServer(m.server) && Enabled(m.server, e) && n == m.(server := After(m.server, e))
    requires RowsSound(m.server, rows) && Promised(m, rows, d, todo)
    ensures Promised(n, rows, d, todo)
  {
    ServerKeepsAccurate(m.server, e, d.cursor.uv, d.cursor.hms, todo);
    ServerKeepsMirrored(m.server, e, Final(rows, d.cursor.uv, todo), d.cursor, d.base);
  }

  lemma ServerKeepsSync(m: State, e: ServerEvent, n: State)
    requires ValidServer(m.server) && RowsSound(m.server, m.rows) && SyncInv(m)
    requires CanStep(m, ServerMoves(e)) && n == m.(server := After(m.server, e))
    ensures SyncInv(n)
  {
    ServerKeepsRows(m.server, e, m.rows);
    match m.sync
    case Delivered(d, got) =>
      ServerKeepsAccurate(m.server, e, d.cursor.uv, d.cursor.hms, got);
      ServerKeepsPromise(m, e, n, m.rows + Ids(d.cursor.uv, got), d, d.updates);
    case Stored(d) => ServerKeepsPromise(m, e, n, m.rows, d, d.updates);
    case Known(d, _) => ServerKeepsPromise(m, e, n, m.rows, d, d.updates);
    case Pruning(d, _, _) => ServerKeepsPromise(m, e, n, m.rows, d, d.updates);
    case Updating(d, _, todo) => ServerKeepsPromise(m, e, n, m.rows, d, todo);
    case Fetched(_, _, sel, lo, got) => ServerKeepsAccurate(m.server, e, sel.uv, sel.hms, got);
    case _ =>
  }

  lemma ServerKeepsChain(m: State, e: ServerEvent, n: State, hi: nat, cs: seq<P.Chunk>)
    requires ValidServer(m.server) && Enabled(m.server, e) && n == m.(server := After(m.server, e))
    requires m.began.server.uv <= m.server.uv && (Stable(m) ==> m.began.server.uidnext <= m.server.uidnext)
    requires Chain(m, hi, cs)
    ensures Chain(n, hi, cs)
  {
    if cs != [] {
      ServerKeepsChain(m, e, n, cs[0].next, cs[1..]);
    }
  }

  lemma ServerKeepsPull(m: State, e: ServerEvent, n: State)
    requires Inv(m) && CanStep(m, ServerMoves(e)) && n == Apply(m, ServerMoves(e))
    ensures PullInv(n)
  {
    if m.pull.Some? && Working(m.pull.value) {
      ServerKeepsChain(m, e, n, m.pull.value.last, P.Outstanding(m.pull.value));
    }
  }

  // ---------- the delta cycle ----------

  ghost predicate CycleEvent(e: Event) {
    || e.ReadCursor? || e.Select? || e.ClearCursor? || e.FetchNew? || e.FetchFlags?
    || e.FlagsFail? || e.Store? || e.ListKnown? || e.SkipReconcile? || e.SnapshotLocal?
    || e.Prune? || e.PruneDone? || e.UpdateFlags? || e.PutCursor? || e.SyncEnds?
  }

  /** Writing flags no older than the cursor's modseq keeps an old cursor true. */
  lemma OverlayKeepsMirrored(s: Server, rows: Rows, c: Cursor, base: nat, hms: nat, got: map<nat, Flags>)
    requires Mirrored(s, rows, c, base) && Accurate(s, c.uv, hms, got) && c.hms <= hms
    ensures Mirrored(s, rows + Ids(c.uv, got), c, base)
  {
  }

  /** The answer of a flag pass that succeeded, or of the kept modseq. */
  lemma DeliveryPromised(m: State, hms: nat, ch: map<nat, Flags>)
    requires Inv(m) && m.sync.Fetched?
    requires m.sync.since.None? ==> hms == m.sync.sel.hms && ch == map[]
    requires m.sync.since.Some? ==>
      || (hms == m.sync.sel.hms && ChangedSince(m.server, m.sync.sel.uidnext, m.sync.since.value.hms, ch))
      || (hms == m.sync.since.value.hms && ch == map[])
    ensures SyncInv(m.(sync := Deliver(m, hms, ch)))
  {
    var f := m.sync;
    var s, sel, got := m.server, f.sel, f.got;
    var c := sel.(hms := hms);
    var base := if f.since.Some? then m.base else f.lo;
    var rows := Final(m.rows + Ids(sel.uv, got), sel.uv, ch);
    forall u | u in s.msgs && base <= u < c.uidnext
      ensures MsgId(s.uv, u) in rows
    {
      assert u >= f.lo ==> u in got;
    }
    forall u | u in s.msgs && base <= u && MsgId(s.uv, u) in rows && s.msgs[u].modseq <= c.hms
      ensures rows[MsgId(s.uv, u)] == s.msgs[u].flags
    {
      assert u < sel.uidnext;
      if u !in ch && u !in got {
        assert f.since.Some?;
        assert s.msgs[u].modseq <= f.since.value.hms;
      }
    }
    assert Arrived(s, rows, c, base);
    assert FlagsKept(s, rows, c, base);
  }

  lemma CycleKeepsSync(m: State, e: Event, n: State)
    requires Inv(m) && CycleEvent(e) && Step(m, e, n)
    requires !e.FetchFlags? && !e.FlagsFail? && !e.Store? && !e.Prune? && !e.UpdateFlags?
    ensures SyncInv(n)
  {
  }

  lemma StoreKeeps(m: State, n: State)
    requires Inv(m) && Step(m, Store, n)
    ensures Inv(n)
  {
    var d, got := m.sync.d, m.sync.got;
    if m.cursor.Some? {
      OverlayKeepsMirrored(m.server, m.rows, m.cursor.value, m.base, d.cursor.hms, got);
    }
    RowsGrow(m, n);
  }

  lemma {:induction false} ChainFrame(m: State, n: State, hi: nat, cs: seq<P.Chunk>)
    requires Chain(m, hi, cs)
    requires n.server == m.server && n.began == m.began
    ensures Chain(n, hi, cs)
  {
    if cs != [] {
      ChainFrame(m, n, cs[0].next, cs[1..]);
    }
  }

  /** The pull's invariant only asks the store for live rows. */
  lemma RowsGrow(m: State, n: State)
    requires PullInv(m) && !(m.pull.Some? && m.pull.value.consumer.Recording?)
    requires n == m.(rows := n.rows, sync := n.sync)
    requires forall id | id in m.rows && Live(m.server, id) :: id in n.rows
    ensures PullInv(n)
  {
    if m.pull.Some? && Working(m.pull.value) {
      ChainFrame(m, n, m.pull.value.last, P.Outstanding(m.pull.value));
    }
  }

  /** Deleting a row whose message is gone. */
  lemma DropDead(s: Server, rows: Rows, c: Cursor, base: nat, id: MsgId)
    requires Mirrored(s, rows, c, base) && !Live(s, id)
    ensures Mirrored(s, rows - {id}, c, base)
  {
  }

  lemma PruneKeeps(m: State, id: MsgId, n: State)
    requires Inv(m) && Step(m, Prune(id), n)
    ensures Inv(n)
  {
    var d := m.sync.d;
    assert !Live(m.server, id);
    assert Final(n.rows, d.cursor.uv, d.updates) == Final(m.rows, d.cursor.uv, d.updates) - {id};
    DropDead(m.server, Final(m.rows, d.cursor.uv, d.updates), d.cursor, d.base, id);
    if m.cursor.Some? {
      DropDead(m.server, m.rows, m.cursor.value, m.base, id);
    }
    RowsGrow(m, n);
  }

  /** One flag write, on the stored rows and on the rows still promised. */
  lemma UpdateKeepsCursor(s: Server, rows: Rows, c: Cursor, base: nat, hms: nat, u: nat, f: Flags)
    requires Mirrored(s, rows, c, base) && Accurate(s, c.uv, hms, map[u := f]) && c.hms <= hms
    requires MsgId(c.uv, u) in rows
    ensures Mirrored(s, rows[MsgId(c.uv, u) := f], c, base)
  {
    OverlayKeepsMirrored(s, rows, c, base, hms, map[u := f]);
    assert rows + Ids(c.uv, map[u := f]) == rows[MsgId(c.uv, u) := f];
  }

  /** A written update is no longer pending; what it amounts to is the same. */
  lemma FinalStays(rows: Rows, uv: nat, todo: map<nat, Flags>, u: nat)
    requires u in todo
    ensures var id := MsgId(uv, u);
            Final(if id in rows then rows[id := todo[u]] else rows, uv, todo - {u}) == Final(rows, uv, todo)
  {
  }

  lemma LessTodo(m: State, n: State, rows: Rows, after: Rows, d: Delivery, todo: map<nat, Flags>, u: nat)
    requires n.server == m.server && n.cursor == m.cursor
    requires Promised(m, rows, d, todo) && Final(after, d.cursor.uv, todo - {u}) == Final(rows, d.cursor.uv, todo)
    ensures Promised(n, after, d, todo - {u})
  {
  }

  lemma UpdateKeepsSync(m: State, u: nat, n: State)
    requires SyncInv(m) && Step(m, UpdateFlags(u), n)
    ensures SyncInv(n)
    ensures n.rows.Keys == m.rows.Keys
  {
    UpdateShape(m, u, n);
    var d, todo := m.sync.d, m.sync.todo;
    FinalStays(m.rows, d.cursor.uv, todo, u);
    LessTodo(m, n, m.rows, n.rows, d, todo, u);
  }

  lemma UpdateKeepsStore(s: Server, rows: Rows, cursor: Option<Cursor>, base: nat,
                         dc: Cursor, todo: map<nat, Flags>, u: nat)
    requires RowsSound(s, rows) && (cursor.Some? ==> Mirrored(s, rows, cursor.value, base))
    requires OlderThan(cursor, dc) && Accurate(s, dc.uv, dc.hms, todo)
    requires u in todo && MsgId(dc.uv, u) in rows
    ensures RowsSound(s, rows[MsgId(dc.uv, u) := todo[u]])
    ensures cursor.Some? ==> Mirrored(s, rows[MsgId(dc.uv, u) := todo[u]], cursor.value, base)
  {
    if cursor.Some? {
      assert Accurate(s, dc.uv, dc.hms, map[u := todo[u]]);
      UpdateKeepsCursor(s, rows, cursor.value, base, dc.hms, u, todo[u]);
    }
  }

  lemma UpdateShape(m: State, u: nat, n: State)
    requires Step(m, UpdateFlags(u), n)
    ensures m.sync.Updating? && u in m.sync.todo
    ensures var id := MsgId(m.sync.d.cursor.uv, u);
      n.rows == if id in m.rows then m.rows[id := m.sync.todo[u]] else m.rows
    ensures n == m.(rows := n.rows, sync := m.sync.(todo := m.sync.todo - {u}))
  {
  }

  lemma UpdateKeepsPull(m: State, u: nat, n: State)
    requires PullInv(m) && m.sync.Updating? && Step(m, UpdateFlags(u), n)
    ensures PullInv(n)
  {
    UpdateShape(m, u, n);
    RowsGrow(m, n);
  }

  lemma UpdateKeepsRows(m: State, u: nat, n: State)
    requires m.sync.Updating? && RowsSound(m.server, m.rows)
    requires m.cursor.Some? ==> Mirrored(m.server, m.rows, m.cursor.value, m.base)
    requires Promised(m, m.rows, m.sync.d, m.sync.todo) && Step(m, UpdateFlags(u), n)
    ensures RowsSound(n.server, n.rows)
    ensures n.cursor.Some? ==> Mirrored(n.server, n.rows, n.cursor.value, n.base)
  {
    UpdateShape(m, u, n);
    var dc := m.sync.d.cursor;
    if MsgId(dc.uv, u) in m.rows {
      UpdateKeepsStore(m.server, m.rows, m.cursor, m.base, dc, m.sync.todo, u);
    }
  }

  lemma UpdateKeeps(m: State, u: nat, n: State)
    requires Inv(m) && Step(m, UpdateFlags(u), n)
    ensures Inv(n)
  {
    UpdateKeepsSync(m, u, n);
    UpdateKeepsPull(m, u, n);
    UpdateKeepsRows(m, u, n);
  }

  lemma NothingPending(rows: Rows, uv: nat)
    ensures Final(rows, uv, map[]) == rows
  {
  }

  lemma PutKeeps(m: State, n: State)
    requires Inv(m) && Step(m, PutCursor, n)
    ensures Inv(n)
  {
    PullFrame(m, n);
    NothingPending(m.rows, m.sync.d.cursor.uv);
  }

  /** Cycle steps that leave the store alone leave the pull alone. */
  lemma PullFrame(m: State, n: State)
    requires PullInv(m) && !(m.pull.Some? && m.pull.value.consumer.Recording?)
    requires n == m.(sync := n.sync, cursor := n.cursor, base := n.base)
    ensures PullInv(n)
  {
    if m.pull.Some? && Working(m.pull.value) {
      ChainFrame(m, n, m.pull.value.last, P.Outstanding(m.pull.value));
    }
  }

  lemma QuietCycleKeeps(m: State, e: Event, n: State)
    requires Inv(m) && CycleEvent(e) && Step(m, e, n)
    requires !e.FetchFlags? && !e.FlagsFail? && !e.Store? && !e.Prune? && !e.UpdateFlags? && !e.PutCursor?
    ensures Inv(n)
  {
    CycleKeepsSync(m, e, n);
    PullFrame(m, n);
  }

  lemma FlagPassKeeps(m: State, e: Event, n: State)
    requires Inv(m) && (e.FetchFlags? || e.FlagsFail?) && Step(m, e, n)
    ensures Inv(n)
  {
    if e.FetchFlags? {
      DeliveryPromised(m, m.sync.sel.hms, e.changed);
    } else {
      DeliveryPromised(m, m.sync.since.value.hms, map[]);
    }
    PullFrame(m, n);
  }

  lemma CycleKeeps(m: State, e: Event, n: State)
    requires Inv(m) && CycleEvent(e) && Step(m, e, n)
    ensures Inv(n)
  {
    if e.Store? { StoreKeeps(m, n); }
    else if e.Prune? { PruneKeeps(m, e.id, n); }
    else if e.UpdateFlags? { UpdateKeeps(m, e.uid, n); }
    else if e.PutCursor? { PutKeeps(m, n); }
    else if e.FetchFlags? || e.FlagsFail? { FlagPassKeeps(m, e, n); }
    else { QuietCycleKeeps(m, e, n); }
  }

  // ---------- the history pull moves ----------

  lemma {:induction false} ChainAppend(m: State, hi: nat, cs: seq<P.Chunk>, c: P.Chunk)
    requires Chain(m, hi, cs) && Fills(m, P.FinalAnchor(hi, cs), c)
    ensures Chain(m, hi, cs + [c])
  {
    if cs != [] {
      assert (cs + [c])[1..] == cs[1..] + [c];
      ChainAppend(m, cs[0].next, cs[1..], c);
    } else {
      assert ([] + [c])[1..] == [];
    }
  }

  lemma PipelineSteps(p: P.State, pe: P.Event, q: P.State)
    requires P.Budgeted(p) && P.StatusInv(p) && P.Step(p, pe, q)
    ensures P.Budgeted(q) && P.StatusInv(q)
  {
    P.StepWorks(p, pe, q);
    P.StepRetry(p, pe, q);
    P.StepConsumer(p, pe, q);
  }

  ghost predicate FetchEvent(e: Event) {
    e.ChunkFetched? || e.GapSearched? || e.GapSearchFails?
  }

  function ChunkOf(m: State, e: Event): P.Chunk
    requires FetchEvent(e) && CanStep(m, e)
  {
    if e.ChunkFetched? then P.Chunk(e.headers, e.next)
    else if e.GapSearched? then P.Chunk(map[], e.next)
    else P.Chunk(map[], Low(PullAnchor(m)))
  }

  lemma FetchFills(m: State, e: Event)
    requires Inv(m) && FetchEvent(e) && CanStep(m, e)
    ensures Working(m.pull.value) ==> Fills(m, PullAnchor(m), ChunkOf(m, e))
    ensures P.Honest(m.pull.value, P.FetchOk(ChunkOf(m, e)))
  {
    var hi := PullAnchor(m);
    assert hi > 1;
    if e.GapSearched? && Stable(m) && Sane(m) && Working(m.pull.value) {
      AnchorBelowOrigin(m, m.pull.value.last, P.Outstanding(m.pull.value));
    }
  }

  lemma {:induction false} AnchorBelowOrigin(m: State, hi: nat, cs: seq<P.Chunk>)
    requires Chain(m, hi, cs)
    ensures P.FinalAnchor(hi, cs) <= hi
  {
    if cs != [] {
      AnchorBelowOrigin(m, cs[0].next, cs[1..]);
    }
  }

  /** The delta cycle does not look at the pull. */
  lemma SyncFrame(m: State, n: State)
    requires Inv(m)
    requires n == m.(pull := n.pull, gap := n.gap, history := n.history,
                     began := n.began)
    ensures SyncInv(n) && RowsSound(n.server, n.rows) && ValidServer(n.server)
    ensures n.cursor.Some? ==> Mirrored(n.server, n.rows, n.cursor.value, n.base)
  {
  }

  lemma FetchKeepsPipeline(m: State, c: P.Chunk, n: State)
    requires m.pull.Some? && m.pull.value.producer.Fetching? && PipelineInv(m, m.pull.value)
    requires Working(m.pull.value) ==> Fills(m, PullAnchor(m), c)
    requires P.Honest(m.pull.value, P.FetchOk(c))
    requires n == m.(pull := Some(P.Apply(m.pull.value, P.FetchOk(c))), gap := false)
    ensures PipelineInv(n, n.pull.value)
  {
    var p, q := m.pull.value, n.pull.value;
    PipelineSteps(p, P.FetchOk(c), q);
    if Working(p) {
      var cs := P.Outstanding(p);
      assert P.Outstanding(q) == cs + [c];
      ChainAppend(m, p.last, cs, c);
      ChainFrame(m, n, p.last, cs + [c]);
    }
  }

  lemma FetchKeeps(m: State, e: Event, n: State)
    requires Inv(m) && FetchEvent(e) && Step(m, e, n)
    ensures Inv(n)
  {
    FetchFills(m, e);
    FetchKeepsPipeline(m, ChunkOf(m, e), n);
    SyncFrame(m, n);
  }

  lemma EmptyKeeps(m: State, n: State)
    requires Inv(m) && Step(m, ChunkEmpty, n)
    ensures Inv(n)
  {
    SyncFrame(m, n);
    if Working(m.pull.value) {
      ChainFrame(m, n, m.pull.value.last, P.Outstanding(m.pull.value));
    }
  }

  ghost predicate PlainMove(pe: P.Event) {
    !pe.FetchOk? && !pe.Persist? && !pe.Record? && !pe.RecordFailure? && !pe.Close?
  }

  lemma OutstandingKept(p: P.State, pe: P.Event)
    requires PlainMove(pe) && P.CanStep(p, pe) && Working(P.Apply(p, pe))
    ensures Working(p) && P.Outstanding(P.Apply(p, pe)) == P.Outstanding(p)
  {
  }

  /** Sends, receives, retries, returns and cancels touch no database row. */
  lemma PlainKeeps(m: State, pe: P.Event, n: State)
    requires Inv(m) && m.pull.Some? && P.CanStep(m.pull.value, pe) && PlainMove(pe)
    requires pe.FetchErr? ==> !m.gap
    requires n == m.(pull := Some(P.Apply(m.pull.value, pe)), history := n.history)
    requires n.history == m.history || n.history.None?
    ensures Inv(n)
  {
    SyncFrame(m, n);
    PlainKeepsPull(m, pe, n);
  }

  lemma PlainKeepsPull(m: State, pe: P.Event, n: State)
    requires PullInv(m) && m.pull.Some? && P.CanStep(m.pull.value, pe) && PlainMove(pe)
    requires pe.FetchErr? ==> !m.gap
    requires n == m.(pull := Some(P.Apply(m.pull.value, pe)), history := n.history)
    requires n.history == m.history || n.history.None?
    ensures PullInv(n)
  {
    var p, q := m.pull.value, n.pull.value;
    PipelineSteps(p, pe, q);
    if Working(q) {
      OutstandingKept(p, pe);
      ChainFrame(m, n, p.last, P.Outstanding(p));
    }
  }

  lemma PersistKeeps(m: State, n: State)
    requires Inv(m) && Step(m, PullMoves(P.Persist), n)
    ensures Inv(n)
  {
    var p, q := m.pull.value, n.pull.value;
    PipelineSteps(p, P.Persist, q);
    var cs := P.Outstanding(p);
    assert cs[0] == p.consumer.chunk;
    assert P.Outstanding(q) == cs;
    ChainFrame(m, n, p.last, cs);
    PersistKeepsRows(m, n, p.consumer.chunk.headers);
  }

  /** Rows the pull adds lie above the cursor's UIDNEXT or below its base. */
  lemma PersistKeepsRows(m: State, n: State, headers: Rows)
    requires Inv(m) && RowsSound(m.server, headers) && n.rows == headers + m.rows
    requires n.server == m.server && n.cursor == m.cursor && n.base == m.base
    ensures RowsSound(n.server, n.rows)
    ensures n.cursor.Some? ==> Mirrored(n.server, n.rows, n.cursor.value, n.base)
  {
  }

  /** Recording the oldest chunk moves the covered range down to its anchor. */
  lemma RecordCovers(m: State, c: P.Chunk)
    requires m.history.Some? && Covered(m, m.history.value.anchor)
    requires Fills(m, m.history.value.anchor, c) && c.headers.Keys <= m.rows.Keys
    ensures Covered(m, c.next)
  {
  }

  lemma RecordChain(m: State, n: State)
    requires Inv(m) && Step(m, PullMoves(P.Record), n)
    ensures Fills(m, m.pull.value.last, m.pull.value.consumer.chunk)
    ensures Working(n.pull.value) ==> Chain(n, n.pull.value.last, P.Outstanding(n.pull.value))
  {
    var p, q := m.pull.value, n.pull.value;
    var cs := P.Outstanding(p);
    assert cs[0] == p.consumer.chunk;
    if Working(q) {
      assert P.Outstanding(q) == cs[1..];
      ChainFrame(m, n, cs[0].next, cs[1..]);
    }
  }

  lemma RecordKeepsPipeline(m: State, n: State)
    requires Inv(m) && Step(m, PullMoves(P.Record), n)
    ensures PipelineInv(n, n.pull.value)
  {
    PipelineSteps(m.pull.value, P.Record, n.pull.value);
    RecordChain(m, n);
  }

  lemma RecordKeepsHistory(m: State, n: State)
    requires Inv(m) && Step(m, PullMoves(P.Record), n) && m.history.Some?
    ensures n.history.Some? && n.history.value.anchor <= n.began.anchor && Covered(n, n.history.value.anchor)
    ensures n.history.value.status == m.history.value.status == P.Running
    ensures n.history.value.anchor <= m.history.value.anchor
  {
    RecordChain(m, n);
    RecordCovers(m, m.pull.value.consumer.chunk);
  }

  lemma RecordShape(m: State, n: State)
    requires Step(m, PullMoves(P.Record), n)
    ensures n == m.(pull := n.pull, history := n.history) && m.pull.Some? && n.pull.Some?
    ensures n.history.Some? <==> m.history.Some?
  {
  }

  lemma RecordKeepsPull(m: State, n: State)
    requires PullInv(m) && n == m.(pull := n.pull, history := n.history) && m.pull.Some?
    requires n.pull.Some? && PipelineInv(n, n.pull.value)
    requires n.history.Some? ==>
               && n.history.value.anchor <= n.began.anchor && Covered(n, n.history.value.anchor)
               && n.history.value.status != P.Completed
    requires n.history.Some? ==> m.history.Some?
    ensures PullInv(n)
  {
  }

  lemma RecordKeeps(m: State, n: State)
    requires Inv(m) && Step(m, PullMoves(P.Record), n)
    ensures Inv(n)
  {
    RecordShape(m, n);
    SyncFrame(m, n);
    RecordKeepsPipeline(m, n);
    if m.history.Some? {
      RecordKeepsHistory(m, n);
    }
    RecordKeepsPull(m, n);
  }

  lemma EndsKeepPipeline(m: State, pe: P.Event, n: State)
    requires pe.RecordFailure? || pe.Close?
    requires Inv(m) && Step(m, PullMoves(pe), n)
    ensures PipelineInv(n, n.pull.value)
  {
    PipelineSteps(m.pull.value, pe, n.pull.value);
  }

  lemma EndsKeepHistory(m: State, pe: P.Event, n: State)
    requires pe.RecordFailure? || pe.Close?
    requires Inv(m) && Step(m, PullMoves(pe), n) && m.history.Some?
    ensures n.history.Some? && n.history.value.anchor == m.history.value.anchor
    ensures n.history.value.status == P.Completed ==>
              n.history.value.anchor <= 1 || (NothingInChunk(n, n.history.value.anchor) && !(Stable(n) && Sane(n)))
  {
  }

  lemma EndsShape(m: State, pe: P.Event, n: State)
    requires pe.RecordFailure? || pe.Close?
    requires Step(m, PullMoves(pe), n)
    ensures n == m.(pull := n.pull, history := n.history) && n.pull.Some?
    ensures n.history.Some? ==> m.history.Some?
  {
  }

  lemma EndsKeepPull(m: State, n: State)
    requires PullInv(m) && n == m.(pull := n.pull, history := n.history)
    requires m.pull.Some? && n.pull.Some? && PipelineInv(n, n.pull.value)
    requires n.history.Some? ==> m.history.Some? && n.history.value.anchor == m.history.value.anchor
    requires n.history.Some? && n.history.value.status == P.Completed ==>
               n.history.value.anchor <= 1 || (NothingInChunk(n, n.history.value.anchor) && !(Stable(n) && Sane(n)))
    ensures PullInv(n)
  {
  }

  lemma EndsKeep(m: State, pe: P.Event, n: State)
    requires pe.RecordFailure? || pe.Close?
    requires Inv(m) && Step(m, PullMoves(pe), n)
    ensures Inv(n)
  {
    EndsShape(m, pe, n);
    SyncFrame(m, n);
    EndsKeepPipeline(m, pe, n);
    if m.history.Some? {
      EndsKeepHistory(m, pe, n);
    }
    EndsKeepPull(m, n);
  }

  lemma StartKeeps(m: State, e: Event, n: State)
    requires e.PullStarts? || e.PullTrivial? || e.PullPromoted? || e.Cut?
    requires Inv(m) && Step(m, e, n)
    ensures Inv(n)
  {
    if e.Cut? {
      CutKeeps(m, n);
    } else {
      SyncFrame(m, n);
    }
  }

  lemma CutKeeps(m: State, n: State)
    requires Inv(m) && Step(m, Cut, n)
    ensures Inv(n)
  {
  }

  lemma PullKeeps(m: State, e: Event, n: State)
    requires Inv(m) && e.PullMoves? && Step(m, e, n)
    ensures Inv(n)
  {
    if e.pe.Persist? { PersistKeeps(m, n); }
    else if e.pe.Record? { RecordKeeps(m, n); }
    else if e.pe.RecordFailure? || e.pe.Close? { EndsKeep(m, e.pe, n); }
    else { PlainKeeps(m, e.pe, n); }
  }

  // ---------- every run ----------

  lemma ServerKeeps(m: State, e: Event, n: State)
    requires Inv(m) && e.ServerMoves? && Step(m, e, n)
    ensures Inv(n)
  {
    ServerKeepsRows(m.server, e.e, m.rows);
    if m.cursor.Some? {
      ServerKeepsMirrored(m.server, e.e, m.rows, m.cursor.value, m.base);
    }
    ServerKeepsSync(m, e.e, n);
    ServerKeepsPull(m, e.e, n);
  }

  lemma StepKeeps(m: State, e: Event, n: State)
    requires Inv(m) && Step(m, e, n)
    ensures Inv(n)
  {
    if e.ServerMoves? { ServerKeeps(m, e, n); }
    else if CycleEvent(e) { CycleKeeps(m, e, n); }
    else if FetchEvent(e) { FetchKeeps(m, e, n); }
    else if e.ChunkEmpty? { EmptyKeeps(m, n); }
    else if e.PullMoves? { PullKeeps(m, e, n); }
    else if e.PullCanceled? { PlainKeeps(m, P.Cancel, n); }
    else { StartKeeps(m, e, n); }
  }

  lemma {:induction false} RunKeeps(ms: seq<State>, es: seq<Event>, k: nat)
    requires IsRun(ms, es) && k <= |es|
    ensures Inv(ms[k])
  {
    if k > 0 {
      RunKeeps(ms, es, k - 1);
      StepKeeps(ms[k - 1], es[k - 1], ms[k]);
    }
  }

  lemma LogKeeps(l: Log)
    requires Sound(l)
    ensures Inv(l.m)
  {
    var ms, es := LogIsRun(l);
    RunKeeps(ms, es, |es|);
  }
}

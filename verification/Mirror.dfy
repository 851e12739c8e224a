/** One folder, mirrored: the server, the local store, the delta-sync cycle and
    the history pull, as one machine of small steps.

    Server steps may fall between any two client steps, and a run may be cut
    (process exit, error return) after any of them. The desktop holds the sync
    connection's lock for a whole delta cycle and for each persist-and-record of
    the pull, so those two never overlap. */
module Mirror {
  import opened Wrappers
  import opened Imap
  import P = HistoryPipeline

  const HISTORY_CHUNK_SIZE: nat := 1500
  const U32_MAX: nat := 0xFFFF_FFFF

  type Rows = map<MsgId, Flags>

  /** The RFC 7162 tuple kept per folder. */
  datatype Cursor = Cursor(uv: nat, hms: nat, uidnext: nat)

  /** Where a `sync_folder` call stands. `base` travels with a cursor: it is the
      low bound of the initial fetch that first installed it. */
  datatype SyncPc =
    | Idle
    | Asking(since: Option<Cursor>, hadPrior: bool)
    | Selected(since: Option<Cursor>, hadPrior: bool, sel: Cursor, lo: nat)
    | Mismatch
    | Fetched(since: Option<Cursor>, hadPrior: bool, sel: Cursor, lo: nat, got: map<nat, Flags>)
    | Delivered(d: Delivery, got: map<nat, Flags>)
    | Stored(d: Delivery)
    | Known(d: Delivery, ids: set<MsgId>)
    | Pruning(d: Delivery, ids: set<MsgId>, doomed: set<MsgId>)
    | Updating(d: Delivery, listed: Option<set<MsgId>>, todo: map<nat, Flags>)

  /** What `list_messages` returned beyond the headers. */
  datatype Delivery = Delivery(hadPrior: bool, cursor: Cursor, base: nat, updates: map<nat, Flags>)

  /** The anchor a pull set out from, and what was there at that moment. */
  datatype Snapshot = Snapshot(anchor: nat, server: Server, rows: Rows, cursor: Option<Cursor>, base: nat)

  datatype HistoryRow = HistoryRow(status: P.Status, anchor: nat)

  /** `pull` is the live pipeline; `gap` is set between an empty chunk fetch and
      the search that skips the gap. `began` remembers how things stood when the
      pull was first started, and no step depends on it. */
  datatype State = State(
    server: Server,
    rows: Rows,
    cursor: Option<Cursor>,
    base: nat,
    sync: SyncPc,
    pull: Option<P.State>,
    gap: bool,
    history: Option<HistoryRow>,
    began: Snapshot)

  // ---------- what the adapter asks for ----------

  function Ids(uv: nat, m: map<nat, Flags>): (r: Rows)
    ensures forall id :: id in r <==> id.uv == uv && id.uid in m
    ensures forall u :: u in m ==> r[MsgId(uv, u)] == m[u]
  {
    map u | u in m :: MsgId(uv, u) := m[u]
  }

  /** `UID FETCH lo:*`: everything at or above `lo`, and always the highest
      message, since `*` names it and ranges may be written backwards. */
  predicate FetchesFrom(s: Server, lo: nat, got: map<nat, Flags>) {
    && (forall u | u in s.msgs && u >= lo :: u in got)
    && (forall u | u in got :: u in s.msgs && got[u] == s.msgs[u].flags)
    && (forall u | u in got && u < lo :: forall v | v in s.msgs :: v <= u)
  }

  /** The conservative lower end of a chunk: `before - limit`, at least 1. */
  function Low(before: nat): (lo: nat)
    ensures before > 1 ==> 1 <= lo < before
  {
    if before <= HISTORY_CHUNK_SIZE + 1 then 1 else before - HISTORY_CHUNK_SIZE
  }

  predicate InChunk(s: Server, before: nat, u: nat) {
    u in s.msgs && Low(before) <= u < before
  }

  predicate FetchesChunk(s: Server, before: nat, headers: Rows) {
    && (forall u | u in s.msgs && Low(before) <= u < before :: MsgId(s.uv, u) in headers)
    && (forall id | id in headers ::
          id.uv == s.uv && InChunk(s, before, id.uid) && headers[id] == s.msgs[id.uid].flags)
  }

  predicate LowestIn(headers: Rows, next: nat) {
    && (exists id | id in headers :: id.uid == next)
    && (forall id | id in headers :: next <= id.uid)
  }

  /** `UID SEARCH UID 1:before-1`, as the next anchor. */
  predicate SkipsGapTo(s: Server, before: nat, next: nat) {
    if forall u | u in s.msgs :: u >= before then next == 0
    else
      && next >= 1
      && next - 1 in s.msgs && next - 1 < before
      && forall u | u in s.msgs && u < before :: u <= next - 1
  }

  /** The anchor a fetch is out for. */
  function PullAnchor(m: State): nat
    requires m.pull.Some? && m.pull.value.producer.Fetching?
  {
    m.pull.value.producer.anchor
  }

  // ---------- steps ----------

  datatype Event =
    | ServerMoves(e: ServerEvent)
    // delta cycle
    | ReadCursor
    | Select(limit: nat)
    | ClearCursor
    | FetchNew(got: map<nat, Flags>)
    | FetchFlags(changed: map<nat, Flags>)
    | FlagsFail
    | Store
    | ListKnown
    | SkipReconcile
    | SnapshotLocal
    | Prune(id: MsgId)
    | PruneDone
    | UpdateFlags(uid: nat)
    | PutCursor
    | SyncEnds
    // history pull
    | PullStarts(anew: bool, anchor: nat)
    | PullTrivial(anchor: nat)
    | PullPromoted
    | ChunkFetched(headers: Rows, next: nat)
    | ChunkEmpty
    | GapSearched(next: nat)
    | GapSearchFails
    | PullMoves(pe: P.Event)
    | PullCanceled
    | Cut

  /** RFC 3501 keeps UIDs fixed while a mailbox is selected. */
  predicate SelectedNow(pc: SyncPc) {
    pc.Selected? || pc.Fetched?
  }

  predicate PullBusy(m: State) {
    m.pull.Some? && !P.Over(m.pull.value)
  }

  /** The consumer holds the sync connection's lock. */
  predicate PullLocks(m: State) {
    m.pull.Some? && m.pull.value.consumer.Recording?
  }

  predicate Resumable(r: HistoryRow) {
    r.status != P.Completed && r.anchor > 1
  }

  /** The `UID FETCH 1:<uidnext-1> (CHANGEDSINCE hms)` answer. */
  predicate ChangedSince(s: Server, upper: nat, hms: nat, changed: map<nat, Flags>) {
    && (forall u | u in s.msgs && u < upper && s.msgs[u].modseq > hms :: u in changed)
    && (forall u | u in changed :: u in s.msgs && u < upper && changed[u] == s.msgs[u].flags)
  }

  /** The pull's own steps that need no help from the server or the lock. */
  predicate PullFree(m: State, pe: P.Event) {
    && !pe.FetchOk? && !pe.Cancel?
    && (pe.FetchErr? ==> !m.gap)
    && (pe.Persist? ==> m.sync.Idle?)
  }

  predicate CanStep(m: State, e: Event) {
    match e
    case ServerMoves(se) => Enabled(m.server, se) && (se.Reset? ==> !SelectedNow(m.sync))
    case ReadCursor => m.sync.Idle? && !PullLocks(m)
    case Select(limit) => m.sync.Asking?
    case ClearCursor => m.sync.Mismatch?
    case FetchNew(got) => m.sync.Selected? && FetchesFrom(m.server, m.sync.lo, got)
    case FetchFlags(ch) =>
      m.sync.Fetched? &&
      (match m.sync.since
       case None => ch == map[]
       case Some(c) =>
         if c.hms > 0 && m.sync.sel.uidnext > 1
         then ChangedSince(m.server, m.sync.sel.uidnext, c.hms, ch)
         else ch == map[])
    case FlagsFail =>
      m.sync.Fetched? && m.sync.since.Some?
      && m.sync.since.value.hms > 0 && m.sync.sel.uidnext > 1
    case Store => m.sync.Delivered?
    case ListKnown => m.sync.Stored? && m.sync.d.hadPrior && m.server.msgs != map[]
    case SkipReconcile =>
      m.sync.Stored?
    case SnapshotLocal => m.sync.Known?
    case Prune(id) => m.sync.Pruning? && id in m.sync.doomed
    case PruneDone => m.sync.Pruning? && m.sync.doomed == {}
    case UpdateFlags(u) => m.sync.Updating? && u in m.sync.todo
    case PutCursor => m.sync.Updating? && m.sync.todo == map[]
    case SyncEnds => !m.sync.Idle?
    case PullStarts(anew, a) =>
      !PullBusy(m) && a > 1 &&
      (if anew then (m.history.None? || !Resumable(m.history.value)) && LowestIn(m.rows, a)
       else m.history.Some? && Resumable(m.history.value) && a == m.history.value.anchor)
    case PullTrivial(a) =>
      !PullBusy(m) && a <= 1 && (m.history.None? || !Resumable(m.history.value)) && LowestIn(m.rows, a)
    case PullPromoted =>
      !PullBusy(m) && m.history.Some? && m.history.value.anchor <= 1
    case ChunkFetched(h, next) =>
      m.pull.Some? && m.pull.value.producer.Fetching? && !m.gap
      && PullAnchor(m) <= U32_MAX && h != map[]
      && FetchesChunk(m.server, PullAnchor(m), h) && LowestIn(h, next)
    case ChunkEmpty =>
      m.pull.Some? && m.pull.value.producer.Fetching? && !m.gap
      && PullAnchor(m) <= U32_MAX && FetchesChunk(m.server, PullAnchor(m), map[])
    case GapSearched(next) =>
      m.pull.Some? && m.pull.value.producer.Fetching? && m.gap
      && SkipsGapTo(m.server, PullAnchor(m), next)
    case GapSearchFails =>
      m.pull.Some? && m.pull.value.producer.Fetching? && m.gap
    case PullMoves(pe) => m.pull.Some? && P.CanStep(m.pull.value, pe) && PullFree(m, pe)
    case PullCanceled => m.pull.Some? && P.CanStep(m.pull.value, P.Cancel)
    case Cut => true
  }

  function InitialLow(uidnext: nat, limit: nat): (lo: nat)
    ensures lo >= 1
  {
    if limit == 0 || uidnext <= limit + 1 then 1 else uidnext - limit
  }

  /** The cycle's next state once SELECT has answered. */
  function AfterSelect(m: State, limit: nat): SyncPc
    requires m.sync.Asking?
  {
    var sel := Cursor(m.server.uv, m.server.hms, m.server.uidnext);
    match m.sync.since
    case None => Selected(None, m.sync.hadPrior, sel, InitialLow(sel.uidnext, limit))
    case Some(c) =>
      if c.uv != sel.uv then Mismatch
      else Selected(m.sync.since, m.sync.hadPrior, sel, c.uidnext)
  }

  function Deliver(m: State, hms: nat, changed: map<nat, Flags>): SyncPc
    requires m.sync.Fetched?
  {
    var f := m.sync;
    Delivered(Delivery(f.hadPrior, f.sel.(hms := hms),
                       if f.since.Some? then m.base else f.lo, changed), f.got)
  }

  /** Effect of the pull's own events on the store. */
  function PullWrites(m: State, pe: P.Event): State
    requires m.pull.Some? && P.CanStep(m.pull.value, pe)
  {
    var p := m.pull.value;
    match pe
    case Persist => m.(rows := p.consumer.chunk.headers + m.rows)
    case Record =>
      if m.history.None? then m
      else m.(history := Some(m.history.value.(anchor := p.consumer.chunk.next)))
    case RecordFailure =>
      if m.history.None? then m
      else m.(history := Some(m.history.value.(status := P.Error)))
    case Close =>
      if m.history.None? then m
      else m.(history := Some(m.history.value.(status := P.FinalStatus(p))))
    case _ => m
  }

  function WithPull(m: State, pe: P.Event): State
    requires m.pull.Some? && P.CanStep(m.pull.value, pe)
  {
    PullWrites(m, pe).(pull := Some(P.Apply(m.pull.value, pe)))
  }

  function TakenNow(m: State, a: nat): Snapshot {
    Snapshot(a, m.server, m.rows, m.cursor, m.base)
  }

  function Apply(m: State, e: Event): State
    requires ValidServer(m.server) && CanStep(m, e)
  {
    match e
    case ServerMoves(se) => m.(server := After(m.server, se))
    case ReadCursor => m.(sync := Asking(m.cursor, m.cursor.Some?))
    case Select(limit) => m.(sync := AfterSelect(m, limit))
    case ClearCursor => m.(cursor := None, sync := Asking(None, true))
    case FetchNew(got) =>
      m.(sync := Fetched(m.sync.since, m.sync.hadPrior, m.sync.sel, m.sync.lo, got))
    case FetchFlags(ch) => m.(sync := Deliver(m, m.sync.sel.hms, ch))
    case FlagsFail => m.(sync := Deliver(m, m.sync.since.value.hms, map[]))
    case Store =>
      m.(rows := m.rows + Ids(m.sync.d.cursor.uv, m.sync.got), sync := Stored(m.sync.d))
    case ListKnown => m.(sync := Known(m.sync.d, LiveIds(m.server)))
    case SkipReconcile => m.(sync := Updating(m.sync.d, None, m.sync.d.updates))
    case SnapshotLocal =>
      m.(sync := Pruning(m.sync.d, m.sync.ids, m.rows.Keys - m.sync.ids))
    case Prune(id) =>
      m.(rows := m.rows - {id}, sync := m.sync.(doomed := m.sync.doomed - {id}))
    case PruneDone => m.(sync := Updating(m.sync.d, Some(m.sync.ids), m.sync.d.updates))
    case UpdateFlags(u) =>
      var id := MsgId(m.sync.d.cursor.uv, u);
      m.(rows := if id in m.rows then m.rows[id := m.sync.todo[u]] else m.rows,
         sync := m.sync.(todo := m.sync.todo - {u}))
    case PutCursor =>
      m.(cursor := Some(m.sync.d.cursor), base := m.sync.d.base, sync := Idle)
    case SyncEnds => m.(sync := Idle)
    case PullStarts(anew, a) =>
      var n := m.(pull := Some(P.Start(a)), gap := false,
                  history := Some(HistoryRow(P.Running, a)));
      if anew then n.(began := TakenNow(m, a)) else n
    case PullTrivial(a) =>
      m.(history := Some(HistoryRow(P.Completed, a)), pull := None, began := TakenNow(m, a))
    case PullPromoted => m.(history := Some(m.history.value.(status := P.Completed)), pull := None)
    case ChunkFetched(h, next) => WithPull(m, P.FetchOk(P.Chunk(h, next)))
    case ChunkEmpty => m.(gap := true)
    case GapSearched(next) => WithPull(m, P.FetchOk(P.Chunk(map[], next))).(gap := false)
    case GapSearchFails =>
      WithPull(m, P.FetchOk(P.Chunk(map[], Low(PullAnchor(m))))).(gap := false)
    case PullMoves(pe) => WithPull(m, pe)
    case PullCanceled => m.(pull := Some(P.Apply(m.pull.value, P.Cancel)), history := None)
    case Cut => m.(sync := Idle, pull := None, gap := false)
  }

  predicate Step(m: State, e: Event, n: State) {
    ValidServer(m.server) && CanStep(m, e) && n == Apply(m, e)
  }

  predicate Initial(m: State) {
    && ValidServer(m.server)
    && m.rows == map[] && m.cursor == None && m.sync == Idle
    && m.pull == None && m.history == None && !m.gap
  }

  predicate IsRun(ms: seq<State>, es: seq<Event>) {
    && |ms| == |es| + 1
    && Initial(ms[0])
    && forall i | 0 <= i < |es| :: Step(ms[i], es[i], ms[i + 1])
  }

  /** The run so far, as a list of steps. */
  datatype Log = Begin(m: State) | Then(before: Log, e: Event, m: State)

  /** Every entry is a step of the machine, back to an initial state. */
  predicate Sound(l: Log) {
    Linked(l)
  }

  predicate Linked(l: Log)
    decreases l, 1
  {
    match l
    case Begin(m) => Initial(m)
    case Then(_, _, _) => LinkedBack(l)
  }

  predicate LinkedBack(l: Log)
    requires l.Then?
    decreases l, 0
  {
    Linked(l.before) && Step(l.before.m, l.e, l.m)
  }

  /** `b` is `a` run on. */
  predicate Extends(a: Log, b: Log) {
    Within(a, b)
  }

  predicate Within(a: Log, b: Log) {
    a == b || (b.Then? && Within(a, b.before))
  }

  lemma {:induction false} ExtendsBoth(a: Log, b: Log, c: Log)
    requires Extends(a, b) && Extends(b, c)
    ensures Extends(a, c)
  {
    if b != c {
      ExtendsBoth(a, b, c.before);
    }
  }

  lemma ExtendsChains()
    ensures forall a, b, c :: Extends(a, b) && Extends(b, c) ==> Extends(a, c)
  {
    forall a, b, c | Extends(a, b) && Extends(b, c)
      ensures Extends(a, c)
    {
      ExtendsBoth(a, b, c);
    }
  }

  /** A log is a run of the mirror, so every state in it keeps the invariant. */
  lemma {:induction false} LogIsRun(l: Log) returns (ms: seq<State>, es: seq<Event>)
    requires Sound(l)
    ensures IsRun(ms, es) && ms[|es|] == l.m
  {
    assert Linked(l);
    match l
    case Begin(m) => ms, es := [m], [];
    case Then(k, e, m) =>
      assert LinkedBack(l);
      ms, es := LogIsRun(k);
      ms, es := ms + [m], es + [e];
  }
}

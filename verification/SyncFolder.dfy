/** `sync_folder` as code: one delta cycle that reads the adapter's answers,
    writes the store one statement at a time and stores the cursor last.

    The server and the history pull move between any two of its steps; `outside`
    says what they do there. Every write is logged as a step of the folder
    mirror, so whatever holds of all runs of the mirror holds of every call. */
module SyncFolder {
  import opened Wrappers
  import opened Imap
  import opened Mirror
  import opened MirrorInvariants
  import P = HistoryPipeline

  datatype SyncError = Mail | Storage

  datatype Report = Report(fetched: nat, flagUpdates: nat, removed: nat, listed: Option<set<MsgId>>)

  datatype ListError = UidValidityChanged | Broken

  /** Which adapter calls fail, and how many store writes succeed before the
      database starts failing (`None`: all of them). */
  datatype Faults = Faults(select: bool, fetch: bool, flags: bool, list: bool, writes: Option<nat>)

  const NO_FAULTS := Faults(false, false, false, false, None)

  /** What others do while the cycle is at its k-th step. */
  type World = nat -> seq<Event>

  ghost predicate Quiet(w: World) {
    forall k :: w(k) == []
  }

  /** Steps that are not this cycle's: the server's, and the pull's. */
  predicate Outside(e: Event) {
    || e.ServerMoves? || e.PullStarts? || e.PullTrivial? || e.PullPromoted?
    || e.ChunkFetched? || e.ChunkEmpty? || e.GapSearched? || e.GapSearchFails?
    || e.PullMoves? || e.PullCanceled?
  }

  /** The flags of the live messages in `us`. */
  function FlagsOf(s: Server, us: set<nat>): (m: map<nat, Flags>)
    requires us <= s.msgs.Keys
    ensures m.Keys == us && forall u | u in us :: m[u] == s.msgs[u].flags
  {
    map u | u in us :: s.msgs[u].flags
  }

  lemma PullFrameOutside(m: State, pe: P.Event)
    requires m.pull.Some? && P.CanStep(m.pull.value, pe)
    ensures var n := WithPull(m, pe);
            && n.sync == m.sync && n.cursor == m.cursor && n.base == m.base && n.server == m.server
            && (!pe.Persist? ==> n.rows == m.rows)
  {
  }

  /** Others never touch the cursor, and not the store while a cycle runs. */
  lemma OutsideFrame(m: State, e: Event)
    requires ValidServer(m.server) && Outside(e) && CanStep(m, e)
    ensures Apply(m, e).sync == m.sync && Apply(m, e).cursor == m.cursor && Apply(m, e).base == m.base
    ensures !m.sync.Idle? ==> Apply(m, e).rows == m.rows
    ensures ValidServer(Apply(m, e).server)
  {
    match e
    case PullMoves(pe) => PullFrameOutside(m, pe);
    case ChunkFetched(h, next) => PullFrameOutside(m, P.FetchOk(P.Chunk(h, next)));
    case GapSearched(next) => PullFrameOutside(m, P.FetchOk(P.Chunk(map[], next)));
    case GapSearchFails => PullFrameOutside(m, P.FetchOk(P.Chunk(map[], Low(PullAnchor(m)))));
    case _ =>
  }

  /** The store once everything the listing lacks is gone. */
  function Reconciled(rows: Rows, listed: Option<set<MsgId>>): Rows {
    if listed.Some? then rows - (rows.Keys - listed.value) else rows
  }

  /** The store a delivered answer leaves behind. */
  function Outcome(rows: Rows, d: Delivery, got: map<nat, Flags>, listed: Option<set<MsgId>>): Rows {
    Final(Reconciled(rows + Ids(d.cursor.uv, got), listed), d.cursor.uv, d.updates)
  }

  /** The ids a listing lacks: what it prunes. */
  function Lacked(ids: set<MsgId>, listed: Option<set<MsgId>>): set<MsgId> {
    if listed.Some? then ids - listed.value else {}
  }

  /** The updates that meet a row. */
  function Met(rows: Rows, uv: nat, updates: map<nat, Flags>): set<nat> {
    set u | u in updates && MsgId(uv, u) in rows
  }

  lemma MetLess(rows: Rows, uv: nat, todo: map<nat, Flags>, u: nat)
    requires u in todo
    ensures |Met(rows, uv, todo)| == |Met(rows, uv, todo - {u})| + if MsgId(uv, u) in rows then 1 else 0
  {
    assert Met(rows, uv, todo - {u}) == Met(rows, uv, todo) - {u};
  }

  /** What a cycle reports: headers fetched, updates that met a row, rows the
      listing lacked. */
  function Tally(rows: Rows, d: Delivery, got: map<nat, Flags>, listed: Option<set<MsgId>>): Report {
    var stored := rows + Ids(d.cursor.uv, got);
    Report(|got|, |Met(Reconciled(stored, listed), d.cursor.uv, d.updates)|, |Lacked(stored.Keys, listed)|, listed)
  }

  /** The CONDSTORE pass is made. */
  predicate PassDue(since: Option<Cursor>, uidnext: nat) {
    since.Some? && since.value.hms > 0 && uidnext > 1
  }

  /** `at` is the listing step between two moments of a log, and `listed` what the
      server held at that step. */
  predicate ListedAt(from: Log, at: Log, to: Log, listed: set<MsgId>) {
    && Extends(from, at) && Extends(at, to)
    && at.Then? && at.e == ListKnown && listed == LiveIds(at.m.server)
  }

  /** What `list_messages` brought: the cursor is the SELECT answer of `s` (with the
      prior modseq if the flag pass failed), the headers are everything the server
      held at `f` from the low bound up, and the flag updates everything it had
      changed at `c` since the prior modseq. */
  ghost predicate Brought(s: Log, f: Log, c: Log, since: Option<Cursor>, limit: nat, got: map<nat, Flags>, d: Delivery) {
    && s.Then? && s.e == Select(limit) && f.Then? && f.e == FetchNew(got) && c.Then?
    && d.cursor.uv == s.m.server.uv && d.cursor.uidnext == s.m.server.uidnext
    && FetchesFrom(f.m.server, if since.Some? then since.value.uidnext else InitialLow(s.m.server.uidnext, limit), got)
    && if c.e == FlagsFail
       then since.Some? && d.updates == map[] && d.cursor.hms == since.value.hms
       else
         && c.e == FetchFlags(d.updates) && d.cursor.hms == s.m.server.hms
         && if since.Some? && since.value.hms > 0 && s.m.server.uidnext > 1
            then ChangedSince(c.m.server, s.m.server.uidnext, since.value.hms, d.updates)
            else d.updates == map[]
  }

  /** What a cycle was told: the cursor it asked with, the moments of SELECT, fetch
      and flag pass, and what they brought. */
  datatype Told = Told(since: Option<Cursor>, s: Log, f: Log, c: Log, d: Delivery, got: map<nat, Flags>)

  ghost predicate Heard(t: Told, limit: nat, faults: Faults) {
    && Brought(t.s, t.f, t.c, t.since, limit, t.got, t.d)
    && (t.c.e == FlagsFail <==> faults.flags && PassDue(t.since, t.s.m.server.uidnext))
  }

  /** Calls that may fail without ending the cycle: the flag pass and the listing. */
  predicate Unhindered(faults: Faults) {
    !faults.select && !faults.fetch && faults.writes.None?
  }

  predicate Current(s: Server, was: Option<Cursor>) {
    was.Some? && was.value.uv == s.uv
  }

  /** A cycle's fetch is out for `u`: all that is new since a current cursor, else
      the last `limit` UIDs below UIDNEXT, or all of them without a limit. */
  predicate Wanted(s: Server, was: Option<Cursor>, limit: nat, u: nat) {
    if Current(s, was) then was.value.uidnext <= u else limit == 0 || s.uidnext <= u + limit
  }

  predicate IsHighest(s: Server, u: nat) {
    u in s.msgs && forall v | v in s.msgs :: v <= u
  }

  /** The CONDSTORE pass brings every change since the cursor's modseq. */
  predicate PassComes(s: Server, was: Option<Cursor>, faults: Faults) {
    Current(s, was) && was.value.hms > 0 && s.uidnext > 1 && !faults.flags
  }

  predicate Lists(s: Server, was: Option<Cursor>, faults: Faults) {
    was.Some? && s.msgs != map[] && !faults.list
  }

  /** The store after a cycle on a quiet server, at `id`: what was wanted is there,
      what changed is level, nothing else is new or different, and only a dead row
      goes. */
  predicate RowCaughtUp(s: Server, was: Option<Cursor>, before: Rows, limit: nat, faults: Faults, rows: Rows, id: MsgId) {
    && (Live(s, id) && Wanted(s, was, limit, id.uid) ==> id in rows && rows[id] == s.msgs[id.uid].flags)
    && (Live(s, id) && PassComes(s, was, faults) && s.msgs[id.uid].modseq > was.value.hms && id in rows ==>
          rows[id] == s.msgs[id.uid].flags)
    && (id in rows && id !in before ==> Live(s, id) && (Wanted(s, was, limit, id.uid) || IsHighest(s, id.uid)))
    && (id in rows && id in before && rows[id] != before[id] ==> Live(s, id) && rows[id] == s.msgs[id.uid].flags)
    && (id in before && id !in rows ==> Lists(s, was, faults) && !Live(s, id))
    && (id in rows && Lists(s, was, faults) ==> Live(s, id))
  }

  /** What a cycle leaves behind when the server is quiet, told by the server, the
      cursor and the store before it. */
  ghost predicate CaughtUpWith(s: Server, was: Option<Cursor>, before: Rows, limit: nat, faults: Faults,
                               now: Option<Cursor>, rows: Rows, report: Report) {
    && now == Some(Cursor(s.uv,
                          if Current(s, was) && was.value.hms > 0 && s.uidnext > 1 && faults.flags
                          then was.value.hms else s.hms,
                          s.uidnext))
    && (forall id :: RowCaughtUp(s, was, before, limit, faults, rows, id))
    && report.listed == (if Lists(s, was, faults) then Some(LiveIds(s)) else None)
    && report.removed == (if Lists(s, was, faults) then |before.Keys - LiveIds(s)| else 0)
  }

  /** The same server answered all three questions. */
  predicate SameServer(t: Told, s: Server) {
    t.s.m.server == s && t.f.m.server == s && t.c.m.server == s
  }

  lemma RemovedAreOld(s: Server, before: Rows, got: map<nat, Flags>)
    requires got.Keys <= s.msgs.Keys
    ensures (before + Ids(s.uv, got)).Keys - LiveIds(s) == before.Keys - LiveIds(s)
  {
  }

  lemma OutcomeAt(rows: Rows, d: Delivery, got: map<nat, Flags>, listed: Option<set<MsgId>>, id: MsgId)
    ensures var after := Outcome(rows, d, got, listed);
            && (id in after <==> (id in rows || (id.uv == d.cursor.uv && id.uid in got))
                                 && (listed.Some? ==> id in listed.value))
            && (id in after ==>
                  after[id] == if id.uv == d.cursor.uv && id.uid in d.updates then d.updates[id.uid]
                               else if id.uv == d.cursor.uv && id.uid in got then got[id.uid] else rows[id])
  {
  }

  /** What a quiet server's answers hold. */
  lemma QuietAnswers(t: Told, s: Server, was: Option<Cursor>, limit: nat, faults: Faults)
    requires ValidServer(s) && Heard(t, limit, faults) && SameServer(t, s)
    requires t.since == if Current(s, was) then was else None
    ensures t.d.cursor.uv == s.uv && t.d.cursor.uidnext == s.uidnext
    ensures t.d.cursor.hms == if Current(s, was) && was.value.hms > 0 && s.uidnext > 1 && faults.flags
                              then was.value.hms else s.hms
    ensures forall u | u in t.got :: u in s.msgs && t.got[u] == s.msgs[u].flags
    ensures forall u | u in t.got :: Wanted(s, was, limit, u) || IsHighest(s, u)
    ensures forall u | u in s.msgs && Wanted(s, was, limit, u) :: u in t.got
    ensures forall u | u in t.d.updates :: u in s.msgs && t.d.updates[u] == s.msgs[u].flags
    ensures PassComes(s, was, faults) ==> forall u | u in s.msgs && s.msgs[u].modseq > was.value.hms :: u in t.d.updates
  {
  }

  /** The listing of a quiet server, and one row of the store it leaves. */
  lemma QuietAt(t: Told, s: Server, was: Option<Cursor>, before: Rows, limit: nat, faults: Faults,
                listed: Option<set<MsgId>>, id: MsgId)
    requires ValidServer(s) && Heard(t, limit, faults) && SameServer(t, s)
    requires t.since == if Current(s, was) then was else None
    requires listed == if Lists(s, was, faults) then Some(LiveIds(s)) else None
    ensures RowCaughtUp(s, was, before, limit, faults, Outcome(before, t.d, t.got, listed), id)
  {
    QuietAnswers(t, s, was, limit, faults);
    OutcomeAt(before, t.d, t.got, listed, id);
  }

  lemma QuietLeaves(t: Told, s: Server, was: Option<Cursor>, before: Rows, limit: nat, faults: Faults,
                    listed: Option<set<MsgId>>)
    requires ValidServer(s) && Heard(t, limit, faults) && SameServer(t, s)
    requires t.since == if Current(s, was) then was else None
    requires listed == if Lists(s, was, faults) then Some(LiveIds(s)) else None
    ensures CaughtUpWith(s, was, before, limit, faults, Some(t.d.cursor),
                         Outcome(before, t.d, t.got, listed), Tally(before, t.d, t.got, listed))
  {
    QuietAnswers(t, s, was, limit, faults);
    forall id ensures RowCaughtUp(s, was, before, limit, faults, Outcome(before, t.d, t.got, listed), id) {
      QuietAt(t, s, was, before, limit, faults, listed, id);
    }
    RemovedAreOld(s, before, t.got);
  }

  lemma InTurn(a: Log, b: Log, c: Log)
    requires Extends(a, b) && Extends(b, c)
    ensures Extends(a, c)
  {
    ExtendsBoth(a, b, c);
  }

  /** Where pruning stands when `doomed` is left of what the listing lacks. */
  lemma PrunedSoFar(before: Rows, listed: set<MsgId>, doomed: set<MsgId>, rows: Rows)
    requires doomed <= before.Keys - listed && rows == before - ((before.Keys - listed) - doomed)
    ensures doomed == {} ==> rows == Reconciled(before, Some(listed)) && rows.Keys == before.Keys * listed
    ensures rows.Keys <= before.Keys && before.Keys * listed <= rows.Keys
  {
  }

  class Folder {
    var server: Server
    var rows: Rows
    var cursor: Option<Cursor>
    var base: nat
    var sync: SyncPc
    var pull: Option<P.State>
    var gap: bool
    var history: Option<HistoryRow>
    var began: Snapshot
    ghost var log: Log

    function View(): State
      reads this
    {
      State(server, rows, cursor, base, sync, pull, gap, history, began)
    }

    ghost predicate Valid()
      reads this
    {
      Sound(log) && log.m == View() && ValidServer(server)
    }

    constructor (s: Server)
      requires ValidServer(s)
      ensures Valid() && server == s && cursor == None && rows == map[] && sync == Idle
    {
      server, rows, cursor, base, sync := s, map[], None, 0, Idle;
      pull, gap, history, began := None, false, None, Snapshot(0, s, map[], None, 0);
      new;
      log := Begin(View());
    }

    /** Logs the step the fields have just taken. */
    ghost method Note(e: Event)
      requires Sound(log) && Step(log.m, e, View()) && ValidServer(server)
      modifies this`log
      ensures Valid() && log == Then(old(log), e, View())
    {
      log := Then(log, e, View());
      assert LinkedBack(log);
    }

    /** One step of someone else. */
    method Move(e: Event)
      requires Valid() && Outside(e) && CanStep(View(), e)
      modifies this
      ensures Valid() && View() == old(Apply(View(), e))
      ensures log == Then(old(log), e, View())
    {
      OutsideFrame(View(), e);
      var n := Apply(View(), e);
      server, rows, pull, gap, history := n.server, n.rows, n.pull, n.gap, n.history;
      began := n.began;
      Note(e);
    }

    /** Others move: each event of `es` that is possible when its turn comes. */
    method Interfere(es: seq<Event>)
      requires Valid()
      modifies this
      ensures Valid() && Extends(old(log), log)
      ensures sync == old(sync) && cursor == old(cursor) && base == old(base)
      ensures !sync.Idle? ==> rows == old(rows)
      ensures es == [] ==> View() == old(View()) && log == old(log)
    {
      ExtendsChains();
      for i := 0 to |es|
        invariant Valid() && Extends(old(log), log)
        invariant sync == old(sync) && cursor == old(cursor) && base == old(base)
        invariant !sync.Idle? ==> rows == old(rows)
        invariant i == 0 ==> View() == old(View()) && log == old(log)
      {
        if Outside(es[i]) && CanStep(View(), es[i]) {
          OutsideFrame(View(), es[i]);
          Move(es[i]);
        }
      }
    }

    /** A write the database refuses, or an adapter error: the cycle ends here. */
    method Fail()
      requires Valid() && !sync.Idle?
      modifies this
      ensures Valid() && sync == Idle && Extends(old(log), log)
      ensures cursor == old(cursor) && rows == old(rows) && server == old(server)
    {
      sync := Idle;
      Note(SyncEnds);
    }

    method SelectMailbox(limit: nat)
      requires Valid() && sync.Asking?
      modifies this`sync, this`log
      ensures Valid() && Extends(old(log), log)
      ensures sync == old(AfterSelect(View(), limit))
      ensures log == Then(old(log), Select(limit), View())
    {
      sync := AfterSelect(View(), limit);
      Note(Select(limit));
    }

    /** `UID FETCH lo:*`. */
    method FetchHeaders()
      requires Valid() && sync.Selected?
      modifies this`sync, this`log
      ensures Valid() && Extends(old(log), log)
      ensures sync.Fetched? && FetchesFrom(server, old(sync.lo), sync.got)
      ensures sync == Fetched(old(sync.since), old(sync.hadPrior), old(sync.sel), old(sync.lo), sync.got)
      ensures log == Then(old(log), FetchNew(sync.got), View())
    {
      var lo := sync.lo;
      var got := FlagsOf(server, set u | u in server.msgs && (u >= lo || forall v | v in server.msgs :: v <= u));
      sync := Fetched(sync.since, sync.hadPrior, sync.sel, lo, got);
      Note(FetchNew(got));
    }

    /** The CONDSTORE pass; on failure the prior modseq is kept. */
    method FetchFlagChanges(fails: bool)
      requires Valid() && sync.Fetched?
      modifies this`sync, this`log
      ensures Valid() && Extends(old(log), log)
      ensures sync.Delivered? && sync.d.hadPrior == old(sync.hadPrior)
      ensures sync.d.cursor.uv == old(sync.sel.uv) && sync.d.cursor.uidnext == old(sync.sel.uidnext)
      ensures !fails ==> sync.d.cursor == old(sync.sel)
      ensures log.Then? && (log.e == FlagsFail <==> fails && PassDue(old(sync.since), old(sync.sel.uidnext)))
      ensures sync.got == old(sync.got) && log.Then? && log.before == old(log) && log.m == View()
      ensures if log.e == FlagsFail
              then old(sync.since).Some? && sync.d.updates == map[] && sync.d.cursor.hms == old(sync.since).value.hms
              else
                && log.e == FetchFlags(sync.d.updates) && sync.d.cursor.hms == old(sync.sel.hms)
                && if old(sync.since).Some? && old(sync.since).value.hms > 0 && old(sync.sel.uidnext) > 1
                   then ChangedSince(server, old(sync.sel.uidnext), old(sync.since).value.hms, sync.d.updates)
                   else sync.d.updates == map[]
    {
      var f := sync;
      var pass := f.since.Some? && f.since.value.hms > 0 && f.sel.uidnext > 1;
      if pass && fails {
        sync := Deliver(View(), f.since.value.hms, map[]);
        Note(FlagsFail);
      } else {
        var changed := map[];
        if pass {
          changed := FlagsOf(server, set u | u in server.msgs && u < f.sel.uidnext && server.msgs[u].modseq > f.since.value.hms);
        }
        sync := Deliver(View(), f.sel.hms, changed);
        Note(FetchFlags(changed));
      }
    }

    /** `list_messages`: SELECT, fetch by UID range, then the flag pass. */
    method ListMessages(limit: nat, faults: Faults, w: World, k: nat)
      returns (r: Result<Delivery, ListError>, ghost s: Log, ghost f: Log, ghost c: Log)
      requires Valid() && sync.Asking?
      modifies this
      ensures Valid() && Extends(old(log), log) && rows == old(rows) && cursor == old(cursor)
      ensures r.Ok? ==> sync.Delivered? && sync.d == r.value && r.value.hadPrior == old(sync.hadPrior)
      ensures r.Ok? ==> Extends(old(log), s) && Extends(s, f) && Extends(f, c) && Extends(c, log)
      ensures r.Ok? ==> Brought(s, f, c, old(sync.since), limit, sync.got, r.value)
      ensures !sync.Idle?
      ensures r.Ok? ==> (c.e == FlagsFail <==> faults.flags && PassDue(old(sync.since), s.m.server.uidnext))
      ensures r.Err? && r.error.UidValidityChanged? ==> sync == Mismatch && old(sync.since.Some?)
      ensures r.Err? && r.error.Broken? ==> faults.select || faults.fetch
      ensures faults.select ==> r == Err(Broken)
      ensures faults.fetch ==> r.Err?
      ensures Quiet(w) && !faults.select ==>
        (r == Err(UidValidityChanged) <==> old(sync.since.Some? && sync.since.value.uv != server.uv))
      ensures Quiet(w) && r.Ok? ==> s.m.server == server && f.m.server == server && c.m.server == server
      ensures Quiet(w) ==> server == old(server)
      ensures Quiet(w) && faults == NO_FAULTS ==>
        && (r.Ok? ==> r.value.cursor == Cursor(server.uv, server.hms, server.uidnext))
        && (r.Err? ==> r.error.UidValidityChanged?)
    {
      s, f, c := log, log, log;
      Interfere(w(k));
      if faults.select { return Err(Broken), s, f, c; }
      ghost var first := log;
      SelectMailbox(limit);
      s := log;
      InTurn(old(log), first, s);
      if sync.Mismatch? { return Err(UidValidityChanged), s, f, c; }
      Interfere(w(k + 1));
      InTurn(old(log), s, log);
      if faults.fetch { return Err(Broken), s, f, c; }
      ghost var second := log;
      FetchHeaders();
      f := log;
      InTurn(s, second, f);
      Interfere(w(k + 2));
      ghost var third := log;
      FetchFlagChanges(faults.flags);
      c := log;
      InTurn(f, third, c);
      InTurn(old(log), s, f);
      InTurn(old(log), f, c);
      r := Ok(sync.d);
    }

    /** `apply_chunk`, seen from the store: rows are staged and committed at once. */
    method StoreMessages()
      requires Valid() && sync.Delivered?
      modifies this`rows, this`sync, this`log
      ensures Valid() && Extends(old(log), log)
      ensures sync == Stored(old(sync.d))
      ensures rows == old(rows) + Ids(old(sync.d).cursor.uv, old(sync.got))
    {
      var d := sync.d;
      rows := Stage(rows, d.cursor.uv, sync.got);
      sync := Stored(d);
      Note(Store);
    }

    method ListKnownIds() returns (listed: set<MsgId>)
      requires Valid() && sync.Stored? && sync.d.hadPrior && server.msgs != map[]
      modifies this`sync, this`log
      ensures Valid() && Extends(old(log), log)
      ensures listed == LiveIds(server) && sync == Known(old(sync.d), listed)
      ensures log == Then(old(log), ListKnown, View())
    {
      listed := LiveIds(server);
      sync := Known(sync.d, listed);
      Note(ListKnown);
    }

    method ListLocalIds()
      requires Valid() && sync.Known?
      modifies this`sync, this`log
      ensures Valid() && Extends(old(log), log)
      ensures sync == Pruning(old(sync.d), old(sync.ids), rows.Keys - old(sync.ids))
    {
      sync := Pruning(sync.d, sync.ids, rows.Keys - sync.ids);
      Note(SnapshotLocal);
    }

    method DeleteRow(id: MsgId)
      requires Valid() && sync.Pruning? && id in sync.doomed
      modifies this`rows, this`sync, this`log
      ensures Valid() && Extends(old(log), log)
      ensures rows == old(rows) - {id} && sync == old(sync).(doomed := old(sync.doomed) - {id})
    {
      rows := rows - {id};
      sync := sync.(doomed := sync.doomed - {id});
      Note(Prune(id));
    }

    method EndPrune()
      requires Valid() && sync.Pruning? && sync.doomed == {}
      modifies this`sync, this`log
      ensures Valid() && Extends(old(log), log)
      ensures sync == Updating(old(sync.d), Some(old(sync.ids)), old(sync.d.updates))
    {
      sync := Updating(sync.d, Some(sync.ids), sync.d.updates);
      Note(PruneDone);
    }

    /** Deletes the doomed rows, one statement each. */
    method PruneAll(writes: Option<nat>, w: World, k: nat)
      returns (ok: bool, left: Option<nat>, removed: nat)
      requires Valid() && sync.Pruning?
      modifies this
      ensures Valid() && Extends(old(log), log) && cursor == old(cursor)
      ensures sync.Pruning? && sync == old(sync).(doomed := sync.doomed) && (ok ==> sync.doomed == {})
      ensures sync.doomed <= old(sync).doomed && rows == old(rows) - (old(sync).doomed - sync.doomed)
      ensures removed == |old(sync).doomed| - |sync.doomed|
      ensures !ok ==> writes.Some?
      ensures writes.None? ==> left.None?
      ensures Quiet(w) ==> server == old(server)
    {
      ExtendsChains();
      ghost var was := sync;
      removed, left, ok := 0, writes, true;
      while sync.doomed != {}
        invariant Valid() && Extends(old(log), log) && cursor == old(cursor)
        invariant sync.Pruning? && sync == was.(doomed := sync.doomed)
        invariant sync.doomed <= was.doomed && rows == old(rows) - (was.doomed - sync.doomed)
        invariant removed == |was.doomed| - |sync.doomed|
        invariant writes.None? ==> left.None?
        invariant Quiet(w) ==> server == old(server)
        decreases sync.doomed
      {
        if left == Some(0) { ok := false; return; }
        left := if left.Some? then Some(left.value - 1) else None;
        var id :| id in sync.doomed;
        DeleteRow(id);
        removed := removed + 1;
        Interfere(w(k));
      }
    }

    /** The two id sets: the server's, then the store's. */
    method TakeListings(w: World, k: nat) returns (listed: set<MsgId>, ghost asked: Log)
      requires Valid() && sync.Stored? && sync.d.hadPrior && server.msgs != map[]
      modifies this
      ensures Valid() && Extends(old(log), log) && cursor == old(cursor) && rows == old(rows)
      ensures sync == Pruning(old(sync.d), listed, rows.Keys - listed)
      ensures Quiet(w) ==> server == old(server)
      ensures listed == old(LiveIds(server)) && ListedAt(old(log), asked, log, listed)
    {
      listed := ListKnownIds();
      asked := log;
      Interfere(w(k));
      ghost var mid := log;
      ListLocalIds();
      InTurn(asked, mid, log);
      InTurn(old(log), asked, log);
    }

    /** The reconciliation pass: list, diff against the store, prune. */
    method Reconcile(writes: Option<nat>, w: World, k: nat)
      returns (ok: bool, left: Option<nat>, removed: nat, listed: set<MsgId>, ghost asked: Log)
      requires Valid() && sync.Stored? && sync.d.hadPrior && server.msgs != map[]
      modifies this
      ensures Valid() && Extends(old(log), log) && cursor == old(cursor)
      ensures ok ==> sync == Updating(old(sync.d), Some(listed), old(sync.d.updates))
      ensures ok ==> rows == Reconciled(old(rows), Some(listed)) && rows.Keys == old(rows.Keys) * listed
      ensures ok ==> removed == |Lacked(old(rows.Keys), Some(listed))|
      ensures !ok ==> rows.Keys <= old(rows.Keys) && old(rows.Keys) * listed <= rows.Keys
      ensures !ok ==> !sync.Idle? && writes.Some?
      ensures writes.None? ==> left.None?
      ensures Quiet(w) ==> server == old(server)
      ensures listed == old(LiveIds(server)) && ListedAt(old(log), asked, log, listed)
    {
      listed, asked := TakeListings(w, k);
      ghost var mid := log;
      ok, left, removed := PruneAll(writes, w, k + 1);
      PrunedSoFar(old(rows), listed, sync.doomed, rows);
      if ok {
        ghost var pruned := log;
        EndPrune();
        InTurn(mid, pruned, log);
      }
      InTurn(asked, mid, log);
      InTurn(old(log), asked, log);
    }

    /** `update_flags` for one id; an unknown id is skipped. */
    method ApplyFlag(u: nat) returns (known: bool)
      requires Valid() && sync.Updating? && u in sync.todo
      modifies this`rows, this`sync, this`log
      ensures Valid() && Extends(old(log), log) && rows.Keys == old(rows.Keys)
      ensures known <==> MsgId(old(sync.d.cursor.uv), u) in old(rows)
      ensures sync == old(sync).(todo := old(sync.todo) - {u})
      ensures var id := MsgId(old(sync.d.cursor.uv), u);
              rows == if id in old(rows) then old(rows)[id := old(sync.todo)[u]] else old(rows)
    {
      var todo := sync.todo;
      var id := MsgId(sync.d.cursor.uv, u);
      known := id in rows;
      if known {
        rows := rows[id := todo[u]];
      }
      sync := sync.(todo := todo - {u});
      Note(UpdateFlags(u));
    }

    /** Applies the flag deltas, one statement each. */
    method ApplyFlags(writes: Option<nat>, w: World, k: nat)
      returns (ok: bool, left: Option<nat>, updated: nat)
      requires Valid() && sync.Updating?
      modifies this
      ensures Valid() && Extends(old(log), log) && cursor == old(cursor)
      ensures sync.Updating? && sync == old(sync).(todo := sync.todo)
      ensures Final(rows, old(sync.d.cursor.uv), sync.todo) == Final(old(rows), old(sync.d.cursor.uv), old(sync.todo))
      ensures ok ==> sync.todo == map[] && rows == Final(old(rows), old(sync.d.cursor.uv), old(sync.todo))
      ensures ok ==> updated == |Met(old(rows), old(sync.d.cursor.uv), old(sync.todo))|
      ensures !ok ==> !sync.Idle? && writes.Some?
      ensures writes.None? ==> left.None?
      ensures Quiet(w) ==> server == old(server)
    {
      ExtendsChains();
      ghost var was := sync;
      updated, left, ok := 0, writes, true;
      while sync.todo != map[]
        invariant Valid() && Extends(old(log), log) && cursor == old(cursor)
        invariant sync.Updating? && sync == was.(todo := sync.todo)
        invariant Final(rows, was.d.cursor.uv, sync.todo) == Final(old(rows), was.d.cursor.uv, was.todo)
        invariant rows.Keys == old(rows.Keys)
        invariant updated + |Met(old(rows), was.d.cursor.uv, sync.todo)| == |Met(old(rows), was.d.cursor.uv, was.todo)|
        invariant writes.None? ==> left.None?
        invariant Quiet(w) ==> server == old(server)
        decreases sync.todo.Keys
      {
        if left == Some(0) { ok := false; return; }
        left := if left.Some? then Some(left.value - 1) else None;
        var u :| u in sync.todo;
        FinalStays(rows, was.d.cursor.uv, sync.todo, u);
        MetLess(old(rows), was.d.cursor.uv, sync.todo, u);
        var known := ApplyFlag(u);
        updated := if known then updated + 1 else updated;
        Interfere(w(k));
      }
      NothingPending(rows, was.d.cursor.uv);
      assert Met(old(rows), was.d.cursor.uv, map[]) == {};
    }

    method StoreCursor()
      requires Valid() && sync.Updating? && sync.todo == map[]
      modifies this`cursor, this`base, this`sync, this`log
      ensures Valid() && Extends(old(log), log) && log.Then? && log.e == PutCursor
      ensures cursor == Some(old(sync.d.cursor)) && base == old(sync.d.base) && sync == Idle
    {
      cursor, base, sync := Some(sync.d.cursor), sync.d.base, Idle;
      Note(PutCursor);
    }

    method LoadCursor()
      requires Valid() && sync.Idle? && !PullLocks(View())
      modifies this`sync, this`log
      ensures Valid() && Extends(old(log), log) && sync == Asking(cursor, cursor.Some?)
    {
      sync := Asking(cursor, cursor.Some?);
      Note(ReadCursor);
    }

    method ClearStoredCursor()
      requires Valid() && sync == Mismatch
      modifies this`cursor, this`sync, this`log
      ensures Valid() && Extends(old(log), log) && cursor == None && sync == Asking(None, true)
    {
      cursor, sync := None, Asking(None, true);
      Note(ClearCursor);
    }

    /** Reads the cursor; on a UIDVALIDITY mismatch clears it and asks again, as a
        folder never seen. */
    method Ask(limit: nat, faults: Faults, w: World)
      returns (r: Result<Delivery, SyncError>, ghost s: Log, ghost f: Log, ghost c: Log)
      requires Valid() && sync.Idle? && !PullLocks(View())
      modifies this
      ensures Valid() && Extends(old(log), log) && !sync.Idle?
      ensures cursor == old(cursor) || cursor == None
      ensures r.Ok? ==> sync.Delivered? && sync.d == r.value && r.value.hadPrior == old(cursor.Some?)
      ensures r.Ok? ==> Heard(Told(cursor, s, f, c, r.value, sync.got), limit, faults) && rows == old(rows)
      ensures r.Err? ==> if r.error.Mail? then faults.select || faults.fetch else faults.writes.Some?
      ensures Quiet(w) ==> server == old(server)
      ensures Quiet(w) && r.Ok? ==>
        && cursor == (if Current(server, old(cursor)) then old(cursor) else None)
        && SameServer(Told(cursor, s, f, c, r.value, sync.got), server)
    {
      ExtendsChains();
      LoadCursor();
      var answer;
      answer, s, f, c := ListMessages(limit, faults, w, 0);
      if answer.Err? && answer.error.UidValidityChanged? {
        Interfere(w(3));
        if faults.writes == Some(0) { return Err(Storage), s, f, c; }
        ClearStoredCursor();
        answer, s, f, c := ListMessages(limit, faults, w, 4);
      }
      r := if answer.Ok? then Ok(answer.value) else Err(Mail);
    }

    /** The reconcile branch: taken with a prior cursor, a listing that came and is
        not empty. */
    method MaybeReconcile(writes: Option<nat>, fails: bool, w: World)
      returns (ok: bool, left: Option<nat>, removed: nat, listed: Option<set<MsgId>>, ghost asked: Log)
      requires Valid() && sync.Stored?
      modifies this
      ensures Valid() && Extends(old(log), log) && cursor == old(cursor)
      ensures ok ==> sync == Updating(old(sync.d), listed, old(sync.d.updates)) && rows == Reconciled(old(rows), listed)
      ensures ok ==> removed == |Lacked(old(rows.Keys), listed)|
      ensures ok && listed.Some? ==> ListedAt(old(log), asked, log, listed.value)
      ensures ok ==> (listed.Some? <==> old(sync.d.hadPrior) && old(server.msgs) != map[] && !fails)
      ensures !ok ==> !sync.Idle? && writes.Some?
      ensures writes.None? ==> left.None?
      ensures Quiet(w) ==> server == old(server)
      ensures listed.Some? ==> listed.value == old(LiveIds(server))
    {
      ok, left, removed, listed, asked := true, writes, 0, None, log;
      if sync.d.hadPrior && server.msgs != map[] && !fails {
        var ids;
        ok, left, removed, ids, asked := Reconcile(writes, w, 9);
        listed := Some(ids);
      } else {
        var d := sync.d;
        sync := Updating(d, None, d.updates);
        Note(SkipReconcile);
      }
    }

    /** Everything after the listing: the store ends as the answer says, less what
        the listing lacks. */
    method Write(faults: Faults, w: World) returns (ok: bool, report: Report, ghost asked: Log)
      requires Valid() && sync.Delivered?
      modifies this
      ensures Valid() && Extends(old(log), log) && cursor == old(cursor)
      ensures ok ==> sync == Updating(old(sync.d), report.listed, map[])
      ensures ok && report.listed.Some? ==> ListedAt(old(log), asked, log, report.listed.value)
      ensures ok ==> rows == Outcome(old(rows), old(sync.d), old(sync.got), report.listed)
      ensures ok ==> report == Tally(old(rows), old(sync.d), old(sync.got), report.listed)
      ensures !ok ==> !sync.Idle? && faults.writes.Some?
      ensures Quiet(w) ==> server == old(server)
      ensures Quiet(w) && ok ==>
        report.listed == if old(sync.d.hadPrior) && server.msgs != map[] && !faults.list then Some(LiveIds(server)) else None
    {
      asked := log;
      var d, fetched := sync.d, |sync.got|;
      report := Report(fetched, 0, 0, None);
      ok := faults.writes != Some(0);
      if !ok { return; }
      StoreMessages();
      ghost var stored := log;
      Interfere(w(8));
      InTurn(old(log), stored, log);
      ghost var before := log;
      var left, removed, listed;
      ok, left, removed, listed, asked := MaybeReconcile(faults.writes, faults.list, w);
      InTurn(old(log), before, log);
      if !ok { return; }
      ghost var after := log;
      Interfere(w(11));
      ghost var mid := log;
      var updated;
      ok, left, updated := ApplyFlags(left, w, 12);
      InTurn(after, mid, log);
      InTurn(old(log), after, log);
      if listed.Some? {
        InTurn(old(log), before, asked);
        InTurn(asked, after, log);
      }
      ok := ok && left != Some(0);
      report := Report(fetched, updated, removed, listed);
    }

    /** One delta cycle: whatever it meets, it is a piece of a run of the mirror,
        and it stores the cursor last or not at all. What it reports as listed is
        what the server held when this call asked, and only that is left. */
    method Sync(limit: nat, faults: Faults, w: World)
      returns (r: Result<Report, SyncError>, ghost asked: Log, ghost told: Told)
      requires Valid() && sync.Idle? && !PullLocks(View())
      modifies this
      ensures Valid() && sync.Idle? && Extends(old(log), log)
      ensures r.Ok? ==> cursor.Some? && log.Then? && log.e == PutCursor
      ensures r.Ok? ==> Heard(told, limit, faults) && (told.since == old(cursor) || told.since.None?)
      ensures r.Ok? ==> cursor == Some(told.d.cursor) && rows == Outcome(old(rows), told.d, told.got, r.value.listed)
      ensures r.Ok? ==> r.value == Tally(old(rows), told.d, told.got, r.value.listed)
      ensures r.Ok? && r.value.listed.Some? ==>
        ListedAt(old(log), asked, log, r.value.listed.value) && rows.Keys <= r.value.listed.value
      ensures r.Err? ==> cursor == old(cursor) || cursor == None
      ensures r.Err? ==> if r.error.Mail? then faults.select || faults.fetch else faults.writes.Some?
      ensures Unhindered(faults) ==> r.Ok?
      ensures Quiet(w) ==> server == old(server)
      ensures Quiet(w) && r.Ok? ==>
        CaughtUpWith(server, old(cursor), old(rows), limit, faults, cursor, rows, r.value)
    {
      asked := log;
      var answer;
      ghost var s, f, c;
      answer, s, f, c := Ask(limit, faults, w);
      told := Told(cursor, s, f, c, if answer.Ok? then answer.value else Delivery(false, Cursor(0, 0, 0), 0, map[]), map[]);
      if answer.Err? {
        Stop(old(log));
        return Err(answer.error), asked, told;
      }
      told := told.(got := sync.got);
      ghost var heard := log;
      Interfere(w(7));
      InTurn(old(log), heard, log);
      heard := log;
      r, asked := Settle(faults, w);
      InTurn(old(log), heard, log);
      if r.Ok? {
        if r.value.listed.Some? {
          InTurn(old(log), heard, asked);
        }
        if Quiet(w) {
          QuietLeaves(told, server, old(cursor), old(rows), limit, faults, r.value.listed);
        }
      }
    }

    /** From a delivered answer to the stored cursor, or to the failing write. */
    method Settle(faults: Faults, w: World) returns (r: Result<Report, SyncError>, ghost asked: Log)
      requires Valid() && sync.Delivered?
      modifies this
      ensures Valid() && sync.Idle? && Extends(old(log), log)
      ensures r.Ok? ==> cursor == Some(old(sync.d).cursor) && log.Then? && log.e == PutCursor
      ensures r.Ok? ==> rows == Outcome(old(rows), old(sync.d), old(sync.got), r.value.listed)
      ensures r.Ok? ==> r.value == Tally(old(rows), old(sync.d), old(sync.got), r.value.listed)
      ensures r.Ok? && r.value.listed.Some? ==>
        ListedAt(old(log), asked, log, r.value.listed.value) && rows.Keys <= r.value.listed.value
      ensures r.Err? ==> cursor == old(cursor) && r.error.Storage? && faults.writes.Some?
      ensures Quiet(w) ==> server == old(server)
      ensures Quiet(w) && r.Ok? ==>
        r.value.listed == if old(sync.d).hadPrior && server.msgs != map[] && !faults.list then Some(LiveIds(server)) else None
    {
      var ok, report;
      ok, report, asked := Write(faults, w);
      if ok {
        PutLast(report.listed, old(log), asked);
      } else {
        Stop(old(log));
      }
      r := if ok then Ok(report) else Err(Storage);
    }

    method Stop(ghost from: Log)
      requires Valid() && !sync.Idle? && Extends(from, log)
      modifies this
      ensures Valid() && sync == Idle && Extends(from, log)
      ensures cursor == old(cursor) && server == old(server)
    {
      ghost var mid := log;
      Fail();
      InTurn(from, mid, log);
    }

    /** The cursor goes in last; by then only listed ids are left. */
    method PutLast(listed: Option<set<MsgId>>, ghost from: Log, ghost asked: Log)
      requires Valid() && sync.Updating? && sync.listed == listed && sync.todo == map[]
      requires Extends(from, log) && (listed.Some? ==> ListedAt(from, asked, log, listed.value))
      modifies this`cursor, this`base, this`sync, this`log
      ensures Valid() && sync.Idle? && cursor == Some(old(sync).d.cursor)
      ensures Extends(from, log) && log.Then? && log.e == PutCursor
      ensures listed.Some? ==> ListedAt(from, asked, log, listed.value) && rows.Keys <= listed.value
    {
      ghost var written := log;
      ListedHolds(listed);
      StoreCursor();
      InTurn(from, written, log);
      if listed.Some? {
        InTurn(asked, written, log);
      }
    }

    ghost method ListedHolds(listed: Option<set<MsgId>>)
      requires Valid() && sync.Updating? && sync.listed == listed
      ensures listed.Some? ==> rows.Keys <= listed.value
    {
      LogKeeps(log);
    }
  }

  lemma StageOne(rows: Rows, uv: nat, got: map<nat, Flags>, todo: set<nat>, u: nat)
    requires u in todo && u in got
    ensures rows + Ids(uv, got - (todo - {u})) == (rows + Ids(uv, got - todo))[MsgId(uv, u) := got[u]]
  {
  }

  lemma AllStaged(rows: Rows, uv: nat, got: map<nat, Flags>)
    ensures rows + Ids(uv, got - {}) == rows + Ids(uv, got)
    ensures rows + Ids(uv, got - got.Keys) == rows
  {
    assert got - {} == got;
  }

  /** Builds the rows of one chunk beside the store, to be committed whole. */
  method Stage(rows: Rows, uv: nat, got: map<nat, Flags>) returns (staged: Rows)
    ensures staged == rows + Ids(uv, got)
  {
    staged := rows;
    var todo := got.Keys;
    AllStaged(rows, uv, got);
    while todo != {}
      invariant todo <= got.Keys && staged == rows + Ids(uv, got - todo)
    {
      var u :| u in todo;
      StageOne(rows, uv, got, todo, u);
      staged := staged[MsgId(uv, u) := got[u]];
      todo := todo - {u};
    }
  }
}

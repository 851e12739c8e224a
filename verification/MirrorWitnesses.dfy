/** Concrete runs of the folder mirror that go wrong exactly where a promise
    stops: below the base, across a UIDVALIDITY reset, for a pull whose start lies
    outside the UID space it runs in, and for one that starts without a current
    cursor. */
module MirrorWitnesses {
  import opened Wrappers
  import opened Imap
  import opened Mirror
  import opened MirrorInvariants
  import opened MirrorStarts
  import P = HistoryPipeline

  lemma {:induction false} Go(l: Log, e: Event) returns (k: Log)
    requires Sound(l) && ValidServer(l.m.server) && CanStep(l.m, e)
    ensures Sound(k) && Extends(l, k) && k.m == Apply(l.m, e)
  {
    k := Then(l, e, Apply(l.m, e));
  }

  lemma {:induction false} PullGoes(l: Log, pe: P.Event) returns (k: Log)
    requires Sound(l) && ValidServer(l.m.server)
    requires l.m.pull.Some? && P.CanStep(l.m.pull.value, pe) && PullFree(l.m, pe)
    ensures Sound(k) && Extends(l, k) && k.m == WithPull(l.m, pe)
  {
    k := Go(l, PullMoves(pe));
  }

  function Empty(s: Server): State {
    State(s, map[], None, 0, Idle, None, false, None, Snapshot(0, s, map[], None, 0))
  }

  ghost predicate Ready(l: Log) {
    Sound(l) && ValidServer(l.m.server) && l.m.sync.Idle? && !PullLocks(l.m)
  }

  function CursorNow(s: Server): Cursor {
    Cursor(s.uv, s.hms, s.uidnext)
  }

  /** SELECT, fetch and store for a cycle that has no cursor to go by. */
  lemma {:induction false} FetchAnew(l: Log, limit: nat, got: map<nat, Flags>) returns (k: Log)
    requires Sound(l) && ValidServer(l.m.server) && l.m.sync.Asking? && l.m.sync.since == None
    requires FetchesFrom(l.m.server, InitialLow(l.m.server.uidnext, limit), got)
    ensures Sound(k) && Extends(l, k)
    ensures k.m == l.m.(rows := l.m.rows + Ids(l.m.server.uv, got),
                        sync := Stored(Delivery(l.m.sync.hadPrior, CursorNow(l.m.server),
                                                InitialLow(l.m.server.uidnext, limit), map[])))
  {
    ExtendsChains();
    k := Go(l, Select(limit));
    k := Go(k, FetchNew(got));
    k := Go(k, FetchFlags(map[]));
    k := Go(k, Store);
  }

  /** The front half of a cycle without a cursor: rows committed, cursor not. */
  lemma {:induction false} InitialFetch(l: Log, limit: nat, got: map<nat, Flags>) returns (k: Log)
    requires Ready(l) && l.m.cursor == None
    requires FetchesFrom(l.m.server, InitialLow(l.m.server.uidnext, limit), got)
    ensures Sound(k) && Extends(l, k)
    ensures k.m == l.m.(rows := l.m.rows + Ids(l.m.server.uv, got),
                        sync := Stored(Delivery(false, CursorNow(l.m.server),
                                                InitialLow(l.m.server.uidnext, limit), map[])))
  {
    ExtendsChains();
    k := Go(l, ReadCursor);
    k := FetchAnew(k, limit, got);
  }

  /** The cycle after a UIDVALIDITY reset: the mismatch clears the cursor and the
      fetch starts over; the listing fails or is empty, so nothing is pruned. */
  lemma {:induction false} RecoveryCycle(l: Log, limit: nat, got: map<nat, Flags>) returns (k: Log)
    requires Ready(l) && l.m.cursor.Some? && l.m.cursor.value.uv != l.m.server.uv
    requires FetchesFrom(l.m.server, InitialLow(l.m.server.uidnext, limit), got)
    ensures Sound(k) && Extends(l, k)
    ensures k.m == l.m.(rows := l.m.rows + Ids(l.m.server.uv, got),
                        cursor := Some(CursorNow(l.m.server)),
                        base := InitialLow(l.m.server.uidnext, limit))
  {
    ExtendsChains();
    k := Recovering(l, limit);
    k := FetchAnew(k, limit, got);
    k := Go(k, SkipReconcile);
    k := Go(k, PutCursor);
  }

  lemma {:induction false} Recovering(l: Log, limit: nat) returns (k: Log)
    requires Ready(l) && l.m.cursor.Some? && l.m.cursor.value.uv != l.m.server.uv
    ensures Sound(k) && Extends(l, k) && k.m == l.m.(cursor := None, sync := Asking(None, true))
  {
    ExtendsChains();
    k := Go(l, ReadCursor);
    k := Go(k, Select(limit));
    k := Go(k, ClearCursor);
  }

  lemma {:induction false} InitialCycle(l: Log, limit: nat, got: map<nat, Flags>) returns (k: Log)
    requires Ready(l) && l.m.cursor == None
    requires FetchesFrom(l.m.server, InitialLow(l.m.server.uidnext, limit), got)
    ensures Sound(k) && Extends(l, k)
    ensures k.m == l.m.(rows := l.m.rows + Ids(l.m.server.uv, got),
                        cursor := Some(CursorNow(l.m.server)),
                        base := InitialLow(l.m.server.uidnext, limit))
  {
    ExtendsChains();
    k := InitialFetch(l, limit, got);
    k := Go(k, SkipReconcile);
    k := Go(k, PutCursor);
  }

  ghost predicate Delta(m: State, got: map<nat, Flags>, u: nat, f: Flags) {
    && m.cursor.Some? && m.cursor.value.uv == m.server.uv
    && m.cursor.value.hms > 0 && m.server.uidnext > 1
    && FetchesFrom(m.server, m.cursor.value.uidnext, got)
    && ChangedSince(m.server, m.server.uidnext, m.cursor.value.hms, map[u := f])
  }

  lemma {:induction false} DeltaFetch(l: Log, got: map<nat, Flags>, u: nat, f: Flags) returns (k: Log)
    requires Ready(l) && Delta(l.m, got, u, f)
    ensures Sound(k)
    ensures k.m == l.m.(sync := Delivered(Delivery(true, CursorNow(l.m.server), l.m.base, map[u := f]), got))
  {
    k := Go(l, ReadCursor);
    k := Go(k, Select(0));
    k := Go(k, FetchNew(got));
    k := Go(k, FetchFlags(map[u := f]));
  }

  lemma {:induction false} DeltaStored(l: Log, got: map<nat, Flags>, u: nat, f: Flags) returns (k: Log)
    requires Ready(l) && Delta(l.m, got, u, f)
    ensures Sound(k)
    ensures k.m == l.m.(rows := l.m.rows + Ids(l.m.server.uv, got),
                        sync := Updating(Delivery(true, CursorNow(l.m.server), l.m.base, map[u := f]), None, map[u := f]))
  {
    k := DeltaFetch(l, got, u, f);
    k := Go(k, Store);
    k := Go(k, SkipReconcile);
  }

  /** A later cycle that learns one flag change of a message it has no row for. */
  lemma {:induction false} DeltaCycle(l: Log, got: map<nat, Flags>, u: nat, f: Flags) returns (k: Log)
    requires Ready(l) && Delta(l.m, got, u, f)
    requires MsgId(l.m.server.uv, u) !in l.m.rows + Ids(l.m.server.uv, got)
    ensures Sound(k)
    ensures k.m == l.m.(rows := l.m.rows + Ids(l.m.server.uv, got), cursor := Some(CursorNow(l.m.server)))
  {
    k := DeltaStored(l, got, u, f);
    k := Go(k, UpdateFlags(u));
    assert k.m.sync.todo == map[];
    k := Go(k, PutCursor);
  }

  /** Starts a pull and lets the producer ask for its first chunk. */
  lemma {:induction false} BeginPull(l: Log, anew: bool, a: nat) returns (k: Log)
    requires Sound(l) && ValidServer(l.m.server) && CanStep(l.m, PullStarts(anew, a))
    ensures Sound(k) && Extends(l, k)
    ensures k.m == l.m.(
      pull := Some(P.Start(a).(producer := P.Fetching(a, 0))), gap := false,
      history := Some(HistoryRow(P.Running, a)),
      began := if anew then TakenNow(l.m, a) else l.m.began)
  {
    var begun := Go(l, PullStarts(anew, a));
    k := PullGoes(begun, P.StartFetch);
    ExtendsBoth(l, begun, k);
  }

  /** The chunk in the producer's hands is stored and recorded. */
  ghost predicate Lands(m: State, c: P.Chunk, n: State)
    requires m.pull.Some? && m.history.Some?
  {
    var stops := P.IsStuck(c, m.pull.value.last);
    && n == m.(rows := c.headers + m.rows, pull := n.pull, history := Some(m.history.value.(anchor := c.next)))
    && n.pull.Some? && n.pull.value.channel.None? && !n.pull.value.cancel
    && n.pull.value.producer == (if stops then P.Gone else P.Loop(c.next, 0))
    && n.pull.value.consumer == (if stops then P.Closing else P.Receiving)
    && n.pull.value.last == c.next && n.pull.value.stuck == stops
  }

  /** One chunk through the channel and into the store and the history row. */
  lemma {:induction false} LandChunk(l: Log, c: P.Chunk) returns (k: Log)
    requires Ready(l) && l.m.pull.Some? && l.m.history.Some?
    requires l.m.pull.value.producer == P.Sending(c, P.IsStuck(c, l.m.pull.value.last))
    requires l.m.pull.value.channel.None? && l.m.pull.value.consumer.Receiving? && !l.m.pull.value.cancel
    ensures Sound(k) && Extends(l, k) && Lands(l.m, c, k.m)
  {
    ExtendsChains();
    k := PullGoes(l, P.Send);
    k := PullGoes(k, P.Receive);
    k := PullGoes(k, P.Persist);
    k := PullGoes(k, P.Record);
  }

  /** The pull ends: the producer returns, the consumer sees the channel close. */
  lemma {:induction false} Finish(l: Log) returns (k: Log)
    requires Ready(l) && l.m.pull.Some? && l.m.history.Some? && !l.m.pull.value.cancel
    requires l.m.pull.value.channel.None? && l.m.pull.value.last <= 1
    requires l.m.pull.value.producer == P.Loop(l.m.pull.value.last, 0) && l.m.pull.value.consumer.Receiving?
    ensures Sound(k) && Extends(l, k) && !PullLocks(k.m)
    ensures k.m == l.m.(pull := k.m.pull, history := Some(l.m.history.value.(status := P.Completed)))
  {
    ExtendsChains();
    k := PullGoes(l, P.ProducerReturns);
    k := PullGoes(k, P.ChannelClosed);
    k := PullGoes(k, P.Close);
  }

  const U: Flags := {}

  /** A chunk of one message, fetched and waiting to be sent. */
  lemma {:induction false} HoldChunk(l: Log, u: nat) returns (k: Log)
    requires Sound(l) && ValidServer(l.m.server) && !l.m.gap && l.m.pull.Some?
    requires l.m.pull.value.producer.Fetching? && PullAnchor(l.m) <= U32_MAX
    requires FetchesChunk(l.m.server, PullAnchor(l.m), map[MsgId(l.m.server.uv, u) := U])
    ensures Sound(k)
    ensures k.m.pull.Some? && k.m == l.m.(pull := k.m.pull)
    ensures k.m.pull.value == l.m.pull.value.(
      producer := P.Sending(P.Chunk(map[MsgId(l.m.server.uv, u) := U], u), false), log := k.m.pull.value.log)
  {
    var h: Rows := map[MsgId(l.m.server.uv, u) := U];
    assert MsgId(l.m.server.uv, u) in h;
    k := Go(l, ChunkFetched(h, u));
  }

  const TWO := Server(1, 3, 1, map[1 := Msg(U, 1), 2 := Msg(U, 1)])

  lemma OneRow(rows: Rows, uv: nat, u: nat, f: Flags)
    ensures rows + Ids(uv, map[u := f]) == rows[MsgId(uv, u) := f]
  {
  }

  lemma {:induction false} MirrorTwo() returns (l: Log)
    ensures Sound(l)
    ensures l.m == Empty(TWO).(rows := map[MsgId(1, 2) := U], cursor := Some(CursorNow(TWO)), base := 2)
  {
    OneRow(map[], 1, 2, U);
    l := InitialCycle(Begin(Empty(TWO)), 1, map[2 := U]);
  }

  /** UID 2 mirrored from base 2; UID 1 fetched by the pull but not yet stored. */
  lemma {:induction false} PullHoldsOne() returns (l: Log)
    ensures Ready(l) && !l.m.gap && l.m.server == TWO && l.m.base == 2
    ensures l.m.rows == map[MsgId(1, 2) := U] && l.m.cursor == Some(CursorNow(TWO))
    ensures l.m.history.Some? && Offers(l.m, P.Chunk(map[MsgId(1, 1) := U], 1), 2, false)
  {
    l := MirrorTwo();
    l := BeginPull(l, true, 2);
    l := HoldChunk(l, 1);
  }

  /** Below the base the pull can lose a flag change for good: it fetched the
      chunk before the change and stored it after a cycle had moved the cursor's
      modseq past it. */
  lemma {:induction false} FlagLostBelowBase() returns (l: Log, u: nat)
    ensures Sound(l) && l.m.sync.Idle?
    ensures u in l.m.server.msgs && u < l.m.base && MsgId(l.m.server.uv, u) in l.m.rows
    ensures l.m.cursor == Some(CursorNow(l.m.server))
    ensures l.m.rows[MsgId(l.m.server.uv, u)] != l.m.server.msgs[u].flags
  {
    u := 1;
    l := PullHoldsOne();
    l := Go(l, ServerMoves(SetFlags(1, {Seen})));
    l := DeltaCycle(l, map[2 := U], 1, {Seen});
    l := LandChunk(l, P.Chunk(map[MsgId(1, 1) := U], 1));
    assert Seen in l.m.server.msgs[1].flags;
  }

  ghost predicate CompletedHere(m: State) {
    m.history.Some? && m.history.value.status == P.Completed
  }

  /** `k` is `l` run on, with the pull that starts at `a` as its latest. */
  ghost predicate RunsOn(l: Log, a: nat, k: Log) {
    Sound(k) && Extends(l, k) && k.m.began == TakenNow(l.m, a)
  }

  /** That pull has completed in the UIDVALIDITY it started in. */
  ghost predicate Completes(l: Log, a: nat, k: Log) {
    RunsOn(l, a, k) && CompletedHere(k.m) && Stable(k.m)
  }

  ghost predicate Hole(m: State, u: nat) {
    && u in m.server.msgs && MsgId(m.server.uv, u) !in m.rows
    && m.cursor == Some(CursorNow(m.server)) && u < m.cursor.value.uidnext
  }

  /** A pull whose first chunk is ready to be sent. */
  ghost predicate Offers(m: State, c: P.Chunk, a: nat, stops: bool) {
    m.pull.Some? && m.pull.value == P.Start(a).(producer := P.Sending(c, stops), log := m.pull.value.log)
  }

  // ---------- across a reset ----------

  const ONE := Server(1, 4, 1, map[2 := Msg(U, 1), 3 := Msg(U, 1)])

  const THREE := Server(2, 4, 1, map[1 := Msg(U, 1), 2 := Msg(U, 1), 3 := Msg(U, 1)])

  function Synced(s: Server, uid: nat, base: nat): State {
    Empty(s).(rows := map[MsgId(s.uv, uid) := U], cursor := Some(CursorNow(s)), base := base)
  }

  function PulledFrom(m: State, a: nat): State {
    m.(history := Some(HistoryRow(P.Running, a)), began := TakenNow(m, 3))
  }

  lemma {:induction false} SyncedThree() returns (l: Log)
    ensures Sound(l) && l.m == Synced(ONE, 3, 3)
  {
    OneRow(map[], 1, 3, U);
    l := InitialCycle(Begin(Empty(ONE)), 1, map[3 := U]);
  }

  lemma {:induction false} HoldsTwo() returns (l: Log)
    ensures Sound(l) && l.m == PulledFrom(Synced(ONE, 3, 3), 3).(pull := l.m.pull)
    ensures Offers(l.m, P.Chunk(map[MsgId(1, 2) := U], 2), 3, false)
  {
    l := SyncedThree();
    l := BeginPull(l, true, 3);
    l := HoldChunk(l, 2);
  }

  lemma {:induction false} LandsTwo() returns (l: Log)
    ensures Sound(l)
    ensures l.m == PulledFrom(Synced(ONE, 3, 3), 2).(
                     rows := map[MsgId(1, 2) := U, MsgId(1, 3) := U], pull := l.m.pull)
  {
    l := HoldsTwo();
    l := LandChunk(l, P.Chunk(map[MsgId(1, 2) := U], 2));
  }

  /** Anchor 2 persisted under UIDVALIDITY 1, then a restart. */
  lemma {:induction false} PulledTwo() returns (l: Log)
    ensures Sound(l)
    ensures l.m == PulledFrom(Synced(ONE, 3, 3), 2).(rows := map[MsgId(1, 2) := U, MsgId(1, 3) := U])
  {
    l := LandsTwo();
    l := Go(l, Cut);
  }

  /** The same after a reset and the recovery cycle, which starts over from 3. */
  lemma {:induction false} AfterReset() returns (l: Log)
    ensures Sound(l) && l.m == Recovered()
  {
    l := PulledTwo();
    l := Go(l, ServerMoves(Reset(THREE)));
    OneRow(l.m.rows, 2, 3, U);
    l := RecoveryCycle(l, 1, map[3 := U]);
  }

  function Recovered(): State {
    PulledFrom(Synced(ONE, 3, 3), 2).(
      server := THREE, rows := map[MsgId(1, 2) := U, MsgId(1, 3) := U, MsgId(2, 3) := U],
      cursor := Some(CursorNow(THREE)))
  }

  lemma {:induction false} Resumed() returns (l: Log)
    ensures Sound(l)
    ensures l.m == Recovered().(pull := l.m.pull)
    ensures Offers(l.m, P.Chunk(map[MsgId(2, 1) := U], 1), 2, false)
  {
    l := AfterReset();
    l := BeginPull(l, false, 2);
    l := HoldChunk(l, 1);
  }

  lemma StartOfThree()
    ensures Rooted(TakenNow(Synced(ONE, 3, 3), 3)) && Unbroken(TakenNow(Synced(ONE, 3, 3), 3))
  {
    assert MsgId(1, 3) in TakenNow(Synced(ONE, 3, 3), 3).rows;
  }

  /** A pull resumed after a UIDVALIDITY reset trusts an anchor of the old UID
      space and completes over a hole, although nothing was wrong at its start. */
  lemma {:induction false} HoleAfterReset() returns (l: Log, u: nat)
    ensures Sound(l) && CompletedHere(l.m) && Rooted(l.m.began) && Unbroken(l.m.began) && !Stable(l.m)
    ensures Hole(l.m, u) && u < l.m.began.anchor
  {
    u := 2;
    l := Resumed();
    l := LandChunk(l, P.Chunk(map[MsgId(2, 1) := U], 1));
    l := Finish(l);
    StartOfThree();
  }

  // ---------- below the base ----------

  const FIRST := Server(1, 2, 1, map[1 := Msg(U, 1)])

  lemma {:induction false} FirstSyncCut() returns (l: Log)
    ensures Sound(l)
    ensures l.m == Empty(FIRST).(rows := map[MsgId(1, 1) := U])
  {
    l := Begin(Empty(FIRST));
    OneRow(map[], 1, 1, U);
    l := InitialFetch(l, 1, map[1 := U]);
    l := Go(l, Cut);
  }

  const GROWN := Server(1, 4, 3, map[1 := Msg(U, 1), 2 := Msg(U, 2), 3 := Msg(U, 3)])

  lemma {:induction false} TwoArrive() returns (l: Log)
    ensures Sound(l) && l.m == Empty(FIRST).(server := GROWN, rows := map[MsgId(1, 1) := U])
  {
    l := FirstSyncCut();
    l := Go(l, ServerMoves(Append(2, U)));
    l := Go(l, ServerMoves(Append(3, U)));
  }

  lemma {:induction false} SecondSync() returns (l: Log)
    ensures Sound(l)
    ensures l.m == Empty(FIRST).(server := GROWN, rows := map[MsgId(1, 1) := U, MsgId(1, 3) := U],
                                 cursor := Some(CursorNow(GROWN)), base := 3)
  {
    l := TwoArrive();
    OneRow(l.m.rows, 1, 3, U);
    l := InitialCycle(l, 1, map[3 := U]);
  }

  /** A first sync cut before its cursor write leaves a row below the later base;
      a pull started at the lowest local UID completes at once over the hole that
      was there when it started. */
  lemma {:induction false} HoleBelowBase() returns (l: Log, u: nat)
    ensures Sound(l) && CompletedHere(l.m) && Stable(l.m)
    ensures Rooted(l.m.began) && FoundCursor(l.m.began) && !Unbroken(l.m.began)
    ensures Hole(l.m, u)
  {
    u := 2;
    l := SecondSync();
    l := Go(l, PullTrivial(1));
    assert MsgId(1, 1) in l.m.began.rows;
    assert u in l.m.began.server.msgs && MsgId(1, u) !in l.m.began.rows;
  }

  // ---------- from above UIDNEXT ----------

  lemma {:induction false} ServerGoes(l: Log, se: ServerEvent) returns (k: Log)
    requires Sound(l) && ValidServer(l.m.server) && Enabled(l.m.server, se) && !se.Reset?
    ensures Sound(k) && Extends(l, k) && k.m == l.m.(server := After(l.m.server, se))
  {
    k := Go(l, ServerMoves(se));
  }

  /** Other clients expunge everything but `keep`. */
  lemma {:induction false} ExpungeAllBut(l: Log, keep: set<nat>) returns (k: Log)
    requires Sound(l) && ValidServer(l.m.server)
    ensures Sound(k) && Extends(l, k) && ValidServer(k.m.server) && k.m == l.m.(server := k.m.server)
    ensures k.m.server.uv == l.m.server.uv && k.m.server.uidnext == l.m.server.uidnext
    ensures k.m.server.msgs.Keys == l.m.server.msgs.Keys * keep
    decreases l.m.server.msgs.Keys - keep
  {
    k := l;
    if u :| u in l.m.server.msgs && u !in keep {
      var less := ServerGoes(l, Expunge(u));
      assert u in l.m.server.msgs.Keys - keep;
      assert less.m.server.msgs.Keys - keep <= (l.m.server.msgs.Keys - keep) - {u};
      k := ExpungeAllBut(less, keep);
      ExtendsBoth(l, less, k);
    }
  }

  function Fetching(a: nat): Option<P.State> {
    Some(P.Start(a).(producer := P.Fetching(a, 0)))
  }

  /** The pull is out for its first chunk and no cycle is under way. */
  predicate Asks(m: State, a: nat) {
    m.sync.Idle? && m.pull == Fetching(a) && !m.gap && m.history == Some(HistoryRow(P.Running, a))
  }

  /** How things stand then in a run that has only started the pull. */
  function StartedFrom(m: State, a: nat): State {
    m.(sync := Idle, pull := Fetching(a), gap := false,
       history := Some(HistoryRow(P.Running, a)), began := TakenNow(m, a))
  }

  lemma {:induction false} BeginQuietly(l: Log, a: nat) returns (k: Log)
    requires Sound(l) && ValidServer(l.m.server) && CanStep(l.m, PullStarts(true, a))
    ensures Sound(k) && Extends(l, k) && k.m == StartedFrom(l.m, a)
  {
    k := BeginPull(l, true, a);
    if !k.m.sync.Idle? {
      var begun := k;
      k := Go(begun, SyncEnds);
      ExtendsBoth(l, begun, k);
    }
  }

  /** The pull's first fetch finds nothing: no kept message is in its chunk. */
  lemma {:induction false} FetchesNothing(l: Log, a: nat, keep: set<nat>) returns (k: Log)
    requires Sound(l) && ValidServer(l.m.server) && Asks(l.m, a) && a <= U32_MAX
    requires forall u | u in keep :: u in l.m.server.msgs && (a <= u || u < Low(a))
    ensures Sound(k) && Extends(l, k) && ValidServer(k.m.server)
    ensures k.m == l.m.(server := k.m.server, gap := true)
    ensures k.m.server.uv == l.m.server.uv && k.m.server.uidnext == l.m.server.uidnext
    ensures k.m.server.msgs.Keys == keep
  {
    var emptied := ExpungeAllBut(l, keep);
    k := Go(emptied, ChunkEmpty);
    ExtendsBoth(l, emptied, k);
  }

  lemma {:induction false} Arrives(l: Log, u: nat) returns (k: Log)
    requires Sound(l) && ValidServer(l.m.server) && l.m.server.uidnext <= u
    ensures Sound(k) && Extends(l, k) && ValidServer(k.m.server) && k.m == l.m.(server := k.m.server)
    ensures k.m.server.uv == l.m.server.uv && k.m.server.uidnext == u + 1
    ensures forall v :: v in k.m.server.msgs <==> v in l.m.server.msgs || v == u
  {
    k := ServerGoes(l, Append(u, U));
  }

  /** The gap search answers `next`. */
  lemma {:induction false} SearchAnswers(l: Log, a: nat, next: nat) returns (k: Log)
    requires Sound(l) && ValidServer(l.m.server) && l.m.pull == Fetching(a) && l.m.gap
    requires SkipsGapTo(l.m.server, a, next)
    ensures Sound(k) && Extends(l, k) && k.m == l.m.(pull := k.m.pull, gap := false)
    ensures Offers(k.m, P.Chunk(map[], next), a, next >= a)
  {
    k := Go(l, GapSearched(next));
  }

  lemma NoHeaders(rows: Rows)
    ensures map[] + rows == rows
  {
  }

  /** The first fetch finds nothing; then a message arrives just below the anchor. */
  lemma {:induction false} SearchMeetsArrival(l: Log, a: nat, keep: set<nat>) returns (k: Log)
    requires Sound(l) && ValidServer(l.m.server) && Asks(l.m, a) && l.m.server.uidnext < a <= U32_MAX
    requires forall u | u in keep :: u in l.m.server.msgs && u < Low(a)
    ensures Sound(k) && Extends(l, k) && ValidServer(k.m.server)
    ensures k.m == l.m.(server := k.m.server, gap := true)
    ensures k.m.server.uv == l.m.server.uv && forall u :: u in k.m.server.msgs <==> u in keep || u == a - 1
  {
    var quiet := FetchesNothing(l, a, keep);
    k := Arrives(quiet, a - 1);
    ExtendsBoth(l, quiet, k);
  }

  /** From any start above UIDNEXT there is a run that ends Completed with the
      anchor where it was, a live message below it missing, and any messages below
      the pull's first chunk as they were. */
  lemma {:induction false} UnsaneRun(l: Log, a: nat, keep: set<nat>) returns (k: Log)
    requires Sound(l) && CanStep(l.m, PullStarts(true, a)) && l.m.server.uidnext < a <= U32_MAX
    requires forall u | u in keep :: u in l.m.server.msgs && u < Low(a)
    ensures Completes(l, a, k)
    ensures k.m.history.value.anchor == a && k.m.rows == l.m.rows && k.m.cursor == l.m.cursor
    ensures forall u :: u in k.m.server.msgs <==> u in keep || u == a - 1
    ensures MsgId(k.m.server.uv, a - 1) !in k.m.rows
  {
    LogKeeps(l);
    var started := BeginQuietly(l, a);
    var met := SearchMeetsArrival(started, a, keep);
    ExtendsBoth(l, started, met);
    k := SearchStops(met, a);
    ExtendsBoth(l, met, k);
    assert MsgId(l.m.server.uv, a - 1) !in l.m.rows;
  }

  /** The search finds the message that has just arrived and the pull gives up. */
  lemma {:induction false} SearchStops(l: Log, a: nat) returns (k: Log)
    requires Sound(l) && ValidServer(l.m.server) && l.m.pull == Fetching(a) && l.m.gap && l.m.sync.Idle?
    requires a > 0 && a - 1 in l.m.server.msgs && l.m.history.Some?
    ensures Sound(k) && Extends(l, k)
    ensures k.m == l.m.(pull := k.m.pull, gap := false, history := Some(HistoryRow(P.Completed, a)))
  {
    var found := SearchAnswers(l, a, a);
    k := StuckEnds(found, a);
    ExtendsBoth(l, found, k);
  }

  lemma {:induction false} StuckEnds(l: Log, a: nat) returns (k: Log)
    requires Ready(l) && l.m.history.Some? && Offers(l.m, P.Chunk(map[], a), a, true)
    ensures Sound(k) && Extends(l, k)
    ensures k.m == l.m.(pull := k.m.pull, history := Some(HistoryRow(P.Completed, a)))
  {
    assert P.IsStuck(P.Chunk(map[], a), a);
    NoHeaders(l.m.rows);
    var landed := LandChunk(l, P.Chunk(map[], a));
    k := PullGoes(landed, P.Close);
    ExtendsBoth(l, landed, k);
  }

  const NINE := Server(1, 10, 1, map[9 := Msg(U, 1)])

  const BARE := Server(2, 1, 1, map[])

  /** The folder was emptied by a reset: the recovery cycle's listing is empty, so
      the row of the old UIDVALIDITY survives it. */
  function Stale(s: Server): State {
    Empty(NINE).(server := s, rows := map[MsgId(1, 9) := U], cursor := Some(CursorNow(BARE)), base := 1)
  }

  lemma {:induction false} SyncedNine() returns (l: Log)
    ensures Sound(l) && l.m == Synced(NINE, 9, 1)
  {
    OneRow(map[], 1, 9, U);
    l := InitialCycle(Begin(Empty(NINE)), 0, map[9 := U]);
  }

  lemma NoRows(rows: Rows, uv: nat)
    ensures rows + Ids(uv, map[]) == rows
  {
  }

  lemma {:induction false} ResetBare() returns (l: Log)
    ensures Sound(l) && l.m == Synced(NINE, 9, 1).(server := BARE)
  {
    l := SyncedNine();
    l := Go(l, ServerMoves(Reset(BARE)));
  }

  lemma {:induction false} StaleNine() returns (l: Log)
    ensures Sound(l) && l.m == Stale(BARE)
  {
    l := ResetBare();
    NoRows(l.m.rows, 2);
    l := RecoveryCycle(l, 0, map[]);
  }

  /** Such a start exists: a stale row's UID above the new UIDNEXT. The pull takes
      a message that arrives mid-search for exhaustion: Completed with the anchor
      far from the tail, and the message below it missing. */
  lemma {:induction false} CompletedUnexhausted() returns (l: Log, u: nat)
    ensures Sound(l) && CompletedHere(l.m) && Stable(l.m) && Unbroken(l.m.began) && !Sane(l.m)
    ensures l.m.history.value.anchor > 1
    ensures u in l.m.server.msgs && u < l.m.began.anchor && MsgId(l.m.server.uv, u) !in l.m.rows
  {
    u := 8;
    l := StaleNine();
    assert LowestIn(l.m.rows, 9) by { assert MsgId(1, 9) in l.m.rows; }
    l := UnsaneRun(l, 9, {});
  }

  // ---------- over a hole ----------

  /** From any start at or below a hole there is a run that ends Completed with the
      hole still there: everything else is expunged and nothing is left to pull. */
  lemma {:induction false} HoleRun(l: Log, a: nat, u: nat) returns (k: Log)
    requires Sound(l) && CanStep(l.m, PullStarts(true, a)) && a <= U32_MAX
    requires u in l.m.server.msgs && a <= u && MsgId(l.m.server.uv, u) !in l.m.rows
    ensures Completes(l, a, k)
    ensures k.m.cursor == l.m.cursor && k.m.server.uv == l.m.server.uv
    ensures u in k.m.server.msgs && MsgId(k.m.server.uv, u) !in k.m.rows
  {
    LogKeeps(l);
    var started := BeginQuietly(l, a);
    k := NothingBelow(started, a, {u});
    ExtendsBoth(l, started, k);
  }

  lemma {:induction false} NothingBelow(l: Log, a: nat, keep: set<nat>) returns (k: Log)
    requires Sound(l) && ValidServer(l.m.server) && Asks(l.m, a) && 1 < a <= U32_MAX
    requires forall u | u in keep :: u in l.m.server.msgs && a <= u
    ensures Sound(k) && Extends(l, k) && ValidServer(k.m.server) && !PullLocks(k.m)
    ensures k.m == l.m.(server := k.m.server, pull := k.m.pull, history := Some(HistoryRow(P.Completed, 0)))
    ensures k.m.server.uv == l.m.server.uv && k.m.server.uidnext == l.m.server.uidnext
    ensures k.m.server.msgs.Keys == keep
  {
    var quiet := FetchesNothing(l, a, keep);
    var found := SearchAnswers(quiet, a, 0);
    k := NothingLeft(found, a);
    ExtendsBoth(l, quiet, found);
    ExtendsBoth(l, found, k);
  }

  lemma {:induction false} NothingLeft(l: Log, a: nat) returns (k: Log)
    requires Ready(l) && l.m.history.Some? && a > 1 && Offers(l.m, P.Chunk(map[], 0), a, false)
    ensures Sound(k) && Extends(l, k) && !PullLocks(k.m)
    ensures k.m == l.m.(pull := k.m.pull, history := Some(HistoryRow(P.Completed, 0)))
  {
    NoHeaders(l.m.rows);
    var landed := LandChunk(l, P.Chunk(map[], 0));
    k := Finish(landed);
    ExtendsBoth(l, landed, k);
  }

  // ---------- without a cursor ----------

  /** A pull ends over an emptied mailbox; then two messages arrive. */
  lemma {:induction false} TwoAfter(l: Log, a: nat) returns (k: Log)
    requires Sound(l) && ValidServer(l.m.server) && Asks(l.m, a) && 1 < a <= U32_MAX
    ensures Ready(k) && Extends(l, k)
    ensures k.m == l.m.(server := k.m.server, pull := k.m.pull, history := Some(HistoryRow(P.Completed, 0)))
    ensures k.m.server.uv == l.m.server.uv && k.m.server.uidnext == l.m.server.uidnext + 2
    ensures l.m.server.uidnext in k.m.server.msgs && l.m.server.uidnext + 1 in k.m.server.msgs
  {
    var done := NothingBelow(l, a, {});
    var one := Arrives(done, l.m.server.uidnext);
    k := Arrives(one, l.m.server.uidnext + 1);
    ExtendsBoth(l, done, one);
    ExtendsBoth(l, one, k);
  }

  /** A cycle that has no current cursor to go by installs one and brings the
      highest message only. */
  lemma {:induction false} FetchesHighest(l: Log, u: nat) returns (k: Log)
    requires Ready(l) && (l.m.cursor.None? || l.m.cursor.value.uv != l.m.server.uv)
    requires l.m.server.uidnext == u + 1 > 2 && u in l.m.server.msgs
    ensures Sound(k) && Extends(l, k)
    ensures k.m == l.m.(rows := k.m.rows, cursor := Some(CursorNow(l.m.server)), base := u)
    ensures k.m.rows.Keys == l.m.rows.Keys + {MsgId(l.m.server.uv, u)}
  {
    var got := map[u := l.m.server.msgs[u].flags];
    assert FetchesFrom(l.m.server, u, got);
    if l.m.cursor.None? {
      k := InitialCycle(l, 1, got);
    } else {
      k := RecoveryCycle(l, 1, got);
    }
  }

  lemma {:induction false} HighestOverHole(l: Log, a: nat) returns (k: Log)
    requires Sound(l) && Inv(l.m) && Asks(l.m, a) && 1 < a <= U32_MAX
    requires l.m.cursor.None? || l.m.cursor.value.uv != l.m.server.uv
    ensures Sound(k) && Extends(l, k) && k.m.began == l.m.began && k.m.server.uv == l.m.server.uv
    ensures CompletedHere(k.m) && Hole(k.m, l.m.server.uidnext)
  {
    var done := TwoAfter(l, a);
    k := FetchesHighest(done, l.m.server.uidnext + 1);
    ExtendsBoth(l, done, k);
  }

  /** From any start without a current cursor there is a run that ends Completed and
      then gets a cursor over a hole: the cycle that installs it brings only the
      newest of what arrived since. */
  lemma {:induction false} CursorlessRun(l: Log, a: nat) returns (k: Log, u: nat)
    requires Sound(l) && CanStep(l.m, PullStarts(true, a)) && a <= U32_MAX && !CursorCurrent(l.m)
    ensures Completes(l, a, k)
    ensures Hole(k.m, u)
  {
    LogKeeps(l);
    var started := BeginQuietly(l, a);
    LogKeeps(started);
    u := l.m.server.uidnext;
    k := HighestOverHole(started, a);
    ExtendsBoth(l, started, k);
  }
}

/** Exactly when a pull keeps its promises, told by how things stand when it
    starts: over every run that comes from that start. */
module MirrorExact {
  import opened Wrappers
  import opened Imap
  import opened Mirror
  import opened MirrorInvariants
  import opened MirrorStarts
  import opened MirrorTheorems
  import opened MirrorWitnesses
  import P = HistoryPipeline

  /** If the pull completed in the UIDVALIDITY it started in, the tail below its
      start is stored. */
  ghost predicate TailStored(m: State) {
    CompletedHere(m) && Stable(m) ==>
      forall u | u in m.server.msgs && u < m.began.anchor :: MsgId(m.server.uv, u) in m.rows
  }

  /** And nothing at all is missing below a current cursor's UIDNEXT. */
  ghost predicate WholeStored(m: State) {
    CompletedHere(m) && Stable(m) && CursorCurrent(m) ==>
      forall u | u in m.server.msgs && u < m.cursor.value.uidnext :: MsgId(m.server.uv, u) in m.rows
  }

  lemma LogStarts(l: Log)
    requires Sound(l)
    ensures Inv(l.m) && BaseInv(l.m) && StartInv(l.m)
  {
    var ms, es := LogIsRun(l);
    RunStarts(ms, es, |es|);
  }

  lemma SaneStoresTail(k: Log)
    requires Sound(k) && Sane(k.m)
    ensures TailStored(k.m)
  {
    if CompletedHere(k.m) && Stable(k.m) {
      var ms, es := LogIsRun(k);
      forall u | u in k.m.server.msgs && u < k.m.began.anchor ensures MsgId(k.m.server.uv, u) in k.m.rows {
        CompletedMeansAll(ms, es, |es|, u);
      }
    }
  }

  /** A pull started at `a` stores its tail in every run that completes it, if and
      only if `a` is not above UIDNEXT when it starts. */
  lemma CompletedExactly(l: Log, a: nat)
    requires Sound(l) && CanStep(l.m, PullStarts(true, a)) && a <= U32_MAX
    ensures a <= l.m.server.uidnext <==> forall k: Log | RunsOn(l, a, k) :: TailStored(k.m)
  {
    if a <= l.m.server.uidnext {
      forall k: Log | RunsOn(l, a, k) ensures TailStored(k.m) {
        SaneStoresTail(k);
      }
    } else {
      var k := UnsaneRun(l, a, {});
      assert a - 1 in k.m.server.msgs && a - 1 < k.m.began.anchor;
      assert RunsOn(l, a, k) && !TailStored(k.m);
    }
  }

  /** Every chunk fetched for the pull lies below the anchor it was asked for. */
  ghost predicate AnchorDrops(m: State) {
    Stable(m) && m.pull.Some? && Working(m.pull.value) ==>
      forall e: Event | FetchEvent(e) && CanStep(m, e) :: ChunkOf(m, e).next < PullAnchor(m)
  }

  /** The same condition decides whether every chunk moves the anchor down. */
  lemma AnchorFallsExactly(l: Log, a: nat)
    requires Sound(l) && CanStep(l.m, PullStarts(true, a)) && a <= U32_MAX
    ensures a <= l.m.server.uidnext <==> forall k: Log | RunsOn(l, a, k) :: AnchorDrops(k.m)
  {
    if a <= l.m.server.uidnext {
      forall k: Log | RunsOn(l, a, k) ensures AnchorDrops(k.m) {
        SaneDrops(k);
      }
    } else {
      var k := AnchorStays(l, a);
    }
  }

  lemma {:induction false} AnchorStays(l: Log, a: nat) returns (k: Log)
    requires Sound(l) && CanStep(l.m, PullStarts(true, a)) && l.m.server.uidnext < a <= U32_MAX
    ensures RunsOn(l, a, k) && !AnchorDrops(k.m)
  {
    LogKeeps(l);
    var started := BeginQuietly(l, a);
    k := SearchMeetsArrival(started, a, {});
    ExtendsBoth(l, started, k);
    SearchStands(k.m, a);
  }

  lemma SearchStands(m: State, a: nat)
    requires Stable(m) && m.pull == Fetching(a) && m.gap && a > 0 && a - 1 in m.server.msgs
    ensures !AnchorDrops(m)
  {
    var e := GapSearched(a);
    assert FetchEvent(e) && CanStep(m, e) && ChunkOf(m, e).next == PullAnchor(m);
  }

  lemma SaneDrops(k: Log)
    requires Sound(k) && Sane(k.m)
    ensures AnchorDrops(k.m)
  {
    LogKeeps(k);
    if Stable(k.m) && k.m.pull.Some? && Working(k.m.pull.value) {
      forall e: Event | FetchEvent(e) && CanStep(k.m, e) ensures ChunkOf(k.m, e).next < PullAnchor(k.m) {
        FetchFills(k.m, e);
      }
    }
  }

  lemma UnbrokenStoresWhole(k: Log)
    requires Sound(k) && Unbroken(k.m.began)
    ensures WholeStored(k.m)
  {
    if CompletedHere(k.m) && Stable(k.m) && CursorCurrent(k.m) {
      var ms, es := LogIsRun(k);
      forall u | u in k.m.server.msgs && u < k.m.cursor.value.uidnext ensures MsgId(k.m.server.uv, u) in k.m.rows {
        WholeFolderMirrored(ms, es, |es|, u);
      }
    }
  }

  lemma {:induction false} BrokenLeavesHole(l: Log, a: nat) returns (k: Log)
    requires Sound(l) && CanStep(l.m, PullStarts(true, a)) && a <= U32_MAX
    requires !Unbroken(TakenNow(l.m, a))
    ensures RunsOn(l, a, k) && !WholeStored(k.m)
  {
    if !CursorCurrent(l.m) {
      var v;
      k, v := CursorlessRun(l, a);
    } else {
      k := PassedOverStays(l, a);
    }
  }

  lemma {:induction false} PassedOverStays(l: Log, a: nat) returns (k: Log)
    requires Sound(l) && CanStep(l.m, PullStarts(true, a)) && a <= U32_MAX
    requires CursorCurrent(l.m) && !Unbroken(TakenNow(l.m, a))
    ensures RunsOn(l, a, k) && !WholeStored(k.m)
  {
    LogStarts(l);
    var u :| u in l.m.server.msgs && u < l.m.base && PassedOver(TakenNow(l.m, a), u)
             && MsgId(l.m.server.uv, u) !in l.m.rows;
    if a <= u {
      k := HoleRun(l, a, u);
    } else {
      k := UnsaneRun(l, a, {u});
    }
    assert u in k.m.server.msgs && u < k.m.cursor.value.uidnext && MsgId(k.m.server.uv, u) !in k.m.rows;
  }

  /** A pull started at `a` leaves nothing missing under a current cursor in any run
      that completes it, if and only if the cursor is current when it starts and no
      live message below the base that the pull may pass over is missing then. */
  lemma WholeExactly(l: Log, a: nat)
    requires Sound(l) && CanStep(l.m, PullStarts(true, a)) && a <= U32_MAX
    ensures Unbroken(TakenNow(l.m, a)) <==> forall k: Log | RunsOn(l, a, k) :: WholeStored(k.m)
  {
    if Unbroken(TakenNow(l.m, a)) {
      forall k: Log | RunsOn(l, a, k) ensures WholeStored(k.m) {
        UnbrokenStoresWhole(k);
      }
    } else {
      var k := BrokenLeavesHole(l, a);
    }
  }

  // ---------- a hole stays ----------

  /** `u` is live and some later message is too. */
  predicate NotHighest(s: Server, u: nat) {
    u in s.msgs && exists v :: v in s.msgs && u < v
  }

  predicate Lacks(headers: Rows, id: MsgId) {
    id !in headers
  }

  /** Nothing the pull has in hand or will ask for reaches up to `id`. */
  predicate PullBelow(p: P.State, id: MsgId) {
    && (match p.producer
        case Loop(a, _) => a <= id.uid
        case Fetching(a, _) => a <= id.uid
        case Sending(c, _) => c.next <= id.uid && Lacks(c.headers, id)
        case SendingFailure(_) => true
        case Gone => true)
    && (p.channel.Some? && p.channel.value.Pulled? ==>
          p.channel.value.chunk.next <= id.uid && Lacks(p.channel.value.chunk.headers, id))
    && (p.consumer.Persisting? || p.consumer.Recording? ==>
          p.consumer.chunk.next <= id.uid && Lacks(p.consumer.chunk.headers, id))
  }

  /** A message below the cursor's UIDNEXT that is missing, and that neither the
      cycle nor the pull has in hand. */
  ghost predicate Missing(m: State, u: nat) {
    var id := MsgId(m.server.uv, u);
    && CursorCurrent(m) && u < m.cursor.value.uidnext && id !in m.rows
    && (m.sync.Fetched? || m.sync.Delivered? ==> u !in m.sync.got)
    && (m.pull.Some? ==> PullBelow(m.pull.value, id))
    && (m.history.Some? ==> m.history.value.anchor <= u)
  }

  lemma CycleLeavesMissing(m: State, e: Event, n: State, u: nat)
    requires Inv(m) && BaseInv(m) && Step(m, e, n) && CycleEvent(e)
    requires Missing(m, u) && NotHighest(m.server, u)
    ensures Missing(n, u)
  {
    BaseStays(m, e, n);
    if e.FetchNew? {
      var v :| v in m.server.msgs && u < v;
    }
  }

  lemma ChunkLeavesMissing(m: State, e: Event, u: nat)
    requires FetchEvent(e) && CanStep(m, e) && Missing(m, u) && PullAnchor(m) > 1
    ensures ChunkOf(m, e).next <= u && Lacks(ChunkOf(m, e).headers, MsgId(m.server.uv, u))
  {
    assert PullAnchor(m) <= u;
  }

  lemma SentLeavesMissing(p: P.State, c: P.Chunk, id: MsgId)
    requires p.producer.Fetching? && PullBelow(p, id) && c.next <= id.uid && Lacks(c.headers, id)
    ensures PullBelow(P.Apply(p, P.FetchOk(c)), id)
  {
  }

  lemma FetchLeavesMissing(m: State, e: Event, n: State, u: nat)
    requires Inv(m) && Step(m, e, n) && FetchEvent(e)
    requires Missing(m, u)
    ensures Missing(n, u)
  {
    FetchFrame(m, e, n);
    ChunkLeavesMissing(m, e, u);
    SentLeavesMissing(m.pull.value, ChunkOf(m, e), MsgId(m.server.uv, u));
  }

  lemma FetchFrame(m: State, e: Event, n: State)
    requires Inv(m) && Step(m, e, n) && FetchEvent(e)
    ensures PullAnchor(m) > 1
    ensures n == m.(pull := Some(P.Apply(m.pull.value, P.FetchOk(ChunkOf(m, e)))), gap := false)
  {
  }

  lemma PipelineLeavesMissing(p: P.State, pe: P.Event, q: P.State, id: MsgId)
    requires PullBelow(p, id) && P.CanStep(p, pe) && q == P.Apply(p, pe) && !pe.FetchOk?
    ensures PullBelow(q, id)
  {
  }

  lemma PullLeavesMissing(m: State, e: Event, n: State, u: nat)
    requires Step(m, e, n) && e.PullMoves? && Missing(m, u)
    ensures Missing(n, u)
  {
    PipelineLeavesMissing(m.pull.value, e.pe, n.pull.value, MsgId(m.server.uv, u));
  }

  lemma OthersLeaveMissing(m: State, e: Event, n: State, u: nat)
    requires Step(m, e, n) && !CycleEvent(e) && !FetchEvent(e) && !e.PullMoves?
    requires NewStart(e) ==> e.anchor <= u
    requires Missing(m, u) && n.server.uv == m.server.uv
    ensures Missing(n, u)
  {
  }

  lemma StepLeavesMissing(m: State, e: Event, n: State, u: nat)
    requires Inv(m) && BaseInv(m) && Step(m, e, n) && (NewStart(e) ==> e.anchor <= u)
    requires Missing(m, u) && NotHighest(m.server, u) && n.server.uv == m.server.uv
    ensures Missing(n, u)
  {
    if CycleEvent(e) {
      CycleLeavesMissing(m, e, n, u);
    } else if FetchEvent(e) {
      FetchLeavesMissing(m, e, n, u);
    } else if e.PullMoves? {
      PullLeavesMissing(m, e, n, u);
    } else {
      OthersLeaveMissing(m, e, n, u);
    }
  }

  lemma StartFindsMissing(m: State, e: Event, n: State, u: nat)
    requires Step(m, e, n) && NewStart(e) && e.anchor <= u && CursorCurrent(m) && u < m.cursor.value.uidnext
    requires m.sync.Fetched? || m.sync.Delivered? ==> u !in m.sync.got
    requires MsgId(m.server.uv, u) !in m.rows
    ensures Missing(n, u)
  {
  }

  lemma MissingStays(ms: seq<State>, es: seq<Event>, k: nat, u: nat)
    requires IsRun(ms, es) && k < |es| && (NewStart(es[k]) ==> es[k].anchor <= u)
    requires Missing(ms[k], u) && NotHighest(ms[k].server, u) && ms[k + 1].server.uv == ms[k].server.uv
    ensures Missing(ms[k + 1], u)
  {
    RunStarts(ms, es, k);
    assert Step(ms[k], es[k], ms[k + 1]);
    StepLeavesMissing(ms[k], es[k], ms[k + 1], u);
  }

  /** No pull starts anew from above `u`. */
  predicate NoneFromAbove(es: seq<Event>, j: nat, k: nat, u: nat)
    requires k <= |es|
  {
    forall i | j <= i < k :: NewStart(es[i]) ==> es[i].anchor <= u
  }

  /** `u` is live and not the highest at `i`, in the UIDVALIDITY of `j`. */
  predicate StillBelow(ms: seq<State>, j: nat, i: nat, u: nat)
    requires j < i < |ms|
  {
    ms[i].server.uv == ms[j].server.uv && NotHighest(ms[i].server, u)
  }

  predicate StaysBelow(ms: seq<State>, j: nat, k: nat, u: nat)
    requires j < k < |ms|
  {
    forall i | j < i <= k :: StillBelow(ms, j, i, u)
  }

  /** From a fresh start on, what is missing at or above its anchor and below the
      cursor's UIDNEXT, and not in the hands of a cycle, stays missing for as long
      as it is live, not the highest message, which a fetch of `n:*` would bring,
      and no pull starts anew from above it. */
  lemma {:induction false} HolesStay(ms: seq<State>, es: seq<Event>, j: nat, k: nat, u: nat)
    requires IsRun(ms, es) && j < k <= |es| && NewStart(es[j])
    requires NoneFromAbove(es, j, k, u) && StaysBelow(ms, j, k, u)
    requires ms[j].sync.Fetched? || ms[j].sync.Delivered? ==> u !in ms[j].sync.got
    requires CursorCurrent(ms[j]) && u < ms[j].cursor.value.uidnext
    requires MsgId(ms[j].server.uv, u) !in ms[j].rows
    ensures Missing(ms[k], u) && MsgId(ms[k].server.uv, u) !in ms[k].rows
    decreases k
  {
    if k - 1 == j {
      assert StillBelow(ms, j, k, u);
      assert Step(ms[j], es[j], ms[k]);
      StartFindsMissing(ms[j], es[j], ms[k], u);
    } else {
      HolesStay(ms, es, j, k - 1, u);
      assert StillBelow(ms, j, k - 1, u) && StillBelow(ms, j, k, u);
      MissingStays(ms, es, k - 1, u);
    }
  }
}

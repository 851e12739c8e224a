/** The promises of the folder mirror, for every run, and runs that show why
    each condition in them is needed. */
module MirrorTheorems {
  import opened Wrappers
  import opened Imap
  import opened Mirror
  import opened MirrorInvariants
  import opened MirrorStarts
  import P = HistoryPipeline

  /** No message above the base is ever skipped, whatever was cut or reset. */
  lemma ArrivalHolds(ms: seq<State>, es: seq<Event>, k: nat, u: nat)
    requires IsRun(ms, es) && k <= |es| && CursorCurrent(ms[k])
    requires u in ms[k].server.msgs && ms[k].base <= u < ms[k].cursor.value.uidnext
    ensures MsgId(ms[k].server.uv, u) in ms[k].rows
  {
    RunKeeps(ms, es, k);
  }

  /** No flag change is lost: once the cursor's modseq has reached a change, a
      local row at or above the base shows it. */
  lemma NoFlagChangeLost(ms: seq<State>, es: seq<Event>, k: nat, u: nat)
    requires IsRun(ms, es) && k <= |es| && CursorCurrent(ms[k])
    requires u in ms[k].server.msgs && ms[k].base <= u
    requires MsgId(ms[k].server.uv, u) in ms[k].rows
    requires ms[k].server.msgs[u].modseq <= ms[k].cursor.value.hms
    ensures ms[k].rows[MsgId(ms[k].server.uv, u)] == ms[k].server.msgs[u].flags
  {
    RunKeeps(ms, es, k);
  }

  /** The listing a cycle carries was the server's live set when this very cycle
      asked: it has been running ever since. */
  lemma {:induction false} ListedWhen(ms: seq<State>, es: seq<Event>, k: nat) returns (j: nat)
    requires IsRun(ms, es) && k <= |es|
    requires ms[k].sync.Known? || ms[k].sync.Pruning? || (ms[k].sync.Updating? && ms[k].sync.listed.Some?)
    ensures j < k && es[j] == ListKnown
    ensures forall i | j <= i <= k :: !ms[i].sync.Idle?
    ensures LiveIds(ms[j].server) ==
      if ms[k].sync.Updating? then ms[k].sync.listed.value else ms[k].sync.ids
  {
    assert Step(ms[k - 1], es[k - 1], ms[k]);
    if es[k - 1] == ListKnown {
      j := k - 1;
    } else {
      ListedBefore(ms[k - 1], es[k - 1], ms[k]);
      j := ListedWhen(ms, es, k - 1);
    }
  }

  lemma ListedBefore(m: State, e: Event, n: State)
    requires Step(m, e, n) && !e.ListKnown?
    requires n.sync.Known? || n.sync.Pruning? || (n.sync.Updating? && n.sync.listed.Some?)
    ensures m.sync.Known? || m.sync.Pruning? || (m.sync.Updating? && m.sync.listed.Some?)
    ensures (if m.sync.Updating? then m.sync.listed.value else m.sync.ids) ==
            (if n.sync.Updating? then n.sync.listed.value else n.sync.ids)
  {
  }

  /** When a cycle that got a listing stores its cursor, every local id was live
      when that cycle took its listing; in particular no row of an older
      UIDVALIDITY is left. */
  lemma {:induction false} CyclePrunes(ms: seq<State>, es: seq<Event>, k: nat) returns (j: nat)
    requires IsRun(ms, es) && k < |es| && es[k] == PutCursor
    requires ms[k].sync.Updating? && ms[k].sync.listed.Some?
    ensures j < k && es[j] == ListKnown
    ensures forall i | j <= i <= k :: !ms[i].sync.Idle?
    ensures forall id | id in ms[k + 1].rows :: Live(ms[j].server, id) && id.uv == ms[j].server.uv
  {
    RunKeeps(ms, es, k);
    assert Step(ms[k], es[k], ms[k + 1]);
    j := ListedWhen(ms, es, k);
  }

  // ---------- the history pull ----------

  /** Safe resume: whatever was cut, cancelled or retried, the store holds every
      live UID from the persisted anchor up to where the pull first started. */
  lemma PulledRangeStored(ms: seq<State>, es: seq<Event>, k: nat, u: nat)
    requires IsRun(ms, es) && k <= |es| && ms[k].history.Some? && Stable(ms[k])
    requires u in ms[k].server.msgs
    requires ms[k].history.value.anchor <= u < ms[k].began.anchor && u < ms[k].began.server.uidnext
    ensures MsgId(ms[k].server.uv, u) in ms[k].rows
  {
    RunKeeps(ms, es, k);
  }

  /** Completed means the whole tail below the start is stored, for a pull that set
      out from inside the UID space of its day. */
  lemma CompletedMeansAll(ms: seq<State>, es: seq<Event>, k: nat, u: nat)
    requires IsRun(ms, es) && k <= |es| && ms[k].history.Some?
    requires ms[k].history.value.status == P.Completed && Stable(ms[k]) && Sane(ms[k])
    requires u in ms[k].server.msgs && u < ms[k].began.anchor
    ensures MsgId(ms[k].server.uv, u) in ms[k].rows
  {
    RunKeeps(ms, es, k);
  }

  /** It did if it found a row of the UIDVALIDITY of the day. */
  lemma RootedMeansAll(ms: seq<State>, es: seq<Event>, k: nat, u: nat)
    requires IsRun(ms, es) && k <= |es| && ms[k].history.Some?
    requires ms[k].history.value.status == P.Completed && Stable(ms[k]) && Rooted(ms[k].began)
    requires u in ms[k].server.msgs && u < ms[k].began.anchor
    ensures MsgId(ms[k].server.uv, u) in ms[k].rows
  {
    RunStarts(ms, es, k);
    RootedIsSane(ms[k]);
    CompletedMeansAll(ms, es, k, u);
  }

  lemma LowGrows(a: nat, b: nat)
    requires a <= b
    ensures Low(a) <= Low(b)
  {
  }

  /** Whatever is missing below the cursor's UIDNEXT after a completed pull was
      live and missing when the pull started, below the base and where the pull may
      pass over it: at or above its start, unless that was above UIDNEXT. */
  lemma HolesWereThere(ms: seq<State>, es: seq<Event>, k: nat, u: nat)
    requires IsRun(ms, es) && k <= |es| && ms[k].history.Some?
    requires ms[k].history.value.status == P.Completed && Stable(ms[k])
    requires FoundCursor(ms[k].began) && CursorCurrent(ms[k])
    requires u in ms[k].server.msgs && u < ms[k].cursor.value.uidnext
    requires MsgId(ms[k].server.uv, u) !in ms[k].rows
    ensures var b := ms[k].began;
            PassedOver(b, u) && u < b.base && u in b.server.msgs && MsgId(b.server.uv, u) !in b.rows
  {
    RunStarts(ms, es, k);
    if ms[k].base <= u {
      ArrivalHolds(ms, es, k, u);
    }
    if u < ms[k].began.anchor {
      LowGrows(ms[k].history.value.anchor, ms[k].began.anchor);
      assert u < ms[k].history.value.anchor;
    }
  }

  /** So a completed pull that started over an unbroken store leaves nothing below
      the cursor's UIDNEXT missing. */
  lemma WholeFolderMirrored(ms: seq<State>, es: seq<Event>, k: nat, u: nat)
    requires IsRun(ms, es) && k <= |es| && ms[k].history.Some?
    requires ms[k].history.value.status == P.Completed && Stable(ms[k])
    requires Unbroken(ms[k].began)
    ensures CursorCurrent(ms[k])
    ensures u in ms[k].server.msgs && u < ms[k].cursor.value.uidnext ==> MsgId(ms[k].server.uv, u) in ms[k].rows
  {
    RunStarts(ms, es, k);
    if u in ms[k].server.msgs && u < ms[k].cursor.value.uidnext && MsgId(ms[k].server.uv, u) !in ms[k].rows {
      HolesWereThere(ms, es, k, u);
      assert false;
    }
  }

  /** The anchor strictly falls on every fetched chunk while the UIDVALIDITY is the
      one the pull started in and its anchor was not above UIDNEXT then. */
  lemma AnchorFalls(ms: seq<State>, es: seq<Event>, k: nat)
    requires IsRun(ms, es) && k < |es| && FetchEvent(es[k])
    requires CanStep(ms[k], es[k])
    requires Stable(ms[k]) && Sane(ms[k]) && Working(ms[k].pull.value)
    ensures ChunkOf(ms[k], es[k]).next < PullAnchor(ms[k])
  {
    RunKeeps(ms, es, k);
    FetchFills(ms[k], es[k]);
  }

  /** Once the cursor has caught up with a quiet server and the store was pruned,
      rows and server agree exactly from the base up. */
  lemma CaughtUp(ms: seq<State>, es: seq<Event>, k: nat)
    requires IsRun(ms, es) && k <= |es|
    requires ms[k].cursor == Some(Cursor(ms[k].server.uv, ms[k].server.hms, ms[k].server.uidnext))
    requires ms[k].rows.Keys <= LiveIds(ms[k].server)
    ensures forall u | u >= ms[k].base ::
      u in ms[k].server.msgs <==> MsgId(ms[k].server.uv, u) in ms[k].rows
    ensures forall u | u >= ms[k].base && u in ms[k].server.msgs ::
      ms[k].rows[MsgId(ms[k].server.uv, u)] == ms[k].server.msgs[u].flags
  {
    RunKeeps(ms, es, k);
    var m := ms[k];
    forall u | u >= m.base && u in m.server.msgs
      ensures MsgId(m.server.uv, u) in m.rows
      ensures m.rows[MsgId(m.server.uv, u)] == m.server.msgs[u].flags
    {
      assert Arrived(m.server, m.rows, m.cursor.value, m.base);
    }
  }
}

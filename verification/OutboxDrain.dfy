/** The drain itself: a loop over due rows that sends each and deletes or
    reschedules it, run against the recovering connection. */
module OutboxDrain {
  import opened Wrappers
  import opened Outbox
  import T = TursoConn

  datatype Outcome =
    | Sent(id: nat)
    | Retrying(id: nat, attemptsAfter: nat)
    | DeadLettered(id: nat)

  /** A user action that enqueues: a fresh row, or new content for a dedup key. */
  datatype Action = Action(payload: nat, key: Option<nat>, now: nat)

  /** What the outside does while one row is processed. `late` is a user action
      whose second statement comes after the pass's own write. A sweep that keeps
      its orphan open is a failure of the engine itself. */
  datatype Turn = Turn(accepts: bool, user: Option<Action>, late: bool, next: nat, sweep: T.End, writes: bool)

  /** The database's answer to the due query. */
  type Answer = Data -> seq<Entry>

  ghost predicate HonestAnswer(q: Answer, now: nat, limit: nat) {
    forall d: Data :: IsDueList(d.outbox, now, limit, q(d))
  }

  ghost predicate Swept(turns: nat -> Turn) {
    forall k :: !turns(k).sweep.StillOpen?
  }

  function Owners(d: Data, key: nat): set<nat> {
    set id | id in d.outbox && d.outbox[id].key == Some(key)
  }

  ghost function SentIds(os: seq<Outcome>): set<nat> {
    set o | o in os && o.Sent? :: o.id
  }

  lemma OneMore(os: seq<Outcome>, o: Outcome)
    ensures SentIds(os + [o]) == SentIds(os) + if o.Sent? then {o.id} else {}
  {
  }

  /** Outcomes that answer a due list one for one. */
  predicate Answers(due: seq<Entry>, outcomes: seq<Outcome>) {
    |outcomes| == |due| && forall i | 0 <= i < |due| :: outcomes[i].id == due[i].id
  }

  lemma AllDueAnswered(rows: map<nat, Row>, now: nat, limit: nat, due: seq<Entry>, outcomes: seq<Outcome>)
    requires IsDueList(rows, now, limit, due) && Answers(due, outcomes)
    ensures |outcomes| <= limit
    ensures forall k | 0 <= k < |outcomes| :: outcomes[k].id in rows && IsDue(rows[outcomes[k].id], now)
    ensures forall id | id in rows && IsDue(rows[id], now) ::
              |outcomes| == limit || exists k :: 0 <= k < |outcomes| && outcomes[k].id == id
  {
    forall id | id in rows && IsDue(rows[id], now)
      ensures |outcomes| == limit || exists k :: 0 <= k < |outcomes| && outcomes[k].id == id
    {
      if Lists(due, id) {
        var k :| 0 <= k < |due| && due[k].id == id;
        assert outcomes[k].id == id;
      }
    }
  }

  /** The table after one row was settled. */
  function Settled(rows: map<nat, Row>, entry: Entry, t: Turn): map<nat, Row> {
    if !t.writes || entry.id !in rows then rows
    else if t.accepts then rows - {entry.id}
    else
      var r := rows[entry.id];
      rows[entry.id := r.(attempts := r.attempts + 1,
                          due := if entry.row.attempts + 1 >= MAX_ATTEMPTS then None else Some(t.next))]
  }

  /** The table after an update for `a`, which leaves it alone if the row is gone. */
  function Refreshed(rows: map<nat, Row>, id: nat, a: Action): map<nat, Row> {
    if id !in rows then rows
    else rows[id := rows[id].(payload := a.payload, attempts := 0, due := Some(a.now))]
  }

  /** The write the pass owes a row it has dispatched. */
  datatype Pending = Pending(entry: Entry, turn: Turn)

  function Removed(p: Option<Pending>): set<nat> {
    if p.Some? && p.value.turn.accepts && p.value.turn.writes then {p.value.entry.id} else {}
  }

  function AfterPending(rows: map<nat, Row>, p: Option<Pending>): map<nat, Row> {
    if p.Some? then Settled(rows, p.value.entry, p.value.turn) else rows
  }

  /** What a drain says of one listed row, given how its turn went. */
  predicate Reports(e: Entry, t: Turn, o: Outcome) {
    && (o == Sent(e.id) <==> t.accepts && t.writes)
    && (o == DeadLettered(e.id) <==> !t.accepts && e.row.attempts + 1 >= MAX_ATTEMPTS)
    && (t.accepts && !t.writes ==> o == Retrying(e.id, e.row.attempts))
    && (!t.accepts && e.row.attempts + 1 < MAX_ATTEMPTS ==> o == Retrying(e.id, e.row.attempts + 1))
  }

  /** One listed row after its turn: gone if sent, counted if refused, as it was if
      the write failed. */
  predicate RowSettled(e: Entry, t: Turn, rows: map<nat, Row>) {
    if !t.writes then e.id in rows && rows[e.id] == e.row
    else if t.accepts then e.id !in rows
    else
      e.id in rows &&
      rows[e.id] == e.row.(attempts := e.row.attempts + 1,
                           due := if e.row.attempts + 1 >= MAX_ATTEMPTS then None else Some(t.next))
  }

  /** Nobody but the pass writes while it works off `n` rows. */
  ghost predicate Undisturbed(turns: nat -> Turn, n: nat) {
    forall k: nat | k < n :: turns(k).user.None?
  }

  /** Every listed row settled by its turn, every other one as it was. */
  ghost predicate TableSettled(before: map<nat, Row>, due: seq<Entry>, turns: nat -> Turn, after: map<nat, Row>) {
    && (forall k | 0 <= k < |due| :: RowSettled(due[k], turns(k), after))
    && (forall id | id in before && !Lists(due, id) :: id in after && after[id] == before[id])
    && (forall id | id in after :: id in before)
  }

  lemma ListsMore(due: seq<Entry>, k: nat, id: nat)
    requires k < |due|
    ensures Lists(due[..k + 1], id) <==> Lists(due[..k], id) || due[k].id == id
  {
    var more := due[..k + 1];
    assert more[k] == due[k];
    assert forall i | 0 <= i < k :: more[i] == due[..k][i];
    if Lists(due[..k], id) {
      var i :| 0 <= i < k && due[..k][i].id == id;
      assert more[i].id == id;
    }
  }

  lemma SettlesOne(before: map<nat, Row>, due: seq<Entry>, k: nat, turns: nat -> Turn, rows: map<nat, Row>)
    requires k < |due| && Distinct(due)
    requires forall i | 0 <= i < |due| :: due[i].id in before && before[due[i].id] == due[i].row
    requires TableSettled(before, due[..k], turns, rows)
    ensures due[k].id in rows && rows[due[k].id] == due[k].row
    ensures TableSettled(before, due[..k + 1], turns, Settled(rows, due[k], turns(k)))
  {
    var after := Settled(rows, due[k], turns(k));
    assert !Lists(due[..k], due[k].id);
    forall i | 0 <= i < k + 1 ensures RowSettled(due[..k + 1][i], turns(i), after) {
      if i < k {
        assert RowSettled(due[..k][i], turns(i), rows);
      }
    }
    forall id | id in before && !Lists(due[..k + 1], id) ensures id in after && after[id] == before[id] {
      ListsMore(due, k, id);
    }
  }

  /** A pass that has worked off `k` rows. */
  ghost predicate Worked(before: map<nat, Row>, due: seq<Entry>, k: nat, turns: nat -> Turn,
                         outcomes: seq<Outcome>, rows: map<nat, Row>) {
    && k <= |due| && Answers(due[..k], outcomes)
    && (forall i | 0 <= i < k :: Reports(due[i], turns(i), outcomes[i]))
    && (Undisturbed(turns, |due|) ==> TableSettled(before, due[..k], turns, rows))
  }

  lemma WorksOne(before: map<nat, Row>, due: seq<Entry>, k: nat, turns: nat -> Turn, outcomes: seq<Outcome>,
                 rows: map<nat, Row>, o: Outcome, after: map<nat, Row>)
    requires k < |due| && Distinct(due) && Worked(before, due, k, turns, outcomes, rows)
    requires forall i | 0 <= i < |due| :: due[i].id in before && before[due[i].id] == due[i].row
    requires Reports(due[k], turns(k), o) && (turns(k).user.None? ==> after == Settled(rows, due[k], turns(k)))
    ensures Worked(before, due, k + 1, turns, outcomes + [o], after)
  {
    if Undisturbed(turns, |due|) {
      SettlesOne(before, due, k, turns, rows);
    }
  }

  class Worker {
    const conn: T.Connection<Data>
    var nextId: nat
    ghost var m: State
    ghost var states: seq<State>
    ghost var events: seq<Event>

    ghost predicate Valid()
      reads this, conn, conn.engine
    {
      && conn.Valid() && conn.View() == m.db && !conn.live
      && IsRun(states, events) && states[|events|] == m
      && forall id | id in m.entered :: id < nextId
    }

    constructor (mail: map<nat, nat>)
      ensures Valid() && m == Start(Data(map[], mail)) && fresh(conn) && fresh(conn.engine)
    {
      conn := new T.Connection(Data(map[], mail));
      nextId, m := 0, Start(Data(map[], mail));
      states, events := [Start(Data(map[], mail))], [];
    }

    ghost method Note(e: Event)
      requires IsRun(states, events) && states[|events|] == m && CanStep(m, e)
      requires conn.Valid() && !conn.live && conn.View() == Call(m, e)
      requires forall id | id in Apply(m, e).entered :: id < nextId
      modifies this`m, this`states, this`events
      ensures Valid() && m == Apply(old(m), e)
    {
      m := Apply(m, e);
      states, events := states + [m], events + [e];
    }

    /** The pass is about to write what became of the row it dispatched. */
    ghost predicate Awaits(p: Pending)
      reads this
    {
      m.pc == (if p.turn.accepts then Deleting(p.entry) else Recording(p.entry)) && !p.turn.sweep.StillOpen?
    }

    ghost method Recall()
      requires Valid()
      ensures Inv(m)
    {
      RunKeeps(states, events, |events|);
    }

    /** One writing statement of the repository, logged as the step it belongs to. */
    method Execute(stmt: Data -> Data, sweep: T.End, ok: bool, ghost e: Event) returns (r: Result<(), string>)
      requires Valid() && CanStep(m, e) && CallOf(m, e) == Some(T.Write(stmt, sweep, ok))
      requires forall id | id in Apply(m, e).entered :: id < nextId
      modifies conn`poisoned, conn`trace, conn.engine, this`m, this`states, this`events
      ensures Valid() && m == Apply(old(m), e) && (r.Ok? <==> ok)
    {
      assert (conn.trace + [T.Write(stmt, sweep, ok)])[..|conn.trace|] == conn.trace;
      r := conn.Execute(stmt, sweep, ok);
      Note(e);
    }

    method Enqueue(a: Action, sweep: T.End, ok: bool) returns (r: Result<nat, string>)
      requires Valid() && !sweep.StillOpen?
      modifies conn`poisoned, conn`trace, conn.engine, this`nextId, this`m, this`states, this`events
      ensures Valid() && (r.Ok? <==> ok)
      ensures m == Apply(old(m), Outbox.Enqueue(old(nextId), a.payload, a.key, a.now, sweep, ok))
      ensures r.Ok? ==> Rows(m) == old(Rows(m))[r.value := Row(a.payload, a.key, 0, Some(a.now))]
                        && r.value !in old(m.entered)
      ensures r.Err? ==> Rows(m) == old(Rows(m))
    {
      var id := nextId;
      nextId := id + 1;
      Recall();
      ghost var e := Outbox.Enqueue(id, a.payload, a.key, a.now, sweep, ok);
      CallTakesEffect(m, e);
      var done := Execute(Insert(id, Row(a.payload, a.key, 0, Some(a.now))), sweep, ok, e);
      r := if done.Ok? then Ok(id) else Err("insert");
    }

    method FindOwners(key: nat, sweep: T.End) returns (owners: set<nat>)
      requires Valid() && !sweep.StillOpen?
      modifies conn`poisoned, conn`trace, conn.engine, this`m, this`states, this`events
      ensures Valid() && m == old(m).(db := m.db) && Rows(m) == old(Rows(m))
      ensures owners == Owners(old(m.db.committed), key) && forall id | id in owners :: id in Rows(m)
    {
      Recall();
      ghost var look := Elsewhere(T.Read(sweep));
      CallTakesEffect(m, look);
      assert (conn.trace + [T.Read(sweep)])[..|conn.trace|] == conn.trace;
      owners := conn.Query((d: Data) => Owners(d, key), sweep);
      Note(look);
    }

    method Refresh(id: nat, a: Action, sweep: T.End, ok: bool) returns (r: Result<(), string>)
      requires Valid() && !sweep.StillOpen?
      modifies conn`poisoned, conn`trace, conn.engine, this`m, this`states, this`events
      ensures Valid() && (r.Ok? <==> ok) && m == Apply(old(m), ReEnqueue(id, a.payload, a.now, sweep, ok))
      ensures Rows(m) == if ok then Refreshed(old(Rows(m)), id, a) else old(Rows(m))
    {
      Recall();
      ghost var e := ReEnqueue(id, a.payload, a.now, sweep, ok);
      CallTakesEffect(m, e);
      r := Execute(Redo(id, a.payload, a.now), sweep, ok, e);
    }

    /** Finds the row that owns the key; two of them are an error. The pass's own
        write may fall between the lookup and the update: if it deletes the row
        that was found, the call returns that row's id all the same and the new
        payload is nowhere. */
    method EnqueueDedup(a: Action, key: nat, sweep: T.End, ok: bool, between: Option<Pending>)
      returns (r: Result<nat, string>, done: Result<(), string>)
      requires Valid() && !sweep.StillOpen? && a.key == Some(key)
      requires between.Some? ==> Awaits(between.value)
      modifies conn`poisoned, conn`trace, conn.engine, this`nextId, this`m, this`states, this`events
      ensures Valid() && m.todo == old(m.todo) && m.pc == if between.Some? then Ready else old(m.pc)
      ensures done.Ok? <==> (between.Some? ==> between.value.turn.writes)
      ensures m.sent == old(m.sent) + Removed(between)
      ensures r.Ok? ==> (r.value in Rows(m) <==> r.value !in Removed(between))
      ensures r.Ok? && r.value in Rows(m) ==> Rows(m)[r.value] == Row(a.payload, a.key, 0, Some(a.now))
      ensures r.Ok? ==> (r.value in old(Rows(m)) <==> Owners(old(m.db.committed), key) != {})
      ensures forall id | id in AfterPending(old(Rows(m)), between) && r != Ok(id) ::
                id in Rows(m) && Rows(m)[id] == AfterPending(old(Rows(m)), between)[id]
    {
      Recall();
      assert between.Some? ==> InFlight(m)[0] == between.value.entry;
      var owners := FindOwners(key, sweep);
      done := Ok(());
      if between.Some? {
        done := Settle(between.value.entry, between.value.turn);
      }
      r := PutOn(owners, a, sweep, ok);
    }

    /** The second half: insert if nobody owned the key, else update. */
    method PutOn(owners: set<nat>, a: Action, sweep: T.End, ok: bool) returns (r: Result<nat, string>)
      requires Valid() && !sweep.StillOpen?
      modifies conn`poisoned, conn`trace, conn.engine, this`nextId, this`m, this`states, this`events
      ensures Valid() && m.todo == old(m.todo) && m.pc == old(m.pc) && m.sent == old(m.sent)
      ensures r.Ok? && owners == {} ==>
                r.value !in old(m.entered) && Rows(m) == old(Rows(m))[r.value := Row(a.payload, a.key, 0, Some(a.now))]
      ensures r.Ok? && owners != {} ==>
                r.value in owners && Rows(m) == Refreshed(old(Rows(m)), r.value, a)
      ensures r.Err? ==> Rows(m) == old(Rows(m))
    {
      if owners == {} {
        r := Enqueue(a, sweep, ok);
      } else {
        var id :| id in owners;
        if owners != {id} {
          return Err("expected 0 or 1 rows");
        }
        var done := Refresh(id, a, sweep, ok);
        r := if done.Ok? then Ok(id) else Err("update");
      }
    }

    /** The due query, over committed rows even behind an orphan. */
    method List(now: nat, limit: nat, q: Answer, sweep: T.End) returns (due: seq<Entry>)
      requires Valid() && m.pc.Ready? && m.todo == [] && !sweep.StillOpen? && HonestAnswer(q, now, limit)
      modifies conn`poisoned, conn`trace, conn.engine, this`m, this`states, this`events
      ensures Valid() && m.todo == due && m.pc.Ready? && IsDueList(old(Rows(m)), now, limit, due)
      ensures m == old(m).(db := m.db, todo := due, raced := {}) && Rows(m) == old(Rows(m))
    {
      Recall();
      assert (conn.trace + [T.Read(sweep)])[..|conn.trace|] == conn.trace;
      due := conn.Query(q, sweep);
      ghost var e := ListDue(now, limit, due, sweep);
      CallTakesEffect(m, e);
      Note(e);
    }

    method UserActs(a: Option<Action>, sweep: T.End)
      requires Valid() && !sweep.StillOpen?
      modifies conn`poisoned, conn`trace, conn.engine, this`nextId, this`m, this`states, this`events
      ensures Valid() && m.todo == old(m.todo) && m.pc == old(m.pc) && m.sent == old(m.sent)
      ensures a.None? ==> m == old(m)
    {
      if a.Some? {
        if a.value.key.Some? {
          var _, _ := EnqueueDedup(a.value, a.value.key.value, sweep, true, None);
        } else {
          var _ := Enqueue(a.value, sweep, true);
        }
      }
    }

    /** The write that follows a dispatch: delete on success, else count the
        failure and reschedule or retire the row. */
    method Settle(entry: Entry, t: Turn) returns (done: Result<(), string>)
      requires Valid() && !t.sweep.StillOpen?
      requires m.pc == if t.accepts then Deleting(entry) else Recording(entry)
      modifies conn`poisoned, conn`trace, conn.engine, this`m, this`states, this`events
      ensures Valid() && m.pc.Ready? && m.todo == old(m.todo) && (done.Ok? <==> t.writes)
      ensures m.sent == old(m.sent) + (if t.accepts && t.writes then {entry.id} else {})
      ensures Rows(m) == Settled(old(Rows(m)), entry, t) && m.entered == old(m.entered)
    {
      Recall();
      assert InFlight(m)[0] == entry;
      ghost var e := if t.accepts then Delete(t.sweep, t.writes) else Record(t.next, t.sweep, t.writes);
      CallTakesEffect(m, e);
      if t.accepts {
        done := Execute(DeleteById(entry.id), t.sweep, t.writes, e);
      } else {
        done := Execute(Touch(entry.id, entry.row.attempts, t.next), t.sweep, t.writes, e);
      }
    }

    ghost method Dispatched(accepts: bool)
      requires Valid() && m.pc.Ready? && m.todo != []
      modifies this`m, this`states, this`events
      ensures Valid() && Rows(m) == old(Rows(m)) && m.todo == old(m.todo)[1..] && m.sent == old(m.sent)
      ensures m.pc == if accepts then Deleting(old(m.todo[0])) else Recording(old(m.todo[0]))
    {
      Note(Dispatch(accepts));
    }

    /** Sends one listed row, then deletes it or counts the failure. The outcome
        says what was decided, even when the write that records it failed. */
    method ProcessOne(entry: Entry, t: Turn) returns (o: Outcome)
      requires Valid() && m.pc.Ready? && m.todo != [] && m.todo[0] == entry && !t.sweep.StillOpen?
      modifies conn`poisoned, conn`trace, conn.engine, this`nextId, this`m, this`states, this`events
      ensures Valid() && m.pc.Ready? && m.todo == old(m.todo)[1..]
      ensures o == if t.accepts && t.writes then Sent(entry.id)
                   else if t.accepts then Retrying(entry.id, entry.row.attempts)
                   else if entry.row.attempts + 1 >= MAX_ATTEMPTS then DeadLettered(entry.id)
                   else Retrying(entry.id, entry.row.attempts + 1)
      ensures Reports(entry, t, o)
      ensures m.sent == old(m.sent) + (if o.Sent? then {entry.id} else {})
      ensures t.user.None? ==> Rows(m) == Settled(old(Rows(m)), entry, t)
    {
      Dispatched(t.accepts);
      var done;
      if t.late && t.user.Some? && t.user.value.key.Some? {
        var r;
        r, done := EnqueueDedup(t.user.value, t.user.value.key.value, t.sweep, true, Some(Pending(entry, t)));
      } else {
        UserActs(t.user, t.sweep);
        done := Settle(entry, t);
      }
      if t.accepts {
        o := if done.Ok? then Sent(entry.id) else Retrying(entry.id, entry.row.attempts);
      } else {
        o := if entry.row.attempts + 1 >= MAX_ATTEMPTS then DeadLettered(entry.id)
             else Retrying(entry.id, entry.row.attempts + 1);
      }
    }

    /** One drain pass: an outcome per due row, oldest first, in that order, as its
        turn went; exactly the rows reported sent have left for good, and if nobody
        else writes meanwhile, every row ends as its outcome says. */
    method Drain(now: nat, limit: nat, q: Answer, turns: nat -> Turn, sweep: T.End)
      returns (outcomes: seq<Outcome>, ghost due: seq<Entry>)
      requires Valid() && m.pc.Ready? && m.todo == []
      requires HonestAnswer(q, now, limit) && Swept(turns) && !sweep.StillOpen?
      modifies conn`poisoned, conn`trace, conn.engine, this`nextId, this`m, this`states, this`events
      ensures Valid() && m.pc.Ready? && m.todo == [] && |outcomes| <= limit
      ensures IsDueList(old(Rows(m)), now, limit, due) && Answers(due, outcomes)
      ensures forall k | 0 <= k < |outcomes| :: outcomes[k].id in old(Rows(m)) && IsDue(old(Rows(m))[outcomes[k].id], now)
      ensures forall k | 0 <= k < |outcomes| :: Reports(due[k], turns(k), outcomes[k])
      ensures Undisturbed(turns, |due|) ==> TableSettled(old(Rows(m)), due, turns, Rows(m))
      ensures m.sent == old(m.sent) + SentIds(outcomes)
      ensures forall o | o in outcomes :: o.id !in old(m.sent)
      ensures forall id | id in old(Rows(m)) && IsDue(old(Rows(m))[id], now) ::
                |outcomes| == limit || exists k :: 0 <= k < |outcomes| && outcomes[k].id == id
    {
      Recall();
      var listed := List(now, limit, q, sweep);
      due := listed;
      outcomes := ProcessAll(listed, turns);
      AllDueAnswered(old(Rows(m)), now, limit, due, outcomes);
    }

    method ProcessAll(due: seq<Entry>, turns: nat -> Turn) returns (outcomes: seq<Outcome>)
      requires Valid() && m.pc.Ready? && m.todo == due && Swept(turns) && Distinct(due)
      requires forall i | 0 <= i < |due| :: due[i].id in Rows(m) && Rows(m)[due[i].id] == due[i].row
      modifies conn`poisoned, conn`trace, conn.engine, this`nextId, this`m, this`states, this`events
      ensures Valid() && m.pc.Ready? && m.todo == [] && Answers(due, outcomes)
      ensures forall k | 0 <= k < |outcomes| :: Reports(due[k], turns(k), outcomes[k])
      ensures Undisturbed(turns, |due|) ==> TableSettled(old(Rows(m)), due, turns, Rows(m))
      ensures m.sent == old(m.sent) + SentIds(outcomes)
    {
      outcomes := [];
      ghost var before := Rows(m);
      assert TableSettled(before, due[..0], turns, before);
      for k := 0 to |due|
        invariant Valid() && m.pc.Ready? && m.todo == due[k..] && Worked(before, due, k, turns, outcomes, Rows(m))
        invariant m.sent == old(m.sent) + SentIds(outcomes)
      {
        ghost var rows := Rows(m);
        var o := ProcessOne(due[k], turns(k));
        WorksOne(before, due, k, turns, outcomes, rows, o, Rows(m));
        OneMore(outcomes, o);
        outcomes := outcomes + [o];
      }
      assert due[..|due|] == due;
    }
  }
}

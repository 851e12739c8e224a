/** The outbox drain over the recovering connection.

    Every statement is a call on `TursoConn`, so a drain pass may start behind an
    abandoned transaction. User actions enqueue at any moment, also between the
    statements of a pass; other code may run transactions on the same
    connection as long as they leave the outbox table alone. */
module Outbox {
  import opened Wrappers
  import T = TursoConn

  const MAX_ATTEMPTS: nat := 5

  /** `due` is `next_attempt_at`; None is a dead letter. */
  datatype Row = Row(payload: nat, key: Option<nat>, attempts: nat, due: Option<nat>)

  datatype Data = Data(outbox: map<nat, Row>, mail: map<nat, nat>)

  datatype Entry = Entry(id: nat, row: Row)

  // ---------- the repository's statements ----------

  function Insert(id: nat, row: Row): Data -> Data {
    (d: Data) => if id in d.outbox then d else d.(outbox := d.outbox[id := row])
  }

  function Redo(id: nat, payload: nat, now: nat): Data -> Data {
    (d: Data) =>
      if id !in d.outbox then d
      else d.(outbox := d.outbox[id := d.outbox[id].(payload := payload, attempts := 0, due := Some(now))])
  }

  function DeleteById(id: nat): Data -> Data {
    (d: Data) => d.(outbox := d.outbox - {id})
  }

  /** The new due date comes from the attempts count the caller read earlier. */
  function Touch(id: nat, prev: nat, next: nat): Data -> Data {
    (d: Data) =>
      if id !in d.outbox then d
      else
        var r := d.outbox[id];
        d.(outbox := d.outbox[id := r.(attempts := r.attempts + 1,
                                       due := if prev + 1 >= MAX_ATTEMPTS then None else Some(next))])
  }

  predicate IsDue(r: Row, now: nat) {
    r.due.Some? && r.due.value <= now
  }

  predicate Distinct(es: seq<Entry>) {
    forall i, j | 0 <= i < j < |es| :: es[i].id != es[j].id
  }

  predicate Lists(es: seq<Entry>, id: nat) {
    exists i | 0 <= i < |es| :: es[i].id == id
  }

  /** Due rows, oldest first, at most `limit`, none passed over for a later one. */
  predicate IsDueList(rows: map<nat, Row>, now: nat, limit: nat, es: seq<Entry>) {
    && Distinct(es) && |es| <= limit
    && (forall i | 0 <= i < |es| :: es[i].id in rows && rows[es[i].id] == es[i].row && IsDue(es[i].row, now))
    && (forall i, j | 0 <= i < j < |es| :: es[i].row.due.value <= es[j].row.due.value)
    && (forall id | id in rows && IsDue(rows[id], now) && !Lists(es, id) ::
          |es| == limit && forall i | 0 <= i < |es| :: es[i].row.due.value <= rows[id].due.value)
  }

  // ---------- the machine ----------

  datatype Pc = Ready | Deleting(e: Entry) | Recording(e: Entry)

  /** `entered`, `sent`, `accepted`, `recorded`, `raced`, `muddled` and `lost` are a
      ledger no step reads: ids inserted, ids whose delete returned Ok, payloads a
      backend accepted, failures recorded since the last (re-)enqueue, ids
      re-enqueued while the pass in progress had them listed, ids whose last
      recorded failure met such a re-enqueue, and payloads deleted unsent. */
  datatype State = State(
    db: T.State<Data>,
    todo: seq<Entry>,
    pc: Pc,
    entered: set<nat>,
    sent: set<nat>,
    accepted: set<(nat, nat)>,
    recorded: map<nat, nat>,
    raced: set<nat>,
    muddled: set<nat>,
    lost: set<(nat, nat)>)

  datatype Event =
    | Enqueue(id: nat, payload: nat, key: Option<nat>, now: nat, sweep: T.End, ok: bool)
    | ReEnqueue(id: nat, payload: nat, now: nat, sweep: T.End, ok: bool)
    | ListDue(now: nat, limit: nat, list: seq<Entry>, sweep: T.End)
    | Dispatch(ok: bool)
    | Delete(sweep: T.End, ok: bool)
    | Record(next: nat, sweep: T.End, ok: bool)
    | Elsewhere(call: T.Call<Data>)
    | Crash

  function InFlight(m: State): seq<Entry> {
    if m.pc.Ready? then m.todo else [m.pc.e] + m.todo
  }

  function Rows(m: State): map<nat, Row> {
    m.db.committed.outbox
  }

  /** The database call a step makes. */
  function CallOf(m: State, e: Event): Option<T.Call<Data>> {
    match e
    case Enqueue(id, p, key, now, sweep, ok) =>
      Some(T.Write(Insert(id, Row(p, key, 0, Some(now))), sweep, ok))
    case ReEnqueue(id, p, now, sweep, ok) => Some(T.Write(Redo(id, p, now), sweep, ok))
    case ListDue(_, _, _, sweep) => Some(T.Read(sweep))
    case Dispatch(_) => None
    case Delete(sweep, ok) =>
      if m.pc.Deleting? then Some(T.Write(DeleteById(m.pc.e.id), sweep, ok)) else None
    case Record(next, sweep, ok) =>
      if m.pc.Recording? then Some(T.Write(Touch(m.pc.e.id, m.pc.e.row.attempts, next), sweep, ok)) else None
    case Elsewhere(call) => Some(call)
    case Crash => Some(T.Restart)
  }

  ghost predicate LeavesOutbox(f: Data -> Data) {
    forall d :: f(d).outbox == d.outbox
  }

  ghost predicate CallAllowed(s: T.State<Data>, c: T.Call<Data>) {
    T.Linear(s.live, c) && T.Disciplined(s.live, c) && T.Sweeps(s, c)
  }

  ghost predicate CanStep(m: State, e: Event) {
    && (var c := CallOf(m, e); c.Some? ==> CallAllowed(m.db, c.value))
    && match e
       case Enqueue(id, _, _, _, _, _) => id !in m.entered
       case ReEnqueue(_, _, _, _, _) => true
       case ListDue(now, limit, list, sweep) =>
         m.pc.Ready? && m.todo == []
         && IsDueList(T.Visible(T.Recover(m.db, sweep)).outbox, now, limit, list)
       case Dispatch(_) => m.pc.Ready? && m.todo != []
       case Delete(_, _) => m.pc.Deleting?
       case Record(_, _, _) => m.pc.Recording?
       case Elsewhere(c) => !c.Restart? && (c.Write? || c.TxWrite? ==> LeavesOutbox(c.stmt))
       case Crash => true
  }

  function Call(m: State, e: Event): T.State<Data> {
    var c := CallOf(m, e);
    if c.Some? then T.Apply(m.db, c.value) else m.db
  }

  function Bump(recorded: map<nat, nat>, id: nat): map<nat, nat> {
    if id in recorded then recorded[id := recorded[id] + 1] else recorded
  }

  function Ledger(m: State, e: Event): State {
    match e
    case Enqueue(id, _, _, _, _, true) =>
      m.(entered := m.entered + {id}, recorded := m.recorded[id := 0])
    case ReEnqueue(id, _, _, _, true) =>
      m.(recorded := if id in m.recorded then m.recorded[id := 0] else m.recorded,
         raced := if Lists(InFlight(m), id) then m.raced + {id} else m.raced,
         muddled := m.muddled - {id})
    case ListDue(_, _, _, _) => m.(raced := {})
    case Dispatch(true) =>
      if m.todo == [] then m
      else m.(accepted := m.accepted + {(m.todo[0].id, m.todo[0].row.payload)})
    case Delete(_, true) =>
      if !m.pc.Deleting? || m.pc.e.id !in Rows(m) then m
      else
        var id := m.pc.e.id;
        m.(sent := m.sent + {id},
           lost := if (id, Rows(m)[id].payload) in m.accepted then m.lost
                   else m.lost + {(id, Rows(m)[id].payload)})
    case Record(_, _, true) =>
      if m.pc.Recording?
      then m.(recorded := Bump(m.recorded, m.pc.e.id), muddled := m.muddled + m.raced * {m.pc.e.id})
      else m
    case Crash => m.(raced := {})
    case _ => m
  }

  function Pass(m: State, e: Event): (seq<Entry>, Pc) {
    match e
    case ListDue(_, _, list, _) => (list, Ready)
    case Dispatch(ok) =>
      if m.todo == [] then (m.todo, m.pc)
      else (m.todo[1..], if ok then Deleting(m.todo[0]) else Recording(m.todo[0]))
    case Delete(_, _) => (m.todo, Ready)
    case Record(_, _, _) => (m.todo, Ready)
    case Crash => ([], Ready)
    case _ => (m.todo, m.pc)
  }

  function Apply(m: State, e: Event): State {
    var p := Pass(m, e);
    Ledger(m, e).(db := Call(m, e), todo := p.0, pc := p.1)
  }

  ghost predicate Step(m: State, e: Event, n: State) {
    CanStep(m, e) && n == Apply(m, e)
  }

  function Start(d: Data): State {
    State(T.Fresh(d), [], Ready, {}, {}, {}, map[], {}, {}, {})
  }

  ghost predicate IsRun(ms: seq<State>, es: seq<Event>) {
    && |ms| == |es| + 1
    && ms[0].db.committed.outbox == map[] && ms[0] == Start(ms[0].db.committed)
    && forall i | 0 <= i < |es| :: Step(ms[i], es[i], ms[i + 1])
  }

  // ---------- the invariant ----------

  /** Every row that ever entered is in the table or was sent, never both. */
  ghost predicate Conserved(m: State) {
    Rows(m).Keys + m.sent == m.entered && Rows(m).Keys !! m.sent
  }

  ghost predicate SentAfterAccept(m: State) {
    forall id | id in m.sent :: exists p :: (id, p) in m.accepted
  }

  /** At most five failures since the last enqueue; pending rows have at most
      four, and a dead one exactly five unless its last failure met a re-enqueue. */
  ghost predicate Counted(m: State) {
    && m.recorded.Keys == m.entered
    && forall id | id in Rows(m) ::
         var r := Rows(m)[id];
         && id in m.recorded && r.attempts == m.recorded[id] <= MAX_ATTEMPTS
         && (r.due.Some? ==> r.attempts < MAX_ATTEMPTS)
         && (r.due.None? && id !in m.muddled ==> r.attempts == MAX_ATTEMPTS)
  }

  /** A listed row is still in the table, as it was listed unless raced. */
  ghost predicate Current(m: State) {
    && Distinct(InFlight(m))
    && forall i | 0 <= i < |InFlight(m)| ::
         var e := InFlight(m)[i];
         && e.id in Rows(m) && e.row.attempts < MAX_ATTEMPTS
         && (e.id !in m.raced ==> Rows(m)[e.id] == e.row)
         && Rows(m)[e.id].due.Some? && Rows(m)[e.id].attempts <= e.row.attempts
  }

  /** What is about to be deleted was accepted as it was listed. */
  ghost predicate AcceptedFirst(m: State) {
    m.pc.Deleting? ==> (m.pc.e.id, m.pc.e.row.payload) in m.accepted
  }

  /** No transaction, live or abandoned, holds a different outbox. */
  ghost predicate Untangled(m: State) {
    && T.HandleOwns(m.db) && T.Explained(m.db)
    && (m.db.open.Some? ==> m.db.open.value.outbox == Rows(m))
  }

  ghost predicate Inv(m: State) {
    Conserved(m) && SentAfterAccept(m) && Counted(m) && Current(m) && AcceptedFirst(m) && Untangled(m)
  }

  /** What a call does to the table: an outbox statement takes effect on
      committed data at once or not at all; nothing else touches it. */
  lemma CallTakesEffect(m: State, e: Event)
    requires Untangled(m) && CanStep(m, e)
    ensures var n := Apply(m, e); Untangled(n)
    ensures var d := m.db.committed.outbox; var after := Rows(Apply(m, e));
            match e
            case Enqueue(id, p, key, now, _, true) =>
              after == if id in d then d else d[id := Row(p, key, 0, Some(now))]
            case ReEnqueue(id, p, now, _, true) =>
              after == if id in d then d[id := d[id].(payload := p, attempts := 0, due := Some(now))] else d
            case Delete(_, true) => after == d - {m.pc.e.id}
            case Record(next, _, true) =>
              var x := m.pc.e;
              after == if x.id !in d then d
                       else d[x.id := d[x.id].(attempts := d[x.id].attempts + 1,
                                               due := if x.row.attempts + 1 >= MAX_ATTEMPTS then None else Some(next))]
            case _ => after == d
  {
  }

  lemma EnqueueKeeps(m: State, e: Event, n: State)
    requires Inv(m) && e.Enqueue? && Step(m, e, n)
    ensures Inv(n)
  {
    CallTakesEffect(m, e);
    assert InFlight(n) == InFlight(m);
  }

  lemma ReEnqueueKeeps(m: State, e: Event, n: State)
    requires Inv(m) && e.ReEnqueue? && Step(m, e, n)
    ensures Inv(n)
  {
    CallTakesEffect(m, e);
    assert InFlight(n) == InFlight(m);
    if e.ok && e.id in Rows(m) {
      forall i | 0 <= i < |InFlight(n)| && InFlight(n)[i].id == e.id
        ensures e.id in n.raced
      {
        assert Lists(InFlight(m), e.id);
      }
    }
  }

  lemma ListKeeps(m: State, e: Event, n: State)
    requires Inv(m) && e.ListDue? && Step(m, e, n)
    ensures Inv(n)
  {
    CallTakesEffect(m, e);
  }

  lemma DispatchKeeps(m: State, e: Event, n: State)
    requires Inv(m) && e.Dispatch? && Step(m, e, n)
    ensures Inv(n)
  {
    assert InFlight(n) == InFlight(m);
    forall id | id in n.sent ensures exists p :: (id, p) in n.accepted {
      var p :| (id, p) in m.accepted;
      assert (id, p) in n.accepted;
    }
  }

  lemma DeleteKeepsSent(m: State, e: Event, n: State)
    requires Inv(m) && e.Delete? && Step(m, e, n)
    ensures SentAfterAccept(n) && Conserved(n)
  {
    CallTakesEffect(m, e);
    var x := m.pc.e;
    assert InFlight(m)[0] == x;
    assert (x.id, x.row.payload) in m.accepted;
    forall id | id in n.sent ensures exists p :: (id, p) in n.accepted {
      if id != x.id {
        var p :| (id, p) in m.accepted;
        assert (id, p) in n.accepted;
      }
    }
  }

  lemma DeleteKeepsRows(m: State, e: Event, n: State)
    requires Inv(m) && e.Delete? && Step(m, e, n)
    ensures Counted(n) && Current(n)
  {
    CallTakesEffect(m, e);
    assert InFlight(m)[0] == m.pc.e;
    assert forall i | 0 <= i < |m.todo| :: InFlight(m)[i + 1] == m.todo[i];
  }

  lemma DeleteKeeps(m: State, e: Event, n: State)
    requires Inv(m) && e.Delete? && Step(m, e, n)
    ensures Inv(n)
  {
    CallTakesEffect(m, e);
    DeleteKeepsSent(m, e, n);
    DeleteKeepsRows(m, e, n);
  }

  lemma RecordKeeps(m: State, e: Event, n: State)
    requires Inv(m) && e.Record? && Step(m, e, n)
    ensures Inv(n)
  {
    CallTakesEffect(m, e);
    assert InFlight(m)[0] == m.pc.e;
    assert forall i | 0 <= i < |m.todo| :: InFlight(m)[i + 1] == m.todo[i];
  }

  lemma OthersKeep(m: State, e: Event, n: State)
    requires Inv(m) && (e.Elsewhere? || e.Crash?) && Step(m, e, n)
    ensures Inv(n)
  {
    CallTakesEffect(m, e);
  }

  lemma StepKeeps(m: State, e: Event, n: State)
    requires Inv(m) && Step(m, e, n)
    ensures Inv(n)
  {
    match e
    case Enqueue(_, _, _, _, _, _) => EnqueueKeeps(m, e, n);
    case ReEnqueue(_, _, _, _, _) => ReEnqueueKeeps(m, e, n);
    case ListDue(_, _, _, _) => ListKeeps(m, e, n);
    case Dispatch(_) => DispatchKeeps(m, e, n);
    case Delete(_, _) => DeleteKeeps(m, e, n);
    case Record(_, _, _) => RecordKeeps(m, e, n);
    case _ => OthersKeep(m, e, n);
  }

  lemma {:induction false} RunKeeps(ms: seq<State>, es: seq<Event>, k: nat)
    requires IsRun(ms, es) && k <= |es|
    ensures Inv(ms[k])
  {
    if k > 0 {
      RunKeeps(ms, es, k - 1);
      StepKeeps(ms[k - 1], es[k - 1], ms[k]);
    }
  }

  // ---------- theorems ----------

  /** In every reachable state each entered row is pending, dead or sent, and
      exactly one of them; it was sent only after a backend accepted it, and it
      carries at most five failures since it was last enqueued. */
  lemma EachRowAccountedFor(ms: seq<State>, es: seq<Event>, k: nat, id: nat)
    requires IsRun(ms, es) && k <= |es| && id in ms[k].entered
    ensures id in ms[k].sent <==> id !in Rows(ms[k])
    ensures id in ms[k].sent ==> exists p :: (id, p) in ms[k].accepted
    ensures id in ms[k].recorded
    ensures id in Rows(ms[k]) ==> Rows(ms[k])[id].attempts == ms[k].recorded[id] <= MAX_ATTEMPTS
    ensures id in Rows(ms[k]) && id !in ms[k].muddled ==>
              (Rows(ms[k])[id].due.None? <==> ms[k].recorded[id] == MAX_ATTEMPTS)
  {
    RunKeeps(ms, es, k);
  }

  lemma {:induction false} SentGrows(ms: seq<State>, es: seq<Event>, i: nat, j: nat)
    requires IsRun(ms, es) && i <= j <= |es|
    ensures ms[i].sent <= ms[j].sent
  {
    if i < j {
      SentGrows(ms, es, i, j - 1);
      assert Step(ms[j - 1], es[j - 1], ms[j]);
    }
  }

  /** A row whose delete returned Ok is never dispatched again, whatever
      transactions were abandoned in between. */
  lemma NeverSentTwice(ms: seq<State>, es: seq<Event>, i: nat, j: nat)
    requires IsRun(ms, es) && i < j < |es|
    requires es[i].Delete? && es[i].ok && es[j].Dispatch?
    ensures ms[i].pc.Deleting? && ms[j].todo != [] && ms[j].todo[0].id != ms[i].pc.e.id
  {
    assert Step(ms[i], es[i], ms[i + 1]) && Step(ms[j], es[j], ms[j + 1]);
    RunKeeps(ms, es, i);
    assert InFlight(ms[i])[0] == ms[i].pc.e;
    assert ms[i].pc.e.id in ms[i + 1].sent;
    SentGrows(ms, es, i + 1, j);
    RunKeeps(ms, es, j);
    assert InFlight(ms[j])[0] == ms[j].todo[0];
  }

  // ---------- payloads deleted unsent ----------

  predicate ReEnqueues(e: Event, id: nat) {
    e.ReEnqueue? && e.ok && e.id == id
  }

  /** The pass that runs at `i` deletes the row at `d`, and nothing re-enqueued the
      row in between. */
  predicate Takes(ms: seq<State>, es: seq<Event>, i: nat, d: nat, id: nat)
    requires |ms| == |es| + 1
  {
    && i < d < |es| && es[d].Delete? && es[d].ok && ms[d].pc.Deleting? && ms[d].pc.e.id == id
    && forall x | i < x < d :: !es[x].ListDue? && !es[x].Crash? && !ReEnqueues(es[x], id)
  }

  /** A step other than its own re-enqueue leaves a row's payload alone, and no
      step brings a row back. */
  lemma PayloadStays(m: State, e: Event, n: State, id: nat)
    requires Inv(m) && Step(m, e, n) && id in m.entered && id in Rows(n)
    ensures id in Rows(m)
    ensures !ReEnqueues(e, id) ==> Rows(n)[id].payload == Rows(m)[id].payload
    ensures ReEnqueues(e, id) ==> Rows(n)[id].payload == e.payload
  {
    CallTakesEffect(m, e);
  }

  lemma EnteredStays(m: State, e: Event, n: State)
    requires Step(m, e, n)
    ensures m.entered <= n.entered && m.accepted <= n.accepted && m.lost <= n.lost
  {
  }

  /** Between listings the pass only works off what it has listed. */
  lemma ListShrinks(m: State, e: Event, n: State, id: nat)
    requires Step(m, e, n) && !e.ListDue? && Lists(InFlight(n), id)
    ensures Lists(InFlight(m), id)
  {
    var i :| 0 <= i < |InFlight(n)| && InFlight(n)[i].id == id;
    if e.Delete? || e.Record? {
      assert InFlight(m)[i + 1].id == id;
    } else {
      assert InFlight(m)[i].id == id;
    }
  }

  lemma RacedBefore(m: State, e: Event, n: State, id: nat)
    requires Inv(m) && Step(m, e, n) && id in n.raced && Lists(InFlight(n), id) && id in Rows(n)
    ensures !e.ListDue? && !e.Crash? && Lists(InFlight(m), id) && id in Rows(m)
    ensures !ReEnqueues(e, id) ==> id in m.raced && Rows(n)[id].payload == Rows(m)[id].payload
    ensures ReEnqueues(e, id) ==> Rows(n)[id].payload == e.payload
  {
    assert !e.ListDue? && !e.Crash?;
    ListShrinks(m, e, n, id);
    ListedIsThere(m, id);
    PayloadStays(m, e, n, id);
  }

  lemma ListedIsThere(m: State, id: nat)
    requires Inv(m) && Lists(InFlight(m), id)
    ensures id in Rows(m) && id in m.entered
  {
    var x :| 0 <= x < |InFlight(m)| && InFlight(m)[x].id == id;
  }

  /** A raced row still in the pass's hands holds the payload of the last
      re-enqueue, which fell within the pass. */
  lemma {:induction false} RacedSince(ms: seq<State>, es: seq<Event>, k: nat, id: nat) returns (i: nat)
    requires IsRun(ms, es) && k <= |es| && id in ms[k].raced && Lists(InFlight(ms[k]), id) && id in Rows(ms[k])
    ensures i < k && ReEnqueues(es[i], id) && id in Rows(ms[i]) && es[i].payload == Rows(ms[k])[id].payload
    ensures forall x | i < x < k :: !es[x].ListDue? && !es[x].Crash? && !ReEnqueues(es[x], id)
  {
    assert k > 0;
    RunKeeps(ms, es, k - 1);
    assert Step(ms[k - 1], es[k - 1], ms[k]);
    RacedBefore(ms[k - 1], es[k - 1], ms[k], id);
    if ReEnqueues(es[k - 1], id) {
      i := k - 1;
    } else {
      i := RacedSince(ms, es, k - 1, id);
    }
  }

  /** The delete that lost a payload, of a row whose payload was accepted nowhere. */
  lemma {:induction false} LostWhen(ms: seq<State>, es: seq<Event>, k: nat, id: nat, p: nat) returns (d: nat)
    requires IsRun(ms, es) && k <= |es| && (id, p) in ms[k].lost
    ensures d < k && es[d].Delete? && es[d].ok && ms[d].pc.Deleting? && ms[d].pc.e.id == id
    ensures id in Rows(ms[d]) && Rows(ms[d])[id].payload == p && (id, p) !in ms[d].accepted
  {
    assert Step(ms[k - 1], es[k - 1], ms[k]);
    if (id, p) in ms[k - 1].lost {
      d := LostWhen(ms, es, k - 1, id, p);
    } else {
      d := k - 1;
    }
  }

  /** A payload is lost only to a re-enqueue that fell between its pass's listing
      and that pass's delete. */
  lemma LostWasRaced(ms: seq<State>, es: seq<Event>, k: nat, id: nat, p: nat) returns (i: nat, d: nat)
    requires IsRun(ms, es) && k <= |es| && (id, p) in ms[k].lost
    ensures i < d < k && ReEnqueues(es[i], id) && es[i].payload == p && id in Rows(ms[i])
    ensures Takes(ms, es, i, d, id) && (id, p) !in ms[d].accepted
  {
    d := LostWhen(ms, es, k, id, p);
    RunKeeps(ms, es, d);
    assert InFlight(ms[d])[0] == ms[d].pc.e;
    i := RacedSince(ms, es, d, id);
  }

  lemma {:induction false} PayloadHolds(ms: seq<State>, es: seq<Event>, i: nat, d: nat, id: nat)
    requires IsRun(ms, es) && i < d <= |es| && ReEnqueues(es[i], id) && id in Rows(ms[i])
    requires forall x | i < x < d :: !ReEnqueues(es[x], id)
    ensures id in ms[d].entered && (id in Rows(ms[d]) ==> Rows(ms[d])[id].payload == es[i].payload)
  {
    var m, e, n := ms[d - 1], es[d - 1], ms[d];
    assert Step(m, e, n);
    RunKeeps(ms, es, d - 1);
    EnteredStays(m, e, n);
    if i < d - 1 {
      PayloadHolds(ms, es, i, d - 1, id);
    }
    if id in Rows(n) {
      PayloadStays(m, e, n, id);
    }
  }

  /** And such a re-enqueue always loses it: whatever else happens in between, the
      delete takes the new payload with the row. */
  lemma RacedPayloadLost(ms: seq<State>, es: seq<Event>, i: nat, d: nat, id: nat)
    requires IsRun(ms, es) && i < d < |es| && ReEnqueues(es[i], id) && id in Rows(ms[i])
    requires Takes(ms, es, i, d, id) && (id, es[i].payload) !in ms[d].accepted
    ensures (id, es[i].payload) in ms[d + 1].lost && id !in Rows(ms[d + 1])
  {
    PayloadHolds(ms, es, i, d, id);
    RunKeeps(ms, es, d);
    assert Step(ms[d], es[d], ms[d + 1]);
    assert InFlight(ms[d])[0] == ms[d].pc.e;
    CallTakesEffect(ms[d], es[d]);
  }

  lemma {:induction false} LostStays(ms: seq<State>, es: seq<Event>, i: nat, j: nat)
    requires IsRun(ms, es) && i <= j <= |es|
    ensures ms[i].lost <= ms[j].lost
  {
    if i < j {
      LostStays(ms, es, i, j - 1);
      assert Step(ms[j - 1], es[j - 1], ms[j]);
      EnteredStays(ms[j - 1], es[j - 1], ms[j]);
    }
  }

  /** Exactly when a payload leaves the table without ever having been accepted: it
      was put on an existing row, and the pass under way at that moment deleted
      the row before anything else was put there. */
  lemma LostExactly(ms: seq<State>, es: seq<Event>, k: nat, id: nat, p: nat)
    requires IsRun(ms, es) && k <= |es|
    ensures (id, p) in ms[k].lost <==>
            exists i, d :: 0 <= i < d < k && ReEnqueues(es[i], id) && es[i].payload == p && id in Rows(ms[i])
                           && Takes(ms, es, i, d, id) && (id, p) !in ms[d].accepted
  {
    if (id, p) in ms[k].lost {
      var i, d := LostWasRaced(ms, es, k, id, p);
    } else {
      forall i, d | 0 <= i < d < k && ReEnqueues(es[i], id) && es[i].payload == p && id in Rows(ms[i])
                    && Takes(ms, es, i, d, id)
        ensures (id, p) in ms[d].accepted
      {
        if (id, p) !in ms[d].accepted {
          RacedPayloadLost(ms, es, i, d, id);
          LostStays(ms, es, d + 1, k);
        }
      }
    }
  }

  // ---------- payloads that never got in ----------

  predicate Deletes(m: State, e: Event, id: nat) {
    e.Delete? && e.ok && m.pc.Deleting? && m.pc.e.id == id
  }

  lemma RowGoesByDelete(m: State, e: Event, n: State, id: nat)
    requires Inv(m) && Step(m, e, n) && id in m.entered
    ensures id in n.entered && (id in Rows(n) <==> id in Rows(m) && !Deletes(m, e, id))
  {
    CallTakesEffect(m, e);
  }

  predicate DeletedAt(ms: seq<State>, es: seq<Event>, d: nat, id: nat)
    requires d < |es| < |ms|
  {
    Deletes(ms[d], es[d], id)
  }

  /** No acknowledged delete of the row fell between `j` and `i`. */
  predicate Undeleted(ms: seq<State>, es: seq<Event>, j: nat, i: nat, id: nat)
    requires j <= i <= |es| < |ms|
  {
    forall d | j <= d < i :: !DeletedAt(ms, es, d, id)
  }

  lemma UndeletedStep(ms: seq<State>, es: seq<Event>, j: nat, i: nat, id: nat)
    requires j < i <= |es| < |ms|
    ensures Undeleted(ms, es, j, i, id) <==> Undeleted(ms, es, j, i - 1, id) && !Deletes(ms[i - 1], es[i - 1], id)
  {
    assert DeletedAt(ms, es, i - 1, id) <==> Deletes(ms[i - 1], es[i - 1], id);
  }

  lemma RowGoesAt(ms: seq<State>, es: seq<Event>, k: nat, id: nat)
    requires IsRun(ms, es) && k < |es| && id in ms[k].entered
    ensures id in ms[k + 1].entered
    ensures id in Rows(ms[k + 1]) <==> id in Rows(ms[k]) && !Deletes(ms[k], es[k], id)
  {
    RunKeeps(ms, es, k);
    assert Step(ms[k], es[k], ms[k + 1]);
    RowGoesByDelete(ms[k], es[k], ms[k + 1], id);
  }

  lemma RowsEntered(ms: seq<State>, es: seq<Event>, k: nat, id: nat)
    requires IsRun(ms, es) && k <= |es| && id in Rows(ms[k])
    ensures id in ms[k].entered
  {
    RunKeeps(ms, es, k);
  }

  /** A row that was there is there still, unless it was deleted. */
  lemma {:induction false} StaysUntilDeleted(ms: seq<State>, es: seq<Event>, j: nat, i: nat, id: nat)
    requires IsRun(ms, es) && j <= i <= |es| && id in Rows(ms[j])
    ensures id in ms[i].entered
    ensures id in Rows(ms[i]) <==> Undeleted(ms, es, j, i, id)
  {
    RowsEntered(ms, es, j, id);
    if j < i {
      StaysUntilDeleted(ms, es, j, i - 1, id);
      UndeletedStep(ms, es, j, i, id);
      RowGoesAt(ms, es, i - 1, id);
    }
  }

  /** `enqueue_dedup` looks for its row at `j` and updates it at `i`, on another
      connection than the drain's. Its acknowledged payload is in the table then,
      and due again, if and only if no delete of the row fell in between; otherwise
      the update met no row and changed nothing. */
  lemma AcknowledgedExactly(ms: seq<State>, es: seq<Event>, j: nat, i: nat, id: nat)
    requires IsRun(ms, es) && j <= i < |es| && id in Rows(ms[j]) && ReEnqueues(es[i], id)
    ensures (id in Rows(ms[i + 1])
             && Rows(ms[i + 1])[id] == Row(es[i].payload, Rows(ms[i])[id].key, 0, Some(es[i].now)))
            <==> Undeleted(ms, es, j, i, id)
    ensures !Undeleted(ms, es, j, i, id) ==> id in ms[i].sent && Rows(ms[i + 1]) == Rows(ms[i])
  {
    StaysUntilDeleted(ms, es, j, i, id);
    RunKeeps(ms, es, i);
    assert Step(ms[i], es[i], ms[i + 1]);
    CallTakesEffect(ms[i], es[i]);
  }

  lemma Then(ms: seq<State>, es: seq<Event>, e: Event) returns (ns: seq<State>, fs: seq<Event>)
    requires IsRun(ms, es) && CanStep(ms[|es|], e)
    ensures IsRun(ns, fs) && fs == es + [e] && ns == ms + [Apply(ms[|es|], e)]
  {
    ns, fs := ms + [Apply(ms[|es|], e)], es + [e];
  }

  const OLD := Row(10, Some(7), 0, Some(0))

  function Table(rows: map<nat, Row>): T.State<Data> {
    T.Fresh(Data(rows, map[]))
  }

  lemma ListedOnce() returns (ms: seq<State>, es: seq<Event>)
    ensures IsRun(ms, es) && |es| == 2
    ensures ms[2] == State(Table(map[1 := OLD]), [Entry(1, OLD)], Ready, {1}, {}, {}, map[1 := 0], {}, {}, {})
  {
    ms, es := Then([Start(Data(map[], map[]))], [], Enqueue(1, 10, Some(7), 0, T.Done, true));
    var rows := map[1 := OLD];
    assert IsDueList(rows, 0, 1, [Entry(1, OLD)]) by {
      assert Lists([Entry(1, OLD)], 1) by { assert [Entry(1, OLD)][0].id == 1; }
    }
    ms, es := Then(ms, es, ListDue(0, 1, [Entry(1, OLD)], T.Done));
  }

  /** Such a run: a draft is saved again after its row was listed and before it is
      sent; the old content goes out, and the row goes with the new. */
  lemma SavedAgainMidPass() returns (ms: seq<State>, es: seq<Event>)
    ensures IsRun(ms, es) && |es| == 5
    ensures es[2] == ReEnqueue(1, 20, 0, T.Done, true) && es[3] == Dispatch(true) && es[4] == Delete(T.Done, true)
    ensures (1, 20) in ms[5].lost && 1 in ms[5].sent && Rows(ms[5]) == map[]
  {
    ms, es := ListedOnce();
    assert Lists(InFlight(ms[2]), 1) by { assert InFlight(ms[2])[0].id == 1; }
    ms, es := Then(ms, es, ReEnqueue(1, 20, 0, T.Done, true));
    ms, es := Then(ms, es, Dispatch(true));
    ms, es := Then(ms, es, Delete(T.Done, true));
  }

  lemma DispatchedOnce() returns (ms: seq<State>, es: seq<Event>)
    ensures IsRun(ms, es) && |es| == 3
    ensures ms[3] == State(Table(map[1 := OLD]), [], Deleting(Entry(1, OLD)), {1}, {}, {(1, 10)}, map[1 := 0], {}, {}, {})
  {
    ms, es := ListedOnce();
    ms, es := Then(ms, es, Dispatch(true));
  }

  /** Such a run: the draft is saved again while its row is being sent; the lookup
      finds the row, the pass deletes it, the update meets none and returns Ok. The
      new payload is not in the table, was not accepted, and was never deleted. */
  lemma UpdateMetNoRow() returns (ms: seq<State>, es: seq<Event>)
    ensures IsRun(ms, es) && |es| == 6
    ensures es[3] == Elsewhere(T.Read(T.Done)) && 1 in Rows(ms[3])
    ensures es[4] == Delete(T.Done, true) && es[5] == ReEnqueue(1, 20, 0, T.Done, true)
    ensures Rows(ms[6]) == map[] && (1, 20) !in ms[6].accepted && (1, 20) !in ms[6].lost
  {
    ms, es := DispatchedOnce();
    ms, es := Then(ms, es, Elsewhere(T.Read(T.Done)));
    ms, es := Then(ms, es, Delete(T.Done, true));
    ms, es := Then(ms, es, ReEnqueue(1, 20, 0, T.Done, true));
  }

  /** A recovery rollback that leaves its orphan open undoes the guarantee: the
      delete is acknowledged inside the orphan and gone after a restart. */
  lemma UnsweptDeleteUndone(d: Data, id: nat) returns (calls: seq<T.Call<Data>>)
    requires id in d.outbox
    ensures T.WellUsed(T.Fresh(d), calls) && |calls| == 4
    ensures calls[2] == T.Write(DeleteById(id), T.StillOpen, true) && calls[3] == T.Restart
    ensures id !in T.Visible(T.Run(T.Fresh(d), calls[..3])).outbox
    ensures id in T.Run(T.Fresh(d), calls).committed.outbox
  {
    calls := [T.Begin(T.Done, true), T.Drop, T.Write(DeleteById(id), T.StillOpen, true), T.Restart];
    assert calls[..0] == [] && calls[..1] == [calls[0]];
    assert calls[..2][..1] == calls[..1] && calls[..3][..2] == calls[..2];
    assert T.Run(T.Fresh(d), calls[..1]) == T.State(d, Some(d), false, true);
    assert T.Run(T.Fresh(d), calls[..2]) == T.State(d, Some(d), true, false);
    assert T.Run(T.Fresh(d), calls[..3]) == T.State(d, Some(DeleteById(id)(d)), false, false);
  }
}

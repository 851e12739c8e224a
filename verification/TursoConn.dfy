/** The connection that recovers abandoned transactions: what the engine holds,
    the poison flag, and the statements the handles send.

    Statements are arbitrary total functions on the data, and each call carries
    the outcome the engine gave it. One statement is atomic: a failing one
    changes nothing and leaves an open transaction open. */
module TursoConn {
  import opened Wrappers

  /** How a COMMIT or ROLLBACK ended: done, refused with the transaction still
      open, or refused with the transaction thrown away. */
  datatype End = Done | StillOpen | Thrown

  datatype State<D> = State(committed: D, open: Option<D>, poisoned: bool, live: bool)

  /** `sweep` is the outcome of the recovery ROLLBACK, should one be issued. */
  datatype Call<!D> =
    | Write(stmt: D -> D, sweep: End, ok: bool)
    | Read(sweep: End)
    | Begin(sweep: End, ok: bool)
    | TxWrite(stmt: D -> D, ok: bool)
    | Commit(end: End)
    | Rollback(end: End)
    | Drop
    | Restart

  function Fresh<D>(d: D): State<D> {
    State(d, None, false, false)
  }

  /** What a statement sees: the open transaction if there is one. */
  function Visible<D>(s: State<D>): D {
    if s.open.Some? then s.open.value else s.committed
  }

  function Store<D>(s: State<D>, d: D): State<D> {
    if s.open.Some? then s.(open := Some(d)) else s.(committed := d)
  }

  function Recover<D>(s: State<D>, sweep: End): State<D> {
    if !s.poisoned then s
    else s.(poisoned := false, open := if sweep.StillOpen? then s.open else None)
  }

  function Opened<D>(s: State<D>, ok: bool): State<D> {
    if ok && s.open.None? then s.(open := Some(s.committed), live := true) else s
  }

  /** A handle is consumed by commit, rollback and drop, and exists while live. */
  predicate NeedsHandle<D>(c: Call<D>) {
    c.TxWrite? || c.Commit? || c.Rollback? || c.Drop?
  }

  function Apply<D>(s: State<D>, c: Call<D>): State<D> {
    match c
    case Write(f, sweep, ok) =>
      var t := Recover(s, sweep);
      if ok then Store(t, f(Visible(t))) else t
    case Read(sweep) => Recover(s, sweep)
    case Begin(sweep, ok) => Opened(Recover(s, sweep), ok)
    case TxWrite(f, ok) => if ok then Store(s, f(Visible(s))) else s
    case Commit(end) =>
      if end.Done? then s.(committed := Visible(s), open := None, live := false)
      else Abandoned(s, end)
    case Rollback(end) =>
      if end.Done? then s.(open := None, live := false) else Abandoned(s, end)
    case Drop => Abandoned(s, StillOpen)
    case Restart => Fresh(s.committed)
  }

  function Abandoned<D>(s: State<D>, end: End): State<D> {
    s.(open := if end.StillOpen? then s.open else None, live := false, poisoned := true)
  }

  function Run<D>(s: State<D>, calls: seq<Call<D>>): State<D>
    decreases |calls|
  {
    if calls == [] then s else Apply(Run(s, calls[..|calls| - 1]), calls[|calls| - 1])
  }

  // ---------- what callers promise, what the engine does ----------

  /** Handles are used only while they exist. */
  predicate Linear<D>(live: bool, c: Call<D>) {
    NeedsHandle(c) ==> live
  }

  /** Nobody writes or reads around a live handle. */
  predicate Disciplined<D>(live: bool, c: Call<D>) {
    c.Write? || c.Read? ==> !live
  }

  /** The recovery ROLLBACK that this call issues, if any, closes the orphan. */
  predicate Sweeps<D>(s: State<D>, c: Call<D>) {
    (c.Write? || c.Read? || c.Begin?) && s.poisoned && s.open.Some? ==> !c.sweep.StillOpen?
  }

  predicate WellUsed<D>(s: State<D>, calls: seq<Call<D>>) {
    forall i | 0 <= i < |calls| ::
      Linear(Run(s, calls[..i]).live, calls[i]) && Disciplined(Run(s, calls[..i]).live, calls[i])
  }

  predicate AllSweep<D>(s: State<D>, calls: seq<Call<D>>) {
    forall i | 0 <= i < |calls| :: Sweeps(Run(s, calls[..i]), calls[i])
  }

  /** A handle always has its transaction, and is never orphaned already. */
  predicate HandleOwns<D>(s: State<D>) {
    s.live ==> s.open.Some? && !s.poisoned
  }

  /** An open transaction is somebody's: a live handle's, or a known orphan. */
  predicate Explained<D>(s: State<D>) {
    s.open.Some? ==> s.live || s.poisoned
  }

  /** Open, and nobody will ever close it. */
  predicate Wedged<D>(s: State<D>) {
    s.open.Some? && !s.live && !s.poisoned
  }

  /** No COMMIT or ROLLBACK failed by throwing its transaction away. */
  ghost predicate NoneThrown<D>(calls: seq<Call<D>>) {
    forall c | c in calls :: (c.Commit? || c.Rollback?) ==> !c.end.Thrown?
  }

  // ---------- the atomic store ----------

  /** The reference: an atomic store knows autocommit writes and whole
      transactions, and nothing about engines, orphans or flags. `tx` holds the
      writes of the transaction in progress. */
  datatype Ledger<!D> = Ledger(done: seq<D -> D>, tx: Option<seq<D -> D>>)

  function Post<D>(l: Ledger<D>, c: Call<D>): Ledger<D> {
    match c
    case Write(f, _, ok) => if ok then l.(done := l.done + [f]) else l
    case Read(_) => l
    case Begin(_, ok) => if ok && l.tx.None? then l.(tx := Some([])) else l
    case TxWrite(f, ok) => if ok && l.tx.Some? then l.(tx := Some(l.tx.value + [f])) else l
    case Commit(Done) => if l.tx.Some? then Ledger(l.done + l.tx.value, None) else l
    case _ => l.(tx := None)
  }

  function Posted<D>(calls: seq<Call<D>>): Ledger<D>
    decreases |calls|
  {
    if calls == [] then Ledger([], None) else Post(Posted(calls[..|calls| - 1]), calls[|calls| - 1])
  }

  function Do<D>(fs: seq<D -> D>, d: D): D
    decreases |fs|
  {
    if fs == [] then d else fs[|fs| - 1](Do(fs[..|fs| - 1], d))
  }

  lemma {:induction false} DoJoins<D>(fs: seq<D -> D>, gs: seq<D -> D>, d: D)
    ensures Do(fs + gs, d) == Do(gs, Do(fs, d))
    decreases |gs|
  {
    if gs == [] {
      assert fs + gs == fs;
    } else {
      var k := |gs| - 1;
      assert (fs + gs)[..|fs| + k] == fs + gs[..k];
      DoJoins(fs, gs[..k], d);
    }
  }

  /** The connection shows exactly what the atomic store holds. */
  ghost predicate Agrees<D>(s: State<D>, l: Ledger<D>, d: D) {
    && s.committed == Do(l.done, d)
    && (s.live <==> l.tx.Some?)
    && (s.live ==> s.open == Some(Do(l.tx.value, s.committed)))
  }

  lemma StepAgrees<D>(s: State<D>, l: Ledger<D>, c: Call<D>, d: D)
    requires Agrees(s, l, d) && HandleOwns(s) && Explained(s)
    requires Linear(s.live, c) && Disciplined(s.live, c) && Sweeps(s, c)
    ensures Agrees(Apply(s, c), Post(l, c), d)
    ensures HandleOwns(Apply(s, c)) && Explained(Apply(s, c))
  {
    match c
    case Write(f, _, _) => assert (l.done + [f])[..|l.done|] == l.done;
    case TxWrite(f, _) =>
      if l.tx.Some? {
        assert (l.tx.value + [f])[..|l.tx.value|] == l.tx.value;
      }
    case Commit(_) =>
      if l.tx.Some? {
        DoJoins(l.done, l.tx.value, d);
      }
    case _ =>
  }

  lemma Prefixes<D>(s: State<D>, calls: seq<Call<D>>, n: nat)
    requires n <= |calls|
    requires WellUsed(s, calls)
    ensures WellUsed(s, calls[..n])
    ensures AllSweep(s, calls) ==> AllSweep(s, calls[..n])
  {
    forall i | 0 <= i < n
      ensures calls[..n][i] == calls[i] && calls[..n][..i] == calls[..i]
    {
    }
  }

  /** The connection refines the atomic store: after any well-used sequence whose
      recovery rollbacks close their orphans, committed data is the autocommit
      writes and committed transactions in order, and a live handle sees its own
      writes on top. */
  lemma {:induction false} RecoveryRefines<D>(d: D, calls: seq<Call<D>>)
    requires WellUsed(Fresh(d), calls) && AllSweep(Fresh(d), calls)
    ensures Agrees(Run(Fresh(d), calls), Posted(calls), d)
    ensures HandleOwns(Run(Fresh(d), calls)) && Explained(Run(Fresh(d), calls))
    decreases |calls|
  {
    if calls != [] {
      var k := |calls| - 1;
      Prefixes(Fresh(d), calls, k);
      RecoveryRefines(d, calls[..k]);
      assert Linear(Run(Fresh(d), calls[..k]).live, calls[k]);
      StepAgrees(Run(Fresh(d), calls[..k]), Posted(calls[..k]), calls[k], d);
    }
  }

  /** A direct statement sees the atomic store and nothing of an abandoned
      transaction, and a write it acknowledges is committed at once. */
  lemma DirectCallSeesCommitted<D>(d: D, calls: seq<Call<D>>, c: Call<D>)
    requires c.Write? || c.Read?
    requires WellUsed(Fresh(d), calls + [c]) && AllSweep(Fresh(d), calls + [c])
    ensures var s := Recover(Run(Fresh(d), calls), c.sweep);
            s.open.None? && Visible(s) == Do(Posted(calls).done, d)
    ensures c.Write? && c.ok ==> Run(Fresh(d), calls + [c]).committed == c.stmt(Do(Posted(calls).done, d))
  {
    var all := calls + [c];
    assert all[..|calls|] == calls;
    Prefixes(Fresh(d), all, |calls|);
    assert Disciplined(Run(Fresh(d), all[..|calls|]).live, all[|calls|]);
    assert Sweeps(Run(Fresh(d), all[..|calls|]), all[|calls|]);
    RecoveryRefines(d, calls);
  }

  predicate Exact<D>(s: State<D>) {
    s.open.Some? <==> s.live || s.poisoned
  }

  lemma ExactStays<D>(s: State<D>, c: Call<D>)
    requires Exact(s) && HandleOwns(s) && Linear(s.live, c) && Disciplined(s.live, c) && Sweeps(s, c)
    requires c.Commit? || c.Rollback? ==> !c.end.Thrown?
    ensures Exact(Apply(s, c))
  {
  }

  /** While recovery closes its orphans and no failed COMMIT or ROLLBACK throws its
      transaction away, one is open exactly when a handle is live or the flag is
      set. */
  lemma {:induction false} OpenWhenKept<D>(d: D, calls: seq<Call<D>>)
    requires WellUsed(Fresh(d), calls) && AllSweep(Fresh(d), calls) && NoneThrown(calls)
    ensures Exact(Run(Fresh(d), calls))
    decreases |calls|
  {
    if calls != [] {
      var k := |calls| - 1;
      Prefixes(Fresh(d), calls, k);
      RecoveryRefines(d, calls[..k]);
      assert NoneThrown(calls[..k]) by {
        forall c | c in calls[..k] ensures c in calls {
        }
      }
      OpenWhenKept(d, calls[..k]);
      assert Linear(Run(Fresh(d), calls[..k]).live, calls[k]);
      assert calls[k] in calls;
      ExactStays(Run(Fresh(d), calls[..k]), calls[k]);
    }
  }

  // ---------- where recovery fails ----------

  lemma {:induction false} OwnedThroughout<D>(d: D, calls: seq<Call<D>>)
    requires WellUsed(Fresh(d), calls)
    ensures HandleOwns(Run(Fresh(d), calls))
    decreases |calls|
  {
    if calls != [] {
      var k := |calls| - 1;
      Prefixes(Fresh(d), calls, k);
      OwnedThroughout(d, calls[..k]);
      assert Linear(Run(Fresh(d), calls[..k]).live, calls[k]);
    }
  }

  lemma MissedSweep<D>(d: D, calls: seq<Call<D>>, i: nat)
    requires WellUsed(Fresh(d), calls) && i < |calls| && !Sweeps(Run(Fresh(d), calls[..i]), calls[i])
    ensures Wedged(Run(Fresh(d), calls[..i + 1]))
  {
    Prefixes(Fresh(d), calls, i);
    OwnedThroughout(d, calls[..i]);
    assert calls[..i + 1][..i] == calls[..i];
  }

  predicate AlwaysExplained<D>(s: State<D>, calls: seq<Call<D>>) {
    forall i | 0 <= i <= |calls| :: Explained(Run(s, calls[..i]))
  }

  /** Open transactions stay accounted for exactly when every recovery rollback
      closes its orphan: its result is ignored and the flag already cleared. */
  lemma {:induction false} ExplainedExactly<D>(d: D, calls: seq<Call<D>>)
    requires WellUsed(Fresh(d), calls)
    ensures AlwaysExplained(Fresh(d), calls) <==> AllSweep(Fresh(d), calls)
  {
    var s := Fresh(d);
    if AllSweep(s, calls) {
      forall i | 0 <= i <= |calls| ensures Explained(Run(s, calls[..i])) {
        Prefixes(s, calls, i);
        RecoveryRefines(d, calls[..i]);
      }
    } else {
      var i :| 0 <= i < |calls| && !Sweeps(Run(s, calls[..i]), calls[i]);
      MissedSweep(d, calls, i);
      assert !Explained(Run(s, calls[..i + 1]));
    }
  }

  ghost predicate AlwaysExact<D>(s: State<D>, calls: seq<Call<D>>) {
    forall i | 0 <= i <= |calls| :: Exact(Run(s, calls[..i]))
  }

  /** A COMMIT or ROLLBACK that fails by throwing its transaction away sets the
      flag over nothing open. */
  lemma ThrownLeavesFlag<D>(s: State<D>, calls: seq<Call<D>>, i: nat)
    requires i < |calls| && (calls[i].Commit? || calls[i].Rollback?) && calls[i].end.Thrown?
    ensures !Exact(Run(s, calls[..i + 1]))
  {
    assert calls[..i + 1][..i] == calls[..i];
  }

  lemma KeptThroughout<D>(d: D, calls: seq<Call<D>>)
    requires WellUsed(Fresh(d), calls) && AllSweep(Fresh(d), calls) && NoneThrown(calls)
    ensures AlwaysExact(Fresh(d), calls)
  {
    forall i | 0 <= i <= |calls| ensures Exact(Run(Fresh(d), calls[..i])) {
      Prefixes(Fresh(d), calls, i);
      forall c | c in calls[..i] ensures c in calls {
      }
      OpenWhenKept(d, calls[..i]);
    }
  }

  /** A transaction is open exactly when a handle is live or the flag is set, at
      every moment of a well-used sequence, if and only if every recovery rollback
      closes its orphan and no COMMIT or ROLLBACK fails by throwing its
      transaction away. */
  lemma {:induction false} OpenExactly<D>(d: D, calls: seq<Call<D>>)
    requires WellUsed(Fresh(d), calls)
    ensures AlwaysExact(Fresh(d), calls) <==> AllSweep(Fresh(d), calls) && NoneThrown(calls)
  {
    var s := Fresh(d);
    if !NoneThrown(calls) {
      var c :| c in calls && (c.Commit? || c.Rollback?) && c.end.Thrown?;
      var i :| 0 <= i < |calls| && calls[i] == c;
      ThrownLeavesFlag(s, calls, i);
      assert !Exact(Run(s, calls[..i + 1]));
    } else if !AllSweep(s, calls) {
      var i :| 0 <= i < |calls| && !Sweeps(Run(s, calls[..i]), calls[i]);
      MissedSweep(d, calls, i);
      assert !Exact(Run(s, calls[..i + 1]));
    } else {
      KeptThroughout(d, calls);
    }
  }

  /** Until the process restarts, a wedged connection commits nothing more and
      opens no transaction, whatever it acknowledges. */
  lemma {:induction false} WedgedCommitsNothing<D>(s: State<D>, calls: seq<Call<D>>)
    requires Wedged(s) && WellUsed(s, calls) && forall c | c in calls :: !c.Restart?
    ensures Wedged(Run(s, calls)) && Run(s, calls).committed == s.committed
    decreases |calls|
  {
    if calls != [] {
      var k := |calls| - 1;
      Prefixes(s, calls, k);
      forall c | c in calls[..k] ensures c in calls {
      }
      WedgedCommitsNothing(s, calls[..k]);
      assert calls[k] in calls;
      assert Linear(Run(s, calls[..k]).live, calls[k]);
    }
  }

  const SET_THREE: int -> int := x => 3

  /** Around a live handle, a direct write joins its transaction and an
      acknowledged write disappears with it. */
  lemma UndisciplinedWriteLost() returns (calls: seq<Call<int>>)
    ensures |calls| == 4 && calls[1] == Write(SET_THREE, Done, true) && AllSweep(Fresh(0), calls)
    ensures forall i | 0 <= i < |calls| :: Linear(Run(Fresh(0), calls[..i]).live, calls[i])
    ensures Posted(calls).done == [SET_THREE] && Run(Fresh(0), calls).committed == 0
  {
    calls := [Begin(Done, true), Write(SET_THREE, Done, true), Drop, Read(Done)];
    assert calls[..0] == [] && calls[..1] == [Begin(Done, true)];
    var two, three := calls[..2], calls[..3];
    assert two[..1] == calls[..1] && three[..2] == two;
    assert Run(Fresh(0), calls[..1]) == State(0, Some(0), false, true);
    assert Apply(State(0, Some(0), false, true), calls[1]) == State(0, Some(SET_THREE(0)), false, true);
    assert Run(Fresh(0), two) == State(0, Some(3), false, true);
    assert Posted(calls[..1]) == Ledger([], Some([]));
    assert Posted(two) == Ledger([SET_THREE], Some([]));
    assert Run(Fresh(0), three) == State(0, Some(3), true, false);
  }

  // ---------- the connection itself ----------

  /** The serialized engine behind the connection. */
  class Engine<D> {
    var committed: D
    var open: Option<D>

    constructor (d: D)
      ensures committed == d && open == None
    {
      committed, open := d, None;
    }

    method Execute(stmt: D -> D, ok: bool) returns (r: Result<(), string>)
      modifies this
      ensures r.Ok? <==> ok
      ensures committed == if ok && old(open).None? then stmt(old(committed)) else old(committed)
      ensures open == if ok && old(open).Some? then Some(stmt(old(open).value)) else old(open)
    {
      if !ok {
        return Err("statement");
      }
      if open.Some? {
        open := Some(stmt(open.value));
      } else {
        committed := stmt(committed);
      }
      r := Ok(());
    }

    method Begin(ok: bool) returns (r: Result<(), string>)
      modifies this`open
      ensures r.Ok? <==> ok && old(open).None?
      ensures open == if r.Ok? then Some(committed) else old(open)
    {
      if !ok || open.Some? {
        return Err("cannot start a transaction");
      }
      open := Some(committed);
      r := Ok(());
    }

    /** COMMIT or ROLLBACK; both are errors with nothing open. */
    method End(keep: bool, end: End) returns (r: Result<(), string>)
      modifies this
      ensures r.Ok? <==> end.Done? && old(open).Some?
      ensures committed == if keep && r.Ok? then old(open).value else old(committed)
      ensures open == if end.StillOpen? then old(open) else None
    {
      if open.None? || !end.Done? {
        if end.Thrown? || open.None? {
          open := None;
        }
        return Err("no end");
      }
      if keep {
        committed := open.value;
      }
      open := None;
      r := Ok(());
    }
  }

  /** `DbConn` over one engine. The ghost trace is the calls so far; `live` says
      that a transaction handle exists. */
  class Connection<D> {
    const engine: Engine<D>
    var poisoned: bool
    ghost var live: bool
    ghost const first: D
    ghost var trace: seq<Call<D>>

    ghost function View(): State<D>
      reads this, engine
    {
      State(engine.committed, engine.open, poisoned, live)
    }

    ghost predicate Valid()
      reads this, engine
    {
      HandleOwns(View()) && View() == Run(Fresh(first), trace)
    }

    constructor (d: D)
      ensures Valid() && fresh(engine) && trace == [] && View() == Fresh(d)
    {
      engine := new Engine(d);
      poisoned, live, first, trace := false, false, d, [];
    }

    ghost method Note(c: Call<D>)
      requires Linear(Run(Fresh(first), trace).live, c)
      requires View() == Apply(Run(Fresh(first), trace), c)
      requires HandleOwns(Run(Fresh(first), trace)) && Disciplined(Run(Fresh(first), trace).live, c)
      modifies this`trace
      ensures Valid() && trace == old(trace) + [c]
    {
      assert (trace + [c])[..|trace|] == trace;
      trace := trace + [c];
    }

    /** The flag is swapped before the ROLLBACK, whose result is ignored. */
    method RecoverOrphanTx(sweep: End)
      requires Valid()
      modifies this`poisoned, engine
      ensures View() == Recover(old(View()), sweep)
    {
      var was := poisoned;
      poisoned := false;
      if was {
        var _ := engine.End(false, sweep);
      }
    }

    method Execute(stmt: D -> D, sweep: End, ok: bool) returns (r: Result<(), string>)
      requires Valid() && !live
      modifies this`poisoned, this`trace, engine
      ensures Valid() && trace == old(trace) + [Write(stmt, sweep, ok)] && (r.Ok? <==> ok)
      ensures old(Explained(View())) && Sweeps(old(View()), Write(stmt, sweep, ok)) ==>
                && engine.open.None?
                && engine.committed == if ok then stmt(old(engine.committed)) else old(engine.committed)
    {
      RecoverOrphanTx(sweep);
      r := engine.Execute(stmt, ok);
      Note(Write(stmt, sweep, ok));
    }

    method Query<R>(read: D -> R, sweep: End) returns (r: R)
      requires Valid() && !live
      modifies this`poisoned, this`trace, engine
      ensures Valid() && trace == old(trace) + [Read(sweep)]
      ensures engine.committed == old(engine.committed)
      ensures old(Explained(View())) && Sweeps(old(View()), Read(sweep)) ==> r == read(old(engine.committed))
    {
      RecoverOrphanTx(sweep);
      r := read(if engine.open.Some? then engine.open.value else engine.committed);
      Note(Read(sweep));
    }

    /** Opens a transaction, or reports the engine's refusal. */
    method Begin(sweep: End, ok: bool) returns (r: Result<Transaction<D>, string>)
      requires Valid()
      modifies this`poisoned, this`live, this`trace, engine
      ensures Valid() && trace == old(trace) + [Call.Begin(sweep, ok)]
      ensures engine.committed == old(engine.committed)
      ensures r.Ok? ==> fresh(r.value) && r.value.Valid() && r.value.conn == this && live
      ensures r.Err? ==> live == old(live)
      ensures old(Explained(View())) && !old(live) && Sweeps(old(View()), Call.Begin(sweep, ok)) ==>
                (r.Ok? <==> ok)
    {
      RecoverOrphanTx(sweep);
      var begun := engine.Begin(ok);
      if begun.Ok? {
        live := true;
        var tx := new Transaction(this);
        r := Ok(tx);
      } else {
        r := Err(begun.error);
      }
      Note(Call.Begin(sweep, ok));
    }
  }

  /** A transaction handle; `Live` until it is finished or dropped. */
  class Transaction<D> {
    const conn: Connection<D>
    var finished: bool

    ghost predicate Valid()
      reads this, conn, conn.engine
    {
      conn.Valid() && conn.live && !finished
    }

    constructor (conn: Connection<D>)
      ensures this.conn == conn && !finished
    {
      this.conn := conn;
      finished := false;
    }

    method Execute(stmt: D -> D, ok: bool) returns (r: Result<(), string>)
      requires Valid()
      modifies conn`trace, conn.engine
      ensures Valid() && conn.trace == old(conn.trace) + [TxWrite(stmt, ok)] && (r.Ok? <==> ok)
      ensures conn.engine.committed == old(conn.engine.committed)
    {
      r := conn.engine.Execute(stmt, ok);
      conn.Note(TxWrite(stmt, ok));
    }

    /** The destructor: an unfinished handle leaves its transaction to recovery. */
    method OnDrop()
      modifies conn`poisoned, conn`live
      ensures conn.poisoned == (old(conn.poisoned) || !finished) && !conn.live
    {
      if !finished {
        conn.poisoned := true;
      }
      conn.live := false;
    }

    /** On an error the handle leaves through `?`, unfinished. */
    method Commit(end: End) returns (r: Result<(), string>)
      requires Valid()
      modifies this`finished, conn`poisoned, conn`live, conn`trace, conn.engine
      ensures conn.Valid() && conn.trace == old(conn.trace) + [Call.Commit(end)]
      ensures (r.Ok? <==> end.Done?) && (conn.poisoned <==> r.Err?)
      ensures conn.engine.committed ==
                if r.Ok? then old(conn.engine.open.value) else old(conn.engine.committed)
    {
      r := conn.engine.End(true, end);
      finished := r.Ok?;
      OnDrop();
      conn.Note(Call.Commit(end));
    }

    method Rollback(end: End) returns (r: Result<(), string>)
      requires Valid()
      modifies this`finished, conn`poisoned, conn`live, conn`trace, conn.engine
      ensures conn.Valid() && conn.trace == old(conn.trace) + [Call.Rollback(end)]
      ensures (r.Ok? <==> end.Done?) && (conn.poisoned <==> r.Err?)
      ensures conn.engine.committed == old(conn.engine.committed)
    {
      r := conn.engine.End(false, end);
      finished := r.Ok?;
      OnDrop();
      conn.Note(Call.Rollback(end));
    }

    method Abandon()
      requires Valid()
      modifies conn`poisoned, conn`live, conn`trace
      ensures conn.Valid() && conn.trace == old(conn.trace) + [Drop] && conn.poisoned
    {
      OnDrop();
      conn.Note(Drop);
    }
  }
}

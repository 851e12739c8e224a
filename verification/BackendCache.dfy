/** The backend cache of one account under every interleaving of its callers.

    A slot is a once-cell: empty, being built by one caller, or filled for good.
    The cache holds at most one slot; callers keep the slot they joined even
    after it left the cache. Lookups and evictions run under the cache's lock, but
    a slot is filled without it, so a lookup's two reads of the slot are two
    steps; builds, waits and operations are steps of their own too. */
module BackendCache {
  import opened Wrappers

  /** Thirty minutes, in milliseconds. */
  const MAX_BACKEND_AGE: nat := 30 * 60 * 1000

  /** `began` is when the build that produced the handle started. */
  datatype Entry = Entry(handle: nat, began: nat, builtAt: nat)

  datatype Slot = Slot(created: nat, value: Option<Entry>, builder: Option<nat>)

  /** Which attempt of `with_auth_retry`: the second knows when the first failed
      with an authentication error. */
  datatype Try = First | Second(failedAt: nat)

  datatype Caller =
    | Looking(t: Try)
    | Guarding(t: Try)
    | Joined(slot: nat, t: Try)
    | Building(slot: nat, began: nat, t: Try)
    | Using(slot: nat, entry: Entry, gotAt: nat, hit: bool, t: Try)
    | Evicting(failedAt: nat)
    | Returned(ok: bool)

  datatype State = State(
    now: nat,
    cache: Option<nat>,
    lock: Option<nat>,
    slots: map<nat, Slot>,
    callers: map<nat, Caller>,
    nextSlot: nat,
    nextHandle: nat)

  datatype Event =
    | Tick(ms: nat)
    | Arrive(c: nat)
    | Lookup(c: nat)
    | Choose(c: nat)
    | StartBuild(c: nat)
    | BuildOk(c: nat)
    | BuildFails(c: nat)
    | TakeFilled(c: nat)
    | OpEnds(c: nat, ok: bool)
    | OpAuth(c: nat)
    | Evict(c: nat)
    | AccountRemoved
    | Abandon(c: nat)

  predicate InSlot(m: State, c: nat) {
    c in m.callers && m.callers[c].Joined? && m.callers[c].slot in m.slots
  }

  predicate CanStep(m: State, e: Event) {
    match e
    case Tick(_) => true
    case Arrive(c) => c !in m.callers
    case Lookup(c) =>
      m.lock.None? && c in m.callers && m.callers[c].Looking? && (m.cache.Some? ==> m.cache.value in m.slots)
    case Choose(c) => c in m.callers && m.callers[c].Guarding? && (m.cache.Some? ==> m.cache.value in m.slots)
    case StartBuild(c) =>
      InSlot(m, c) && m.slots[m.callers[c].slot].value.None? && m.slots[m.callers[c].slot].builder.None?
    case BuildOk(c) => c in m.callers && m.callers[c].Building? && m.callers[c].slot in m.slots
    case BuildFails(c) => c in m.callers && m.callers[c].Building? && m.callers[c].slot in m.slots
    case TakeFilled(c) => InSlot(m, c) && m.slots[m.callers[c].slot].value.Some?
    case OpEnds(c, _) => c in m.callers && m.callers[c].Using?
    case OpAuth(c) => c in m.callers && m.callers[c].Using?
    case Evict(c) => m.lock.None? && c in m.callers && m.callers[c].Evicting?
    case AccountRemoved => m.lock.None?
    case Abandon(c) => c in m.callers && !m.callers[c].Guarding? && (m.callers[c].Building? ==> m.callers[c].slot in m.slots)
  }

  function Young(m: State, e: Entry): bool {
    m.now - e.builtAt < MAX_BACKEND_AGE
  }

  /** The first read of a lookup: a fresh hit returns, anything else goes on with
      the lock held. */
  function LookedUp(m: State, c: nat, t: Try): State
    requires m.cache.Some? ==> m.cache.value in m.slots
  {
    if m.cache.Some? && m.slots[m.cache.value].value.Some? && Young(m, m.slots[m.cache.value].value.value) then
      m.(callers := m.callers[c := Using(m.cache.value, m.slots[m.cache.value].value.value, m.now, true, t)])
    else
      m.(callers := m.callers[c := Guarding(t)], lock := Some(c))
  }

  /** The second read: an empty slot is shared, a filled one replaced, whatever its
      age is by now. */
  function Chosen(m: State, c: nat, t: Try): State
    requires m.cache.Some? ==> m.cache.value in m.slots
  {
    if m.cache.Some? && m.slots[m.cache.value].value.None? then
      m.(callers := m.callers[c := Joined(m.cache.value, t)], lock := None)
    else
      m.(cache := Some(m.nextSlot),
         lock := None,
         slots := m.slots[m.nextSlot := Slot(m.now, None, None)],
         callers := m.callers[c := Joined(m.nextSlot, t)],
         nextSlot := m.nextSlot + 1)
  }

  function Apply(m: State, e: Event): State
    requires CanStep(m, e)
  {
    match e
    case Tick(ms) => m.(now := m.now + ms)
    case Arrive(c) => m.(callers := m.callers[c := Looking(First)])
    case Lookup(c) => LookedUp(m, c, m.callers[c].t)
    case Choose(c) => Chosen(m, c, m.callers[c].t)
    case StartBuild(c) =>
      var s := m.callers[c].slot;
      m.(slots := m.slots[s := m.slots[s].(builder := Some(c))],
         callers := m.callers[c := Building(s, m.now, m.callers[c].t)])
    case BuildOk(c) =>
      var b := m.callers[c];
      var entry := Entry(m.nextHandle, b.began, m.now);
      m.(slots := m.slots[b.slot := m.slots[b.slot].(value := Some(entry), builder := None)],
         callers := m.callers[c := Using(b.slot, entry, m.now, false, b.t)],
         nextHandle := m.nextHandle + 1)
    case BuildFails(c) =>
      var s := m.callers[c].slot;
      m.(slots := m.slots[s := m.slots[s].(builder := None)], callers := m.callers[c := Returned(false)])
    case TakeFilled(c) =>
      var j := m.callers[c];
      m.(callers := m.callers[c := Using(j.slot, m.slots[j.slot].value.value, m.now, false, j.t)])
    case OpEnds(c, ok) => m.(callers := m.callers[c := Returned(ok)])
    case OpAuth(c) =>
      m.(callers := m.callers[c := if m.callers[c].t.First? then Evicting(m.now) else Returned(false)])
    case Evict(c) =>
      m.(cache := None, callers := m.callers[c := Looking(Second(m.callers[c].failedAt))])
    case AccountRemoved => m.(cache := None)
    case Abandon(c) =>
      if m.callers[c].Building? then
        var s := m.callers[c].slot;
        m.(slots := m.slots[s := m.slots[s].(builder := None)], callers := m.callers - {c})
      else m.(callers := m.callers - {c})
  }

  predicate Step(m: State, e: Event, n: State) {
    CanStep(m, e) && n == Apply(m, e)
  }

  function Start(now: nat): State {
    State(now, None, None, map[], map[], 0, 0)
  }

  predicate IsRun(ms: seq<State>, es: seq<Event>) {
    && |ms| == |es| + 1 && ms[0] == Start(ms[0].now)
    && forall i | 0 <= i < |es| :: Step(ms[i], es[i], ms[i + 1])
  }

  // ---------- the invariant ----------

  predicate SlotOk(m: State, s: nat) {
    s in m.slots ==>
      var x := m.slots[s];
      && s < m.nextSlot && x.created <= m.now
      && (x.value.Some? ==> x.created <= x.value.value.began <= x.value.value.builtAt <= m.now
                            && x.value.value.handle < m.nextHandle && x.builder.None?)
      && (x.builder.Some? ==> x.builder.value in m.callers && m.callers[x.builder.value].Building?
                              && m.callers[x.builder.value].slot == s)
  }

  /** A retry works with nothing older than the failure it retries. */
  predicate Since(t: Try, when: nat) {
    t.Second? ==> t.failedAt <= when
  }

  predicate CallerOk(m: State, c: nat) {
    c in m.callers ==>
      match m.callers[c]
      case Looking(t) =>
        Since(t, m.now) && (m.cache.Some? && m.cache.value in m.slots ==> Since(t, m.slots[m.cache.value].created))
      case Guarding(t) =>
        m.lock == Some(c) && Since(t, m.now)
        && (m.cache.Some? && m.cache.value in m.slots ==> Since(t, m.slots[m.cache.value].created))
      case Joined(s, t) => s in m.slots && Since(t, m.slots[s].created)
      case Building(s, began, t) =>
        && s in m.slots && Since(t, m.slots[s].created) && m.slots[s].created <= began <= m.now
        && m.slots[s].builder == Some(c)
      case Using(s, e, got, hit, t) =>
        && s in m.slots && m.slots[s].value == Some(e) && Since(t, e.began)
        && (hit ==> e.builtAt <= got && got - e.builtAt < MAX_BACKEND_AGE)
      case Evicting(f) => f <= m.now
      case Returned(_) => true
  }

  predicate OwnHandles(m: State) {
    forall s, u | s in m.slots && u in m.slots && m.slots[s].value.Some? && m.slots[u].value.Some? ::
      m.slots[s].value.value.handle == m.slots[u].value.value.handle ==> s == u
  }

  predicate Inv(m: State) {
    && (m.cache.Some? ==> m.cache.value in m.slots)
    && (m.lock.Some? ==> m.lock.value in m.callers && m.callers[m.lock.value].Guarding?)
    && (forall s | s in m.slots :: SlotOk(m, s))
    && (forall c | c in m.callers :: CallerOk(m, c))
    && OwnHandles(m)
  }

  predicate Builds(e: Event) {
    e.StartBuild? || e.BuildOk? || e.BuildFails? || e.Abandon?
  }

  lemma BuiltSlotKeeps(m: State, e: Event, n: State, s: nat)
    requires Inv(m) && Step(m, e, n) && Builds(e) && s in n.slots
    ensures SlotOk(n, s)
  {
    assert s in m.slots && SlotOk(m, s);
    assert e.c in m.callers && CallerOk(m, e.c);
  }

  lemma IdleSlotKeeps(m: State, e: Event, n: State, s: nat)
    requires Inv(m) && Step(m, e, n) && !Builds(e) && s in n.slots
    ensures SlotOk(n, s)
  {
    assert s in m.slots ==> SlotOk(m, s);
  }

  lemma SlotsKeep(m: State, e: Event, n: State)
    requires Inv(m) && Step(m, e, n)
    ensures forall s | s in n.slots :: SlotOk(n, s)
  {
    forall s | s in n.slots ensures SlotOk(n, s) {
      if Builds(e) {
        BuiltSlotKeeps(m, e, n, s);
      } else {
        IdleSlotKeeps(m, e, n, s);
      }
    }
  }

  function Actor(e: Event): Option<nat> {
    match e
    case Tick(_) => None
    case AccountRemoved => None
    case _ => Some(e.c)
  }

  lemma BuilderKeeps(m: State, e: Event, n: State, c: nat)
    requires Inv(m) && Step(m, e, n) && Builds(e) && Actor(e) == Some(c)
    ensures CallerOk(n, c)
  {
    assert CallerOk(m, c);
    assert m.callers[c].Joined? || m.callers[c].Building? ==> SlotOk(m, m.callers[c].slot);
  }

  lemma LookerKeeps(m: State, e: Event, n: State, c: nat)
    requires Inv(m) && Step(m, e, n) && (e.Lookup? || e.Choose? || e.Evict? || e.TakeFilled?) && e.c == c
    ensures CallerOk(n, c)
  {
    assert CallerOk(m, c);
    assert m.cache.Some? ==> SlotOk(m, m.cache.value);
    assert e.TakeFilled? ==> SlotOk(m, m.callers[c].slot);
  }

  lemma ActorKeeps(m: State, e: Event, n: State, c: nat)
    requires Inv(m) && Step(m, e, n) && Actor(e) == Some(c)
    ensures CallerOk(n, c)
  {
    if Builds(e) {
      BuilderKeeps(m, e, n, c);
    } else if e.Lookup? || e.Choose? || e.Evict? || e.TakeFilled? {
      LookerKeeps(m, e, n, c);
    } else {
      assert c in m.callers ==> CallerOk(m, c);
    }
  }

  /** What a step leaves of the slots a bystander knows. */
  lemma SlotsCarryOn(m: State, e: Event, n: State, s: nat)
    requires Inv(m) && Step(m, e, n) && s in m.slots
    ensures s in n.slots && n.slots[s].created == m.slots[s].created
    ensures m.slots[s].value.Some? ==> n.slots[s].value == m.slots[s].value
    ensures forall c | m.slots[s].builder == Some(c) && Actor(e) != Some(c) :: n.slots[s].builder == Some(c)
  {
    assert SlotOk(m, s) && (m.nextSlot in m.slots ==> SlotOk(m, m.nextSlot));
    if e.BuildOk? || e.BuildFails? || e.Abandon? {
      assert CallerOk(m, e.c);
    }
  }

  /** Whatever slot the cache holds after a step is the one it held, or new. */
  lemma CacheCarriesOn(m: State, e: Event, n: State)
    requires Inv(m) && Step(m, e, n) && n.cache.Some?
    ensures n.cache.value in n.slots
    ensures n.cache == m.cache || n.slots[n.cache.value].created == n.now
    ensures m.lock.Some? && Actor(e) != m.lock ==> n.cache == m.cache && n.lock == m.lock
  {
    if e.Choose? {
      assert CallerOk(m, e.c);
    }
  }

  lemma BystanderKeeps(m: State, e: Event, n: State, c: nat)
    requires Inv(m) && Step(m, e, n) && Actor(e) != Some(c) && c in m.callers
    ensures CallerOk(n, c)
  {
    assert CallerOk(m, c) && n.callers[c] == m.callers[c];
    match m.callers[c]
    case Looking(_) => CacheSince(m, e, n, c);
    case Guarding(_) => CacheSince(m, e, n, c);
    case Joined(s, _) => SlotsCarryOn(m, e, n, s);
    case Building(s, _, _) => SlotsCarryOn(m, e, n, s);
    case Using(s, _, _, _, _) => SlotsCarryOn(m, e, n, s);
    case _ =>
  }

  lemma CacheSince(m: State, e: Event, n: State, c: nat)
    requires Inv(m) && Step(m, e, n) && Actor(e) != Some(c) && c in m.callers && n.callers[c] == m.callers[c]
    requires CallerOk(m, c) && (m.callers[c].Looking? || m.callers[c].Guarding?)
    ensures CallerOk(n, c)
  {
    if n.cache.Some? {
      CacheCarriesOn(m, e, n);
      if n.cache == m.cache {
        SlotsCarryOn(m, e, n, n.cache.value);
      }
    }
    if m.callers[c].Guarding? {
      LockHeld(m, e, n, c);
    }
  }

  lemma LockHeld(m: State, e: Event, n: State, c: nat)
    requires Inv(m) && Step(m, e, n) && m.lock == Some(c) && Actor(e) != Some(c)
    ensures n.lock == Some(c)
  {
    if e.Choose? {
      assert CallerOk(m, e.c);
    }
  }

  lemma CallersKeep(m: State, e: Event, n: State)
    requires Inv(m) && Step(m, e, n)
    ensures forall c | c in n.callers :: CallerOk(n, c)
  {
    forall c | c in n.callers ensures CallerOk(n, c) {
      if Actor(e) == Some(c) {
        ActorKeeps(m, e, n, c);
      } else {
        BystanderKeeps(m, e, n, c);
      }
    }
  }

  lemma HandlesKeep(m: State, e: Event, n: State)
    requires Inv(m) && Step(m, e, n)
    ensures OwnHandles(n)
  {
    assert forall s | s in m.slots :: SlotOk(m, s);
  }

  lemma StepKeeps(m: State, e: Event, n: State)
    requires Inv(m) && Step(m, e, n)
    ensures Inv(n)
  {
    SlotsKeep(m, e, n);
    CallersKeep(m, e, n);
    HandlesKeep(m, e, n);
  }

  lemma {:induction false} RunKeeps(ms: seq<State>, es: seq<Event>, k: nat)
    requires IsRun(ms, es) && k <= |es|
    ensures Inv(ms[k])
  {
    if k > 0 {
      RunKeeps(ms, es, k - 1);
      assert Step(ms[k - 1], es[k - 1], ms[k]);
      StepKeeps(ms[k - 1], es[k - 1], ms[k]);
    }
  }

  // ---------- theorems ----------

  lemma FilledStaysStep(m: State, e: Event, n: State, s: nat)
    requires Inv(m) && Step(m, e, n) && s in m.slots && m.slots[s].value.Some?
    ensures s in n.slots && n.slots[s].value == m.slots[s].value
  {
    assert SlotOk(m, s);
    assert e.BuildOk? || e.BuildFails? || e.Abandon? ==> CallerOk(m, e.c);
  }

  /** A slot is filled at most once. */
  lemma {:induction false} FilledOnce(ms: seq<State>, es: seq<Event>, i: nat, j: nat, s: nat)
    requires IsRun(ms, es) && i <= j <= |es| && s in ms[i].slots && ms[i].slots[s].value.Some?
    ensures s in ms[j].slots && ms[j].slots[s].value == ms[i].slots[s].value
  {
    if i < j {
      FilledOnce(ms, es, i, j - 1, s);
      RunKeeps(ms, es, j - 1);
      assert Step(ms[j - 1], es[j - 1], ms[j]);
      FilledStaysStep(ms[j - 1], es[j - 1], ms[j], s);
    }
  }

  /** Whoever got its handle from one slot, at any two moments of a run, got the
      same one; from different slots, different ones. */
  lemma SameSlotSameHandle(ms: seq<State>, es: seq<Event>, i: nat, j: nat, c: nat, d: nat)
    requires IsRun(ms, es) && i <= j <= |es|
    requires c in ms[i].callers && ms[i].callers[c].Using? && d in ms[j].callers && ms[j].callers[d].Using?
    ensures ms[i].callers[c].slot == ms[j].callers[d].slot <==>
            ms[i].callers[c].entry.handle == ms[j].callers[d].entry.handle
  {
    RunKeeps(ms, es, i);
    RunKeeps(ms, es, j);
    assert CallerOk(ms[i], c) && CallerOk(ms[j], d);
    FilledOnce(ms, es, i, j, ms[i].callers[c].slot);
  }

  /** A cached handle was younger than the limit when the lookup returned it. */
  lemma HitsAreYoung(ms: seq<State>, es: seq<Event>, k: nat, c: nat)
    requires IsRun(ms, es) && k <= |es| && c in ms[k].callers
    requires ms[k].callers[c].Using? && ms[k].callers[c].hit
    ensures ms[k].callers[c].entry.builtAt <= ms[k].callers[c].gotAt
    ensures ms[k].callers[c].gotAt - ms[k].callers[c].entry.builtAt < MAX_BACKEND_AGE
  {
    RunKeeps(ms, es, k);
    assert CallerOk(ms[k], c);
  }

  /** A lookup returns at once, with the handle of the cached slot, exactly when that
      slot is filled and the handle younger than thirty minutes. */
  lemma HitsExactly(ms: seq<State>, es: seq<Event>, k: nat, c: nat)
    requires IsRun(ms, es) && k < |es| && es[k] == Lookup(c)
    ensures c in ms[k + 1].callers
    ensures ms[k + 1].callers[c].Using? <==>
              exists s, e :: ms[k].cache == Some(s) && s in ms[k].slots && ms[k].slots[s].value == Some(e)
                             && ms[k].now - e.builtAt < 30 * 60 * 1000
    ensures ms[k + 1].callers[c].Using? ==>
              ms[k].cache == Some(ms[k + 1].callers[c].slot)
              && ms[k].slots[ms[k + 1].callers[c].slot].value == Some(ms[k + 1].callers[c].entry)
  {
    RunKeeps(ms, es, k);
    assert Step(ms[k], es[k], ms[k + 1]);
  }

  /** The retried operation runs on a handle whose build began no earlier than
      the authentication error of the first attempt, however other callers
      evicted, looked up and built in between. */
  lemma RetryIsFresh(ms: seq<State>, es: seq<Event>, k: nat, c: nat)
    requires IsRun(ms, es) && k <= |es| && c in ms[k].callers
    requires ms[k].callers[c].Using? && ms[k].callers[c].t.Second?
    ensures ms[k].callers[c].t.failedAt <= ms[k].callers[c].entry.began
  {
    RunKeeps(ms, es, k);
    assert CallerOk(ms[k], c);
  }

  /** At most one caller builds a slot at any moment. */
  lemma OneBuilder(ms: seq<State>, es: seq<Event>, k: nat, c: nat, d: nat)
    requires IsRun(ms, es) && k <= |es| && c in ms[k].callers && d in ms[k].callers
    requires ms[k].callers[c].Building? && ms[k].callers[d].Building?
    requires ms[k].callers[c].slot == ms[k].callers[d].slot
    ensures c == d
  {
    RunKeeps(ms, es, k);
    assert CallerOk(ms[k], c) && CallerOk(ms[k], d);
  }

  /** Nobody waits on a build that is not running: a caller in a slot can take
      its value, build it, or watch a builder that can finish; a failed or
      dropped build hands the slot on. */
  lemma NeverStuck(ms: seq<State>, es: seq<Event>, k: nat, c: nat)
    requires IsRun(ms, es) && k <= |es| && c in ms[k].callers && ms[k].callers[c].Joined?
    ensures CanStep(ms[k], TakeFilled(c)) || CanStep(ms[k], StartBuild(c))
            || exists b :: b != c && CanStep(ms[k], BuildOk(b)) && ms[k].callers[b].slot == ms[k].callers[c].slot
  {
    RunKeeps(ms, es, k);
    assert CallerOk(ms[k], c);
    var s := ms[k].callers[c].slot;
    assert SlotOk(ms[k], s);
    if ms[k].slots[s].builder.Some? {
      assert CanStep(ms[k], BuildOk(ms[k].slots[s].builder.value));
    }
  }

  // ---------- between the two reads ----------

  lemma CallerMovesItself(m: State, e: Event, n: State, c: nat)
    requires Step(m, e, n) && Actor(e) != Some(c)
    ensures c in n.callers <==> c in m.callers
    ensures c in m.callers ==> n.callers[c] == m.callers[c]
  {
  }

  lemma OnlyLookupGuards(m: State, e: Event, n: State, c: nat)
    requires Step(m, e, n) && c in n.callers && n.callers[c].Guarding?
    ensures Actor(e) == Some(c) ==> e == Lookup(c) && n.cache == m.cache && n.now == m.now
  {
  }

  /** A caller at its second read made its first one in this lookup, and the cache
      has not changed since. */
  lemma {:induction false} GuardedSince(ms: seq<State>, es: seq<Event>, k: nat, c: nat) returns (j: nat)
    requires IsRun(ms, es) && k <= |es| && c in ms[k].callers && ms[k].callers[c].Guarding?
    ensures j < k && es[j] == Lookup(c) && ms[j].now <= ms[k].now
    ensures forall i | j < i <= k :: c in ms[i].callers && ms[i].callers[c].Guarding? && ms[i].cache == ms[j].cache
  {
    assert k > 0 && Step(ms[k - 1], es[k - 1], ms[k]);
    OnlyLookupGuards(ms[k - 1], es[k - 1], ms[k], c);
    if es[k - 1] == Lookup(c) {
      j := k - 1;
    } else {
      CallerMovesItself(ms[k - 1], es[k - 1], ms[k], c);
      RunKeeps(ms, es, k - 1);
      CacheWaits(ms[k - 1], es[k - 1], ms[k], c);
      j := GuardedSince(ms, es, k - 1, c);
    }
  }

  lemma CacheWaits(m: State, e: Event, n: State, c: nat)
    requires Inv(m) && Step(m, e, n) && Actor(e) != Some(c) && c in m.callers && m.callers[c].Guarding?
    ensures n.cache == m.cache && m.now <= n.now
  {
    assert CallerOk(m, c);
    assert e.Choose? ==> CallerOk(m, e.c);
  }

  /** A lookup replaces a filled slot that is still young only if the slot was empty
      at its first read: the build ended strictly between its two reads. */
  lemma YoungReplacedWasJustBuilt(ms: seq<State>, es: seq<Event>, k: nat, c: nat) returns (j: nat)
    requires IsRun(ms, es) && k < |es| && es[k] == Choose(c)
    requires ms[k].cache.Some? && ms[k].cache.value in ms[k].slots
    requires ms[k].slots[ms[k].cache.value].value.Some?
    requires Young(ms[k], ms[k].slots[ms[k].cache.value].value.value)
    ensures j < k && es[j] == Lookup(c) && ms[j].cache == ms[k].cache
    ensures forall i | j < i <= k :: c in ms[i].callers && ms[i].callers[c].Guarding? && ms[i].cache == ms[j].cache
    ensures ms[j].cache.value in ms[j].slots && ms[j].slots[ms[j].cache.value].value.None?
    ensures ms[j + 1].slots[ms[j].cache.value].value.None?
  {
    assert Step(ms[k], es[k], ms[k + 1]);
    j := GuardedSince(ms, es, k, c);
    assert ms[k].cache == ms[j].cache;
    RunKeeps(ms, es, j);
    assert Step(ms[j], es[j], ms[j + 1]);
    var s := ms[k].cache.value;
    if ms[j].slots[s].value.Some? {
      FilledOnce(ms, es, j, k, s);
      assert false;
    }
  }

  // ---------- what time leaves alone ----------

  /** `b` may follow `a`: filled slots stay as they are, and a slot that has left the
      cache does not come back. */
  ghost predicate Later(a: State, b: State) {
    && a.now <= b.now && a.nextSlot <= b.nextSlot
    && (b.cache.Some? && b.cache != a.cache ==> b.cache.value >= a.nextSlot)
    && (forall s | s in a.slots && a.slots[s].value.Some? :: s in b.slots && b.slots[s].value == a.slots[s].value)
  }

  lemma StepIsLater(m: State, e: Event, n: State)
    requires Inv(m) && Step(m, e, n)
    ensures Later(m, n)
  {
    forall s | s in m.slots && m.slots[s].value.Some? ensures s in n.slots && n.slots[s].value == m.slots[s].value {
      FilledStaysStep(m, e, n, s);
    }
  }

  lemma LaterStill(a: State, b: State, c: State)
    requires Later(a, b) && Later(b, c)
    ensures Later(a, c)
  {
  }

  ghost predicate Holds(m: State, e: Entry) {
    m.cache.Some? && m.cache.value in m.slots && m.slots[m.cache.value].value == Some(e)
  }

  /** The slot that holds `e` is not in the cache. */
  ghost predicate Expelled(m: State, s: nat, e: Entry) {
    s in m.slots && m.slots[s].value == Some(e) && s < m.nextSlot && m.cache != Some(s)
  }

  lemma ExpelledForGood(a: State, b: State, s: nat, e: Entry)
    requires Later(a, b) && Expelled(a, s, e)
    ensures Expelled(b, s, e)
  {
  }

  lemma ExpelledIsGone(m: State, s: nat, e: Entry)
    requires Inv(m) && Expelled(m, s, e)
    ensures !Holds(m, e)
  {
  }

  lemma Then(ms: seq<State>, es: seq<Event>, e: Event) returns (ns: seq<State>, fs: seq<Event>)
    requires IsRun(ms, es) && CanStep(ms[|es|], e)
    ensures IsRun(ns, fs) && fs == es + [e] && ns == ms + [Apply(ms[|es|], e)]
  {
    ns, fs := ms + [Apply(ms[|es|], e)], es + [e];
  }

  /** One caller builds the slot of the cache. */
  function Dialling(): State {
    State(0, Some(0), None, map[0 := Slot(0, None, Some(0))], map[0 := Building(0, 0, First)], 1, 0)
  }

  lemma FirstDials() returns (ms: seq<State>, es: seq<Event>)
    ensures IsRun(ms, es) && |es| == 4 && ms[4] == Dialling()
  {
    ms, es := Then([Start(0)], [], Arrive(0));
    ms, es := Then(ms, es, Lookup(0));
    ms, es := Then(ms, es, Choose(0));
    ms, es := Then(ms, es, StartBuild(0));
  }

  /** A slot filled between a lookup's two reads is replaced although it is new: the
      handle just built serves its own callers only, and the account is dialled
      once more. */
  lemma FilledBetweenReads() returns (ms: seq<State>, es: seq<Event>)
    ensures IsRun(ms, es) && |es| == 8 && es[5] == Lookup(1) && es[6] == BuildOk(0) && es[7] == Choose(1)
    ensures 0 in ms[8].slots && ms[8].slots[0].value == Some(Entry(0, 0, 0)) && ms[8].now == 0
    ensures ms[8].cache == Some(1) && 1 in ms[8].callers && ms[8].callers[1] == Joined(1, First)
  {
    ms, es := FirstDials();
    ms, es := Then(ms, es, Arrive(1));
    ms, es := Then(ms, es, Lookup(1));
    ms, es := Then(ms, es, BuildOk(0));
    ms, es := Then(ms, es, Choose(1));
  }
}

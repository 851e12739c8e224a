/** `get_or_open`, `evict` and `with_auth_retry` run by one caller while others
    run theirs: between any two steps the world may take any steps of its own. */
module BackendFactory {
  import opened Wrappers
  import opened BackendCache

  datatype OpResult = Fine | Failed | AuthError

  /** What happens around one step: other callers' events, whether a build that
      is under way succeeds, and what the operation answers. */
  datatype Turn = Turn(others: seq<Event>, builds: bool, op: OpResult)

  /** Nobody else moves and every build succeeds. */
  ghost predicate Idle(turns: nat -> Turn) {
    forall k: nat :: turns(k).others == [] && turns(k).builds
  }

  predicate NoBuilders(m: State) {
    forall s | s in m.slots :: m.slots[s].builder.None?
  }

  /** From the `k`-th event on, `c` failed a build or gave up waiting for one. */
  predicate GaveUp(es: seq<Event>, k: nat, c: nat) {
    exists i | k <= i < |es| :: es[i] == BuildFails(c) || es[i] == Abandon(c)
  }

  /** From the `k`-th event on, `c` evicted, and unless it was `served` gave up after
      that. */
  predicate Evicted(es: seq<Event>, k: nat, c: nat, served: bool) {
    exists i | k <= i < |es| :: es[i] == Evict(c) && (served || GaveUp(es, i + 1, c))
  }

  predicate JustEvicted(es: seq<Event>, from: nat, c: nat) {
    from < |es| && es[|es| - 1] == Evict(c)
  }

  lemma EvictedThen(es: seq<Event>, fs: seq<Event>, from: nat, c: nat, served: bool)
    requires JustEvicted(es, from, c) && es <= fs && (served || GaveUp(fs, |es|, c))
    ensures Evicted(fs, from, c, served)
  {
    assert fs[|es| - 1] == Evict(c);
  }

  lemma RetryEnds(was: State, emptied: State, m: State, slot: nat, failed: Entry)
    requires Later(was, emptied) && Later(emptied, m) && Expelled(emptied, slot, failed) && Inv(m)
    ensures Later(was, m) && !Holds(m, failed)
  {
    LaterStill(was, emptied, m);
    ExpelledForGood(emptied, m, slot, failed);
    ExpelledIsGone(m, slot, failed);
  }

  lemma EvictedSince(es: seq<Event>, k: nat, from: nat, c: nat, served: bool)
    requires Evicted(es, k, c, served) && from <= k
    ensures Evicted(es, from, c, served)
  {
    var i :| k <= i < |es| && es[i] == Evict(c) && (served || GaveUp(es, i + 1, c));
    assert es[i] == Evict(c);
  }

  class AppState {
    var m: State
    ghost var states: seq<State>
    ghost var events: seq<Event>

    ghost predicate Valid()
      reads this
    {
      IsRun(states, events) && states[|events|] == m && Inv(m)
    }

    /** Some steps on from a state and its history. */
    twostate predicate Went()
      reads this
    {
      Later(old(m), m) && old(events) <= events
    }

    constructor (now: nat)
      ensures Valid() && m == Start(now)
    {
      m := Start(now);
      states, events := [Start(now)], [];
    }

    method Do(e: Event)
      requires Valid() && CanStep(m, e)
      modifies this
      ensures Valid() && m == Apply(old(m), e) && events == old(events) + [e] && Went()
    {
      StepKeeps(m, e, Apply(m, e));
      StepIsLater(m, e, Apply(m, e));
      m := Apply(m, e);
      states, events := states + [m], events + [e];
    }

    /** Waits for the cache's lock: its holder, if any, finishes its lookup. */
    method Acquire(c: nat)
      requires Valid() && c in m.callers && !m.callers[c].Guarding?
      modifies this
      ensures Valid() && Went() && c in m.callers && m.callers[c] == old(m.callers[c])
      ensures m.lock.None? && m.now == old(m.now)
      ensures old(NoBuilders(m)) ==> NoBuilders(m)
    {
      if m.lock.Some? {
        assert CallerOk(m, m.lock.value);
        Do(Choose(m.lock.value));
      }
    }

    /** Other callers' steps, as far as they are possible; none of them moves
        this caller. */
    method Others(c: nat, es: seq<Event>)
      requires Valid() && c in m.callers
      modifies this
      ensures Valid() && Went() && c in m.callers && m.callers[c] == old(m.callers[c])
      ensures es == [] ==> m == old(m)
    {
      for i := 0 to |es|
        invariant Valid() && Went() && c in m.callers && m.callers[c] == old(m.callers[c])
        invariant i == 0 ==> m == old(m)
      {
        if Actor(es[i]) != Some(c) && CanStep(m, es[i]) {
          ghost var was := m;
          Do(es[i]);
          LaterStill(old(m), was, m);
        }
      }
    }

    /** The lookup's two reads: a fresh hit, or a slot to join. */
    method Find(c: nat, others: seq<Event>) returns (hit: bool)
      requires Valid() && c in m.callers && m.callers[c].Looking?
      modifies this
      ensures Valid() && Went() && c in m.callers && (if hit then m.callers[c].Using? else m.callers[c].Joined?)
      ensures m.callers[c].t == old(m.callers[c].t)
      ensures old(NoBuilders(m)) && others == [] ==> NoBuilders(m)
    {
      Acquire(c);
      ghost var m1 := m;
      Do(Lookup(c));
      LaterStill(old(m), m1, m);
      hit := m.callers[c].Using?;
      if !hit {
        ghost var m2 := m;
        Others(c, others);
        LaterStill(old(m), m2, m);
        ghost var m3 := m;
        Do(Choose(c));
        LaterStill(old(m), m3, m);
      }
    }

    /** Looks the slot up, then takes its value, builds it, or waits its turn;
        None is a failed build, or a caller that gave up waiting. */
    method GetOrOpen(c: nat, turns: nat -> Turn, patience: nat) returns (entry: Option<Entry>)
      requires Valid() && c in m.callers && m.callers[c].Looking?
      modifies this
      ensures Valid() && Went()
      ensures entry.Some? ==> c in m.callers && m.callers[c].Using? && m.callers[c].entry == entry.value
                              && m.callers[c].t == old(m.callers[c].t)
      ensures entry.None? && c in m.callers ==> m.callers[c] == Returned(false)
      ensures entry.None? ==> GaveUp(events, |old(events)|, c)
      ensures old(NoBuilders(m)) && Idle(turns) && patience > 0 ==> entry.Some? && NoBuilders(m)
    {
      var hit := Find(c, turns(patience).others);
      if hit {
        return Some(m.callers[c].entry);
      }
      ghost var alone := old(NoBuilders(m)) && Idle(turns);
      for k := 0 to patience
        invariant Valid() && Went() && c in m.callers && m.callers[c].Joined? && m.callers[c].t == old(m.callers[c].t)
        invariant alone ==> k == 0 && NoBuilders(m)
      {
        ghost var m1 := m;
        Others(c, turns(k).others);
        LaterStill(old(m), m1, m);
        ghost var m2 := m;
        assert CallerOk(m, c);
        var slot := m.callers[c].slot;
        if m.slots[slot].value.Some? {
          Do(TakeFilled(c));
          LaterStill(old(m), m2, m);
          return Some(m.callers[c].entry);
        } else if m.slots[slot].builder.None? {
          entry := Build(c, turns(k));
          LaterStill(old(m), m2, m);
          return;
        }
      }
      ghost var m3 := m;
      Do(Abandon(c));
      LaterStill(old(m), m3, m);
      assert events[|events| - 1] == Abandon(c);
      entry := None;
    }

    method Build(c: nat, t: Turn) returns (entry: Option<Entry>)
      requires Valid() && CanStep(m, StartBuild(c))
      modifies this
      ensures Valid() && Went() && c in m.callers
      ensures entry.Some? <==> t.builds
      ensures entry.Some? ==> m.callers[c].Using? && m.callers[c].entry == entry.value
                              && m.callers[c].t == old(m.callers[c].t) && entry.value.began == old(m.now)
      ensures entry.None? ==> m.callers[c] == Returned(false) && GaveUp(events, |old(events)|, c)
      ensures old(NoBuilders(m)) && t.others == [] ==> NoBuilders(m)
    {
      Do(StartBuild(c));
      ghost var m1 := m;
      Others(c, t.others);
      LaterStill(old(m), m1, m);
      ghost var m2 := m;
      assert CallerOk(m, c);
      if t.builds {
        Do(BuildOk(c));
        entry := Some(m.callers[c].entry);
      } else {
        Do(BuildFails(c));
        assert events[|events| - 1] == BuildFails(c);
        entry := None;
      }
      LaterStill(old(m), m2, m);
    }

    /** Runs the operation, once more after an authentication error, unless the
        account cannot be opened again. `used` is the handles it ran on and
        `failedAt` the time of that error. */
    method WithAuthRetry(c: nat, first: nat -> Turn, second: nat -> Turn, patience: nat)
      returns (ok: bool, used: seq<Entry>, failedAt: nat)
      requires Valid() && c !in m.callers
      modifies this
      ensures Valid() && Went() && |used| <= 2 && (c in m.callers ==> m.callers[c] == Returned(ok))
      ensures used == [] ==> !ok && GaveUp(events, |old(events)|, c)
      ensures used != [] && first(patience).op != AuthError ==> |used| == 1 && (ok <==> first(patience).op == Fine)
      ensures used != [] && first(patience).op == AuthError ==>
                Evicted(events, |old(events)|, c, |used| == 2) && !Holds(m, used[0])
      ensures |used| == 1 && first(patience).op == AuthError ==> !ok
      ensures |used| == 2 ==> first(patience).op == AuthError && (ok <==> second(patience).op == Fine)
      ensures |used| == 2 ==> old(m.now) <= failedAt && used[0].builtAt <= failedAt <= used[1].began
      ensures old(NoBuilders(m)) && Idle(first) && Idle(second) && patience > 0 ==>
                |used| == if first(patience).op == AuthError then 2 else 1
    {
      used, failedAt, ok := [], 0, false;
      var entry;
      ghost var slot;
      entry, slot := FirstTry(c, first, patience);
      if entry.None? {
        return;
      }
      used := [entry.value];
      if first(patience).op != AuthError {
        ok := first(patience).op == Fine;
        return;
      }
      failedAt := m.now;
      ghost var failed, es := m, events;
      var again := Retry(c, second, patience, failedAt, slot, entry.value);
      LaterStill(old(m), failed, m);
      EvictedSince(events, |es|, |old(events)|, c, again.Some?);
      if again.Some? {
        used := used + [again.value];
        ok := second(patience).op == Fine;
      }
    }

    /** Opens the account and runs the operation; an authentication error leaves the
        caller about to evict. */
    method FirstTry(c: nat, turns: nat -> Turn, patience: nat) returns (entry: Option<Entry>, ghost slot: nat)
      requires Valid() && c !in m.callers
      modifies this
      ensures Valid() && Went()
      ensures entry.None? ==> GaveUp(events, |old(events)|, c) && (c in m.callers ==> m.callers[c] == Returned(false))
      ensures entry.Some? ==> c in m.callers && entry.value.builtAt <= m.now
      ensures entry.Some? ==> slot in m.slots && m.slots[slot].value == entry
      ensures entry.Some? ==>
                m.callers[c] == match turns(patience).op
                                case Fine => Returned(true)
                                case Failed => Returned(false)
                                case AuthError => Evicting(m.now)
      ensures old(NoBuilders(m)) && Idle(turns) && patience > 0 ==> entry.Some? && NoBuilders(m)
    {
      Do(Arrive(c));
      ghost var m1 := m;
      entry := GetOrOpen(c, turns, patience);
      LaterStill(old(m), m1, m);
      slot := 0;
      if entry.Some? {
        ghost var m2 := m;
        slot := RunOp(c, turns(patience));
        LaterStill(old(m), m2, m);
      }
    }

    /** The first run of the operation. */
    method RunOp(c: nat, t: Turn) returns (ghost slot: nat)
      requires Valid() && c in m.callers && m.callers[c].Using? && m.callers[c].t.First?
      modifies this
      ensures Valid() && Went() && c in m.callers
      ensures slot in m.slots && m.slots[slot].value == Some(old(m.callers[c]).entry)
      ensures old(m.callers[c]).entry.builtAt <= m.now
      ensures m.callers[c] == match t.op
                              case Fine => Returned(true)
                              case Failed => Returned(false)
                              case AuthError => Evicting(m.now)
      ensures old(NoBuilders(m)) && t.others == [] ==> NoBuilders(m)
    {
      Others(c, t.others);
      ghost var m1 := m;
      assert CallerOk(m, c) && SlotOk(m, m.callers[c].slot);
      slot := m.callers[c].slot;
      Do(if t.op == AuthError then OpAuth(c) else OpEnds(c, t.op == Fine));
      LaterStill(old(m), m1, m);
    }

    /** Takes the slot out of the cache, whoever's it is by now. */
    method Expel(c: nat, others: seq<Event>, ghost failedAt: nat, ghost slot: nat, ghost failed: Entry)
      requires Valid() && c in m.callers && m.callers[c] == Evicting(failedAt)
      requires slot in m.slots && m.slots[slot].value == Some(failed)
      modifies this
      ensures Valid() && Went() && Expelled(m, slot, failed)
      ensures c in m.callers && m.callers[c] == Looking(Second(failedAt))
      ensures JustEvicted(events, |old(events)|, c)
      ensures old(NoBuilders(m)) && others == [] ==> NoBuilders(m)
    {
      Others(c, others);
      ghost var m1 := m;
      Acquire(c);
      LaterStill(old(m), m1, m);
      ghost var m2 := m;
      assert SlotOk(m, slot);
      Do(Evict(c));
      LaterStill(old(m), m2, m);
    }

    /** Evicts, opens again and runs the operation a last time; the handle that
        failed, in `slot`, is out of the cache for good. */
    method Retry(c: nat, turns: nat -> Turn, patience: nat, ghost failedAt: nat, ghost slot: nat, ghost failed: Entry)
      returns (entry: Option<Entry>)
      requires Valid() && c in m.callers && m.callers[c] == Evicting(failedAt)
      requires slot in m.slots && m.slots[slot].value == Some(failed)
      modifies this
      ensures Valid() && Went() && (entry.Some? ==> failedAt <= entry.value.began)
      ensures Evicted(events, |old(events)|, c, entry.Some?) && !Holds(m, failed)
      ensures c in m.callers ==> m.callers[c] == Returned(entry.Some? && turns(patience).op == Fine)
      ensures old(NoBuilders(m)) && Idle(turns) && patience > 0 ==> entry.Some?
    {
      Expel(c, turns(patience).others, failedAt, slot, failed);
      ghost var emptied := m;
      entry := Reopen(c, turns, patience, failedAt, |old(events)|);
      RetryEnds(old(m), emptied, m, slot, failed);
    }

    method Reopen(c: nat, turns: nat -> Turn, patience: nat, ghost failedAt: nat, ghost from: nat)
      returns (entry: Option<Entry>)
      requires Valid() && c in m.callers && m.callers[c] == Looking(Second(failedAt))
      requires JustEvicted(events, from, c)
      modifies this
      ensures Valid() && Went() && (entry.Some? ==> failedAt <= entry.value.began)
      ensures Evicted(events, from, c, entry.Some?)
      ensures c in m.callers ==> m.callers[c] == Returned(entry.Some? && turns(patience).op == Fine)
      ensures old(NoBuilders(m)) && Idle(turns) && patience > 0 ==> entry.Some?
    {
      Others(c, turns(patience).others);
      ghost var m1 := m;
      entry := GetOrOpen(c, turns, patience);
      LaterStill(old(m), m1, m);
      if entry.Some? {
        assert CallerOk(m, c);
        ghost var m2 := m;
        Do(OpEnds(c, turns(patience).op == Fine));
        LaterStill(old(m), m2, m);
      }
      EvictedThen(old(events), events, from, c, entry.Some?);
    }
  }
}

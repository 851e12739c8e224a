/** What batching preserves: the threads one-at-a-time assembly would build, the
    references and counts of the store, and itself when repeated. */
module ThreadingTheorems {
  import opened Wrappers
  import opened Threading
  import S = Subject

  // ---------- ids minted, rows kept ----------

  predicate Minted(env: Env, hs: seq<Header>, t: ThreadId) {
    exists i | 0 <= i < |hs| :: env.mint(hs[i].id) == t
  }

  ghost predicate ThreadsFrom(env: Env, s: Store, hs: seq<Header>, ts: Threads) {
    && (forall t | t in s.threads :: t in ts)
    && (forall t | t in ts :: t in s.threads || Minted(env, hs, t))
  }

  lemma MintedGrows(env: Env, hs: seq<Header>, h: Header)
    ensures forall t :: Minted(env, hs, t) ==> Minted(env, hs + [h], t)
    ensures Minted(env, hs + [h], env.mint(h.id))
  {
    var all := hs + [h];
    assert all[|hs|] == h;
    forall t | Minted(env, hs, t) ensures Minted(env, all, t) {
      var i :| 0 <= i < |hs| && env.mint(hs[i].id) == t;
      assert all[i] == hs[i];
    }
  }

  lemma OneNextThreads(env: Env, s: Store, h: Header)
    ensures forall t | t in s.threads :: t in OneNext(env, s, h).threads
    ensures forall t | t in OneNext(env, s, h).threads :: t in s.threads || t == env.mint(h.id)
  {
  }

  lemma BatchNextThreads(env: Env, s: Store, p: Progress, h: Header)
    ensures forall t | t in p.out.threads :: t in BatchNext(env, s, p, h).out.threads
    ensures forall t | t in BatchNext(env, s, p, h).out.threads :: t in p.out.threads || t == env.mint(h.id)
  {
  }

  lemma ThreadsGrow(env: Env, s: Store, hs: seq<Header>, h: Header, ts: Threads, us: Threads)
    requires ThreadsFrom(env, s, hs, ts)
    requires (forall t | t in ts :: t in us) && forall t | t in us :: t in ts || t == env.mint(h.id)
    ensures ThreadsFrom(env, s, hs + [h], us)
  {
    MintedGrows(env, hs, h);
  }

  lemma {:induction false} OneByOneThreads(env: Env, s: Store, hs: seq<Header>)
    ensures ThreadsFrom(env, s, hs, OneByOne(env, s, hs).threads)
    decreases |hs|
  {
    if hs != [] {
      var before, h := hs[..|hs| - 1], hs[|hs| - 1];
      assert hs == before + [h];
      OneByOneThreads(env, s, before);
      OneNextThreads(env, OneByOne(env, s, before), h);
      OneMore(env, s, before, h);
      ThreadsGrow(env, s, before, h, OneByOne(env, s, before).threads, OneByOne(env, s, hs).threads);
    }
  }

  lemma {:induction false} BatchThreads(env: Env, s: Store, hs: seq<Header>)
    ensures ThreadsFrom(env, s, hs, Batch(env, s, hs).out.threads)
    decreases |hs|
  {
    if hs != [] {
      var before, h := hs[..|hs| - 1], hs[|hs| - 1];
      assert hs == before + [h];
      BatchThreads(env, s, before);
      BatchNextThreads(env, s, Batch(env, s, before), h);
      OneMore(env, s, before, h);
      ThreadsGrow(env, s, before, h, Batch(env, s, before).out.threads, Batch(env, s, hs).out.threads);
    }
  }

  lemma OwnMintIsNew(env: Env, s: Store, hs: seq<Header>, k: nat, ts: Threads)
    requires FreshMint(env, s) && DistinctIds(hs) && k < |hs| && ThreadsFrom(env, s, hs[..k], ts)
    ensures env.mint(hs[k].id) !in ts
  {
    forall i | 0 <= i < k ensures env.mint(hs[..k][i].id) != env.mint(hs[k].id) {
      assert hs[i].id != hs[k].id;
    }
  }

  // ---------- exactly when the two agree ----------

  /** The same header on the same store, with subject lookups that differ. */
  lemma NextDisagrees(env: Env, s: Store, hs: seq<Header>, p: Progress, h: Header)
    requires Honest(env, s) && Settled(s, hs, p) && DistinctIds(hs + [h]) && UniqueRfcs(s, hs + [h])
    requires env.mint(h.id) !in p.out.threads && (forall t | t in s.threads :: t in p.out.threads)
    requires !Attached(p.out, h) && Follow(env, Landed(p.out, h).rows, Pointers(h)).None?
    requires BySubject(env, p.out.threads, h) != BySubject(env, s.threads, h)
    ensures var one, many := OneNext(env, p.out, h), BatchNext(env, s, p, h).out;
            h.id in one.rows && h.id in many.rows && one.rows[h.id].thread != many.rows[h.id].thread
  {
    NextAgrees(env, s, hs, p, h);
    var t, u := BySubject(env, p.out.threads, h), BySubject(env, s.threads, h);
    assert t.Some? ==> t.value in p.out.threads;
    assert u.Some? ==> u.value in p.out.threads;
  }

  /** Two stores that give one message different threads. */
  predicate Differ(a: Store, b: Store, id: MsgId) {
    id in a.rows && id in b.rows && a.rows[id].thread != b.rows[id].thread
  }

  lemma DisagreesAt(env: Env, s: Store, hs: seq<Header>, h: Header, now: Store)
    requires Honest(env, s) && DistinctIds(hs + [h]) && UniqueRfcs(s, hs + [h])
    requires now == OneByOne(env, s, hs) == Batch(env, s, hs).out
    requires env.mint(h.id) !in now.threads && (forall t | t in s.threads :: t in now.threads)
    requires !Attached(now, h) && Follow(env, Landed(now, h).rows, Pointers(h)).None?
    requires BySubject(env, now.threads, h) != BySubject(env, s.threads, h)
    ensures Differ(OneByOne(env, s, hs + [h]), Batch(env, s, hs + [h]).out, h.id)
  {
    OneMore(env, s, hs, h);
    assert (hs + [h])[..|hs|] == hs;
    Shorter(s, hs + [h], |hs|);
    BatchSettles(env, s, hs);
    NextDisagrees(env, s, hs, Batch(env, s, hs), h);
  }

  lemma StillDiffer(env: Env, s: Store, hs: seq<Header>, h: Header, id: MsgId)
    requires Differ(OneByOne(env, s, hs), Batch(env, s, hs).out, id) && id != h.id
    ensures Differ(OneByOne(env, s, hs + [h]), Batch(env, s, hs + [h]).out, id)
  {
    OneMore(env, s, hs, h);
  }

  lemma FirstDisagreement(env: Env, s: Store, hs: seq<Header>, h: Header)
    requires Honest(env, s) && DistinctIds(hs + [h]) && UniqueRfcs(s, hs + [h])
    requires OneByOne(env, s, hs) == Batch(env, s, hs).out && !SubjectAgrees(env, s, hs, h)
    ensures Differ(OneByOne(env, s, hs + [h]), Batch(env, s, hs + [h]).out, h.id)
  {
    var all, now := hs + [h], OneByOne(env, s, hs);
    OneByOneThreads(env, s, hs);
    assert all[..|hs|] == hs && all[|hs|] == h;
    OwnMintIsNew(env, s, all, |hs|, now.threads);
    DisagreesAt(env, s, hs, h, now);
  }

  /** From the first lookup that disagrees on, some message sits elsewhere. */
  lemma {:induction false} UnstableDiffers(env: Env, s: Store, hs: seq<Header>) returns (id: MsgId)
    requires Honest(env, s) && DistinctIds(hs) && UniqueRfcs(s, hs) && !SubjectStable(env, s, hs)
    ensures Listed(hs, id) && Differ(OneByOne(env, s, hs), Batch(env, s, hs).out, id)
    decreases |hs|
  {
    var k := |hs| - 1;
    var before, h := hs[..k], hs[k];
    assert hs == before + [h];
    Shorter(s, hs, k);
    if SubjectStable(env, s, before) {
      BatchIsOneByOne(env, s, before);
      FirstDisagreement(env, s, before, h);
      id := h.id;
    } else {
      id := UnstableDiffers(env, s, before);
      FreshToChunk(s, before, h);
      StillDiffer(env, s, before, h, id);
    }
  }

  /** Batching changes nothing exactly when every subject lookup that is reached
      answers on the store before the chunk what it would answer in its turn. */
  lemma BatchIsOneByOneExactly(env: Env, s: Store, hs: seq<Header>)
    requires Honest(env, s) && DistinctIds(hs) && UniqueRfcs(s, hs)
    ensures Batch(env, s, hs).out == OneByOne(env, s, hs) <==> SubjectStable(env, s, hs)
  {
    if SubjectStable(env, s, hs) {
      BatchIsOneByOne(env, s, hs);
    } else {
      var _ := UnstableDiffers(env, s, hs);
    }
  }

  ghost predicate NoSubjectMatches(env: Env, s: Store, hs: seq<Header>)
    decreases |hs|
  {
    hs == [] ||
    var before, h := hs[..|hs| - 1], hs[|hs| - 1];
    && NoSubjectMatches(env, s, before)
    && BySubject(env, s.threads, h).None? && BySubject(env, OneByOne(env, s, before).threads, h).None?
  }

  lemma {:induction false} MatchlessIsStable(env: Env, s: Store, hs: seq<Header>)
    requires NoSubjectMatches(env, s, hs)
    ensures SubjectStable(env, s, hs)
    decreases |hs|
  {
    if hs != [] {
      MatchlessIsStable(env, s, hs[..|hs| - 1]);
    }
  }

  /** In particular nothing changes when the subject step matches nothing. */
  lemma BatchWithoutSubjects(env: Env, s: Store, hs: seq<Header>)
    requires Honest(env, s) && DistinctIds(hs) && UniqueRfcs(s, hs) && NoSubjectMatches(env, s, hs)
    ensures Batch(env, s, hs).out == OneByOne(env, s, hs)
  {
    MatchlessIsStable(env, s, hs);
    BatchIsOneByOneExactly(env, s, hs);
  }

  predicate Unlinked(s: Store, h: Header) {
    h.id !in s.rows && h.rfc.None? && Pointers(h) == []
  }

  function AttachBySubject(env: Env, ts: Threads, h: Header): Attachment {
    var t := BySubject(env, ts, h);
    if t.Some? then Attachment(t.value, None) else Attachment(env.mint(h.id), Some(NewThread(h)))
  }

  lemma UnlinkedNext(env: Env, s: Store, p: Progress, now: Store, h: Header)
    requires Unlinked(s, h) && h.id !in now.rows
    ensures OneNext(env, now, h) == Settle(now, h, AttachBySubject(env, now.threads, h))
    ensures BatchNext(env, s, p, h).out == Settle(p.out, h, AttachBySubject(env, s.threads, h))
  {
    SettleAfterLanding(now, h, AttachBySubject(env, now.threads, h));
  }

  lemma UnlinkedPair(env: Env, s: Store, a: Header, b: Header)
    requires a.id != b.id && Unlinked(s, a) && Unlinked(s, b)
    ensures var s1 := Settle(s, a, AttachBySubject(env, s.threads, a));
            && OneByOne(env, s, [a, b]) == Settle(s1, b, AttachBySubject(env, s1.threads, b))
            && Batch(env, s, [a, b]).out == Settle(s1, b, AttachBySubject(env, s.threads, b))
  {
    assert [a, b] == [a] + [b] && [a] == [] + [a];
    OneMore(env, s, [], a);
    OneMore(env, s, [a], b);
    UnlinkedNext(env, s, Batch(env, s, []), s, a);
    var s1 := Settle(s, a, AttachBySubject(env, s.threads, a));
    UnlinkedNext(env, s, Batch(env, s, [a]), s1, b);
  }

  /** Two settled in turn: the first row stays, the second names its thread. */
  lemma SettledPair(s: Store, a: Header, x: Attachment, b: Header, y: Attachment)
    requires a.id != b.id
    ensures var rows := Settle(Settle(s, a, x), b, y).rows;
            && a.id in rows && rows[a.id].thread == Some(x.thread)
            && b.id in rows && rows[b.id].thread == Some(y.thread)
  {
  }

  lemma TwinThread(env: Env, s: Store, a: Header)
    requires env.mint(a.id) !in s.threads && BySubject(env, s.threads, a).None?
    ensures var t := env.mint(a.id); var ts := Settle(s, a, AttachBySubject(env, s.threads, a)).threads;
            && AttachBySubject(env, s.threads, a).thread == t
            && t in ts && ts[t] == NewThread(a).(count := 1)
            && (forall u | u in ts && u != t :: u in s.threads && ts[u] == s.threads[u])
  {
  }

  lemma SameKeyLookup(env: Env, ts: Threads, a: Header, b: Header)
    requires S.Normalize(a.subject) == S.Normalize(b.subject) != []
    ensures BySubject(env, ts, a) == BySubject(env, ts, b) == env.recent(ts, S.Normalize(a.subject))
  {
  }

  /** Where they do differ: two new messages that share a subject nobody else has
      and point nowhere. One at a time the second joins the first; in one chunk
      they get a thread each. */
  lemma TwinSubjectsSplit(env: Env, s: Store, a: Header, b: Header)
    requires Honest(env, s) && a.id != b.id && Unlinked(s, a) && Unlinked(s, b)
    requires S.Normalize(a.subject) == S.Normalize(b.subject) != [] && a.date >= env.since
    requires BySubject(env, s.threads, a).None?
    ensures var one, many := OneByOne(env, s, [a, b]), Batch(env, s, [a, b]).out;
            && a.id in one.rows && b.id in one.rows && one.rows[a.id].thread == one.rows[b.id].thread
            && Differ(one, many, b.id) && a.id in many.rows && many.rows[a.id] == one.rows[a.id]
  {
    var x, t := AttachBySubject(env, s.threads, a), env.mint(a.id);
    var s1 := Settle(s, a, x);
    UnlinkedPair(env, s, a, b);
    TwinThread(env, s, a);
    SameKeyLookup(env, s.threads, a, b);
    SameKeyLookup(env, s1.threads, a, b);
    TwinMatch(env, s, s1.threads, t, S.Normalize(a.subject));
    SettledPair(s, a, x, b, AttachBySubject(env, s1.threads, b));
    SettledPair(s, a, x, b, AttachBySubject(env, s.threads, b));
  }

  lemma TwinMatch(env: Env, s: Store, ts: Threads, t: ThreadId, key: string)
    requires HonestRecent(env) && env.recent(s.threads, key).None?
    requires t in ts && ts[t].subject == key && ts[t].last >= env.since
    requires forall u | u in ts && u != t :: u in s.threads && ts[u] == s.threads[u]
    ensures env.recent(ts, key) == Some(t)
  {
  }

  // ---------- references and counts ----------

  ghost predicate Referenced(s: Store) {
    forall id | id in s.rows && s.rows[id].thread.Some? :: s.rows[id].thread.value in s.threads
  }

  function Members(rows: Rows, t: ThreadId): set<MsgId> {
    set id | id in rows && rows[id].thread == Some(t)
  }

  ghost predicate Counted(s: Store) {
    forall t | t in s.threads :: s.threads[t].count == |Members(s.rows, t)|
  }

  ghost predicate Consistent(s: Store) {
    Referenced(s) && Counted(s)
  }

  /** A thread the attachment may name: one that exists, or its own fresh one. */
  predicate Usable(s: Store, a: Attachment) {
    if a.mint.Some? then a.thread !in s.threads && a.mint.value.count == 0 else a.thread in s.threads
  }

  lemma SettleMembers(s: Store, h: Header, a: Attachment, t: ThreadId)
    requires !Attached(s, h)
    ensures Members(Settle(s, h, a).rows, t) == Members(s.rows, t) + if t == a.thread then {h.id} else {}
    ensures h.id !in Members(s.rows, t)
  {
  }

  lemma SettleKeeps(s: Store, h: Header, a: Attachment)
    requires Consistent(s) && !Attached(s, h) && Usable(s, a)
    ensures Consistent(Settle(s, h, a))
  {
    var n := Settle(s, h, a);
    if a.mint.Some? {
      assert Members(s.rows, a.thread) == {};
    }
    forall t | t in n.threads ensures n.threads[t].count == |Members(n.rows, t)| {
      SettleMembers(s, h, a, t);
    }
  }

  lemma PlainKeeps(s: Store, h: Header)
    requires Consistent(s) && h.id in s.rows
    ensures Consistent(Plain(s, h))
  {
    forall t ensures Members(Plain(s, h).rows, t) == Members(s.rows, t) {
    }
  }

  /** The pass only ever names threads that exist by the time they are used. */
  ghost predicate Known(s: Store, hs: seq<Header>, p: Progress) {
    && OthersKept(s, hs, p)
    && (forall r | r in p.local :: p.local[r] in p.out.threads)
    && (forall t | t in s.threads :: t in p.out.threads)
    && (forall i | 0 <= i < |hs| :: Delivered(p.out, hs[i]))
  }

  /** Attached, with the folder, flags and labels the header brought. */
  predicate Delivered(s: Store, h: Header) {
    Attached(s, h) && s.rows[h.id].wire == h.wire
  }

  lemma {:induction false} FollowKnown(env: Env, s: Store, p: Progress, refs: seq<string>)
    requires HonestFind(env) && Referenced(s)
    requires forall r | r in p.local :: p.local[r] in p.out.threads
    requires forall t | t in s.threads :: t in p.out.threads
    ensures var t := FollowLocal(env, s.rows, p.local, refs); t.Some? ==> t.value in p.out.threads
  {
    if refs != [] {
      FollowKnown(env, s, p, refs[1..]);
      var t := env.find(s.rows, refs[0]);
      if t.Some? {
        var id: MsgId :| Carries(s.rows, id, refs[0]) && t == s.rows[id].thread;
      }
    }
  }

  lemma NextUsable(env: Env, s: Store, hs: seq<Header>, k: nat, p: Progress)
    requires Honest(env, s) && Referenced(s) && DistinctIds(hs) && k < |hs| && Known(s, hs[..k], p)
    requires ThreadsFrom(env, s, hs[..k], p.out.threads)
    ensures Usable(p.out, ResolveLocal(env, s, p.local, hs[k]))
  {
    FollowKnown(env, s, p, Pointers(hs[k]));
    OwnMintIsNew(env, s, hs, k, p.out.threads);
    UsableFrom(env, s, p, hs[k]);
  }

  lemma UsableFrom(env: Env, s: Store, p: Progress, h: Header)
    requires HonestRecent(env) && (forall t | t in s.threads :: t in p.out.threads)
    requires env.mint(h.id) !in p.out.threads
    requires var t := FollowLocal(env, s.rows, p.local, Pointers(h)); t.Some? ==> t.value in p.out.threads
    ensures Usable(p.out, ResolveLocal(env, s, p.local, h))
  {
  }

  lemma NotListedYet(hs: seq<Header>, k: nat)
    requires DistinctIds(hs) && k < |hs|
    ensures !Listed(hs[..k], hs[k].id)
  {
  }

  lemma ListedGrows(hs: seq<Header>, k: nat)
    requires k < |hs|
    ensures forall id :: Listed(hs[..k + 1], id) <==> Listed(hs[..k], id) || id == hs[k].id
  {
    assert hs[..k + 1][k] == hs[k];
    forall id ensures Listed(hs[..k + 1], id) <==> Listed(hs[..k], id) || id == hs[k].id {
      if Listed(hs[..k], id) {
        var i :| 0 <= i < k && hs[..k][i].id == id;
        assert hs[..k + 1][i].id == id;
      }
    }
  }

  lemma NextDelivers(env: Env, s: Store, p: Progress, h: Header)
    requires Attached(s, h) ==> h.id in p.out.rows && p.out.rows[h.id].thread.Some?
    ensures Delivered(BatchNext(env, s, p, h).out, h)
    ensures forall g: Header | g.id != h.id && Delivered(p.out, g) :: Delivered(BatchNext(env, s, p, h).out, g)
  {
  }

  lemma NextKeepsOthers(env: Env, s: Store, hs: seq<Header>, k: nat, p: Progress)
    requires DistinctIds(hs) && k < |hs| && OthersKept(s, hs[..k], p)
    ensures OthersKept(s, hs[..k + 1], BatchNext(env, s, p, hs[k]))
  {
    NotListedYet(hs, k);
    ListedGrows(hs, k);
  }

  lemma NextRows(env: Env, s: Store, hs: seq<Header>, k: nat, p: Progress, m: seq<Header>)
    requires DistinctIds(hs) && k < |hs| && Known(s, hs[..k], p) && m == hs[..k + 1]
    ensures OthersKept(s, m, BatchNext(env, s, p, hs[k]))
    ensures forall i | 0 <= i < |m| :: Delivered(BatchNext(env, s, p, hs[k]).out, m[i])
  {
    NextKeepsOthers(env, s, hs, k, p);
    NotListedYet(hs, k);
    NextDelivers(env, s, p, hs[k]);
    forall i | 0 <= i < |m| ensures Delivered(BatchNext(env, s, p, hs[k]).out, m[i]) {
      if i < k {
        assert hs[..k][i] == m[i] && m[i].id != hs[k].id;
      }
    }
  }

  lemma NextThreads(env: Env, s: Store, p: Progress, h: Header)
    requires Referenced(s) && (forall t | t in s.threads :: t in p.out.threads)
    requires forall r | r in p.local :: p.local[r] in p.out.threads
    requires !Attached(s, h) ==> Usable(p.out, ResolveLocal(env, s, p.local, h))
    ensures var q := BatchNext(env, s, p, h);
            && (forall r | r in q.local :: q.local[r] in q.out.threads)
            && (forall t | t in s.threads :: t in q.out.threads)
  {
  }

  lemma NextKnown(env: Env, s: Store, hs: seq<Header>, k: nat, p: Progress)
    requires DistinctIds(hs) && k < |hs| && Known(s, hs[..k], p) && Referenced(s)
    requires !Attached(s, hs[k]) ==> Usable(p.out, ResolveLocal(env, s, p.local, hs[k]))
    ensures Known(s, hs[..k + 1], BatchNext(env, s, p, hs[k]))
  {
    NextRows(env, s, hs, k, p, hs[..k + 1]);
    NextThreads(env, s, p, hs[k]);
  }

  lemma NextConsistent(env: Env, s: Store, p: Progress, h: Header)
    requires Consistent(p.out) && (Attached(p.out, h) <==> Attached(s, h))
    requires !Attached(s, h) ==> Usable(p.out, ResolveLocal(env, s, p.local, h))
    ensures Consistent(BatchNext(env, s, p, h).out)
  {
    if Attached(s, h) {
      PlainKeeps(p.out, h);
    } else {
      SettleKeeps(p.out, h, ResolveLocal(env, s, p.local, h));
    }
  }

  /** Applying a chunk of distinct messages keeps every reference valid and every
      thread's count equal to its messages, for new, healed and plain rows. */
  lemma {:induction false} BatchKeeps(env: Env, s: Store, hs: seq<Header>)
    requires Honest(env, s) && Consistent(s) && DistinctIds(hs)
    ensures Consistent(Batch(env, s, hs).out) && Known(s, hs, Batch(env, s, hs))
    decreases |hs|
  {
    if hs != [] {
      var k := |hs| - 1;
      var p := Batch(env, s, hs[..k]);
      BatchKeeps(env, s, hs[..k]);
      BatchThreads(env, s, hs[..k]);
      NextUsable(env, s, hs, k, p);
      NextKnown(env, s, hs, k, p);
      NotListedYet(hs, k);
      NextConsistent(env, s, p, hs[k]);
      assert hs[..k + 1] == hs;
    }
  }

  // ---------- applying it again ----------

  lemma {:induction false} UnchangedChunk(env: Env, s: Store, hs: seq<Header>)
    requires forall i | 0 <= i < |hs| :: Delivered(s, hs[i])
    ensures Batch(env, s, hs).out == s && Batch(env, s, hs).atts == map[]
    decreases |hs|
  {
    if hs != [] {
      var k := |hs| - 1;
      UnchangedChunk(env, s, hs[..k]);
      assert Delivered(s, hs[k]);
      assert s.rows[hs[k].id := s.rows[hs[k].id]] == s.rows;
    }
  }

  /** The same chunk a second time attaches nothing and writes nothing. */
  lemma SecondChunkAddsNothing(env: Env, again: Env, s: Store, hs: seq<Header>)
    requires Honest(env, s) && Consistent(s) && DistinctIds(hs)
    ensures var t := Batch(env, s, hs).out;
            Batch(again, t, hs).out == t && Batch(again, t, hs).atts == map[]
  {
    BatchKeeps(env, s, hs);
    UnchangedChunk(again, Batch(env, s, hs).out, hs);
  }
}

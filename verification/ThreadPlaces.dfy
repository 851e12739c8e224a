/** Which thread a message lands in, told by what the store and the chunk show:
    that of the message it replies to, else that of its newest known reference,
    else the latest recent one of the same subject, else a thread of its own. */
module ThreadPlaces {
  import opened Wrappers
  import opened Threading
  import opened ThreadingTheorems
  import S = Subject

  // ---------- what a Message-ID says ----------

  /** Rows carry the Message-ID, and they all are in thread `t`. */
  ghost predicate Threaded(rows: Rows, rfc: string, t: ThreadId) {
    && (exists id: MsgId :: Carries(rows, id, rfc))
    && forall id: MsgId | Carries(rows, id, rfc) :: rows[id].thread == Some(t)
  }

  /** No row that carries it has a thread. */
  ghost predicate Threadless(rows: Rows, rfc: string) {
    forall id: MsgId | Carries(rows, id, rfc) :: rows[id].thread == None
  }

  /** `local` is what earlier headers of the chunk have shown; it comes first. */
  ghost predicate Leads(rows: Rows, local: map<string, ThreadId>, rfc: string, t: ThreadId) {
    if rfc in local then local[rfc] == t else Threaded(rows, rfc, t)
  }

  ghost predicate LeadsNowhere(rows: Rows, local: map<string, ThreadId>, rfc: string) {
    rfc !in local && Threadless(rows, rfc)
  }

  /** The header answers a message of thread `t`. */
  ghost predicate ByReply(rows: Rows, local: map<string, ThreadId>, h: Header, t: ThreadId) {
    h.inReplyTo.Some? && Leads(rows, local, h.inReplyTo.value, t)
  }

  ghost predicate NoReply(rows: Rows, local: map<string, ThreadId>, h: Header) {
    h.inReplyTo.Some? ==> LeadsNowhere(rows, local, h.inReplyTo.value)
  }

  /** It answers none, and the last reference that leads anywhere leads to `t`. */
  ghost predicate ByReference(rows: Rows, local: map<string, ThreadId>, h: Header, t: ThreadId) {
    && NoReply(rows, local, h)
    && exists i ::
         && 0 <= i < |h.references| && Leads(rows, local, h.references[i], t)
         && forall j | i < j < |h.references| :: LeadsNowhere(rows, local, h.references[j])
  }

  ghost predicate Unanswering(rows: Rows, local: map<string, ThreadId>, h: Header) {
    NoReply(rows, local, h) && forall i | 0 <= i < |h.references| :: LeadsNowhere(rows, local, h.references[i])
  }

  /** Nothing it points at leads to a thread for certain. */
  ghost predicate Unled(rows: Rows, local: map<string, ThreadId>, h: Header) {
    && (h.inReplyTo.Some? ==> forall t: ThreadId :: !Leads(rows, local, h.inReplyTo.value, t))
    && (forall i, t: ThreadId | 0 <= i < |h.references| :: !Leads(rows, local, h.references[i], t))
  }

  /** `t` is a latest thread of its subject inside the window. */
  predicate OfSubject(since: int, ts: Threads, h: Header, t: ThreadId) {
    var key := S.Normalize(h.subject);
    && key != [] && t in ts && ts[t].subject == key && ts[t].last >= since
    && forall u | u in ts && ts[u].subject == key :: ts[u].last <= ts[t].last
  }

  predicate NewSubject(since: int, ts: Threads, h: Header) {
    var key := S.Normalize(h.subject);
    key == [] || forall t | t in ts :: ts[t].subject != key || ts[t].last < since
  }

  /** Thread `t` is the right one for `h`; `own` says that it is a fresh one. */
  ghost predicate Placed(since: int, rows: Rows, local: map<string, ThreadId>, ts: Threads,
                         h: Header, t: ThreadId, own: bool) {
    && (forall u: ThreadId | ByReply(rows, local, h, u) :: t == u && !own)
    && (forall u: ThreadId | ByReference(rows, local, h, u) :: t == u && !own)
    && (Unanswering(rows, local, h) && !NewSubject(since, ts, h) ==> OfSubject(since, ts, h, t) && !own)
    && (Unanswering(rows, local, h) && NewSubject(since, ts, h) ==> own)
    && (own ==> Unled(rows, local, h) && NewSubject(since, ts, h))
  }

  // ---------- the lookups meet it ----------

  lemma FindThreaded(env: Env, rows: Rows, rfc: string, t: ThreadId)
    requires HonestFind(env) && Threaded(rows, rfc, t)
    ensures env.find(rows, rfc) == Some(t)
  {
    var id: MsgId :| Carries(rows, id, rfc) && env.find(rows, rfc) == rows[id].thread;
  }

  lemma FindThreadless(env: Env, rows: Rows, rfc: string)
    requires HonestFind(env) && Threadless(rows, rfc)
    ensures env.find(rows, rfc) == None
  {
    if exists id: MsgId :: Carries(rows, id, rfc) {
      var id: MsgId :| Carries(rows, id, rfc) && env.find(rows, rfc) == rows[id].thread;
    }
  }

  /** One pointer: what leads is followed, what leads nowhere passed over, and what
      was passed over did not lead. */
  lemma FollowOne(env: Env, rows: Rows, local: map<string, ThreadId>, refs: seq<string>)
    requires HonestFind(env) && refs != []
    ensures forall t: ThreadId | Leads(rows, local, refs[0], t) :: FollowLocal(env, rows, local, refs) == Some(t)
    ensures LeadsNowhere(rows, local, refs[0]) ==>
              FollowLocal(env, rows, local, refs) == FollowLocal(env, rows, local, refs[1..])
    ensures FollowLocal(env, rows, local, refs).None? ==> FollowLocal(env, rows, local, refs[1..]).None?
  {
    var rfc := refs[0];
    if rfc !in local {
      forall t: ThreadId | Threaded(rows, rfc, t) ensures env.find(rows, rfc) == Some(t) {
        FindThreaded(env, rows, rfc, t);
      }
      if Threadless(rows, rfc) {
        FindThreadless(env, rows, rfc);
      }
    }
  }

  lemma {:induction false} FollowLeads(env: Env, rows: Rows, local: map<string, ThreadId>, refs: seq<string>,
                                       i: nat, t: ThreadId)
    requires HonestFind(env) && i < |refs| && Leads(rows, local, refs[i], t)
    requires forall j | 0 <= j < i :: LeadsNowhere(rows, local, refs[j])
    ensures FollowLocal(env, rows, local, refs) == Some(t)
    decreases i
  {
    FollowOne(env, rows, local, refs);
    if i > 0 {
      FollowLeads(env, rows, local, refs[1..], i - 1, t);
    }
  }

  lemma {:induction false} FollowNowhere(env: Env, rows: Rows, local: map<string, ThreadId>, refs: seq<string>)
    requires HonestFind(env) && forall j | 0 <= j < |refs| :: LeadsNowhere(rows, local, refs[j])
    ensures FollowLocal(env, rows, local, refs).None?
  {
    if refs != [] {
      FollowOne(env, rows, local, refs);
      FollowNowhere(env, rows, local, refs[1..]);
    }
  }

  lemma {:induction false} FollowNone(env: Env, rows: Rows, local: map<string, ThreadId>, refs: seq<string>)
    requires HonestFind(env) && FollowLocal(env, rows, local, refs).None?
    ensures forall i, t: ThreadId | 0 <= i < |refs| :: !Leads(rows, local, refs[i], t)
  {
    if refs != [] {
      FollowOne(env, rows, local, refs);
      FollowNone(env, rows, local, refs[1..]);
      forall i, t: ThreadId | 0 <= i < |refs| ensures !Leads(rows, local, refs[i], t) {
        assert i > 0 ==> refs[i] == refs[1..][i - 1];
      }
    }
  }

  /** In-Reply-To is tried first, then the references from the last to the first. */
  lemma {:induction false} ReversedAt(refs: seq<string>)
    ensures |Reversed(refs)| == |refs| && forall k | 0 <= k < |refs| :: Reversed(refs)[k] == refs[|refs| - 1 - k]
  {
    if refs != [] {
      ReversedAt(refs[..|refs| - 1]);
    }
  }

  function Lead(h: Header): nat {
    if h.inReplyTo.Some? then 1 else 0
  }

  lemma PointersAt(h: Header)
    ensures |Pointers(h)| == Lead(h) + |h.references|
    ensures h.inReplyTo.Some? ==> Pointers(h)[0] == h.inReplyTo.value
    ensures forall i | 0 <= i < |h.references| :: Pointers(h)[Lead(h) + |h.references| - 1 - i] == h.references[i]
    ensures forall k | Lead(h) <= k < |Pointers(h)| :: Pointers(h)[k] == h.references[|h.references| - 1 - (k - Lead(h))]
  {
    ReversedAt(h.references);
  }

  lemma ReplyFollowed(env: Env, rows: Rows, local: map<string, ThreadId>, h: Header, t: ThreadId)
    requires HonestFind(env) && ByReply(rows, local, h, t)
    ensures FollowLocal(env, rows, local, Pointers(h)) == Some(t)
  {
    PointersAt(h);
    FollowLeads(env, rows, local, Pointers(h), 0, t);
  }

  lemma ReferenceFollowed(env: Env, rows: Rows, local: map<string, ThreadId>, h: Header, t: ThreadId)
    requires HonestFind(env) && ByReference(rows, local, h, t)
    ensures FollowLocal(env, rows, local, Pointers(h)) == Some(t)
  {
    PointersAt(h);
    var n := |h.references|;
    var i :| && 0 <= i < n && Leads(rows, local, h.references[i], t)
             && forall j | i < j < n :: LeadsNowhere(rows, local, h.references[j]);
    var k := Lead(h) + n - 1 - i;
    forall x | 0 <= x < k ensures LeadsNowhere(rows, local, Pointers(h)[x]) {
      if x >= Lead(h) {
        assert Pointers(h)[x] == h.references[n - 1 - (x - Lead(h))];
      }
    }
    FollowLeads(env, rows, local, Pointers(h), k, t);
  }

  lemma NothingFollowed(env: Env, rows: Rows, local: map<string, ThreadId>, h: Header)
    requires HonestFind(env)
    ensures Unanswering(rows, local, h) ==> FollowLocal(env, rows, local, Pointers(h)).None?
    ensures FollowLocal(env, rows, local, Pointers(h)).None? ==> Unled(rows, local, h)
  {
    PointersAt(h);
    if Unanswering(rows, local, h) {
      FollowNowhere(env, rows, local, Pointers(h));
    }
    if FollowLocal(env, rows, local, Pointers(h)).None? {
      FollowNone(env, rows, local, Pointers(h));
    }
  }

  lemma SubjectFound(env: Env, ts: Threads, h: Header)
    requires HonestRecent(env)
    ensures BySubject(env, ts, h).None? <==> NewSubject(env.since, ts, h)
    ensures BySubject(env, ts, h).Some? ==> OfSubject(env.since, ts, h, BySubject(env, ts, h).value)
  {
  }

  lemma ResolvedPlaces(env: Env, s: Store, local: map<string, ThreadId>, h: Header)
    requires HonestFind(env) && HonestRecent(env)
    ensures var a := ResolveLocal(env, s, local, h);
            Placed(env.since, s.rows, local, s.threads, h, a.thread, a.mint.Some?)
            && (a.mint.Some? ==> a == Attachment(env.mint(h.id), Some(Thread(h.id, S.Normalize(h.subject), h.date, 0))))
  {
    forall u: ThreadId | ByReply(s.rows, local, h, u) ensures FollowLocal(env, s.rows, local, Pointers(h)) == Some(u) {
      ReplyFollowed(env, s.rows, local, h, u);
    }
    forall u: ThreadId | ByReference(s.rows, local, h, u) ensures FollowLocal(env, s.rows, local, Pointers(h)) == Some(u) {
      ReferenceFollowed(env, s.rows, local, h, u);
    }
    NothingFollowed(env, s.rows, local, h);
    SubjectFound(env, s.threads, h);
  }

  // ---------- one message at a time ----------

  lemma {:induction false} FollowWithoutLocal(env: Env, rows: Rows, refs: seq<string>)
    ensures FollowLocal(env, rows, map[], refs) == Follow(env, rows, refs)
  {
    if refs != [] {
      FollowWithoutLocal(env, rows, refs[1..]);
    }
  }

  /** A message without a thread gets the right one, judged by the store with its
      own row in it; its thread counts it, and a fresh thread is its own. */
  lemma OneNextPlaces(env: Env, s: Store, h: Header)
    requires Honest(env, s) && !Attached(s, h)
    ensures var n := OneNext(env, s, h);
            && h.id in n.rows && n.rows[h.id].thread.Some?
            && var t := n.rows[h.id].thread.value;
               var own := t !in s.threads && t in n.threads;
               && Placed(env.since, s.rows[h.id := Row(None, h.rfc, h.wire)], map[], s.threads, h, t, own)
               && (own ==> n.threads == s.threads[t := Thread(h.id, S.Normalize(h.subject), h.date, 1)])
               && (t in s.threads ==>
                     n.threads == s.threads[t := s.threads[t].(count := s.threads[t].count + 1,
                                                               last := Max(s.threads[t].last, h.date))])
  {
    var now := Landed(s, h);
    ResolvedPlaces(env, now, map[], h);
    FollowWithoutLocal(env, now.rows, Pointers(h));
  }

  // ---------- a chunk ----------

  /** `local` is what the first headers have shown: the thread that the last of them
      with a Message-ID has in the end. */
  ghost predicate Shown(hs: seq<Header>, rows: Rows, local: map<string, ThreadId>) {
    && (forall r :: r in local <==> exists j :: 0 <= j < |hs| && hs[j].rfc == Some(r))
    && (forall j | 0 <= j < |hs| && hs[j].rfc.Some? && LastOf(hs, j) ::
          hs[j].id in rows && rows[hs[j].id].thread == Some(local[hs[j].rfc.value]))
  }

  predicate LastOf(hs: seq<Header>, j: nat)
    requires j < |hs|
  {
    forall k | j < k < |hs| :: hs[k].rfc != hs[j].rfc
  }

  /** `hs[i]` in the result of the chunk. */
  ghost predicate ChunkPlaced(env: Env, s: Store, hs: seq<Header>, i: nat, out: Store)
    requires i < |hs|
  {
    && hs[i].id in out.rows && out.rows[hs[i].id].thread.Some?
    && var t := out.rows[hs[i].id].thread.value;
       if Attached(s, hs[i]) then Some(t) == s.rows[hs[i].id].thread
       else exists local ::
              Shown(hs[..i], out.rows, local)
              && Placed(env.since, s.rows, local, s.threads, hs[i], t, t == env.mint(hs[i].id))
  }

  lemma ShownKept(hs: seq<Header>, rows: Rows, after: Rows, local: map<string, ThreadId>)
    requires Shown(hs, rows, local)
    requires forall j | 0 <= j < |hs| && hs[j].id in rows :: hs[j].id in after && after[hs[j].id] == rows[hs[j].id]
    ensures Shown(hs, after, local)
  {
  }

  lemma NextTouchesOne(env: Env, s: Store, p: Progress, h: Header)
    ensures forall id | id in p.out.rows && id != h.id ::
              id in BatchNext(env, s, p, h).out.rows && BatchNext(env, s, p, h).out.rows[id] == p.out.rows[id]
  {
  }

  /** The thread the next header gets, and what it shows. */
  lemma NextGets(env: Env, s: Store, p: Progress, h: Header)
    requires Attached(s, h) ==> h.id in p.out.rows && p.out.rows[h.id].thread == s.rows[h.id].thread
    ensures var q := BatchNext(env, s, p, h);
            var t := if Attached(s, h) then s.rows[h.id].thread.value else ResolveLocal(env, s, p.local, h).thread;
            && h.id in q.out.rows && q.out.rows[h.id].thread == Some(t)
            && q.local == Learn(p.local, h.rfc, t)
  {
  }

  lemma ShownGrows(hs: seq<Header>, h: Header, rows: Rows, local: map<string, ThreadId>, t: ThreadId)
    requires Shown(hs, rows, local) && h.id in rows && rows[h.id].thread == Some(t)
    ensures Shown(hs + [h], rows, Learn(local, h.rfc, t))
  {
    var all, more := hs + [h], Learn(local, h.rfc, t);
    assert all[|hs|] == h;
    assert forall j | 0 <= j < |hs| :: all[j] == hs[j];
    forall r ensures r in more <==> exists j :: 0 <= j < |all| && all[j].rfc == Some(r) {
      if r in local {
        var j :| 0 <= j < |hs| && hs[j].rfc == Some(r);
        assert all[j].rfc == Some(r);
      }
    }
    forall j | 0 <= j < |all| && all[j].rfc.Some? && LastOf(all, j)
      ensures all[j].id in rows && rows[all[j].id].thread == Some(more[all[j].rfc.value])
    {
      if j < |hs| {
        assert all[|hs|].rfc != all[j].rfc;
        assert LastOf(hs, j) by {
          forall k | j < k < |hs| ensures hs[k].rfc != hs[j].rfc {
            assert all[k].rfc != all[j].rfc;
          }
        }
      }
    }
  }

  lemma StillPlaced(env: Env, s: Store, hs: seq<Header>, i: nat, out: Store, after: Store)
    requires i < |hs| && ChunkPlaced(env, s, hs, i, out)
    requires forall j | 0 <= j < |hs| && hs[j].id in out.rows ::
               hs[j].id in after.rows && after.rows[hs[j].id] == out.rows[hs[j].id]
    ensures ChunkPlaced(env, s, hs, i, after)
  {
    if !Attached(s, hs[i]) {
      var t := out.rows[hs[i].id].thread.value;
      var local :| Shown(hs[..i], out.rows, local)
                   && Placed(env.since, s.rows, local, s.threads, hs[i], t, t == env.mint(hs[i].id));
      ShownKept(hs[..i], out.rows, after.rows, local);
    }
  }

  lemma PlacedLonger(env: Env, s: Store, hs: seq<Header>, h: Header, i: nat, out: Store)
    requires i < |hs| && ChunkPlaced(env, s, hs, i, out)
    ensures ChunkPlaced(env, s, hs + [h], i, out)
  {
    assert (hs + [h])[..i] == hs[..i];
  }

  lemma LastPlaced(env: Env, s: Store, hs: seq<Header>, k: nat)
    requires Honest(env, s) && Consistent(s) && DistinctIds(hs) && k == |hs| - 1
    requires Shown(hs[..k], Batch(env, s, hs[..k]).out.rows, Batch(env, s, hs[..k]).local)
    ensures var q := Batch(env, s, hs); Shown(hs, q.out.rows, q.local) && ChunkPlaced(env, s, hs, k, q.out)
  {
    var p, h := Batch(env, s, hs[..k]), hs[k];
    BatchKeeps(env, s, hs[..k]);
    NotListedYet(hs, k);
    NextTouchesOne(env, s, p, h);
    NextGets(env, s, p, h);
    var q := BatchNext(env, s, p, h);
    ShownKept(hs[..k], p.out.rows, q.out.rows, p.local);
    ShownGrows(hs[..k], h, q.out.rows, p.local, q.out.rows[h.id].thread.value);
    assert hs[..k] + [h] == hs;
    if !Attached(s, h) {
      ResolvedPlaces(env, s, p.local, h);
      BatchThreads(env, s, hs[..k]);
      NextUsable(env, s, hs, k, p);
      OwnMintIsNew(env, s, hs, k, p.out.threads);
    }
  }

  /** Every header of a chunk ends in the right thread, judged by the store before the
      chunk and the headers before it. */
  lemma {:induction false} BatchPlaces(env: Env, s: Store, hs: seq<Header>)
    requires Honest(env, s) && Consistent(s) && DistinctIds(hs)
    ensures Shown(hs, Batch(env, s, hs).out.rows, Batch(env, s, hs).local)
    ensures forall i | 0 <= i < |hs| :: ChunkPlaced(env, s, hs, i, Batch(env, s, hs).out)
    decreases |hs|
  {
    if hs != [] {
      var k := |hs| - 1;
      var before, h, p := hs[..k], hs[k], Batch(env, s, hs[..k]);
      assert before + [h] == hs;
      BatchPlaces(env, s, before);
      LastPlaced(env, s, hs, k);
      NextTouchesOne(env, s, p, h);
      forall i | 0 <= i < |hs| ensures ChunkPlaced(env, s, hs, i, Batch(env, s, hs).out) {
        if i < k {
          StillPlaced(env, s, before, i, p.out, Batch(env, s, hs).out);
          PlacedLonger(env, s, before, h, i, Batch(env, s, hs).out);
        }
      }
    }
  }

  lemma Placement(env: Env, s: Store, hs: seq<Header>, i: nat) returns (local: map<string, ThreadId>)
    requires Honest(env, s) && Consistent(s) && DistinctIds(hs) && i < |hs| && !Attached(s, hs[i])
    ensures var out := Batch(env, s, hs).out;
            && hs[i].id in out.rows && out.rows[hs[i].id].thread.Some? && Shown(hs[..i], out.rows, local)
            && forall u: ThreadId | ByReply(s.rows, local, hs[i], u) :: out.rows[hs[i].id].thread == Some(u)
  {
    BatchPlaces(env, s, hs);
    var out := Batch(env, s, hs).out;
    assert ChunkPlaced(env, s, hs, i, out);
    var t := out.rows[hs[i].id].thread.value;
    local :| Shown(hs[..i], out.rows, local)
             && Placed(env.since, s.rows, local, s.threads, hs[i], t, t == env.mint(hs[i].id));
  }

  /** In particular: a reply to a message in the store, which no earlier header of
      the chunk shares its Message-ID with, joins that message's thread. */
  lemma ReplyJoins(env: Env, s: Store, hs: seq<Header>, i: nat, t: ThreadId)
    requires Honest(env, s) && Consistent(s) && DistinctIds(hs) && i < |hs| && !Attached(s, hs[i])
    requires hs[i].inReplyTo.Some? && Threaded(s.rows, hs[i].inReplyTo.value, t)
    requires forall j | 0 <= j < i :: hs[j].rfc != hs[i].inReplyTo
    ensures var out := Batch(env, s, hs).out; hs[i].id in out.rows && out.rows[hs[i].id].thread == Some(t)
  {
    var local := Placement(env, s, hs, i);
    assert ByReply(s.rows, local, hs[i], t);
  }

  /** And a reply to an earlier header of the chunk joins that one's. */
  lemma ReplyJoinsEarlier(env: Env, s: Store, hs: seq<Header>, i: nat, j: nat)
    requires Honest(env, s) && Consistent(s) && DistinctIds(hs) && j < i < |hs| && !Attached(s, hs[i])
    requires hs[i].inReplyTo.Some? && hs[j].rfc == hs[i].inReplyTo
    requires forall k | j < k < i :: hs[k].rfc != hs[i].inReplyTo
    ensures var out := Batch(env, s, hs).out;
            && hs[i].id in out.rows && hs[j].id in out.rows
            && out.rows[hs[i].id].thread == out.rows[hs[j].id].thread
  {
    var local := Placement(env, s, hs, i);
    ShownBy(hs[..i], Batch(env, s, hs).out.rows, local, j, hs[i].inReplyTo.value);
    assert ByReply(s.rows, local, hs[i], local[hs[i].inReplyTo.value]);
  }

  lemma ShownBy(hs: seq<Header>, rows: Rows, local: map<string, ThreadId>, j: nat, r: string)
    requires Shown(hs, rows, local) && j < |hs| && hs[j].rfc == Some(r) && LastOf(hs, j)
    ensures r in local && hs[j].id in rows && rows[hs[j].id].thread == Some(local[r])
  {
  }
}

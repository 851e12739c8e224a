/** Thread assembly: one message at a time, and batched over a chunk.

    The store is one account's messages and threads. Database lookups that SQL
    leaves open (`LIMIT 1` without an order, ties in `ORDER BY last_date`) are
    functions of an environment, constrained only by what the query promises;
    the id a message's own thread would get is `mint` of its message id. */
module Threading {
  import opened Wrappers
  import S = Subject

  type MsgId = nat
  type ThreadId = nat

  /** The fields a re-sync compares: folder, flags and labels. */
  datatype Wire = Wire(folder: string, flags: string, labels: string)

  datatype Header = Header(
    id: MsgId,
    rfc: Option<string>,
    inReplyTo: Option<string>,
    references: seq<string>,
    subject: string,
    date: int,
    wire: Wire)

  datatype Row = Row(thread: Option<ThreadId>, rfc: Option<string>, wire: Wire)

  datatype Thread = Thread(root: MsgId, subject: string, last: int, count: nat)

  type Rows = map<MsgId, Row>
  type Threads = map<ThreadId, Thread>

  datatype Store = Store(rows: Rows, threads: Threads)

  datatype Env = Env(
    find: (Rows, string) -> Option<ThreadId>,
    recent: (Threads, string) -> Option<ThreadId>,
    since: int,
    mint: MsgId -> ThreadId)

  predicate Carries(rows: Rows, id: MsgId, rfc: string) {
    id in rows && rows[id].rfc == Some(rfc)
  }

  /** `SELECT thread_id … WHERE rfc822_message_id = ? LIMIT 1`: some matching
      row's thread, NULL included; None when nothing matches. */
  ghost predicate HonestFind(env: Env) {
    forall rows: Rows, rfc: string ::
      if exists id: MsgId :: Carries(rows, id, rfc)
      then exists id: MsgId :: Carries(rows, id, rfc) && env.find(rows, rfc) == rows[id].thread
      else env.find(rows, rfc) == None
  }

  /** A thread with this subject inside the window, the latest of them. */
  ghost predicate HonestRecent(env: Env) {
    forall ts: Threads, key: string ::
      match env.recent(ts, key)
      case None => forall t | t in ts :: ts[t].subject != key || ts[t].last < env.since
      case Some(t) =>
        && t in ts && ts[t].subject == key && ts[t].last >= env.since
        && forall u | u in ts && ts[u].subject == key :: ts[u].last <= ts[t].last
  }

  /** Freshly minted ids are new and never repeat. */
  ghost predicate FreshMint(env: Env, s: Store) {
    && (forall a, b :: env.mint(a) == env.mint(b) ==> a == b)
    && forall a :: env.mint(a) !in s.threads
  }

  ghost predicate Honest(env: Env, s: Store) {
    HonestFind(env) && HonestRecent(env) && FreshMint(env, s)
  }

  // ---------- resolution ----------

  /** The ids a header points at, in the order they are tried: In-Reply-To, then
      References newest first. */
  function Reversed(refs: seq<string>): seq<string> {
    if refs == [] then [] else [refs[|refs| - 1]] + Reversed(refs[..|refs| - 1])
  }

  function Pointers(h: Header): seq<string> {
    (if h.inReplyTo.Some? then [h.inReplyTo.value] else []) + Reversed(h.references)
  }

  function Follow(env: Env, rows: Rows, refs: seq<string>): Option<ThreadId> {
    if refs == [] then None
    else
      var t := env.find(rows, refs[0]);
      if t.Some? then t else Follow(env, rows, refs[1..])
  }

  function BySubject(env: Env, ts: Threads, h: Header): Option<ThreadId> {
    var key := S.Normalize(h.subject);
    if key == [] then None else env.recent(ts, key)
  }

  function ResolveExisting(env: Env, s: Store, h: Header): Option<ThreadId> {
    var t := Follow(env, s.rows, Pointers(h));
    if t.Some? then t else BySubject(env, s.threads, h)
  }

  /** Chunk-local ids first, for each pointer in turn. */
  function FollowLocal(env: Env, rows: Rows, local: map<string, ThreadId>, refs: seq<string>): Option<ThreadId> {
    if refs == [] then None
    else if refs[0] in local then Some(local[refs[0]])
    else
      var t := env.find(rows, refs[0]);
      if t.Some? then t else FollowLocal(env, rows, local, refs[1..])
  }

  datatype Attachment = Attachment(thread: ThreadId, mint: Option<Thread>)

  function NewThread(h: Header): Thread {
    Thread(h.id, S.Normalize(h.subject), h.date, 0)
  }

  function ResolveLocal(env: Env, s: Store, local: map<string, ThreadId>, h: Header): Attachment {
    var t := FollowLocal(env, s.rows, local, Pointers(h));
    if t.Some? then Attachment(t.value, None)
    else
      var u := BySubject(env, s.threads, h);
      if u.Some? then Attachment(u.value, None) else Attachment(env.mint(h.id), Some(NewThread(h)))
  }

  // ---------- writes ----------

  function Max(a: int, b: int): int {
    if a < b then b else a
  }

  function Touch(ts: Threads, t: ThreadId, date: int): Threads {
    if t in ts then ts[t := ts[t].(count := ts[t].count + 1, last := Max(ts[t].last, date))] else ts
  }

  /** The UPDATE leaves `thread_id` alone; the plain path skips rows whose
      folder, flags and labels already match. */
  function Refreshed(r: Row, h: Header): Row {
    r.(rfc := h.rfc, wire := h.wire)
  }

  function Attached(s: Store, h: Header): bool {
    h.id in s.rows && s.rows[h.id].thread.Some?
  }

  function PlainRow(r: Row, h: Header): Row {
    if r.wire == h.wire then r else Refreshed(r, h)
  }

  /** One header settled into the store: its row written, and, unless it already
      had a thread, attached to the one resolved. */
  function Settle(s: Store, h: Header, a: Attachment): Store {
    var ts := if a.mint.Some? then s.threads[a.thread := a.mint.value] else s.threads;
    Store(s.rows[h.id := Row(Some(a.thread), h.rfc, h.wire)], Touch(ts, a.thread, h.date))
  }

  function Plain(s: Store, h: Header): Store
    requires h.id in s.rows
  {
    s.(rows := s.rows[h.id := PlainRow(s.rows[h.id], h)])
  }

  // ---------- one message at a time ----------

  /** The row inserted or updated, thread still unset. */
  function Landed(s: Store, h: Header): Store {
    s.(rows := s.rows[h.id := Row(None, h.rfc, h.wire)])
  }

  function AttachToThread(env: Env, s: Store, h: Header): Store
    requires h.id in s.rows
  {
    var t := ResolveExisting(env, s, h);
    Settle(s, h, if t.Some? then Attachment(t.value, None) else Attachment(env.mint(h.id), Some(NewThread(h))))
  }

  function OneNext(env: Env, s: Store, h: Header): Store {
    if Attached(s, h) then Plain(s, h) else AttachToThread(env, Landed(s, h), h)
  }

  /** The reference: each message inserted and attached before the next. */
  function OneByOne(env: Env, s: Store, hs: seq<Header>): Store
    decreases |hs|
  {
    if hs == [] then s else OneNext(env, OneByOne(env, s, hs[..|hs| - 1]), hs[|hs| - 1])
  }

  // ---------- batched ----------

  /** The read-only pass so far: chunk-local Message-IDs and attachments chosen;
      `out` is what those writes amount to. */
  datatype Progress = Progress(local: map<string, ThreadId>, atts: map<MsgId, Attachment>, out: Store)

  function Learn(local: map<string, ThreadId>, rfc: Option<string>, t: ThreadId): map<string, ThreadId> {
    if rfc.Some? then local[rfc.value := t] else local
  }

  /** Resolution always looks at `s`, the store before the chunk. */
  function BatchNext(env: Env, s: Store, p: Progress, h: Header): Progress {
    if Attached(s, h) then
      p.(local := Learn(p.local, h.rfc, s.rows[h.id].thread.value),
         out := if h.id in p.out.rows then Plain(p.out, h) else p.out)
    else
      var a := ResolveLocal(env, s, p.local, h);
      Progress(Learn(p.local, h.rfc, a.thread), p.atts[h.id := a], Settle(p.out, h, a))
  }

  function Batch(env: Env, s: Store, hs: seq<Header>): Progress
    decreases |hs|
  {
    if hs == [] then Progress(map[], map[], s)
    else BatchNext(env, s, Batch(env, s, hs[..|hs| - 1]), hs[|hs| - 1])
  }

  // ---------- what callers promise ----------

  predicate DistinctIds(hs: seq<Header>) {
    forall i, j | 0 <= i < j < |hs| :: hs[i].id != hs[j].id
  }

  predicate UniqueRows(rows: Rows) {
    forall a, b | a in rows && b in rows && rows[a].rfc.Some? && rows[a].rfc == rows[b].rfc :: a == b
  }

  /** Message-IDs identify messages, across the chunk and the store, and an
      existing row carries the Message-ID the server still sends. */
  predicate UniqueRfcs(s: Store, hs: seq<Header>) {
    && UniqueRows(s.rows)
    && (forall i, j | 0 <= i < j < |hs| && hs[i].rfc.Some? :: hs[i].rfc != hs[j].rfc)
    && (forall i, a | 0 <= i < |hs| && a in s.rows && hs[i].rfc.Some? :: s.rows[a].rfc == hs[i].rfc ==> a == hs[i].id)
    && (forall i | 0 <= i < |hs| :: hs[i].id in s.rows ==> s.rows[hs[i].id].rfc == hs[i].rfc)
  }

  /** A header's subject step is reached when no pointer resolves; it must give
      on the store before the chunk what it gives in its turn. */
  ghost predicate SubjectAgrees(env: Env, s: Store, before: seq<Header>, h: Header) {
    var now := OneByOne(env, s, before);
    Attached(now, h) || Follow(env, Landed(now, h).rows, Pointers(h)).Some?
    || BySubject(env, now.threads, h) == BySubject(env, s.threads, h)
  }

  /** Every header's subject step agrees, each after the headers before it. */
  ghost predicate SubjectStable(env: Env, s: Store, hs: seq<Header>)
    decreases |hs|
  {
    hs == [] || (SubjectStable(env, s, hs[..|hs| - 1]) && SubjectAgrees(env, s, hs[..|hs| - 1], hs[|hs| - 1]))
  }

  // ---------- batched equals one at a time ----------

  predicate Listed(hs: seq<Header>, id: MsgId) {
    exists i | 0 <= i < |hs| :: hs[i].id == id
  }

  ghost predicate OthersKept(s: Store, hs: seq<Header>, p: Progress) {
    && (forall id | id in p.out.rows :: id in s.rows || Listed(hs, id))
    && (forall id | id in s.rows :: id in p.out.rows && (!Listed(hs, id) ==> p.out.rows[id] == s.rows[id]))
  }

  predicate HasRow(p: Progress, h: Header) {
    && h.id in p.out.rows && p.out.rows[h.id].thread.Some? && p.out.rows[h.id].rfc == h.rfc
    && (h.rfc.Some? ==> h.rfc.value in p.local && p.out.rows[h.id].thread == Some(p.local[h.rfc.value]))
  }

  ghost predicate LocalIsListed(hs: seq<Header>, p: Progress) {
    forall r | r in p.local :: exists i :: 0 <= i < |hs| && hs[i].rfc == Some(r)
  }

  /** What the pass has settled: rows of earlier headers, and nothing else. */
  ghost predicate Settled(s: Store, hs: seq<Header>, p: Progress) {
    OthersKept(s, hs, p) && (forall i | 0 <= i < |hs| :: HasRow(p, hs[i])) && LocalIsListed(hs, p)
  }

  lemma Shorter(s: Store, hs: seq<Header>, n: nat)
    requires n <= |hs| && DistinctIds(hs) && UniqueRfcs(s, hs)
    ensures DistinctIds(hs[..n]) && UniqueRfcs(s, hs[..n])
  {
  }

  lemma FreshToChunk(s: Store, hs: seq<Header>, h: Header)
    requires DistinctIds(hs + [h]) && UniqueRfcs(s, hs + [h])
    ensures !Listed(hs, h.id)
    ensures h.rfc.Some? ==> forall i | 0 <= i < |hs| :: hs[i].rfc != h.rfc
    ensures h.id in s.rows ==> s.rows[h.id].rfc == h.rfc
    ensures forall id :: Listed(hs + [h], id) <==> Listed(hs, id) || id == h.id
  {
    var all := hs + [h];
    assert all[|hs|] == h;
    assert forall i | 0 <= i < |hs| :: all[i] == hs[i];
    forall id ensures Listed(all, id) <==> Listed(hs, id) || id == h.id {
      if Listed(hs, id) {
        var i :| 0 <= i < |hs| && hs[i].id == id;
        assert all[i].id == id;
      }
    }
  }

  /** One header's row, attached, and its Message-ID learned. */
  ghost predicate Grows(p: Progress, h: Header, q: Progress) {
    && h.id in q.out.rows
    && var r := q.out.rows[h.id];
       && r.thread.Some? && r.rfc == h.rfc
       && q.out.rows == p.out.rows[h.id := r] && q.local == Learn(p.local, h.rfc, r.thread.value)
  }

  lemma NextGrows(env: Env, s: Store, hs: seq<Header>, p: Progress, h: Header)
    requires Settled(s, hs, p) && !Listed(hs, h.id)
    requires h.id in s.rows ==> s.rows[h.id].rfc == h.rfc
    ensures Grows(p, h, BatchNext(env, s, p, h))
  {
  }

  lemma GrownKeepsRow(p: Progress, h: Header, q: Progress, old_h: Header)
    requires Grows(p, h, q) && HasRow(p, old_h) && old_h.id != h.id
    requires h.rfc.Some? ==> old_h.rfc != h.rfc
    ensures HasRow(q, old_h)
  {
  }

  lemma GrownLearns(hs: seq<Header>, p: Progress, h: Header, q: Progress)
    requires LocalIsListed(hs, p) && Grows(p, h, q)
    ensures LocalIsListed(hs + [h], q)
  {
    var all := hs + [h];
    assert all[|hs|] == h;
    forall r | r in q.local ensures exists i :: 0 <= i < |all| && all[i].rfc == Some(r) {
      if h.rfc != Some(r) {
        var i :| 0 <= i < |hs| && hs[i].rfc == Some(r);
        assert all[i].rfc == Some(r);
      }
    }
  }

  lemma GrownSettles(s: Store, hs: seq<Header>, p: Progress, h: Header, q: Progress)
    requires Settled(s, hs, p) && Grows(p, h, q) && !Listed(hs, h.id)
    requires h.rfc.Some? ==> forall i | 0 <= i < |hs| :: hs[i].rfc != h.rfc
    requires forall id :: Listed(hs + [h], id) <==> Listed(hs, id) || id == h.id
    ensures Settled(s, hs + [h], q)
  {
    var all := hs + [h];
    GrownLearns(hs, p, h, q);
    forall i | 0 <= i < |all| ensures HasRow(q, all[i]) {
      if i < |hs| {
        assert all[i] == hs[i] && hs[i].id != h.id;
        GrownKeepsRow(p, h, q, hs[i]);
      }
    }
  }

  lemma {:induction false} BatchSettles(env: Env, s: Store, hs: seq<Header>)
    requires DistinctIds(hs) && UniqueRfcs(s, hs)
    ensures Settled(s, hs, Batch(env, s, hs))
    decreases |hs|
  {
    if hs != [] {
      var k := |hs| - 1;
      Shorter(s, hs, k);
      BatchSettles(env, s, hs[..k]);
      assert hs == hs[..k] + [hs[k]];
      FreshToChunk(s, hs[..k], hs[k]);
      NextGrows(env, s, hs[..k], Batch(env, s, hs[..k]), hs[k]);
      GrownSettles(s, hs[..k], Batch(env, s, hs[..k]), hs[k], Batch(env, s, hs));
    }
  }

  ghost predicate ListedWith(hs: seq<Header>, id: MsgId, rfc: string) {
    exists i :: 0 <= i < |hs| && hs[i].id == id && hs[i].rfc == Some(rfc)
  }

  /** Who can carry a Message-ID once `h` has landed. */
  ghost predicate Holder(s: Store, hs: seq<Header>, h: Header, rfc: string, id: MsgId) {
    || (id == h.id && h.rfc == Some(rfc))
    || ListedWith(hs, id, rfc)
    || (!Listed(hs, id) && id != h.id && Carries(s.rows, id, rfc))
  }

  lemma CarrierHolds(s: Store, hs: seq<Header>, p: Progress, h: Header, rfc: string, id: MsgId)
    requires Settled(s, hs, p) && Carries(Landed(p.out, h).rows, id, rfc)
    ensures Holder(s, hs, h, rfc, id)
  {
    if id != h.id && Listed(hs, id) {
      var i :| 0 <= i < |hs| && hs[i].id == id;
      assert HasRow(p, hs[i]);
    }
  }

  lemma ListedHolderAlone(s: Store, all: seq<Header>, i: nat, rfc: string, b: MsgId)
    requires UniqueRfcs(s, all) && i < |all| && all[i].rfc == Some(rfc)
    requires ListedWith(all, b, rfc) || Carries(s.rows, b, rfc)
    ensures b == all[i].id
  {
    if ListedWith(all, b, rfc) {
      var j :| 0 <= j < |all| && all[j].id == b && all[j].rfc == Some(rfc);
    }
  }

  lemma HolderListed(s: Store, hs: seq<Header>, h: Header, rfc: string, id: MsgId)
    requires Holder(s, hs, h, rfc, id)
    ensures ListedWith(hs + [h], id, rfc) || Carries(s.rows, id, rfc)
  {
    var all := hs + [h];
    assert all[|hs|] == h;
    if ListedWith(hs, id, rfc) {
      var i :| 0 <= i < |hs| && hs[i].id == id && hs[i].rfc == Some(rfc);
      assert all[i] == hs[i];
    }
  }

  lemma OneHolder(s: Store, hs: seq<Header>, h: Header, rfc: string, a: MsgId, b: MsgId)
    requires UniqueRfcs(s, hs + [h]) && Holder(s, hs, h, rfc, a) && Holder(s, hs, h, rfc, b)
    ensures a == b
  {
    var all := hs + [h];
    HolderListed(s, hs, h, rfc, a);
    HolderListed(s, hs, h, rfc, b);
    if ListedWith(all, a, rfc) {
      var i :| 0 <= i < |all| && all[i].id == a && all[i].rfc == Some(rfc);
      ListedHolderAlone(s, all, i, rfc, b);
    }
  }

  lemma OneCarrier(s: Store, hs: seq<Header>, p: Progress, h: Header, rfc: string, a: MsgId, b: MsgId)
    requires Settled(s, hs, p) && UniqueRfcs(s, hs + [h])
    requires Carries(Landed(p.out, h).rows, a, rfc) && Carries(Landed(p.out, h).rows, b, rfc)
    ensures a == b
  {
    CarrierHolds(s, hs, p, h, rfc, a);
    CarrierHolds(s, hs, p, h, rfc, b);
    OneHolder(s, hs, h, rfc, a, b);
  }

  lemma FindLocal(env: Env, s: Store, hs: seq<Header>, p: Progress, h: Header, rfc: string)
    requires HonestFind(env) && Settled(s, hs, p) && UniqueRfcs(s, hs + [h]) && !Listed(hs, h.id)
    requires rfc in p.local
    ensures env.find(Landed(p.out, h).rows, rfc) == Some(p.local[rfc])
  {
    var now := Landed(p.out, h).rows;
    var i :| 0 <= i < |hs| && hs[i].rfc == Some(rfc);
    assert Listed(hs, hs[i].id);
    assert Carries(now, hs[i].id, rfc);
    var id: MsgId :| Carries(now, id, rfc) && env.find(now, rfc) == now[id].thread;
    OneCarrier(s, hs, p, h, rfc, id, hs[i].id);
  }

  /** A stored row that carries an id the chunk has not shown still does. */
  lemma StaysCarried(s: Store, hs: seq<Header>, p: Progress, h: Header, rfc: string, id: MsgId)
    requires Settled(s, hs, p) && UniqueRfcs(s, hs + [h]) && !Listed(hs, h.id)
    requires rfc !in p.local && !Attached(s, h) && Carries(s.rows, id, rfc)
    ensures Carries(Landed(p.out, h).rows, id, rfc) && Landed(p.out, h).rows[id].thread == s.rows[id].thread
  {
    assert (hs + [h])[|hs|] == h;
    forall i | 0 <= i < |hs| ensures hs[i].id != id {
      assert HasRow(p, hs[i]) && (hs + [h])[i] == hs[i];
    }
  }

  lemma NewCarrierUnattached(s: Store, hs: seq<Header>, p: Progress, h: Header, rfc: string, id: MsgId)
    requires Settled(s, hs, p) && Carries(Landed(p.out, h).rows, id, rfc)
    requires rfc !in p.local && !Carries(s.rows, id, rfc)
    ensures id == h.id
  {
  }

  lemma FindStored(env: Env, s: Store, hs: seq<Header>, p: Progress, h: Header, rfc: string)
    requires HonestFind(env) && Settled(s, hs, p) && UniqueRfcs(s, hs + [h]) && !Listed(hs, h.id)
    requires rfc !in p.local && !Attached(s, h)
    ensures env.find(Landed(p.out, h).rows, rfc) == env.find(s.rows, rfc)
  {
    var now := Landed(p.out, h).rows;
    if found: MsgId :| Carries(s.rows, found, rfc) && env.find(s.rows, rfc) == s.rows[found].thread {
      StaysCarried(s, hs, p, h, rfc, found);
      var id: MsgId :| Carries(now, id, rfc) && env.find(now, rfc) == now[id].thread;
      OneCarrier(s, hs, p, h, rfc, id, found);
    } else {
      forall id: MsgId | Carries(now, id, rfc) ensures now[id].thread == None {
        NewCarrierUnattached(s, hs, p, h, rfc, id);
      }
    }
  }

  lemma {:induction false} FollowAgrees(env: Env, s: Store, hs: seq<Header>, p: Progress, h: Header, refs: seq<string>)
    requires HonestFind(env) && Settled(s, hs, p) && UniqueRfcs(s, hs + [h]) && !Listed(hs, h.id) && !Attached(s, h)
    ensures Follow(env, Landed(p.out, h).rows, refs) == FollowLocal(env, s.rows, p.local, refs)
  {
    if refs != [] {
      if refs[0] in p.local {
        FindLocal(env, s, hs, p, h, refs[0]);
      } else {
        FindStored(env, s, hs, p, h, refs[0]);
      }
      FollowAgrees(env, s, hs, p, h, refs[1..]);
    }
  }

  lemma SettleAfterLanding(s: Store, h: Header, a: Attachment)
    ensures Settle(Landed(s, h), h, a) == Settle(s, h, a)
  {
    assert s.rows[h.id := Row(None, h.rfc, h.wire)][h.id := Row(Some(a.thread), h.rfc, h.wire)]
        == s.rows[h.id := Row(Some(a.thread), h.rfc, h.wire)];
  }

  /** One header on top of the same store: the two agree exactly when its subject
      step does. */
  lemma NextAgrees(env: Env, s: Store, hs: seq<Header>, p: Progress, h: Header)
    requires Honest(env, s) && Settled(s, hs, p) && DistinctIds(hs + [h]) && UniqueRfcs(s, hs + [h])
    ensures Attached(p.out, h) <==> Attached(s, h)
    ensures !Attached(s, h) ==>
              Follow(env, Landed(p.out, h).rows, Pointers(h)) == FollowLocal(env, s.rows, p.local, Pointers(h))
    ensures Attached(s, h) || Follow(env, Landed(p.out, h).rows, Pointers(h)).Some?
            || BySubject(env, p.out.threads, h) == BySubject(env, s.threads, h)
            ==> OneNext(env, p.out, h) == BatchNext(env, s, p, h).out
  {
    FreshToChunk(s, hs, h);
    if !Attached(s, h) {
      FollowAgrees(env, s, hs, p, h, Pointers(h));
      SettleAfterLanding(p.out, h, ResolveLocal(env, s, p.local, h));
    }
  }

  lemma OneMore(env: Env, s: Store, hs: seq<Header>, h: Header)
    ensures Batch(env, s, hs + [h]) == BatchNext(env, s, Batch(env, s, hs), h)
    ensures OneByOne(env, s, hs + [h]) == OneNext(env, OneByOne(env, s, hs), h)
  {
    assert (hs + [h])[..|hs|] == hs;
  }

  lemma StableButLast(env: Env, s: Store, hs: seq<Header>, h: Header)
    requires SubjectStable(env, s, hs + [h])
    ensures SubjectStable(env, s, hs) && SubjectAgrees(env, s, hs, h)
  {
    assert (hs + [h])[..|hs|] == hs;
  }

  lemma AgreeOnce(env: Env, s: Store, hs: seq<Header>, h: Header)
    requires Honest(env, s) && DistinctIds(hs) && UniqueRfcs(s, hs)
    requires DistinctIds(hs + [h]) && UniqueRfcs(s, hs + [h])
    requires Batch(env, s, hs).out == OneByOne(env, s, hs) && SubjectAgrees(env, s, hs, h)
    ensures OneNext(env, OneByOne(env, s, hs), h) == BatchNext(env, s, Batch(env, s, hs), h).out
  {
    BatchSettles(env, s, hs);
    NextAgrees(env, s, hs, Batch(env, s, hs), h);
  }

  /** The batched chunk threads like one message at a time whenever no subject
      lookup would have answered differently in its turn. */
  lemma {:induction false} BatchIsOneByOne(env: Env, s: Store, hs: seq<Header>)
    requires Honest(env, s) && DistinctIds(hs) && UniqueRfcs(s, hs) && SubjectStable(env, s, hs)
    ensures Batch(env, s, hs).out == OneByOne(env, s, hs)
    decreases |hs|
  {
    if hs != [] {
      var before, h := hs[..|hs| - 1], hs[|hs| - 1];
      assert hs == before + [h];
      Shorter(s, hs, |hs| - 1);
      StableButLast(env, s, before, h);
      BatchIsOneByOne(env, s, before);
      AgreeOnce(env, s, before, h);
      OneMore(env, s, before, h);
    }
  }
}

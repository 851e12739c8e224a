/** `apply_chunk` as it runs: a read-only pass, three buckets, and one transaction
    that mints threads, inserts, touches, heals and updates. Its result is the
    batched assembly of `Threading`, whatever order the mints are written in. */
module ApplyChunk {
  import opened Wrappers
  import opened Threading
  import opened ThreadingTheorems
  import opened ThreadPlaces

  type Attachments = map<MsgId, Attachment>

  // ---------- the three buckets ----------

  /** New rows, rows without a thread, attached rows whose folder, flags or labels
      changed, and attached rows that match already. */
  datatype Bucket = New | Heal | Changed | Same

  function BucketOf(s: Store, h: Header): Bucket {
    if h.id !in s.rows then New
    else if s.rows[h.id].thread.None? then Heal
    else if s.rows[h.id].wire != h.wire then Changed
    else Same
  }

  function Pick(s: Store, hs: seq<Header>, b: Bucket): seq<Header> {
    if hs == [] then []
    else
      var rest, h := Pick(s, hs[..|hs| - 1], b), hs[|hs| - 1];
      if BucketOf(s, h) == b then rest + [h] else rest
  }

  lemma PickOneMore(s: Store, hs: seq<Header>, h: Header, b: Bucket)
    ensures Pick(s, hs + [h], b) == if BucketOf(s, h) == b then Pick(s, hs, b) + [h] else Pick(s, hs, b)
  {
    assert (hs + [h])[..|hs|] == hs;
  }

  /** A bucket holds headers of the chunk, each once, and all that belong. */
  predicate Picked(s: Store, hs: seq<Header>, b: Bucket, l: seq<Header>) {
    && DistinctIds(l)
    && (forall i | 0 <= i < |l| :: l[i] in hs && BucketOf(s, l[i]) == b)
    && (forall i | 0 <= i < |hs| :: BucketOf(s, hs[i]) == b ==> hs[i] in l)
  }

  lemma {:induction false} PickPicks(s: Store, hs: seq<Header>, b: Bucket)
    requires DistinctIds(hs)
    ensures Picked(s, hs, b, Pick(s, hs, b))
    decreases |hs|
  {
    if hs != [] {
      var k := |hs| - 1;
      var before, h, rest := hs[..k], hs[k], Pick(s, hs[..k], b);
      PickPicks(s, before, b);
      forall i | 0 <= i < |rest| ensures rest[i].id != h.id && rest[i] in hs {
        var j :| 0 <= j < k && before[j] == rest[i];
        assert hs[j].id != hs[k].id;
      }
    }
  }

  // ---------- threads ----------

  function TouchAll(ts: Threads, atts: Attachments, hs: seq<Header>): Threads {
    if hs == [] then ts
    else
      var rest, h := TouchAll(ts, atts, hs[..|hs| - 1]), hs[|hs| - 1];
      if h.id in atts then Touch(rest, atts[h.id].thread, h.date) else rest
  }

  lemma TouchesCommute(ts: Threads, t: ThreadId, d: int, u: ThreadId, e: int)
    ensures Touch(Touch(ts, t, d), u, e) == Touch(Touch(ts, u, e), t, d)
  {
  }

  lemma {:induction false} TouchPast(ts: Threads, t: ThreadId, d: int, atts: Attachments, hs: seq<Header>)
    ensures TouchAll(Touch(ts, t, d), atts, hs) == Touch(TouchAll(ts, atts, hs), t, d)
    decreases |hs|
  {
    if hs != [] {
      var k := |hs| - 1;
      TouchPast(ts, t, d, atts, hs[..k]);
      if hs[k].id in atts {
        TouchesCommute(TouchAll(ts, atts, hs[..k]), t, d, atts[hs[k].id].thread, hs[k].date);
      }
    }
  }

  lemma TouchOneMore(ts: Threads, atts: Attachments, hs: seq<Header>, h: Header)
    ensures TouchAll(ts, atts, hs + [h]) ==
            if h.id in atts then Touch(TouchAll(ts, atts, hs), atts[h.id].thread, h.date) else TouchAll(ts, atts, hs)
  {
    assert (hs + [h])[..|hs|] == hs;
  }

  /** Exactly the new and the healed headers are attached. */
  predicate Covers(s: Store, hs: seq<Header>, atts: Attachments) {
    forall i | 0 <= i < |hs| :: hs[i].id in atts <==> !Attached(s, hs[i])
  }

  /** Touching the new ones first and the healed ones after comes to the same. */
  lemma {:induction false} TouchBuckets(s: Store, ts: Threads, atts: Attachments, hs: seq<Header>)
    requires Covers(s, hs, atts)
    ensures TouchAll(TouchAll(ts, atts, Pick(s, hs, New)), atts, Pick(s, hs, Heal)) == TouchAll(ts, atts, hs)
    decreases |hs|
  {
    if hs != [] {
      var k := |hs| - 1;
      var before, h := hs[..k], hs[k];
      TouchBuckets(s, ts, atts, before);
      var novel, healed := Pick(s, before, New), Pick(s, before, Heal);
      var mid := TouchAll(ts, atts, novel);
      TouchOneMore(ts, atts, novel, h);
      TouchOneMore(mid, atts, healed, h);
      if h.id !in s.rows {
        TouchPast(mid, atts[h.id].thread, h.date, atts, healed);
      }
    }
  }

  /** The threads with the mints of the first headers in place. */
  function Mints(ts: Threads, atts: Attachments, hs: seq<Header>): Threads {
    if hs == [] then ts
    else
      var rest, h := Mints(ts, atts, hs[..|hs| - 1]), hs[|hs| - 1];
      if h.id in atts && atts[h.id].mint.Some? then rest[atts[h.id].thread := atts[h.id].mint.value] else rest
  }

  lemma {:induction false} Frame(ts: Threads, atts: Attachments, hs: seq<Header>, id: MsgId, a: Attachment)
    requires !Listed(hs, id)
    ensures TouchAll(ts, atts[id := a], hs) == TouchAll(ts, atts, hs)
    ensures Mints(ts, atts[id := a], hs) == Mints(ts, atts, hs)
    decreases |hs|
  {
    if hs != [] {
      var k := |hs| - 1;
      assert forall i | 0 <= i < k :: hs[..k][i] == hs[i];
      Frame(ts, atts, hs[..k], id, a);
      assert hs[k].id != id;
    }
  }

  predicate Avoids(atts: Attachments, hs: seq<Header>, t: ThreadId) {
    forall i | 0 <= i < |hs| :: hs[i].id in atts ==> atts[hs[i].id].thread != t
  }

  /** A thread nobody is attached to yet can be minted early. */
  lemma {:induction false} MintEarly(ts: Threads, atts: Attachments, hs: seq<Header>, t: ThreadId, m: Thread)
    requires Avoids(atts, hs, t)
    ensures TouchAll(ts[t := m], atts, hs) == TouchAll(ts, atts, hs)[t := m]
    decreases |hs|
  {
    if hs != [] {
      var k := |hs| - 1;
      MintEarly(ts, atts, hs[..k], t, m);
      assert hs[k].id in atts ==> atts[hs[k].id].thread != t;
    }
  }

  /** Where the pass stands: everything attached so far names a thread that
      exists, and a minted one is the header's own. */
  ghost predicate Charted(env: Env, s: Store, hs: seq<Header>, p: Progress) {
    && Covers(s, hs, p.atts)
    && (forall id | id in p.atts :: Listed(hs, id) && p.atts[id].thread in p.out.threads)
    && (forall id | id in p.atts && p.atts[id].mint.Some? :: p.atts[id].thread == env.mint(id))
    && p.out.threads == TouchAll(Mints(s.threads, p.atts, hs), p.atts, hs)
  }

  lemma MintsOneMore(ts: Threads, atts: Attachments, hs: seq<Header>, h: Header)
    ensures Mints(ts, atts, hs + [h]) ==
            if h.id in atts && atts[h.id].mint.Some? then Mints(ts, atts, hs)[atts[h.id].thread := atts[h.id].mint.value]
            else Mints(ts, atts, hs)
  {
    assert (hs + [h])[..|hs|] == hs;
  }

  /** One attachment more: its mint in place from the start, its touch at the end. */
  lemma AttachOne(ts: Threads, atts: Attachments, hs: seq<Header>, h: Header, a: Attachment, before: Threads)
    requires !Listed(hs, h.id) && before == TouchAll(Mints(ts, atts, hs), atts, hs)
    requires a.mint.Some? ==> Avoids(atts, hs, a.thread)
    ensures TouchAll(Mints(ts, atts[h.id := a], hs + [h]), atts[h.id := a], hs + [h]) ==
            Touch(if a.mint.Some? then before[a.thread := a.mint.value] else before, a.thread, h.date)
  {
    var more, ms := atts[h.id := a], Mints(ts, atts, hs);
    Frame(ts, atts, hs, h.id, a);
    MintsOneMore(ts, more, hs, h);
    if a.mint.Some? {
      MintEarly(ms, atts, hs, a.thread, a.mint.value);
      Frame(ms[a.thread := a.mint.value], atts, hs, h.id, a);
      TouchOneMore(ms[a.thread := a.mint.value], more, hs, h);
    } else {
      Frame(ms, atts, hs, h.id, a);
      TouchOneMore(ms, more, hs, h);
    }
  }

  lemma FreshAvoids(atts: Attachments, hs: seq<Header>, ts: Threads, t: ThreadId)
    requires (forall id | id in atts :: atts[id].thread in ts) && t !in ts
    ensures Avoids(atts, hs, t)
  {
  }

  lemma PlainChart(ts: Threads, atts: Attachments, hs: seq<Header>, h: Header)
    requires h.id !in atts
    ensures TouchAll(Mints(ts, atts, hs + [h]), atts, hs + [h]) == TouchAll(Mints(ts, atts, hs), atts, hs)
  {
    MintsOneMore(ts, atts, hs, h);
    TouchOneMore(Mints(ts, atts, hs), atts, hs, h);
  }

  lemma ChartNext(env: Env, s: Store, hs: seq<Header>, p: Progress, h: Header)
    requires Charted(env, s, hs, p) && !Listed(hs, h.id)
    requires !Attached(s, h) ==> Usable(p.out, ResolveLocal(env, s, p.local, h))
    ensures var q := BatchNext(env, s, p, h); q.out.threads == TouchAll(Mints(s.threads, q.atts, hs + [h]), q.atts, hs + [h])
  {
    if Attached(s, h) {
      PlainChart(s.threads, p.atts, hs, h);
    } else {
      var a := ResolveLocal(env, s, p.local, h);
      if a.mint.Some? {
        FreshAvoids(p.atts, hs, p.out.threads, a.thread);
      }
      AttachOne(s.threads, p.atts, hs, h, a, p.out.threads);
    }
  }

  lemma ChartListed(env: Env, s: Store, hs: seq<Header>, p: Progress, h: Header)
    requires Charted(env, s, hs, p)
    requires !Attached(s, h) ==> Usable(p.out, ResolveLocal(env, s, p.local, h))
    ensures var q := BatchNext(env, s, p, h);
            forall id | id in q.atts :: Listed(hs + [h], id) && q.atts[id].thread in q.out.threads
  {
    var all, q := hs + [h], BatchNext(env, s, p, h);
    assert all[|hs|] == h;
    forall id | id in q.atts ensures Listed(all, id) {
      if id != h.id {
        var i :| 0 <= i < |hs| && hs[i].id == id;
        assert all[i].id == id;
      }
    }
  }

  lemma ChartMints(env: Env, s: Store, hs: seq<Header>, p: Progress, h: Header)
    requires Charted(env, s, hs, p)
    ensures var q := BatchNext(env, s, p, h);
            forall id | id in q.atts && q.atts[id].mint.Some? :: q.atts[id].thread == env.mint(id)
  {
  }

  lemma ChartCovers(env: Env, s: Store, hs: seq<Header>, p: Progress, h: Header)
    requires Covers(s, hs, p.atts) && (forall id | id in p.atts :: Listed(hs, id)) && !Listed(hs, h.id)
    ensures Covers(s, hs + [h], BatchNext(env, s, p, h).atts)
  {
    var all := hs + [h];
    assert h.id !in p.atts;
    forall i | 0 <= i < |all| ensures all[i].id in BatchNext(env, s, p, h).atts <==> !Attached(s, all[i]) {
      if i < |hs| {
        assert all[i] == hs[i] && hs[i].id != h.id;
      }
    }
  }

  lemma NextCharted(env: Env, s: Store, hs: seq<Header>, p: Progress, h: Header)
    requires Charted(env, s, hs, p) && !Listed(hs, h.id)
    requires !Attached(s, h) ==> Usable(p.out, ResolveLocal(env, s, p.local, h))
    ensures Charted(env, s, hs + [h], BatchNext(env, s, p, h))
  {
    ChartNext(env, s, hs, p, h);
    ChartListed(env, s, hs, p, h);
    ChartMints(env, s, hs, p, h);
    ChartCovers(env, s, hs, p, h);
  }

  lemma NextUsableAfter(env: Env, s: Store, hs: seq<Header>, k: nat)
    requires Honest(env, s) && Consistent(s) && DistinctIds(hs) && k < |hs|
    ensures Usable(Batch(env, s, hs[..k]).out, ResolveLocal(env, s, Batch(env, s, hs[..k]).local, hs[k]))
  {
    BatchKeeps(env, s, hs[..k]);
    BatchThreads(env, s, hs[..k]);
    NextUsable(env, s, hs, k, Batch(env, s, hs[..k]));
  }

  lemma {:induction false} BatchCharted(env: Env, s: Store, hs: seq<Header>)
    requires Honest(env, s) && Consistent(s) && DistinctIds(hs)
    ensures Charted(env, s, hs, Batch(env, s, hs))
    decreases |hs|
  {
    if hs == [] {
      assert Batch(env, s, hs) == Progress(map[], map[], s);
    } else {
      var k := |hs| - 1;
      BatchCharted(env, s, hs[..k]);
      NotListedYet(hs, k);
      NextUsableAfter(env, s, hs, k);
      NextCharted(env, s, hs[..k], Batch(env, s, hs[..k]), hs[k]);
      assert hs == hs[..k] + [hs[k]];
      OneMore(env, s, hs[..k], hs[k]);
    }
  }

  // ---------- rows ----------

  function Target(s: Store, atts: Attachments, h: Header): Row
    requires Attached(s, h) || h.id in atts
  {
    if Attached(s, h) then PlainRow(s.rows[h.id], h) else Row(Some(atts[h.id].thread), h.rfc, h.wire)
  }

  /** `after` is `before` with each listed header's row at its target. */
  ghost predicate Wrote(s: Store, atts: Attachments, l: seq<Header>, before: Rows, after: Rows) {
    && (forall x :: x in after <==> x in before || Listed(l, x))
    && (forall x | x in before && !Listed(l, x) :: after[x] == before[x])
    && (forall i | 0 <= i < |l| ::
          (Attached(s, l[i]) || l[i].id in atts) && l[i].id in after && after[l[i].id] == Target(s, atts, l[i]))
  }

  lemma WroteOneMore(s: Store, atts: Attachments, l: seq<Header>, h: Header, before: Rows, mid: Rows)
    requires Wrote(s, atts, l, before, mid) && !Listed(l, h.id) && (Attached(s, h) || h.id in atts)
    ensures Wrote(s, atts, l + [h], before, mid[h.id := Target(s, atts, h)])
  {
    var m, after := l + [h], mid[h.id := Target(s, atts, h)];
    assert m[|l|] == h;
    forall i | 0 <= i < |m|
      ensures (Attached(s, m[i]) || m[i].id in atts) && m[i].id in after && after[m[i].id] == Target(s, atts, m[i])
    {
      if i < |l| {
        assert m[i] == l[i] && l[i].id != h.id;
      }
    }
    forall x ensures Listed(m, x) <==> Listed(l, x) || x == h.id {
      if Listed(l, x) {
        var i :| 0 <= i < |l| && l[i].id == x;
        assert m[i].id == x;
      }
    }
  }

  lemma WroteFrame(s: Store, atts: Attachments, l: seq<Header>, before: Rows, after: Rows, id: MsgId, a: Attachment)
    requires Wrote(s, atts, l, before, after) && !Listed(l, id)
    ensures Wrote(s, atts[id := a], l, before, after)
  {
    assert forall i | 0 <= i < |l| :: l[i].id != id;
  }

  lemma {:induction false} BatchWrote(env: Env, s: Store, hs: seq<Header>)
    requires DistinctIds(hs)
    ensures Wrote(s, Batch(env, s, hs).atts, hs, s.rows, Batch(env, s, hs).out.rows)
    decreases |hs|
  {
    if hs != [] {
      var k := |hs| - 1;
      BatchWrote(env, s, hs[..k]);
      NotListedYet(hs, k);
      assert hs == hs[..k] + [hs[k]];
      NextWrote(env, s, hs[..k], Batch(env, s, hs[..k]), hs[k]);
    }
  }

  lemma NextWrote(env: Env, s: Store, hs: seq<Header>, p: Progress, h: Header)
    requires Wrote(s, p.atts, hs, s.rows, p.out.rows) && !Listed(hs, h.id)
    ensures Wrote(s, BatchNext(env, s, p, h).atts, hs + [h], s.rows, BatchNext(env, s, p, h).out.rows)
  {
    if Attached(s, h) {
      WroteOneMore(s, p.atts, hs, h, s.rows, p.out.rows);
    } else {
      var a := ResolveLocal(env, s, p.local, h);
      WroteFrame(s, p.atts, hs, s.rows, p.out.rows, h.id, a);
      WroteOneMore(s, p.atts[h.id := a], hs, h, s.rows, p.out.rows);
    }
  }

  lemma BucketHas(s: Store, hs: seq<Header>, b: Bucket, l: seq<Header>, i: nat)
    requires DistinctIds(hs) && Picked(s, hs, b, l) && i < |hs|
    ensures Listed(l, hs[i].id) <==> BucketOf(s, hs[i]) == b
    ensures BucketOf(s, hs[i]) == b ==> hs[i] in l
  {
    if Listed(l, hs[i].id) {
      var j :| 0 <= j < |l| && l[j].id == hs[i].id;
      var k :| 0 <= k < |hs| && hs[k] == l[j];
      assert k == i;
    }
  }

  lemma BucketMisses(s: Store, hs: seq<Header>, b: Bucket, l: seq<Header>, x: MsgId)
    requires Picked(s, hs, b, l) && !Listed(hs, x)
    ensures !Listed(l, x)
  {
    forall i | 0 <= i < |l| ensures l[i].id != x {
      assert l[i] in hs;
    }
  }

  lemma WroteValue(s: Store, atts: Attachments, l: seq<Header>, before: Rows, after: Rows, h: Header)
    requires Wrote(s, atts, l, before, after) && h in l
    ensures (Attached(s, h) || h.id in atts) && h.id in after && after[h.id] == Target(s, atts, h)
  {
    var i :| 0 <= i < |l| && l[i] == h;
  }

  lemma BucketsWriteListed(s: Store, atts: Attachments, hs: seq<Header>, n: seq<Header>, h: seq<Header>, c: seq<Header>,
                           r1: Rows, r2: Rows, r3: Rows, i: nat)
    requires DistinctIds(hs) && Picked(s, hs, New, n) && Picked(s, hs, Heal, h) && Picked(s, hs, Changed, c)
    requires Wrote(s, atts, n, s.rows, r1) && Wrote(s, atts, h, r1, r2) && Wrote(s, atts, c, r2, r3)
    requires i < |hs| && (Attached(s, hs[i]) || hs[i].id in atts)
    ensures hs[i].id in r3 && r3[hs[i].id] == Target(s, atts, hs[i])
  {
    BucketHas(s, hs, New, n, i);
    BucketHas(s, hs, Heal, h, i);
    BucketHas(s, hs, Changed, c, i);
    match BucketOf(s, hs[i])
    case New => WroteValue(s, atts, n, s.rows, r1, hs[i]);
    case Heal => WroteValue(s, atts, h, r1, r2, hs[i]);
    case Changed => WroteValue(s, atts, c, r2, r3, hs[i]);
    case Same =>
  }

  lemma BucketsWriteOne(s: Store, atts: Attachments, hs: seq<Header>, n: seq<Header>, h: seq<Header>, c: seq<Header>,
                        r1: Rows, r2: Rows, r3: Rows, all: Rows, x: MsgId)
    requires DistinctIds(hs) && Picked(s, hs, New, n) && Picked(s, hs, Heal, h) && Picked(s, hs, Changed, c)
    requires Wrote(s, atts, n, s.rows, r1) && Wrote(s, atts, h, r1, r2) && Wrote(s, atts, c, r2, r3)
    requires Wrote(s, atts, hs, s.rows, all)
    ensures (x in r3 <==> x in all) && (x in all ==> r3[x] == all[x])
  {
    if i: nat :| i < |hs| && hs[i].id == x {
      WroteValue(s, atts, hs, s.rows, all, hs[i]);
      BucketsWriteListed(s, atts, hs, n, h, c, r1, r2, r3, i);
    } else {
      BucketMisses(s, hs, New, n, x);
      BucketMisses(s, hs, Heal, h, x);
      BucketMisses(s, hs, Changed, c, x);
    }
  }

  /** Writing the three buckets one after the other writes the chunk. */
  lemma BucketsWrite(s: Store, atts: Attachments, hs: seq<Header>, n: seq<Header>, h: seq<Header>, c: seq<Header>,
                     r1: Rows, r2: Rows, r3: Rows, all: Rows)
    requires DistinctIds(hs) && Picked(s, hs, New, n) && Picked(s, hs, Heal, h) && Picked(s, hs, Changed, c)
    requires Wrote(s, atts, n, s.rows, r1) && Wrote(s, atts, h, r1, r2) && Wrote(s, atts, c, r2, r3)
    requires Wrote(s, atts, hs, s.rows, all)
    ensures r3 == all
  {
    forall x: MsgId ensures (x in r3 <==> x in all) && (x in all ==> r3[x] == all[x]) {
      BucketsWriteOne(s, atts, hs, n, h, c, r1, r2, r3, all, x);
    }
  }

  // ---------- minting in any order ----------

  /** `after` has the mints of `done`, and otherwise what `ts` had. */
  ghost predicate MintedBy(ts: Threads, atts: Attachments, done: set<MsgId>, after: Threads) {
    && (forall t | t in ts :: t in after && after[t] == ts[t])
    && (forall id | id in done && id in atts && atts[id].mint.Some? ::
          atts[id].thread in after && after[atts[id].thread] == atts[id].mint.value)
    && (forall t | t in after && t !in ts ::
          exists id :: id in done && id in atts && atts[id].mint.Some? && atts[id].thread == t)
  }

  /** Minted threads are new, and each message mints its own. */
  ghost predicate MintsApart(ts: Threads, atts: Attachments) {
    && (forall id | id in atts && atts[id].mint.Some? :: atts[id].thread !in ts)
    && (forall a, b | a in atts && b in atts && atts[a].mint.Some? && atts[b].mint.Some? ::
          atts[a].thread == atts[b].thread ==> a == b)
  }

  lemma MintedAreSame(ts: Threads, atts: Attachments, done: set<MsgId>, a: Threads, b: Threads)
    requires MintedBy(ts, atts, done, a) && MintedBy(ts, atts, done, b)
    ensures a == b
  {
    forall t ensures t in a <==> t in b {
    }
    forall t | t in a ensures a[t] == b[t] {
      if t !in ts {
        var id :| id in done && id in atts && atts[id].mint.Some? && atts[id].thread == t;
      }
    }
  }

  lemma MintOne(ts: Threads, atts: Attachments, done: set<MsgId>, mid: Threads, id: MsgId)
    requires MintsApart(ts, atts) && MintedBy(ts, atts, done, mid) && id in atts && id !in done
    ensures MintedBy(ts, atts, done + {id},
                     if atts[id].mint.Some? then mid[atts[id].thread := atts[id].mint.value] else mid)
  {
    var after := if atts[id].mint.Some? then mid[atts[id].thread := atts[id].mint.value] else mid;
    forall t | t in after && t !in ts
      ensures exists x :: x in done + {id} && x in atts && atts[x].mint.Some? && atts[x].thread == t
    {
      if t !in mid {
        assert id in done + {id};
      } else {
        var x :| x in done && x in atts && atts[x].mint.Some? && atts[x].thread == t;
        assert x in done + {id};
      }
    }
  }

  function IdsOf(hs: seq<Header>): set<MsgId> {
    set i | 0 <= i < |hs| :: hs[i].id
  }

  lemma {:induction false} MintsMint(ts: Threads, atts: Attachments, hs: seq<Header>)
    requires DistinctIds(hs) && MintsApart(ts, atts)
    ensures MintedBy(ts, atts, IdsOf(hs), Mints(ts, atts, hs))
    decreases |hs|
  {
    if hs != [] {
      var k := |hs| - 1;
      var before, h := hs[..k], hs[k];
      MintsMint(ts, atts, before);
      NotListedYet(hs, k);
      assert IdsOf(hs) == IdsOf(before) + {h.id} by {
        assert forall i | 0 <= i < k :: before[i] == hs[i];
      }
      assert h.id !in IdsOf(before);
      if h.id in atts {
        MintOne(ts, atts, IdsOf(before), Mints(ts, atts, before), h.id);
      }
    }
  }

  // ---------- the code ----------

  /** One pass over the chunk, reading only. */
  method ReadPass(env: Env, s: Store, hs: seq<Header>) returns (news: Attachments, heals: Attachments)
    requires DistinctIds(hs)
    ensures Batch(env, s, hs).atts == news + heals
    ensures forall id | id in news :: id !in s.rows
    ensures forall id | id in heals :: id in s.rows && s.rows[id].thread.None?
  {
    var local: map<string, ThreadId> := map[];
    news, heals := map[], map[];
    ghost var p := Batch(env, s, []);
    for i := 0 to |hs|
      invariant p == Batch(env, s, hs[..i]) == Progress(local, news + heals, p.out)
      invariant forall id | id in news :: id !in s.rows
      invariant forall id | id in heals :: id in s.rows && s.rows[id].thread.None?
    {
      assert hs[..i + 1] == hs[..i] + [hs[i]];
      OneMore(env, s, hs[..i], hs[i]);
      p := BatchNext(env, s, p, hs[i]);
      local, news, heals := ReadOne(env, s, hs[i], local, news, heals);
    }
    assert hs[..|hs|] == hs;
  }

  method ReadOne(env: Env, s: Store, h: Header, local: map<string, ThreadId>, news: Attachments, heals: Attachments)
    returns (learned: map<string, ThreadId>, n: Attachments, u: Attachments)
    requires forall id | id in news :: id !in s.rows
    requires forall id | id in heals :: id in s.rows && s.rows[id].thread.None?
    ensures forall out :: var q := BatchNext(env, s, Progress(local, news + heals, out), h);
                          q.local == learned && q.atts == n + u
    ensures forall id | id in n :: id !in s.rows
    ensures forall id | id in u :: id in s.rows && s.rows[id].thread.None?
  {
    learned, n, u := local, news, heals;
    if h.id !in s.rows {
      var res := ResolveLocal(env, s, local, h);
      learned := Learn(local, h.rfc, res.thread);
      n := news[h.id := res];
      assert n + u == (news + heals)[h.id := res];
    } else if s.rows[h.id].thread.None? {
      var res := ResolveLocal(env, s, local, h);
      learned := Learn(local, h.rfc, res.thread);
      u := heals[h.id := res];
      assert n + u == (news + heals)[h.id := res];
    } else if h.rfc.Some? {
      learned := local[h.rfc.value := s.rows[h.id].thread.value];
    }
  }

  method Sort(s: Store, hs: seq<Header>) returns (n: seq<Header>, h: seq<Header>, c: seq<Header>)
    ensures n == Pick(s, hs, New) && h == Pick(s, hs, Heal) && c == Pick(s, hs, Changed)
  {
    n, h, c := [], [], [];
    for i := 0 to |hs|
      invariant n == Pick(s, hs[..i], New) && h == Pick(s, hs[..i], Heal) && c == Pick(s, hs[..i], Changed)
    {
      assert hs[..i + 1] == hs[..i] + [hs[i]];
      PickOneMore(s, hs[..i], hs[i], New);
      PickOneMore(s, hs[..i], hs[i], Heal);
      PickOneMore(s, hs[..i], hs[i], Changed);
      if hs[i].id !in s.rows {
        n := n + [hs[i]];
      } else if s.rows[hs[i].id].thread.None? {
        h := h + [hs[i]];
      } else if s.rows[hs[i].id].wire != hs[i].wire {
        c := c + [hs[i]];
      }
    }
    assert hs[..|hs|] == hs;
  }

  /** Mints the fresh threads, in whatever order a hash map yields them. */
  method MintAll(ts: Threads, atts: Attachments) returns (after: Threads)
    requires MintsApart(ts, atts)
    ensures MintedBy(ts, atts, atts.Keys, after)
  {
    after := ts;
    var todo := atts.Keys;
    while todo != {}
      invariant todo <= atts.Keys && MintedBy(ts, atts, atts.Keys - todo, after)
      decreases |todo|
    {
      var id :| id in todo;
      MintOne(ts, atts, atts.Keys - todo, after, id);
      assert atts.Keys - todo + {id} == atts.Keys - (todo - {id});
      if atts[id].mint.Some? {
        after := after[atts[id].thread := atts[id].mint.value];
      }
      todo := todo - {id};
    }
    assert atts.Keys - todo == atts.Keys;
  }

  /** `INSERT OR IGNORE`, then a touch per row. */
  method InsertAll(s: Store, ghost all: Attachments, atts: Attachments, l: seq<Header>, rows: Rows, ts: Threads)
    returns (after: Rows, touched: Threads)
    requires DistinctIds(l) && (forall i | 0 <= i < |l| :: l[i].id in atts && l[i].id !in s.rows && l[i].id !in rows)
    requires forall id | id in atts :: id in all && all[id] == atts[id]
    ensures Wrote(s, all, l, rows, after) && touched == TouchAll(ts, all, l)
  {
    after, touched := rows, ts;
    for i := 0 to |l|
      invariant Wrote(s, all, l[..i], rows, after)
    {
      NotListedYet(l, i);
      WroteOneMore(s, all, l[..i], l[i], rows, after);
      assert l[..i + 1] == l[..i] + [l[i]];
      if l[i].id !in after {
        after := after[l[i].id := Row(Some(atts[l[i].id].thread), l[i].rfc, l[i].wire)];
      }
    }
    assert l[..|l|] == l;
    for i := 0 to |l|
      invariant touched == TouchAll(ts, all, l[..i])
    {
      TouchOneMore(ts, all, l[..i], l[i]);
      assert l[..i + 1] == l[..i] + [l[i]];
      touched := Touch(touched, atts[l[i].id].thread, l[i].date);
    }
  }

  /** The UPDATE of every field but the thread. */
  method RefreshAll(l: seq<Header>, rows: Rows) returns (after: Rows)
    requires DistinctIds(l) && forall i | 0 <= i < |l| :: l[i].id in rows
    ensures after.Keys == rows.Keys && forall x | x in rows && !Listed(l, x) :: after[x] == rows[x]
    ensures forall i | 0 <= i < |l| :: after[l[i].id].rfc == l[i].rfc && after[l[i].id].wire == l[i].wire
  {
    after := rows;
    for i := 0 to |l|
      invariant after.Keys == rows.Keys
      invariant forall x | x in rows && !Listed(l, x) :: after[x] == rows[x]
      invariant forall j | 0 <= j < i :: after[l[j].id].rfc == l[j].rfc && after[l[j].id].wire == l[j].wire
    {
      after := after[l[i].id := Refreshed(after[l[i].id], l[i])];
    }
  }

  /** The healed rows: updated, then attached and their threads touched. */
  method HealAll(s: Store, ghost all: Attachments, atts: Attachments, l: seq<Header>, rows: Rows, ts: Threads)
    returns (after: Rows, touched: Threads)
    requires DistinctIds(l)
    requires forall i | 0 <= i < |l| :: l[i].id in atts && l[i].id in s.rows && !Attached(s, l[i]) && l[i].id in rows
    requires forall id | id in atts :: id in all && all[id] == atts[id]
    ensures Wrote(s, all, l, rows, after) && touched == TouchAll(ts, all, l)
  {
    var updated := RefreshAll(l, rows);
    after, touched := updated, ts;
    for i := 0 to |l|
      invariant Wrote(s, all, l[..i], updated, after) && touched == TouchAll(ts, all, l[..i])
    {
      var h, t := l[i], atts[l[i].id].thread;
      NotListedYet(l, i);
      WroteOneMore(s, all, l[..i], h, updated, after);
      TouchOneMore(ts, all, l[..i], h);
      assert l[..i + 1] == l[..i] + [h];
      after := after[h.id := after[h.id].(thread := Some(t))];
      touched := Touch(touched, t, h.date);
    }
    assert l[..|l|] == l;
    HealedWrote(s, all, l, rows, updated, after);
  }

  /** What the UPDATE did to the listed rows no longer shows. */
  lemma HealedWrote(s: Store, all: Attachments, l: seq<Header>, rows: Rows, updated: Rows, after: Rows)
    requires Wrote(s, all, l, updated, after) && rows.Keys == updated.Keys
    requires forall x | x in rows && !Listed(l, x) :: updated[x] == rows[x]
    ensures Wrote(s, all, l, rows, after)
  {
  }

  method UpdateAll(s: Store, ghost all: Attachments, l: seq<Header>, rows: Rows) returns (after: Rows)
    requires DistinctIds(l)
    requires forall i | 0 <= i < |l| :: BucketOf(s, l[i]) == Changed && l[i].id in rows && rows[l[i].id] == s.rows[l[i].id]
    ensures Wrote(s, all, l, rows, after)
  {
    after := rows;
    for i := 0 to |l|
      invariant Wrote(s, all, l[..i], rows, after)
    {
      NotListedYet(l, i);
      WroteOneMore(s, all, l[..i], l[i], rows, after);
      assert l[..i + 1] == l[..i] + [l[i]];
      after := after[l[i].id := Refreshed(after[l[i].id], l[i])];
    }
    assert l[..|l|] == l;
  }

  lemma ReadyToMint(env: Env, s: Store, hs: seq<Header>)
    requires Honest(env, s) && Consistent(s) && DistinctIds(hs)
    ensures var atts := Batch(env, s, hs).atts;
            MintsApart(s.threads, atts) && MintedBy(s.threads, atts, atts.Keys, Mints(s.threads, atts, hs))
  {
    BatchCharted(env, s, hs);
    var atts := Batch(env, s, hs).atts;
    MintsMint(s.threads, atts, hs);
    assert forall id | id in atts :: id in IdsOf(hs);
  }

  /** Each bucket finds the attachments and rows it expects. */
  lemma BucketsReady(env: Env, s: Store, hs: seq<Header>, news: Attachments, heals: Attachments, b: Bucket)
    requires Honest(env, s) && Consistent(s) && DistinctIds(hs) && Batch(env, s, hs).atts == news + heals
    requires forall id | id in news :: id !in s.rows
    requires forall id | id in heals :: id in s.rows && s.rows[id].thread.None?
    ensures Picked(s, hs, b, Pick(s, hs, b))
    ensures forall i | 0 <= i < |Pick(s, hs, b)| ::
              var h := Pick(s, hs, b)[i];
              && BucketOf(s, h) == b && Listed(hs, h.id)
              && (b == New ==> h.id in news) && (b == Heal ==> h.id in heals)
  {
    PickPicks(s, hs, b);
    BatchCharted(env, s, hs);
    var l := Pick(s, hs, b);
    forall i | 0 <= i < |l|
      ensures Listed(hs, l[i].id) && (b == New ==> l[i].id in news) && (b == Heal ==> l[i].id in heals)
    {
      var j :| 0 <= j < |hs| && hs[j] == l[i];
      assert hs[j].id in news + heals <==> !Attached(s, hs[j]);
    }
  }

  lemma Assembled(env: Env, s: Store, hs: seq<Header>, n: seq<Header>, u: seq<Header>, c: seq<Header>,
                  r1: Rows, r2: Rows, out: Store)
    requires Honest(env, s) && Consistent(s) && DistinctIds(hs)
    requires n == Pick(s, hs, New) && u == Pick(s, hs, Heal) && c == Pick(s, hs, Changed)
    requires var atts := Batch(env, s, hs).atts;
             && Wrote(s, atts, n, s.rows, r1) && Wrote(s, atts, u, r1, r2) && Wrote(s, atts, c, r2, out.rows)
             && out.threads == TouchAll(TouchAll(Mints(s.threads, atts, hs), atts, n), atts, u)
    ensures out == Batch(env, s, hs).out
  {
    var atts := Batch(env, s, hs).atts;
    PickPicks(s, hs, New);
    PickPicks(s, hs, Heal);
    PickPicks(s, hs, Changed);
    BatchWrote(env, s, hs);
    BucketsWrite(s, atts, hs, n, u, c, r1, r2, out.rows, Batch(env, s, hs).out.rows);
    BatchCharted(env, s, hs);
    TouchBuckets(s, Mints(s.threads, atts, hs), atts, hs);
  }

  /** The writes of one transaction, in the order the code issues them. */
  method WriteAll(env: Env, s: Store, hs: seq<Header>, news: Attachments, heals: Attachments,
                  n: seq<Header>, u: seq<Header>, c: seq<Header>) returns (out: Store)
    requires Honest(env, s) && Consistent(s) && DistinctIds(hs) && Batch(env, s, hs).atts == news + heals
    requires forall id | id in news :: id !in s.rows
    requires forall id | id in heals :: id in s.rows && s.rows[id].thread.None?
    requires n == Pick(s, hs, New) && u == Pick(s, hs, Heal) && c == Pick(s, hs, Changed)
    ensures out == Batch(env, s, hs).out
  {
    ghost var all := news + heals;
    ReadyToMint(env, s, hs);
    var minted := MintAll(s.threads, news + heals);
    MintedAreSame(s.threads, all, all.Keys, minted, Mints(s.threads, all, hs));
    BucketsReady(env, s, hs, news, heals, New);
    BucketsReady(env, s, hs, news, heals, Heal);
    BucketsReady(env, s, hs, news, heals, Changed);
    out := WriteBuckets(s, all, news, heals, n, u, c, minted);
    ghost var r1, r2 :| Wrote(s, all, n, s.rows, r1) && Wrote(s, all, u, r1, r2) && Wrote(s, all, c, r2, out.rows);
    Assembled(env, s, hs, n, u, c, r1, r2, out);
  }

  method WriteBuckets(s: Store, ghost all: Attachments, news: Attachments, heals: Attachments,
                      n: seq<Header>, u: seq<Header>, c: seq<Header>, minted: Threads) returns (out: Store)
    requires DistinctIds(n) && DistinctIds(u) && DistinctIds(c) && all == news + heals
    requires forall id | id in news :: id !in s.rows
    requires forall id | id in heals :: id in s.rows
    requires forall i | 0 <= i < |n| :: BucketOf(s, n[i]) == New && n[i].id in news
    requires forall i | 0 <= i < |u| :: BucketOf(s, u[i]) == Heal && u[i].id in heals
    requires forall i | 0 <= i < |c| :: BucketOf(s, c[i]) == Changed
    ensures exists r1, r2 ::
              Wrote(s, all, n, s.rows, r1) && Wrote(s, all, u, r1, r2) && Wrote(s, all, c, r2, out.rows)
    ensures out.threads == TouchAll(TouchAll(minted, all, n), all, u)
  {
    var r1, t1 := InsertAll(s, all, news, n, s.rows, minted);
    var r2, t2 := HealAll(s, all, heals, u, r1, t1);
    var r3 := UpdateAll(s, all, c, r2);
    out := Store(r3, t2);
  }

  /** The sync engine's report and store. */
  class Engine {
    var store: Store
    var added: nat
    var updated: nat
    var announced: seq<Header>

    constructor (s: Store)
      ensures store == s && added == 0 && updated == 0 && announced == []
    {
      store, added, updated, announced := s, 0, 0, [];
    }

    /** One chunk, all of it or nothing: the transaction's commit decides. */
    method Apply(env: Env, hs: seq<Header>, commits: bool) returns (r: Result<(), string>)
      requires Honest(env, store) && Consistent(store) && DistinctIds(hs)
      modifies this
      ensures r.Ok? <==> commits || hs == []
      ensures store == if r.Ok? then Batch(env, old(store), hs).out else old(store)
      ensures Consistent(store)
      ensures r.Ok? ==> forall i | 0 <= i < |hs| :: ChunkPlaced(env, old(store), hs, i, store)
      ensures added == old(added) + |Pick(old(store), hs, New)|
      ensures updated == old(updated) + |Pick(old(store), hs, Heal)| + |Pick(old(store), hs, Changed)|
      ensures announced == old(announced) + Pick(old(store), hs, New)
    {
      BatchKeeps(env, store, hs);
      BatchPlaces(env, store, hs);
      if hs == [] {
        return Ok(());
      }
      var news, heals := ReadPass(env, store, hs);
      var n, u, c := Sort(store, hs);
      var out := WriteAll(env, store, hs, news, heals, n, u, c);
      added, updated, announced := added + |n|, updated + |u| + |c|, announced + n;
      if !commits {
        return Err("commit");
      }
      store := out;
      r := Ok(());
    }
  }
}

/** What a pull stores, whatever the scheduler does: a piece of what the same
    backend gives when asked for one chunk after another. */
module PullReplay {
  import opened Wrappers
  import opened Imap
  import opened HistoryPipeline

  type Rows = map<MsgId, Flags>

  /** The backend's answer to each fetch, by anchor and attempt number. */
  type Backend = (nat, nat) -> Option<Chunk>

  ghost predicate HonestBackend(b: Backend) {
    forall a, n :: b(a, n).Some? ==> b(a, n).value.next < a || b(a, n).value.headers == map[]
  }

  ghost predicate AlwaysAnswers(b: Backend) {
    forall a, n :: b(a, n).Some?
  }

  // ---------- one chunk after another ----------

  datatype Plan = Plan(chunks: seq<Chunk>, gaveUp: bool)

  /** The chunks in turn from anchor `a`, the `n`-th attempt being next after `f`
      failures in a row: until the tail is exhausted, the anchor does not move, or
      five attempts in a row have failed. */
  ghost function Sequential(b: Backend, a: nat, n: nat, f: nat): Plan
    requires HonestBackend(b)
    decreases a, if f < MAX_CHUNK_RETRIES then MAX_CHUNK_RETRIES - f else 0
  {
    if a <= 1 then Plan([], false)
    else
      match b(a, n)
      case None => if f + 1 >= MAX_CHUNK_RETRIES then Plan([], true) else Sequential(b, a, n + 1, f + 1)
      case Some(c) =>
        if IsStuck(c, a) then Plan([c], false)
        else
          var rest := Sequential(b, c.next, n + 1, 0);
          Plan([c] + rest.chunks, rest.gaveUp)
  }

  /** A backend that always answers is never given up on. */
  lemma {:induction false} AnsweredNeverFails(b: Backend, a: nat, n: nat, f: nat)
    requires HonestBackend(b) && AlwaysAnswers(b)
    ensures !Sequential(b, a, n, f).gaveUp
    decreases a
  {
    if a > 1 {
      var c := b(a, n).value;
      if !IsStuck(c, a) {
        AnsweredNeverFails(b, c.next, n + 1, 0);
      }
    }
  }

  /** Nothing follows a chunk that leaves the anchor where it was. */
  lemma {:induction false} StuckIsLast(b: Backend, a: nat, n: nat, f: nat, k: nat)
    requires HonestBackend(b)
    requires var cs := Sequential(b, a, n, f).chunks; k < |cs| && IsStuck(cs[k], FinalAnchor(a, cs[..k]))
    ensures var plan := Sequential(b, a, n, f); k == |plan.chunks| - 1 && !plan.gaveUp
    decreases a, if f < MAX_CHUNK_RETRIES then MAX_CHUNK_RETRIES - f else 0
  {
    var answer := b(a, n);
    if answer.None? {
      StuckIsLast(b, a, n + 1, f + 1, k);
    } else if !IsStuck(answer.value, a) {
      var c := answer.value;
      var rest := Sequential(b, c.next, n + 1, 0).chunks;
      assert Sequential(b, a, n, f).chunks == [c] + rest;
      assert k > 0 && ([c] + rest)[..k] == [c] + rest[..k - 1];
      FinalShifts(a, c, rest[..k - 1]);
      StuckIsLast(b, c.next, n + 1, 0, k - 1);
    }
  }

  lemma FinalShifts(a: nat, c: Chunk, cs: seq<Chunk>)
    ensures FinalAnchor(a, [c] + cs) == FinalAnchor(c.next, cs)
  {
  }

  /** Chunks stored in turn; a row that is there already wins. */
  function Merged(rows: Rows, cs: seq<Chunk>): Rows
    decreases |cs|
  {
    if cs == [] then rows else cs[|cs| - 1].headers + Merged(rows, cs[..|cs| - 1])
  }

  lemma MergesOne(rows: Rows, cs: seq<Chunk>, more: seq<Chunk>)
    requires |more| <= 1
    ensures Merged(rows, cs + more) == if more == [] then Merged(rows, cs) else more[0].headers + Merged(rows, cs)
  {
    if more == [] {
      assert cs + more == cs;
    } else {
      assert (cs + more)[..|cs|] == cs;
    }
  }

  /** Every header of every chunk is there, nothing else is new, and what was
      stored before is as it was. */
  lemma {:induction false} MergedHolds(rows: Rows, cs: seq<Chunk>)
    ensures forall id :: id in Merged(rows, cs) <==> id in rows || exists i :: 0 <= i < |cs| && id in cs[i].headers
    ensures forall id | id in rows :: Merged(rows, cs)[id] == rows[id]
    ensures forall id | id in Merged(rows, cs) && id !in rows ::
              exists i :: 0 <= i < |cs| && id in cs[i].headers && Merged(rows, cs)[id] == cs[i].headers[id]
    decreases |cs|
  {
    if cs != [] {
      var k := |cs| - 1;
      var before := cs[..k];
      MergedHolds(rows, before);
      forall id ensures id in Merged(rows, cs) <==> id in rows || exists i :: 0 <= i < |cs| && id in cs[i].headers {
        if i :| 0 <= i < |cs| && id in cs[i].headers {
          assert i < k ==> id in before[i].headers;
        }
      }
      forall id | id in Merged(rows, cs) && id !in rows
        ensures exists i :: 0 <= i < |cs| && id in cs[i].headers && Merged(rows, cs)[id] == cs[i].headers[id]
      {
        if id in Merged(rows, before) {
          var i :| 0 <= i < |before| && id in before[i].headers && Merged(rows, before)[id] == before[i].headers[id];
          assert cs[i] == before[i];
        } else {
          assert id in cs[k].headers;
        }
      }
    }
  }

  // ---------- runs against one backend ----------

  /** Every fetch was answered as the backend answers it. */
  ghost predicate Conforms(b: Backend, ps: seq<State>, es: seq<Event>)
    requires |ps| == |es| + 1
  {
    forall k | 0 <= k < |es| :: Conforming(b, ps[k], es[k])
  }

  predicate Conforming(b: Backend, p: State, e: Event) {
    && (e.FetchOk? ==> p.producer.Fetching? && b(p.producer.anchor, |p.log|) == Some(e.chunk))
    && (e.FetchErr? ==> p.producer.Fetching? && b(p.producer.anchor, |p.log|) == None)
  }

  lemma StillConforms(b: Backend, ps: seq<State>, es: seq<Event>, p: State, fs: seq<Event>)
    requires |ps| == |es| + 1 && Conforms(b, ps, es) && |fs| == |ps| && fs[..|es|] == es
    requires Conforming(b, ps[|es|], fs[|es|])
    ensures Conforms(b, ps + [p], fs)
  {
    forall k | 0 <= k < |fs| ensures Conforming(b, (ps + [p])[k], fs[k]) {
      assert k < |es| ==> fs[k] == es[k];
    }
  }

  function AnswerOf(e: Event): seq<Chunk> {
    if e.FetchOk? then [e.chunk] else []
  }

  function StoredBy(p: State, e: Event): seq<Chunk> {
    if e.Persist? && p.consumer.Persisting? then [p.consumer.chunk] else []
  }

  function Answered(es: seq<Event>): seq<Chunk>
    decreases |es|
  {
    if es == [] then [] else Answered(es[..|es| - 1]) + AnswerOf(es[|es| - 1])
  }

  function Persisted(ps: seq<State>, es: seq<Event>): seq<Chunk>
    requires |ps| >= |es|
    decreases |es|
  {
    if es == [] then [] else Persisted(ps, es[..|es| - 1]) + StoredBy(ps[|es| - 1], es[|es| - 1])
  }

  lemma {:induction false} PersistedGrows(ps: seq<State>, es: seq<Event>, p: State, e: Event)
    requires |ps| == |es| + 1
    ensures Persisted(ps + [p], es + [e]) == Persisted(ps, es) + StoredBy(ps[|es|], e)
  {
    assert (es + [e])[..|es|] == es;
    SamePersisted(ps, ps + [p], es);
  }

  lemma {:induction false} SamePersisted(ps: seq<State>, qs: seq<State>, es: seq<Event>)
    requires |es| <= |ps| <= |qs| && qs[..|ps|] == ps
    ensures Persisted(ps, es) == Persisted(qs, es)
    decreases |es|
  {
    if es != [] {
      SamePersisted(ps, qs, es[..|es| - 1]);
      assert ps[|es| - 1] == qs[|es| - 1];
    }
  }

  /** A run with one step more, and what that leaves stored. */
  lemma RunGrows(ps: seq<State>, es: seq<Event>, start: nat, p: State, e: Event, rows: Rows)
    requires IsRun(ps, es, start) && Step(ps[|es|], e, p) && Budgeted(ps[|es|])
    ensures IsRun(ps + [p], es + [e], start) && Budgeted(p) && Work(p) < Work(ps[|es|])
    ensures Merged(rows, Persisted(ps + [p], es + [e])) ==
              if e.Persist? then ps[|es|].consumer.chunk.headers + Merged(rows, Persisted(ps, es))
              else Merged(rows, Persisted(ps, es))
  {
    StepWorks(ps[|es|], e, p);
    PersistedGrows(ps, es, p, e);
    MergesOne(rows, Persisted(ps, es), StoredBy(ps[|es|], e));
  }

  /** What the producer has still to fetch. */
  ghost function Rest(b: Backend, p: State): Plan
    requires HonestBackend(b)
  {
    match p.producer
    case Loop(a, f) => Sequential(b, a, |p.log|, f)
    case Fetching(a, f) => Sequential(b, a, |p.log|, f)
    case Sending(c, stops) => if stops then Plan([], false) else Sequential(b, c.next, |p.log|, 0)
    case SendingFailure(_) => Plan([], true)
    case Gone => Plan([], false)
  }

  /** Chunks fetched and not yet stored, oldest first. */
  function Waiting(p: State): seq<Chunk> {
    (if p.consumer.Persisting? then [p.consumer.chunk] else []) + ChunkOf(p.channel) + Offered(p.producer)
  }

  /** Nothing has been dropped yet. */
  predicate Flows(p: State) {
    p.consumer.Receiving? || p.consumer.Persisting? || p.consumer.Recording? || p.consumer.Failing?
  }

  /** The producer against the plan. */
  ghost predicate ProducerFollows(b: Backend, plan: Plan, p: State, answered: seq<Chunk>)
    requires HonestBackend(b)
  {
    && answered <= plan.chunks
    && (!p.producer.Gone? ==> plan == Plan(answered + Rest(b, p).chunks, Rest(b, p).gaveUp))
    && (Flows(p) && p.producer.Gone? && FailurePending(p) ==> plan == Plan(answered, true))
    && (Flows(p) && p.producer.Gone? && !FailurePending(p) && !p.cancel ==> plan == Plan(answered, false))
  }

  /** The consumer against the plan. */
  predicate ConsumerFollows(start: nat, plan: Plan, p: State, answered: seq<Chunk>, done: seq<Chunk>) {
    && done <= answered
    && (Flows(p) ==> answered == done + Waiting(p))
    && (p.consumer.Failing? ==> p.channel.None?)
    && (p.consumer.Closing? && !p.cancel ==> plan == Plan(done, false))
    && (p.consumer == Finished(Completed) ==> plan == Plan(done, false))
    && (p.consumer == Finished(Error) ==> plan == Plan(done, true))
    && (p.consumer.Recording? ==> done != [] && done[|done| - 1] == p.consumer.chunk
                                  && p.last == FinalAnchor(start, done[..|done| - 1]))
    && (!p.consumer.Recording? && !p.consumer.Aborted? ==> p.last == FinalAnchor(start, done))
  }

  ghost predicate Follows(b: Backend, start: nat, p: State, answered: seq<Chunk>, done: seq<Chunk>)
    requires HonestBackend(b)
  {
    var plan := Sequential(b, start, 0, 0);
    ProducerFollows(b, plan, p, answered) && ConsumerFollows(start, plan, p, answered, done)
  }

  lemma ProducerSteps(b: Backend, plan: Plan, p: State, e: Event, q: State, answered: seq<Chunk>, done: seq<Chunk>)
    requires HonestBackend(b) && Step(p, e, q) && Conforming(b, p, e) && Budgeted(p) && RetryInv(p)
    requires ProducerFollows(b, plan, p, answered)
    ensures ProducerFollows(b, plan, q, answered + AnswerOf(e))
  {
  }

  lemma RecordFollows(b: Backend, start: nat, p: State, q: State, answered: seq<Chunk>, done: seq<Chunk>)
    requires HonestBackend(b) && Step(p, Record, q) && Follows(b, start, p, answered, done)
    ensures ConsumerFollows(start, Sequential(b, start, 0, 0), q, answered, done)
  {
    var k := |done| - 1;
    var cs := Sequential(b, start, 0, 0).chunks;
    assert done[k] == cs[k] && done[..k] == cs[..k];
    if IsStuck(done[k], p.last) {
      StuckIsLast(b, start, 0, 0, k);
      assert done == cs;
    }
  }

  lemma SendFollows(start: nat, plan: Plan, p: State, q: State, answered: seq<Chunk>, done: seq<Chunk>)
    requires Step(p, Send, q) && RetryInv(p) && ConsumerFollows(start, plan, p, answered, done)
    ensures ConsumerFollows(start, plan, q, answered, done)
  {
    if Flows(p) {
      assert Waiting(q) == Waiting(p);
    }
  }

  lemma ReceiveFollows(b: Backend, start: nat, p: State, e: Event, q: State, answered: seq<Chunk>, done: seq<Chunk>)
    requires HonestBackend(b) && (e.Receive? || e.ChannelClosed?) && Step(p, e, q) && RetryInv(p)
    requires Follows(b, start, p, answered, done)
    ensures ConsumerFollows(start, Sequential(b, start, 0, 0), q, answered, done)
  {
    if Flows(q) {
      assert Waiting(q) == Waiting(p);
    }
  }

  lemma FetchFollows(start: nat, plan: Plan, p: State, e: Event, q: State, answered: seq<Chunk>, done: seq<Chunk>)
    requires (e.FetchOk? || e.FetchErr? || e.StartFetch? || e.ProducerReturns? || e.Cancel?) && Step(p, e, q)
    requires ConsumerFollows(start, plan, p, answered, done)
    ensures ConsumerFollows(start, plan, q, answered + AnswerOf(e), done)
  {
    if Flows(p) {
      assert Waiting(q) == Waiting(p) + AnswerOf(e);
    }
  }

  lemma PersistFollows(start: nat, plan: Plan, p: State, q: State, answered: seq<Chunk>, done: seq<Chunk>)
    requires Step(p, Persist, q) && ConsumerFollows(start, plan, p, answered, done)
    ensures ConsumerFollows(start, plan, q, answered, done + [p.consumer.chunk])
  {
    assert Waiting(p) == [p.consumer.chunk] + Waiting(q);
    assert (done + [p.consumer.chunk])[..|done|] == done;
  }

  lemma EndFollows(b: Backend, start: nat, p: State, e: Event, q: State, answered: seq<Chunk>, done: seq<Chunk>)
    requires HonestBackend(b) && (e.RecordFailure? || e.Close? || e.StorageError?) && Step(p, e, q) && RetryInv(p)
    requires Follows(b, start, p, answered, done)
    ensures ConsumerFollows(start, Sequential(b, start, 0, 0), q, answered, done)
  {
    if p.consumer.Failing? {
      assert Waiting(p) == [];
    }
  }

  lemma ConsumerSteps(b: Backend, start: nat, p: State, e: Event, q: State, answered: seq<Chunk>, done: seq<Chunk>)
    requires HonestBackend(b) && Step(p, e, q) && RetryInv(p)
    requires Follows(b, start, p, answered, done)
    ensures ConsumerFollows(start, Sequential(b, start, 0, 0), q, answered + AnswerOf(e), done + StoredBy(p, e))
  {
    var plan := Sequential(b, start, 0, 0);
    assert !e.FetchOk? ==> answered + AnswerOf(e) == answered;
    assert !e.Persist? ==> done + StoredBy(p, e) == done;
    match e
    case Record => RecordFollows(b, start, p, q, answered, done);
    case Send => SendFollows(start, plan, p, q, answered, done);
    case Receive => ReceiveFollows(b, start, p, e, q, answered, done);
    case ChannelClosed => ReceiveFollows(b, start, p, e, q, answered, done);
    case Persist => PersistFollows(start, plan, p, q, answered, done);
    case RecordFailure => EndFollows(b, start, p, e, q, answered, done);
    case Close => EndFollows(b, start, p, e, q, answered, done);
    case StorageError => EndFollows(b, start, p, e, q, answered, done);
    case _ => FetchFollows(start, plan, p, e, q, answered, done);
  }

  lemma {:induction false} RunFollows(b: Backend, ps: seq<State>, es: seq<Event>, start: nat, k: nat)
    requires HonestBackend(b) && IsRun(ps, es, start) && Conforms(b, ps, es) && k <= |es|
    ensures Follows(b, start, ps[k], Answered(es[..k]), Persisted(ps, es[..k]))
  {
    if k > 0 {
      var p, e, q := ps[k - 1], es[k - 1], ps[k];
      RunFollows(b, ps, es, start, k - 1);
      RunStatus(ps, es, start, k - 1);
      assert es[..k][..k - 1] == es[..k - 1];
      assert Step(p, e, q) && Conforming(b, p, e);
      var answered, done := Answered(es[..k - 1]), Persisted(ps, es[..k - 1]);
      ProducerSteps(b, Sequential(b, start, 0, 0), p, e, q, answered, done);
      ConsumerSteps(b, start, p, e, q, answered, done);
    }
  }

  /** In every run, whatever is cancelled, aborted or interleaved, the chunks stored
      are the first ones of the plan. A pull that completed has stored all of them,
      so has one that gave up, and which of the two it is the plan says; the anchor
      is that of the last chunk stored. */
  lemma StoresThePlan(b: Backend, ps: seq<State>, es: seq<Event>, start: nat)
    requires HonestBackend(b) && IsRun(ps, es, start) && Conforms(b, ps, es)
    ensures Persisted(ps, es) <= Sequential(b, start, 0, 0).chunks
    ensures ps[|es|].consumer == Finished(Completed) ==> Sequential(b, start, 0, 0) == Plan(Persisted(ps, es), false)
    ensures ps[|es|].consumer == Finished(Error) ==> Sequential(b, start, 0, 0) == Plan(Persisted(ps, es), true)
    ensures ps[|es|].consumer.Finished? ==> ps[|es|].last == FinalAnchor(start, Persisted(ps, es))
  {
    RunFollows(b, ps, es, start, |es|);
    assert es[..|es|] == es;
  }
}

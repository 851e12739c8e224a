/** The two halves of a full-history pull.

    A producer fetches chunks and sends them through a channel that holds one
    outcome; a consumer persists them and records progress. Both halves run on
    one task, so the model interleaves them at their suspension points. */
module HistoryPipeline {
  import opened Wrappers
  import opened Imap

  const MAX_CHUNK_RETRIES: nat := 5

  datatype Chunk = Chunk(headers: map<MsgId, Flags>, next: nat)

  datatype Outcome = Pulled(chunk: Chunk) | Failed(anchor: nat)

  datatype Producer =
    | Loop(anchor: nat, failures: nat)
    | Fetching(anchor: nat, failures: nat)
    | Sending(chunk: Chunk, stops: bool)
    | SendingFailure(anchor: nat)
    | Gone

  datatype Status = Pending | Running | Completed | Canceled | Error

  datatype Consumer =
    | Receiving
    | Persisting(chunk: Chunk)
    | Recording(chunk: Chunk)
    | Failing(anchor: nat)
    | Closing
    | Finished(status: Status)
    | Aborted

  /** One answered fetch attempt: the anchor asked for, and whether it worked. */
  datatype Attempt = Attempt(anchor: nat, ok: bool)

  /** `last` and `stuck` are the consumer's locals; `log` remembers every
      attempt and is read by no step. */
  datatype State = State(
    producer: Producer,
    channel: Option<Outcome>,
    consumer: Consumer,
    cancel: bool,
    last: nat,
    stuck: bool,
    log: seq<Attempt>)

  datatype Event =
    | ProducerReturns
    | StartFetch
    | FetchOk(chunk: Chunk)
    | FetchErr
    | Send
    | Receive
    | ChannelClosed
    | Persist
    | Record
    | RecordFailure
    | Close
    | StorageError
    | Cancel

  function Start(anchor: nat): State {
    State(Loop(anchor, 0), None, Receiving, false, anchor, false, [])
  }

  /** The receiver is dropped only when the consumer returns. */
  predicate ReceiverOpen(p: State) {
    !p.consumer.Finished? && !p.consumer.Aborted?
  }

  function FinalStatus(p: State): Status {
    if p.cancel then Canceled
    else if p.last <= 1 || p.stuck then Completed
    else Canceled
  }

  function IsStuck(c: Chunk, anchor: nat): bool {
    c.next >= anchor && c.headers == map[]
  }

  predicate CanStep(p: State, e: Event) {
    match e
    case ProducerReturns => p.producer.Loop? && (p.cancel || p.producer.anchor <= 1)
    case StartFetch => p.producer.Loop? && !p.cancel && p.producer.anchor > 1
    case FetchOk(_) => p.producer.Fetching?
    case FetchErr => p.producer.Fetching?
    case Send => (p.producer.Sending? || p.producer.SendingFailure?)
                 && (p.channel.None? || !ReceiverOpen(p))
    case Receive => p.consumer.Receiving? && p.channel.Some?
    case ChannelClosed => p.consumer.Receiving? && p.channel.None? && p.producer.Gone?
    case Persist => p.consumer.Persisting?
    case Record => p.consumer.Recording?
    case RecordFailure => p.consumer.Failing?
    case Close => p.consumer.Closing?
    case StorageError => p.consumer.Persisting? || p.consumer.Recording?
                         || p.consumer.Failing? || p.consumer.Closing?
    case Cancel => !p.cancel
  }

  function Apply(p: State, e: Event): State
    requires CanStep(p, e)
  {
    match e
    case ProducerReturns => p.(producer := Gone)
    case StartFetch => p.(producer := Fetching(p.producer.anchor, p.producer.failures))
    case FetchOk(c) =>
      p.(producer := Sending(c, IsStuck(c, p.producer.anchor)),
         log := p.log + [Attempt(p.producer.anchor, true)])
    case FetchErr =>
      p.(producer := if p.producer.failures + 1 >= MAX_CHUNK_RETRIES
                     then SendingFailure(p.producer.anchor)
                     else Loop(p.producer.anchor, p.producer.failures + 1),
         log := p.log + [Attempt(p.producer.anchor, false)])
    case Send =>
      if !ReceiverOpen(p) then p.(producer := Gone)
      else if p.producer.SendingFailure? then
        p.(producer := Gone, channel := Some(Failed(p.producer.anchor)))
      else
        p.(producer := if p.producer.stops then Gone else Loop(p.producer.chunk.next, 0),
           channel := Some(Pulled(p.producer.chunk)))
    case Receive =>
      p.(channel := None,
         consumer := if p.cancel then Closing
                     else match p.channel.value
                       case Pulled(c) => Persisting(c)
                       case Failed(a) => Failing(a))
    case ChannelClosed => p.(consumer := Closing)
    case Persist => p.(consumer := Recording(p.consumer.chunk))
    case Record =>
      var c := p.consumer.chunk;
      p.(last := c.next, stuck := IsStuck(c, p.last),
         consumer := if IsStuck(c, p.last) then Closing else Receiving)
    case RecordFailure => p.(consumer := Finished(Error))
    case Close => p.(consumer := Finished(FinalStatus(p)))
    case StorageError => p.(consumer := Aborted)
    case Cancel => p.(cancel := true)
  }

  /** What the driver may rely on from a backend: a chunk either moves the
      anchor down or is empty. */
  predicate Honest(p: State, e: Event) {
    e.FetchOk? && p.producer.Fetching? ==>
      e.chunk.next < p.producer.anchor || e.chunk.headers == map[]
  }

  predicate Step(p: State, e: Event, q: State) {
    CanStep(p, e) && Honest(p, e) && q == Apply(p, e)
  }

  predicate Over(p: State) {
    p.producer.Gone? && !ReceiverOpen(p)
  }

  predicate IsRun(ps: seq<State>, es: seq<Event>, anchor: nat) {
    && |ps| == |es| + 1
    && ps[0] == Start(anchor)
    && forall i | 0 <= i < |es| :: Step(ps[i], es[i], ps[i + 1])
  }

  // ---------- termination and progress ----------

  /** Work left. Each UID the anchor can still fall by pays for one round of
      retries and for carrying one chunk through the channel. */
  function Work(p: State): nat {
    (match p.producer
     case Loop(a, f) => 16 * a + (if f < 5 then 2 * (5 - f) else 0) + 1
     case Fetching(a, f) => 16 * a + (if f < 5 then 2 * (5 - f) else 0)
     case Sending(c, stops) => if stops then 5 else 16 * c.next + 16
     case SendingFailure(_) => 5
     case Gone => 0)
    + (if p.channel.Some? then 4 else 0)
    + (match p.consumer
       case Receiving => 2
       case Persisting(_) => 5
       case Recording(_) => 4
       case Failing(_) => 4
       case Closing => 1
       case Finished(_) => 0
       case Aborted => 0)
    + (if p.cancel then 0 else 1)
  }

  /** Anchors stay above 1 while a fetch is out, and the retry count below the
      budget; both hold in every reachable state. */
  predicate Budgeted(p: State) {
    match p.producer
    case Loop(_, f) => f < MAX_CHUNK_RETRIES
    case Fetching(a, f) => a > 1 && f < MAX_CHUNK_RETRIES
    case _ => true
  }

  lemma StepWorks(p: State, e: Event, q: State)
    requires Budgeted(p) && Step(p, e, q)
    ensures Budgeted(q) && Work(q) < Work(p)
  {
    if e.FetchOk? && !IsStuck(e.chunk, p.producer.anchor) {
      assert e.chunk.next <= p.producer.anchor - 1;
      assert 16 * e.chunk.next <= 16 * (p.producer.anchor - 1);
    }
  }

  /** Every pull from `anchor` is over within 16 * anchor + 14 steps of the two
      halves, whatever fails and however they interleave. */
  lemma {:induction false} RunIsShort(ps: seq<State>, es: seq<Event>, anchor: nat)
    requires IsRun(ps, es, anchor)
    ensures |es| <= 16 * anchor + 14
  {
    RunWorks(ps, es, anchor, |es|);
  }

  lemma {:induction false} RunWorks(ps: seq<State>, es: seq<Event>, anchor: nat, k: nat)
    requires IsRun(ps, es, anchor) && k <= |es|
    ensures Budgeted(ps[k]) && Work(ps[k]) + k <= 16 * anchor + 14
  {
    if k > 0 {
      RunWorks(ps, es, anchor, k - 1);
      StepWorks(ps[k - 1], es[k - 1], ps[k]);
    }
  }

  /** No state of the two halves and the channel is stuck: until both have
      returned, one of them can move without help from the cancel button. */
  lemma NeverStuck(p: State) returns (e: Event)
    requires !Over(p)
    ensures CanStep(p, e) && Honest(p, e) && !e.Cancel? && !e.StorageError?
  {
    if p.consumer.Persisting? { e := Persist; }
    else if p.consumer.Recording? { e := Record; }
    else if p.consumer.Failing? { e := RecordFailure; }
    else if p.consumer.Closing? { e := Close; }
    else if p.consumer.Receiving? && p.channel.Some? { e := Receive; }
    else if p.producer.Loop? {
      e := if p.cancel || p.producer.anchor <= 1 then ProducerReturns else StartFetch;
    }
    else if p.producer.Fetching? { e := FetchErr; }
    else if p.producer.Gone? { e := ChannelClosed; }
    else { e := Send; }
  }

  // ---------- terminal status ----------

  function ChunkOf(o: Option<Outcome>): seq<Chunk> {
    if o.Some? && o.value.Pulled? then [o.value.chunk] else []
  }

  function Held(c: Consumer): seq<Chunk> {
    if c.Persisting? || c.Recording? then [c.chunk] else []
  }

  function Offered(p: Producer): seq<Chunk> {
    if p.Sending? then [p.chunk] else []
  }

  /** Chunks fetched and not yet recorded, oldest first. */
  function Outstanding(p: State): seq<Chunk> {
    Held(p.consumer) + ChunkOf(p.channel) + Offered(p.producer)
  }

  function FinalAnchor(last: nat, cs: seq<Chunk>): nat {
    if cs == [] then last else cs[|cs| - 1].next
  }

  predicate EndsStuck(last: nat, cs: seq<Chunk>) {
    cs != [] && IsStuck(cs[|cs| - 1], FinalAnchor(last, cs[..|cs| - 1]))
  }

  predicate FailurePending(p: State) {
    p.consumer.Failing? || (p.channel.Some? && p.channel.value.Failed?)
  }

  /** The last attempts are exactly `n` failures at `anchor`. */
  predicate FailedTail(log: seq<Attempt>, anchor: nat, n: nat) {
    && n <= |log|
    && (forall i | |log| - n <= i < |log| :: log[i] == Attempt(anchor, false))
    && (n < |log| ==> log[|log| - n - 1].ok)
  }

  ghost predicate FiveFailures(log: seq<Attempt>) {
    exists a :: FailedTail(log, a, MAX_CHUNK_RETRIES)
  }

  /** Retry bookkeeping, true whatever the consumer is doing. */
  ghost predicate RetryInv(p: State) {
    && (match p.producer
        case Loop(a, f) => FailedTail(p.log, a, f)
        case Fetching(a, f) => FailedTail(p.log, a, f)
        case Sending(_, _) => p.log != [] && p.log[|p.log| - 1].ok
        case SendingFailure(a) => FailedTail(p.log, a, MAX_CHUNK_RETRIES)
        case Gone => true)
    && (FailurePending(p) || p.consumer == Finished(Error)
        ==> p.producer.Gone? && FiveFailures(p.log))
  }

  /** Where the producer stands against the consumer's anchor, and why it left. */
  predicate AnchorInv(p: State) {
    match p.producer
    case Loop(a, _) => a == FinalAnchor(p.last, Outstanding(p))
    case Fetching(a, _) => a == FinalAnchor(p.last, Outstanding(p))
    case Sending(c, stops) => stops == EndsStuck(p.last, Outstanding(p))
    case SendingFailure(_) => true
    case Gone =>
      || p.cancel
      || FailurePending(p)
      || FinalAnchor(p.last, Outstanding(p)) <= 1
      || EndsStuck(p.last, Outstanding(p))
  }

  predicate ConsumerInv(p: State) {
    match p.consumer
    case Closing => p.cancel || p.last <= 1 || p.stuck
    case Finished(s) =>
      && (s == Completed ==> p.last <= 1 || p.stuck)
      && (s == Canceled ==> p.cancel)
      && s != Pending && s != Running
    case Aborted => true
    case _ => AnchorInv(p) && !p.stuck
  }

  ghost predicate StatusInv(p: State) {
    RetryInv(p) && ConsumerInv(p)
  }

  lemma StepRetry(p: State, e: Event, q: State)
    requires RetryInv(p) && Budgeted(p) && Step(p, e, q)
    ensures RetryInv(q)
  {
    if e.Send? && p.producer.SendingFailure? {
      assert FailedTail(p.log, p.producer.anchor, MAX_CHUNK_RETRIES);
    }
  }

  lemma StepConsumer(p: State, e: Event, q: State)
    requires ConsumerInv(p) && RetryInv(p) && Step(p, e, q)
    ensures ConsumerInv(q)
  {
    match e
    case FetchOk(c) => FetchAnchors(p, c, q);
    case Send => SendAnchors(p, q);
    case Record => RecordAnchors(p, q);
    case Receive => ReceiveAnchors(p, q);
    case Persist => ReceiveAnchors(p, q);
    case _ =>
  }

  lemma ReceiveAnchors(p: State, q: State)
    requires ConsumerInv(p) && RetryInv(p) && (Step(p, Receive, q) || Step(p, Persist, q))
    ensures ConsumerInv(q)
  {
  }

  lemma FetchAnchors(p: State, c: Chunk, q: State)
    requires ConsumerInv(p) && Step(p, FetchOk(c), q)
    ensures ConsumerInv(q)
  {
    assert Outstanding(q) == Outstanding(p) + [c];
    assert Outstanding(q)[..|Outstanding(p)|] == Outstanding(p);
  }

  lemma SendKeepsOutstanding(p: State, q: State)
    requires Step(p, Send, q) && ReceiverOpen(p)
    ensures Outstanding(q) == Outstanding(p)
  {
  }

  lemma SendAnchors(p: State, q: State)
    requires ConsumerInv(p) && Step(p, Send, q)
    ensures ConsumerInv(q)
  {
    if ReceiverOpen(p) && !p.consumer.Closing? {
      SendKeepsOutstanding(p, q);
      var cs := Outstanding(p);
      assert q.last == p.last && q.consumer == p.consumer && q.stuck == p.stuck;
      if p.producer.Sending? {
        assert cs != [] && cs[|cs| - 1] == p.producer.chunk;
        assert AnchorInv(q);
      } else {
        assert FailurePending(q);
      }
    }
  }

  /** Dropping the oldest outstanding chunk once it is recorded as `last`. */
  lemma DropRecorded(last: nat, c: Chunk, ds: seq<Chunk>)
    ensures FinalAnchor(last, [c] + ds) == FinalAnchor(c.next, ds)
    ensures EndsStuck(last, [c] + ds) ==> (ds == [] && IsStuck(c, last)) || EndsStuck(c.next, ds)
    ensures ds != [] ==> EndsStuck(last, [c] + ds) == EndsStuck(c.next, ds)
  {
    var cs := [c] + ds;
    if ds != [] {
      assert cs[..|cs| - 1] == [c] + ds[..|ds| - 1];
    }
  }

  lemma AnchorsShift(p: State, q: State, c: Chunk)
    requires q == p.(last := c.next, consumer := Receiving)
    requires p.consumer == Recording(c) && !IsStuck(c, p.last)
    requires AnchorInv(p)
    ensures AnchorInv(q)
  {
    var ds := Outstanding(q);
    assert Outstanding(p) == [c] + ds;
    DropRecorded(p.last, c, ds);
    match p.producer
    case Loop(_, _) =>
    case Fetching(_, _) =>
    case Sending(d, _) => assert ds != [];
    case SendingFailure(_) =>
    case Gone =>
  }

  lemma RecordAnchors(p: State, q: State)
    requires ConsumerInv(p) && Step(p, Record, q)
    ensures ConsumerInv(q)
  {
    var c := p.consumer.chunk;
    if !IsStuck(c, p.last) {
      AnchorsShift(p, p.(last := c.next, consumer := Receiving), c);
    }
  }

  /** In every reachable state: Completed means the tail is exhausted and no
      cancel was seen, Canceled means the flag was set (so the consumer's third
      status branch is dead), and Error means exactly five failures in a row at
      one anchor. */
  lemma {:induction false} RunStatus(ps: seq<State>, es: seq<Event>, anchor: nat, k: nat)
    requires IsRun(ps, es, anchor) && k <= |es|
    ensures Budgeted(ps[k]) && StatusInv(ps[k])
  {
    if k > 0 {
      RunStatus(ps, es, anchor, k - 1);
      StepWorks(ps[k - 1], es[k - 1], ps[k]);
      StepRetry(ps[k - 1], es[k - 1], ps[k]);
      StepConsumer(ps[k - 1], es[k - 1], ps[k]);
    }
  }

  lemma {:induction false} ClosedWhen(ps: seq<State>, es: seq<Event>, anchor: nat, k: nat) returns (j: nat)
    requires IsRun(ps, es, anchor) && k <= |es| && ps[k].consumer == Finished(Completed)
    ensures j < k && es[j] == Close && !ps[j].cancel
    ensures ps[k].last == ps[j].last && ps[k].stuck == ps[j].stuck && (ps[j].last <= 1 || ps[j].stuck)
  {
    assert k > 0 && Step(ps[k - 1], es[k - 1], ps[k]);
    if ps[k - 1].consumer == Finished(Completed) {
      j := ClosedWhen(ps, es, anchor, k - 1);
    } else {
      j := k - 1;
    }
  }

  /** What a pull's end means, at every moment after it: Completed was decided
      with no cancel pressed and the tail exhausted; Canceled had the flag set;
      Error had five failures in a row at one anchor; nothing else is final. */
  lemma TerminalStatus(ps: seq<State>, es: seq<Event>, anchor: nat, k: nat)
    requires IsRun(ps, es, anchor) && k <= |es| && ps[k].consumer.Finished?
    ensures match ps[k].consumer.status
            case Completed =>
              && (ps[k].last <= 1 || ps[k].stuck)
              && exists j :: 0 <= j < k && es[j] == Close && !ps[j].cancel
            case Canceled => ps[k].cancel
            case Error => FiveFailures(ps[k].log)
            case _ => false
  {
    RunStatus(ps, es, anchor, k);
    if ps[k].consumer.status == Completed {
      var j := ClosedWhen(ps, es, anchor, k);
      assert es[j] == Close;
    }
  }
}

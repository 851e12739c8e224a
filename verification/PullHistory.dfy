/** `pull_history` as code: the producer and the consumer each run from one
    suspension point to the next, taking turns as the runtime schedules them. */
module PullHistory {
  import opened Wrappers
  import opened Imap
  import opened HistoryPipeline
  import opened PullReplay

  /** A scheduler's choice at one turn: which half to poll first, whether the
      database fails, and whether the user presses cancel. */
  datatype Turn = Turn(producerFirst: bool, storageFails: bool, cancels: bool)

  class Pull {
    // producer
    var producer: Producer
    // shared
    var channel: Option<Outcome>
    var cancel: bool
    // consumer
    var consumer: Consumer
    var lastAnchor: nat
    var stuckAndEmpty: bool
    // database
    var rows: Rows
    var persistedAnchor: nat
    var status: Status
    var attempts: nat
    ghost var log: seq<Attempt>
    ghost var states: seq<State>
    ghost var events: seq<Event>
    ghost const start: nat
    ghost const store: Rows

    ghost function View(): State
      reads this
    {
      State(producer, channel, consumer, cancel, lastAnchor, stuckAndEmpty, log)
    }

    /** The store as the logged steps have left it. */
    ghost function Stored(): Rows
      reads this
      requires |states| >= |events|
    {
      Merged(store, Persisted(states, events))
    }

    ghost predicate Valid()
      reads this
    {
      && IsRun(states, events, start) && states[|events|] == View()
      && Budgeted(View())
      && persistedAnchor == lastAnchor && attempts == |log|
      && rows == Stored()
      && (consumer.Finished? ==> status == consumer.status)
      && (!consumer.Finished? ==> status == Running)
    }

    /** One step since, and not a fetch. */
    ghost predicate Moved(ps: seq<State>, es: seq<Event>)
      reads this
    {
      && states == ps + [View()] && |events| == |es| + 1 && events[..|es|] == es
      && !events[|es|].FetchOk? && !events[|es|].FetchErr?
    }

    constructor (anchor: nat, stored: Rows)
      ensures Valid() && start == anchor && rows == stored && View() == Start(anchor) && events == []
    {
      producer, channel, cancel, consumer := Loop(anchor, 0), None, false, Receiving;
      lastAnchor, stuckAndEmpty, rows, persistedAnchor := anchor, false, stored, anchor;
      status, attempts, log, start, store := Running, 0, [], anchor, stored;
      new;
      states, events := [View()], [];
    }

    /** Logs a step the fields have just taken; every step uses up work. */
    ghost method Note(e: Event)
      requires IsRun(states, events, start) && Budgeted(states[|events|])
      requires Step(states[|events|], e, View())
      requires persistedAnchor == lastAnchor && attempts == |log|
      requires rows == if e.Persist? then states[|events|].consumer.chunk.headers + Stored() else Stored()
      requires consumer.Finished? ==> status == consumer.status
      requires !consumer.Finished? ==> status == Running
      modifies this`states, this`events
      ensures Valid() && states == old(states) + [View()] && events == old(events) + [e]
      ensures Work(View()) < Work(old(states[|events|]))
    {
      RunGrows(states, events, start, View(), e, store);
      states, events := states + [View()], events + [e];
    }

    /** The loop head: cancel, then exhaustion, then out to the backend. */
    method Ask()
      requires Valid() && producer.Loop?
      modifies this`producer, this`states, this`events
      ensures Valid() && Moved(old(states), old(events)) && Work(View()) < old(Work(View()))
      ensures producer == if old(cancel) || old(producer.anchor) <= 1 then Gone
                          else Fetching(old(producer.anchor), old(producer.failures))
    {
      if cancel || producer.anchor <= 1 {
        producer := Gone;
        Note(ProducerReturns);
      } else {
        producer := Fetching(producer.anchor, producer.failures);
        Note(StartFetch);
      }
    }

    /** The backend answers: a chunk resets the failure count, an error adds one
        and the fifth in a row gives up. */
    method Answer(b: Backend)
      requires Valid() && producer.Fetching? && HonestBackend(b)
      modifies this`producer, this`attempts, this`log, this`states, this`events
      ensures Valid() && Work(View()) < old(Work(View()))
      ensures var a, f, answer := old(producer.anchor), old(producer.failures), b(old(producer.anchor), old(attempts));
              && producer == (if answer.Some? then Sending(answer.value, IsStuck(answer.value, a))
                              else if f + 1 >= MAX_CHUNK_RETRIES then SendingFailure(a)
                              else Loop(a, f + 1))
              && log == old(log) + [Attempt(a, answer.Some?)] && attempts == old(attempts) + 1
              && states == old(states) + [View()]
              && events == old(events) + [if answer.Some? then FetchOk(answer.value) else FetchErr]
    {
      var a, f := producer.anchor, producer.failures;
      var answer := b(a, attempts);
      attempts := attempts + 1;
      log := log + [Attempt(a, answer.Some?)];
      if answer.Some? {
        var chunk := answer.value;
        producer := Sending(chunk, IsStuck(chunk, a));
        Note(FetchOk(chunk));
      } else {
        producer := if f + 1 >= MAX_CHUNK_RETRIES then SendingFailure(a) else Loop(a, f + 1);
        Note(FetchErr);
      }
    }

    /** A bounded send that is ready to go through, or finds the receiver gone; a
        chunk sent starts the failure count over. */
    method Offer()
      requires Valid() && CanStep(View(), Send)
      modifies this`producer, this`channel, this`states, this`events
      ensures Valid() && Moved(old(states), old(events)) && Work(View()) < old(Work(View()))
      ensures old(producer.Sending?) ==>
                producer == if !ReceiverOpen(old(View())) || old(producer).stops then Gone
                            else Loop(old(producer).chunk.next, 0)
    {
      if consumer.Finished? || consumer.Aborted? {
        producer := Gone;
      } else if producer.SendingFailure? {
        channel, producer := Some(Failed(producer.anchor)), Gone;
      } else {
        var c := producer.chunk;
        channel := Some(Pulled(c));
        producer := if producer.stops then Gone else Loop(c.next, 0);
      }
      Note(Send);
    }

    method Take()
      requires Valid() && consumer.Receiving? && (channel.Some? || producer.Gone?)
      modifies this`consumer, this`channel, this`states, this`events
      ensures Valid() && Moved(old(states), old(events)) && Work(View()) < old(Work(View()))
    {
      if channel.None? {
        consumer := Closing;
        Note(ChannelClosed);
      } else {
        var o := channel.value;
        channel := None;
        consumer := if cancel then Closing
                    else match o case Pulled(c) => Persisting(c) case Failed(a) => Failing(a);
        Note(Receive);
      }
    }

    method Persist()
      requires Valid() && consumer.Persisting?
      modifies this`consumer, this`rows, this`states, this`events
      ensures Valid() && Moved(old(states), old(events)) && Work(View()) < old(Work(View()))
      ensures rows == old(consumer.chunk).headers + old(rows) && consumer == Recording(old(consumer.chunk))
    {
      var c := consumer.chunk;
      rows := c.headers + rows;
      consumer := Recording(c);
      Note(HistoryPipeline.Persist);
    }

    method Record()
      requires Valid() && consumer.Recording?
      modifies this`consumer, this`persistedAnchor, this`lastAnchor, this`stuckAndEmpty, this`states, this`events
      ensures Valid() && Moved(old(states), old(events)) && Work(View()) < old(Work(View())) && persistedAnchor == old(consumer.chunk).next
      ensures stuckAndEmpty == IsStuck(old(consumer.chunk), old(lastAnchor))
      ensures consumer == if stuckAndEmpty then Closing else Receiving
    {
      var c := consumer.chunk;
      var stuck := IsStuck(c, lastAnchor);
      persistedAnchor, lastAnchor, stuckAndEmpty := c.next, c.next, stuck;
      consumer := if stuck then Closing else Receiving;
      Note(HistoryPipeline.Record);
    }

    /** The terminal status: Error after a reported failure, else by the cancel
        flag and the anchor. */
    method SetStatus()
      requires Valid() && (consumer.Failing? || consumer.Closing?)
      modifies this`consumer, this`status, this`states, this`events
      ensures Valid() && Moved(old(states), old(events)) && Work(View()) < old(Work(View())) && consumer == Finished(status)
      ensures status == if old(consumer.Failing?) then Error else FinalStatus(old(View()))
    {
      if consumer.Failing? {
        status := Error;
        consumer := Finished(Error);
        Note(RecordFailure);
      } else {
        status := if cancel then Canceled else if lastAnchor <= 1 || stuckAndEmpty then Completed else Canceled;
        consumer := Finished(status);
        Note(Close);
      }
    }

    /** One database statement of the consumer; a storage error leaves through
        `?` and writes no terminal status. */
    method Write(fails: bool)
      requires Valid()
      requires consumer.Persisting? || consumer.Recording? || consumer.Failing? || consumer.Closing?
      modifies this`consumer, this`rows, this`persistedAnchor, this`lastAnchor, this`stuckAndEmpty,
               this`status, this`states, this`events
      ensures Valid() && Moved(old(states), old(events)) && Work(View()) < old(Work(View()))
      ensures if fails then consumer == Aborted && status == old(status) else !consumer.Aborted?
      ensures rows == if !fails && old(consumer.Persisting?) then old(consumer.chunk).headers + old(rows) else old(rows)
      ensures persistedAnchor ==
        if !fails && old(consumer.Recording?) then old(consumer.chunk).next else old(persistedAnchor)
      ensures !fails && old(consumer.Failing?) ==> status == Error
      ensures !fails && old(consumer.Closing?) ==> status == FinalStatus(old(View()))
    {
      if fails {
        consumer := Aborted;
        Note(StorageError);
      } else if consumer.Persisting? {
        Persist();
      } else if consumer.Recording? {
        Record();
      } else {
        SetStatus();
      }
    }

    /** The producer up to its next suspension point. */
    method PollProducer(b: Backend)
      requires Valid() && HonestBackend(b)
      requires producer.Loop? || producer.Fetching? || CanStep(View(), Send)
      modifies this`producer, this`channel, this`attempts, this`log, this`states, this`events
      ensures Valid() && Work(View()) < old(Work(View()))
      ensures old(Conforms(b, states, events)) ==> Conforms(b, states, events)
    {
      if producer.Loop? { Ask(); } else if producer.Fetching? { Answer(b); } else { Offer(); }
      if old(Conforms(b, states, events)) {
        StillConforms(b, old(states), old(events), View(), events);
      }
    }

    /** The consumer up to its next one. */
    method PollConsumer(fails: bool)
      requires Valid() && ReceiverOpen(View()) && (consumer.Receiving? ==> channel.Some? || producer.Gone?)
      modifies this`consumer, this`channel, this`rows, this`persistedAnchor, this`lastAnchor, this`stuckAndEmpty,
               this`status, this`states, this`events
      ensures Valid() && Moved(old(states), old(events)) && Work(View()) < old(Work(View()))
      ensures consumer.Aborted? ==> fails
    {
      if consumer.Receiving? {
        Take();
      } else {
        Write(fails);
      }
    }

    /** Polls the half that can move, preferring the one the scheduler names. */
    method Poll(t: Turn, b: Backend)
      requires Valid() && !Over(View()) && HonestBackend(b)
      modifies this
      ensures Valid() && Work(View()) < old(Work(View())) && cancel == old(cancel)
      ensures old(Conforms(b, states, events)) ==> Conforms(b, states, events)
      ensures consumer.Aborted? ==> t.storageFails || old(consumer.Aborted?)
    {
      var consumerReady := consumer.Persisting? || consumer.Recording? || consumer.Failing?
                           || consumer.Closing? || (consumer.Receiving? && (channel.Some? || producer.Gone?));
      var producerReady := producer.Loop? || producer.Fetching?
                           || ((producer.Sending? || producer.SendingFailure?)
                               && (channel.None? || consumer.Finished? || consumer.Aborted?));
      if producerReady && (t.producerFirst || !consumerReady) {
        PollProducer(b);
      } else {
        PollConsumer(t.storageFails);
        if old(Conforms(b, states, events)) {
          StillConforms(b, old(states), old(events), View(), events);
        }
      }
    }

    method PressCancel()
      requires Valid() && !cancel
      modifies this`cancel, this`states, this`events
      ensures Valid() && Moved(old(states), old(events)) && Work(View()) < old(Work(View()))
    {
      cancel := true;
      Note(Cancel);
    }

    /** Nothing has gone wrong and no other backend was asked. */
    ghost predicate Fresh(b: Backend)
      reads this
      requires |states| == |events| + 1
    {
      Conforms(b, states, events) && !cancel && !consumer.Aborted?
    }

    /** The store holds the first chunks of the plan, all of them after a pull that
        completed or gave up, and the anchor is that of the last one. */
    ghost predicate StoredInTurn(b: Backend)
      reads this
      requires HonestBackend(b)
    {
      var plan := Sequential(b, start, 0, 0);
      && (exists done :: done <= plan.chunks && rows == Merged(store, done)
                         && (consumer.Finished? ==> persistedAnchor == FinalAnchor(start, done)))
      && (status == Completed || status == Error ==>
            rows == Merged(store, plan.chunks) && persistedAnchor == FinalAnchor(start, plan.chunks)
            && (status == Error <==> plan.gaveUp))
    }

    /** Joins the two halves: for every backend, scheduler and database the pull
        ends, its terminal status means what it says, and what it stored is what
        the backend gives when asked for one chunk after another, as far as the
        pull came. Only the database can abort it and only the button cancel it. */
    method Join(turns: nat -> Turn, b: Backend)
      requires Valid() && HonestBackend(b)
      modifies this
      ensures Valid() && Over(View()) && |events| <= 16 * start + 14
      ensures status == Completed ==> persistedAnchor <= 1 || stuckAndEmpty
      ensures status == Error ==> FiveFailures(log)
      ensures consumer.Aborted? ==> status == Running
      ensures consumer.Aborted? ==> old(consumer.Aborted?) || exists k: nat :: turns(k).storageFails
      ensures cancel ==> old(cancel) || exists k: nat :: turns(k).cancels
      ensures status == Canceled ==> cancel
      ensures consumer.Aborted? || status in {Completed, Canceled, Error}
      ensures old(Conforms(b, states, events)) ==> StoredInTurn(b)
      ensures old(Fresh(b)) && (forall k: nat :: !turns(k).storageFails && !turns(k).cancels) ==>
                status == if Sequential(b, start, 0, 0).gaveUp then Error else Completed
      ensures old(Fresh(b)) && (forall k: nat :: !turns(k).storageFails && !turns(k).cancels) && AlwaysAnswers(b) ==>
                status == Completed
    {
      var k := 0;
      while !(producer.Gone? && (consumer.Finished? || consumer.Aborted?))
        invariant Valid() && (old(Conforms(b, states, events)) ==> Conforms(b, states, events))
        invariant cancel ==> old(cancel) || exists i: nat :: turns(i).cancels
        invariant consumer.Aborted? ==> old(consumer.Aborted?) || exists i: nat :: turns(i).storageFails
        decreases Work(View())
      {
        if turns(k).cancels && !cancel {
          ghost var ps, es := states, events;
          PressCancel();
          if Conforms(b, ps, es) {
            StillConforms(b, ps, es, View(), events);
          }
        } else {
          Poll(turns(k), b);
        }
        k := k + 1;
      }
      RunIsShort(states, events, start);
      RunStatus(states, events, start, |events|);
      if Conforms(b, states, events) {
        StoresThePlan(b, states, events, start);
      }
      if AlwaysAnswers(b) {
        AnsweredNeverFails(b, start, 0, 0);
      }
    }
  }
}

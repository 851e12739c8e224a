/** The `save_draft` arm of the outbox dispatch and the IMAP save behind it. */
module DraftSaver {
  import opened Wrappers
  import opened Drafts

  datatype SaveError = NoMailbox | NoMessageId | AppendFailed | LookupFailed | StoreFailed

  /** What the network and the database do during one save. */
  datatype Turn = Turn(
    hasDrafts: bool,
    append: Fate,
    lookup: bool,
    destroy: Fate,
    store: bool)

  /** Right after an APPEND the newest copy with its Message-ID is the new one. */
  lemma NewestIsNew(copies: map<nat, nat>, next: nat, mid: nat, uid: nat)
    requires (forall u | u in copies :: u < next) && IsNewest(copies[next := mid], mid, uid)
    ensures uid == next
  {
    assert Carries(copies[next := mid], next, mid);
  }

  class Saver {
    var box: Box
    var uidnext: nat
    var copies: map<nat, nat>
    var stored: Option<Ref>
    var present: bool
    ghost var m: State
    ghost var states: seq<State>
    ghost var events: seq<Event>

    ghost predicate Valid()
      reads this
    {
      && m.box == box && m.uidnext == uidnext && m.copies == copies
      && m.stored == stored && m.present == present
      && IsRun(states, events) && OwnOnly(events) && states[|events|] == m
    }

    constructor (box: Box)
      ensures Valid() && m == Start(box, 1)
    {
      this.box, uidnext, copies, stored, present := box, 1, map[], None, true;
      m := Start(box, 1);
      states, events := [Start(box, 1)], [];
    }

    ghost method Note(e: Event)
      requires IsRun(states, events) && OwnOnly(events) && states[|events|] == m
      requires CanStep(m, e) && !e.ForeignExpunge?
      requires var n := Apply(m, e);
               n.box == box && n.uidnext == uidnext && n.copies == copies && n.stored == stored && n.present == present
      modifies this`m, this`states, this`events
      ensures Valid() && m == Apply(old(m), e)
    {
      m := Apply(m, e);
      states, events := states + [m], events + [e];
    }

    ghost method Recall()
      requires Valid()
      ensures Inv(m) && OwnInv(m)
    {
      RunBounds(states, events, |events|);
      RunKeeps(states, events, |events|);
    }

    /** `UID SEARCH HEADER Message-ID`, then the highest answer. */
    method Newest(mid: nat) returns (uid: Option<nat>)
      ensures uid.Some? ==> IsNewest(copies, mid, uid.value)
      ensures uid.None? ==> forall u: nat :: !Carries(copies, u, mid)
    {
      var todo := set u: nat | u in copies && Carries(copies, u, mid);
      uid := None;
      while todo != {}
        invariant forall u: nat | u in todo :: Carries(copies, u, mid)
        invariant uid.Some? ==> Carries(copies, uid.value, mid)
        invariant forall u: nat | Carries(copies, u, mid) :: u in todo || (uid.Some? && u <= uid.value)
        decreases |todo|
      {
        var u :| u in todo;
        todo := todo - {u};
        if uid.None? || uid.value < u {
          uid := Some(u);
        }
      }
    }

    /** Best effort: a mismatching folder or UIDVALIDITY, or any error on the way,
        is logged and the save goes on. */
    method DestroyPrior(prior: Option<Ref>, ref: Ref, fate: Fate)
      requires Valid() && m.pc == Found(prior, ref)
      modifies this
      ensures Valid() && m == Apply(old(m), Destroy(fate))
    {
      if prior.Some? && prior.value.box == box && !fate.Refused? {
        copies := copies - {prior.value.uid};
      }
      Note(Destroy(fate));
    }

    /** APPEND first, so that a failure leaves a duplicate and never nothing. */
    method SaveDraft(mid: Option<nat>, prior: Option<Ref>, t: Turn) returns (r: Result<Ref, SaveError>)
      requires Valid() && m.pc.Idle? && prior == m.stored
      modifies this
      ensures Valid() && present == old(present) && stored == old(stored) && box == old(box)
      ensures r.Ok? <==> t.hasDrafts && mid.Some? && t.append.Done? && t.lookup
      ensures r.Ok? ==> m.pc == Cleaned(r.value) && r.value.box == box && r.value.uid == old(uidnext) && old(uidnext) in copies
      ensures r.Ok? ==> copies == if prior.Some? && prior.value.box == box && !t.destroy.Refused?
                                  then old(copies)[old(uidnext) := mid.value] - {prior.value.uid}
                                  else old(copies)[old(uidnext) := mid.value]
      ensures r.Err? ==> m.pc.Idle?
      ensures r.Err? ==> r.error == if !t.hasDrafts then NoMailbox else if mid.None? then NoMessageId
                                    else if t.append.Done? then LookupFailed else AppendFailed
      ensures r.Err? ==> copies == if !t.hasDrafts || mid.None? || t.append.Refused? then old(copies)
                                   else old(copies)[old(uidnext) := mid.value]
      ensures copies == old(copies) || old(uidnext) in copies
    {
      if !t.hasDrafts {
        return Err(NoMailbox);
      }
      if mid.None? {
        return Err(NoMessageId);
      }
      r := Write(mid.value, prior, t);
    }

    /** The prior id in hand, the bytes go to the server. */
    method AppendCopy(mid: nat, prior: Option<Ref>, fate: Fate) returns (ok: bool)
      requires Valid() && m.pc.Idle? && prior == m.stored
      modifies this`copies, this`uidnext, this`m, this`states, this`events
      ensures Valid() && (ok <==> fate.Done?) && m.pc == if ok then Appended(prior, mid) else Idle
      ensures copies == if fate.Refused? then old(copies) else old(copies)[old(uidnext) := mid]
      ensures Inv(m) && OwnInv(m) && forall u | u in old(copies) :: u < old(uidnext)
    {
      Recall();
      Note(Read(mid));
      if !fate.Refused? {
        copies, uidnext := copies[uidnext := mid], uidnext + 1;
      }
      Note(Append(fate));
      Recall();
      ok := fate.Done?;
    }

    method Write(mid: nat, prior: Option<Ref>, t: Turn) returns (r: Result<Ref, SaveError>)
      requires Valid() && m.pc.Idle? && prior == m.stored && t.hasDrafts
      modifies this
      ensures Valid() && present == old(present) && stored == old(stored) && box == old(box)
      ensures r.Ok? <==> t.append.Done? && t.lookup
      ensures r.Ok? ==> m.pc == Cleaned(r.value) && r.value.box == box && r.value.uid == old(uidnext) && old(uidnext) in copies
      ensures r.Ok? ==> copies == if prior.Some? && prior.value.box == box && !t.destroy.Refused?
                                  then old(copies)[old(uidnext) := mid] - {prior.value.uid}
                                  else old(copies)[old(uidnext) := mid]
      ensures r.Err? ==> m.pc.Idle?
      ensures r.Err? ==> copies == if t.append.Refused? then old(copies) else old(copies)[old(uidnext) := mid]
      ensures r.Err? ==> r.error == if t.append.Done? then LookupFailed else AppendFailed
      ensures copies == old(copies) || old(uidnext) in copies
    {
      ghost var next, before := uidnext, copies;
      var appended := AppendCopy(mid, prior, t.append);
      if !appended {
        return Err(AppendFailed);
      }
      var uid := Newest(mid);
      assert Carries(copies, next, mid);
      if uid.Some? {
        NewestIsNew(before, next, mid, uid.value);
      }
      if !t.lookup || uid.None? {
        Note(LookupFails);
        return Err(LookupFailed);
      }
      Note(Lookup(uid.value));
      Recall();
      DestroyPrior(prior, Ref(box, uid.value), t.destroy);
      r := Ok(Ref(box, uid.value));
    }

    /** The dispatch arm. The prior id is read when the row is sent, not when it
        was enqueued; a discarded draft's update touches no row and is fine. */
    method Dispatch(mid: Option<nat>, t: Turn) returns (r: Result<(), SaveError>)
      requires Valid() && m.pc.Idle?
      modifies this
      ensures Valid() && m.pc.Idle? && box == old(box) && present == old(present)
      ensures r.Ok? && present ==> stored == Some(Ref(box, old(uidnext)))
      ensures r.Ok? ==> old(uidnext) in copies
      ensures r.Err? ==> stored == old(stored)
      ensures r == if !t.hasDrafts then Err(NoMailbox) else if mid.None? then Err(NoMessageId)
                   else if !t.append.Done? then Err(AppendFailed) else if !t.lookup then Err(LookupFailed)
                   else if !t.store then Err(StoreFailed) else Ok(())
      ensures old(copies) != map[] ==> copies != map[]
      ensures |copies| <= 1 + m.failedDestroys + m.untracked
    {
      ghost var before := |events|;
      var prior := stored;
      var saved := SaveDraft(mid, prior, t);
      if saved.Err? {
        r := Err(saved.error);
      } else if t.store {
        stored := if present then Some(saved.value) else stored;
        Note(StoreId(true));
        r := Ok(());
      } else {
        Note(StoreId(false));
        r := Err(StoreFailed);
      }
      Recall();
    }
  }
}

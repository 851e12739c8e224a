/** One IMAP mailbox as its clients can observe it.

    UIDs are strictly ascending and never reused while UIDVALIDITY stays the
    same (section 2.3.1.1 of RFC 3501); every flag change and every arrival
    gets a mod-sequence above all earlier ones (sections 3.1.2.1 and 3.1.4.1 of
    RFC 7162). */
module Imap {
  datatype Flag = Seen | Flagged | Answered | Draft | Forwarded

  type Flags = set<Flag>

  /** The identity packed into a stored message id: UIDVALIDITY and UID. */
  datatype MsgId = MsgId(uv: nat, uid: nat)

  datatype Msg = Msg(flags: Flags, modseq: nat)

  datatype Server = Server(uv: nat, uidnext: nat, hms: nat, msgs: map<nat, Msg>)

  predicate ValidServer(s: Server) {
    && s.uidnext >= 1
    && s.hms >= 1
    && forall u | u in s.msgs :: 1 <= u < s.uidnext && 1 <= s.msgs[u].modseq <= s.hms
  }

  /** What other clients and the server itself do to the mailbox. */
  datatype ServerEvent =
    | Append(uid: nat, flags: Flags)
    | SetFlags(uid: nat, flags: Flags)
    | Expunge(uid: nat)
    | Reset(reborn: Server)

  predicate Enabled(s: Server, e: ServerEvent) {
    match e
    case Append(u, _) => u >= s.uidnext
    case SetFlags(u, _) => u in s.msgs
    case Expunge(u) => u in s.msgs
    case Reset(t) => ValidServer(t) && t.uv > s.uv
  }

  function After(s: Server, e: ServerEvent): (t: Server)
    requires ValidServer(s) && Enabled(s, e)
    ensures ValidServer(t)
  {
    match e
    case Append(u, f) =>
      Server(s.uv, u + 1, s.hms + 1, s.msgs[u := Msg(f, s.hms + 1)])
    case SetFlags(u, f) =>
      s.(hms := s.hms + 1, msgs := s.msgs[u := Msg(f, s.hms + 1)])
    case Expunge(u) =>
      s.(hms := s.hms + 1, msgs := s.msgs - {u})
    case Reset(t) => t
  }

  predicate Live(s: Server, id: MsgId) {
    id.uv == s.uv && id.uid in s.msgs
  }

  /** Ids of every live message: what `UID SEARCH ALL` answers. */
  function LiveIds(s: Server): (ids: set<MsgId>)
    ensures forall id :: id in ids <==> Live(s, id)
  {
    set u | u in s.msgs :: MsgId(s.uv, u)
  }
}

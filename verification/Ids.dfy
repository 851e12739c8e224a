/** The string identifiers: accounts, account-scoped folders, and IMAP messages. */
module Ids {
  import opened Wrappers
  import opened Text
  import opened Decimal

  const SCOPE_SEP: char := '|'

  // ---------- splitting ----------

  /** `splitn`: at most `n` pieces, the last holding the rest. */
  function SplitN(s: string, n: nat, c: char): (parts: seq<string>)
    ensures |parts| <= n
    decreases n
  {
    if n == 0 then []
    else if n == 1 then [s]
    else
      match SplitOnce(s, c)
      case None => [s]
      case Some((head, rest)) => [head] + SplitN(rest, n - 1, c)
  }

  /** A piece, the separator, and what follows. */
  function Before(head: string, rest: string): string {
    head + [SCOPE_SEP] + rest
  }

  // ---------- accounts ----------

  predicate IsControl(c: char) {
    c <= '\U{1F}' || '\U{7F}' <= c <= '\U{9F}'
  }

  predicate SlugChar(c: char) {
    'a' <= c <= 'z' || 'A' <= c <= 'Z' || '0' <= c <= '9' || c == '-' || c == '_'
  }

  predicate BadEmailChar(c: char) {
    IsSpace(c) || IsControl(c) || c == SCOPE_SEP
  }

  datatype AccountError = EmptyEmail | BadCharacter | NotAnAddress | BadSlug

  predicate IsAddress(email: string) {
    match SplitOnce(email, '@')
    case None => false
    case Some((local, domain)) => local != [] && domain != [] && '@' !in domain
  }

  function ForProvider(provider: string, typed: string): Result<string, AccountError> {
    var email := Trim(typed);
    if email == [] then Err(EmptyEmail)
    else if exists i | 0 <= i < |email| :: BadEmailChar(email[i]) then Err(BadCharacter)
    else if !IsAddress(email) then Err(NotAnAddress)
    else if provider == [] || exists i | 0 <= i < |provider| :: !SlugChar(provider[i]) then Err(BadSlug)
    else Ok(provider + ":" + email)
  }

  /** A minted account id has no separator in it, and names one provider and one
      address. */
  lemma AccountIdsAreClean(p: string, typed: string)
    requires ForProvider(p, typed).Ok?
    ensures SCOPE_SEP !in ForProvider(p, typed).value
    ensures SplitOnce(ForProvider(p, typed).value, ':') == Some((p, Trim(typed)))
  {
    var email := Trim(typed);
    var id := p + ":" + email;
    assert ':' !in p by {
      assert forall i | 0 <= i < |p| :: SlugChar(p[i]);
    }
    assert forall i | 0 <= i < |email| :: !BadEmailChar(email[i]);
    assert forall i | 0 <= i < |p| :: SlugChar(p[i]);
    assert id == p + [':'] + email;
    FirstAt(p, ':', email);
  }

  /** A part of an address that can be minted: no space, no control character, no
      separator, no second at sign. */
  predicate CleanPart(s: string) {
    s != [] && forall i | 0 <= i < |s| ::
      !IsSpace(s[i]) && !('\U{0}' <= s[i] <= '\U{1F}') && !('\U{7F}' <= s[i] <= '\U{9F}') && s[i] != '|' && s[i] != '@'
  }

  predicate PlainSlug(p: string) {
    p != [] && forall i | 0 <= i < |p| ::
      'a' <= p[i] <= 'z' || 'A' <= p[i] <= 'Z' || '0' <= p[i] <= '9' || p[i] == '-' || p[i] == '_'
  }

  /** The typed text is white space around `local@domain`. */
  ghost predicate TypedAddress(typed: string, local: string, domain: string) {
    && CleanPart(local) && CleanPart(domain)
    && exists pre, post :: AllSpace(pre) && AllSpace(post) && typed == pre + (local + ['@'] + domain) + post
  }

  lemma CleanAddress(local: string, domain: string, email: string)
    requires CleanPart(local) && CleanPart(domain) && email == local + ['@'] + domain
    ensures IsAddress(email) && forall i | 0 <= i < |email| :: !BadEmailChar(email[i])
  {
    FirstAt(local, '@', domain);
    forall i | 0 <= i < |email| ensures !BadEmailChar(email[i]) {
      assert i < |local| ==> email[i] == local[i];
      assert i > |local| ==> email[i] == domain[i - |local| - 1];
    }
  }

  lemma MintsAddress(p: string, typed: string, local: string, domain: string)
    requires PlainSlug(p) && TypedAddress(typed, local, domain)
    ensures ForProvider(p, typed) == Ok(p + ":" + (local + ['@'] + domain))
  {
    var email := local + ['@'] + domain;
    var pre, post :| AllSpace(pre) && AllSpace(post) && typed == pre + email + post;
    CleanAddress(local, domain, email);
    assert !BadEmailChar(email[0]) && !BadEmailChar(email[|email| - 1]);
    TrimOfPadded(pre, email, post);
  }

  lemma MintedWasAddress(p: string, typed: string) returns (local: string, domain: string)
    requires ForProvider(p, typed).Ok?
    ensures PlainSlug(p) && TypedAddress(typed, local, domain)
  {
    var email := Trim(typed);
    var at := First(email, '@');
    local, domain := email[..at], email[at + 1..];
    assert email == local + ['@'] + domain;
    var pre, post := TrimPads(typed);
    forall i | 0 <= i < |p| ensures SlugChar(p[i]) {
    }
    forall i | 0 <= i < |email| ensures !BadEmailChar(email[i]) {
    }
    assert forall i | 0 <= i < |domain| :: domain[i] == email[at + 1 + i];
    assert typed == pre + (local + ['@'] + domain) + post;
  }

  /** An id is minted exactly for a plain provider name and white space around one
      clean `local@domain`, and it is made of just these. */
  lemma MintsExactly(p: string, typed: string)
    ensures ForProvider(p, typed).Ok? <==> PlainSlug(p) && exists local, domain :: TypedAddress(typed, local, domain)
    ensures forall local, domain | PlainSlug(p) && TypedAddress(typed, local, domain) ::
              ForProvider(p, typed) == Ok(p + ":" + (local + ['@'] + domain))
  {
    forall local, domain | PlainSlug(p) && TypedAddress(typed, local, domain)
      ensures ForProvider(p, typed) == Ok(p + ":" + (local + ['@'] + domain))
    {
      MintsAddress(p, typed, local, domain);
    }
    if ForProvider(p, typed).Ok? {
      var local, domain := MintedWasAddress(p, typed);
    }
  }

  lemma AccountIdsAreInjective(p: string, typed: string, q: string, other: string)
    requires ForProvider(p, typed).Ok? && ForProvider(p, typed) == ForProvider(q, other)
    ensures p == q && Trim(typed) == Trim(other)
  {
    AccountIdsAreClean(p, typed);
    AccountIdsAreClean(q, other);
  }

  // ---------- folders ----------

  function Scoped(account: string, key: string): string {
    account + [SCOPE_SEP] + key
  }

  function StripPrefix(s: string, prefix: string): Option<string> {
    if prefix <= s then Some(s[|prefix|..]) else None
  }

  /** The name on the wire; an id of another account comes back unchanged. */
  function BackendKey(id: string, account: string): string {
    match StripPrefix(id, account)
    case None => id
    case Some(rest) =>
      var key := StripPrefix(rest, [SCOPE_SEP]);
      if key.Some? then key.value else id
  }

  function DisplayKey(id: string): string {
    var parts := SplitOnce(id, SCOPE_SEP);
    if parts.Some? then parts.value.1 else id
  }

  lemma KeyOfScoped(account: string, key: string)
    ensures BackendKey(Scoped(account, key), account) == key
  {
    var id := Scoped(account, key);
    assert id[..|account|] == account;
    assert id[|account|..] == [SCOPE_SEP] + key;
  }

  lemma DisplayOfScoped(account: string, key: string)
    requires SCOPE_SEP !in account
    ensures DisplayKey(Scoped(account, key)) == key
  {
    FirstAt(account, SCOPE_SEP, key);
  }

  lemma ScopedIsInjective(a: string, k: string, b: string, l: string)
    requires SCOPE_SEP !in a && SCOPE_SEP !in b
    ensures Scoped(a, k) == Scoped(b, l) <==> a == b && k == l
  {
    FirstAt(a, SCOPE_SEP, k);
    FirstAt(b, SCOPE_SEP, l);
  }

  /** The wrong account leaves the id as it is, so it never addresses another
      account's mailbox by accident. */
  lemma WrongAccountKeepsId(account: string, key: string, other: string)
    requires SCOPE_SEP !in account && SCOPE_SEP !in other && account != other
    ensures BackendKey(Scoped(account, key), other) == Scoped(account, key)
  {
    FirstAt(account, SCOPE_SEP, key);
  }

  // ---------- messages ----------

  datatype MessageRef = MessageRef(uidvalidity: nat, uid: nat, folder: string)

  datatype RefError = NotImap | BadUidValidity | BadUid

  predicate FitsU32(r: MessageRef) {
    r.uidvalidity <= U32_MAX && r.uid <= U32_MAX
  }

  /** `imap|<uidvalidity>|<uid>|<folder>` */
  function Encode(r: MessageRef): string {
    Four("imap", Digits(r.uidvalidity), Digits(r.uid), r.folder)
  }

  function Four(a: string, b: string, c: string, d: string): string {
    Before(a, Before(b, Before(c, d)))
  }

  function Decode(s: string): Result<MessageRef, RefError> {
    var parts := SplitN(s, 4, SCOPE_SEP);
    if |parts| < 4 || parts[0] != "imap" then Err(NotImap)
    else
      var uv, uid := ParseU32(parts[1]), ParseU32(parts[2]);
      if uv.None? then Err(BadUidValidity)
      else if uid.None? then Err(BadUid)
      else Ok(MessageRef(uv.value, uid.value, parts[3]))
  }

  lemma SplitBefore(head: string, rest: string, n: nat)
    requires SCOPE_SEP !in head && n > 1
    ensures SplitN(Before(head, rest), n, SCOPE_SEP) == [head] + SplitN(rest, n - 1, SCOPE_SEP)
  {
    FirstAt(head, SCOPE_SEP, rest);
  }

  lemma SplitFour(a: string, b: string, c: string, d: string)
    requires SCOPE_SEP !in a && SCOPE_SEP !in b && SCOPE_SEP !in c
    ensures SplitN(Four(a, b, c, d), 4, SCOPE_SEP) == [a, b, c, d]
  {
    SplitBefore(a, Before(b, Before(c, d)), 4);
    SplitBefore(b, Before(c, d), 3);
    SplitBefore(c, d, 2);
  }

  /** Every reference survives, whatever its folder name contains. */
  lemma DecodeEncode(r: MessageRef)
    requires FitsU32(r)
    ensures Decode(Encode(r)) == Ok(r)
  {
    SplitFour("imap", Digits(r.uidvalidity), Digits(r.uid), r.folder);
    ParseDigits(r.uidvalidity);
    ParseDigits(r.uid);
  }

  lemma EncodeIsInjective(r: MessageRef, q: MessageRef)
    requires FitsU32(r) && FitsU32(q)
    ensures Encode(r) == Encode(q) <==> r == q
  {
    DecodeEncode(r);
    DecodeEncode(q);
  }

  lemma SplitRejoins(s: string, n: nat) returns (head: string, rest: string)
    requires n > 1 && |SplitN(s, n, SCOPE_SEP)| > 1
    ensures SCOPE_SEP !in head && s == Before(head, rest)
    ensures SplitN(s, n, SCOPE_SEP) == [head] + SplitN(rest, n - 1, SCOPE_SEP)
  {
    var i := First(s, SCOPE_SEP);
    head, rest := s[..i], s[i + 1..];
  }

  lemma FourRejoins(s: string) returns (a: string, b: string, c: string, d: string)
    requires |SplitN(s, 4, SCOPE_SEP)| == 4
    ensures SCOPE_SEP !in b && SCOPE_SEP !in c && s == Four(a, b, c, d)
    ensures SplitN(s, 4, SCOPE_SEP) == [a, b, c, d]
  {
    var t, u;
    a, t := SplitRejoins(s, 4);
    b, u := SplitRejoins(t, 3);
    c, d := SplitRejoins(u, 2);
  }

  /** What decodes is exactly four pieces with readable numbers; the text they are
      written in need not be the canonical one. */
  lemma DecodesExactly(s: string, r: MessageRef)
    ensures Decode(s) == Ok(r) <==>
            exists uv, uid :: SCOPE_SEP !in uv && SCOPE_SEP !in uid && s == Four("imap", uv, uid, r.folder)
                              && ParseU32(uv) == Some(r.uidvalidity) && ParseU32(uid) == Some(r.uid)
  {
    if Decode(s) == Ok(r) {
      var a, b, c, d := FourRejoins(s);
    } else {
      forall uv, uid | SCOPE_SEP !in uv && SCOPE_SEP !in uid && s == Four("imap", uv, uid, r.folder)
        ensures ParseU32(uv) != Some(r.uidvalidity) || ParseU32(uid) != Some(r.uid)
      {
        SplitFour("imap", uv, uid, r.folder);
      }
    }
  }

  /** The wire name comes back from a message id with the right account, and only
      with it. */
  lemma MailboxThroughMessageId(account: string, key: string, uv: nat, uid: nat, other: string)
    requires SCOPE_SEP !in account && SCOPE_SEP !in other && uv <= U32_MAX && uid <= U32_MAX
    ensures var r := Decode(Encode(MessageRef(uv, uid, Scoped(account, key))));
            && r.Ok? && BackendKey(r.value.folder, account) == key
            && (BackendKey(r.value.folder, other) == if other == account then key else Scoped(account, key))
  {
    DecodeEncode(MessageRef(uv, uid, Scoped(account, key)));
    KeyOfScoped(account, key);
    if other != account {
      WrongAccountKeepsId(account, key, other);
    }
  }
}

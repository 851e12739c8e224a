/** Removing the Bcc header before a message goes to SMTP.

    The reference reads the message as RFC 5322 does: lines, a header block up to
    the first empty line, and fields made of a line and the continuation lines
    folded under it (section 2.2.3). */
module StripBcc {
  import opened Wrappers

  newtype byte = x: int | 0 <= x < 256

  type Bytes = seq<byte>

  const LF: byte := 10
  const CR: byte := 13
  const SPACE: byte := 32
  const TAB: byte := 9

  // ---------- lines ----------

  /** One past the next line terminator, or the whole length. */
  function LineEnd(s: Bytes, i: nat): (n: nat)
    requires i <= |s|
    ensures i <= n <= |s| && (i < |s| ==> i < n)
    ensures forall j | i <= j < n - 1 :: s[j] != LF
    ensures n < |s| ==> s[n - 1] == LF
    decreases |s| - i
  {
    if i == |s| then i else if s[i] == LF then i + 1 else LineEnd(s, i + 1)
  }

  function LinesFrom(s: Bytes, i: nat): seq<Bytes>
    requires i <= |s|
    decreases |s| - i
  {
    if i == |s| then [] else [s[i..LineEnd(s, i)]] + LinesFrom(s, LineEnd(s, i))
  }

  function Lines(s: Bytes): seq<Bytes> {
    LinesFrom(s, 0)
  }

  function Text(ls: seq<Bytes>): Bytes {
    if ls == [] then [] else ls[0] + Text(ls[1..])
  }

  predicate IsLine(l: Bytes) {
    l != [] && forall i | 0 <= i < |l| - 1 :: l[i] != LF
  }

  predicate Ended(l: Bytes) {
    l != [] && l[|l| - 1] == LF
  }

  /** Lines that a text can be cut into: only the last may lack its terminator. */
  predicate AreLines(ls: seq<Bytes>) {
    && (forall i | 0 <= i < |ls| :: IsLine(ls[i]))
    && (forall i | 0 <= i < |ls| - 1 :: Ended(ls[i]))
  }

  lemma ConsLines(l: Bytes, ls: seq<Bytes>)
    requires IsLine(l) && (ls == [] || Ended(l)) && AreLines(ls)
    ensures AreLines([l] + ls) && Text([l] + ls) == l + Text(ls)
  {
    var all := [l] + ls;
    assert all[1..] == ls;
    assert forall i | 1 <= i < |all| :: all[i] == ls[i - 1];
  }

  lemma {:induction false} LinesFromAreLines(s: Bytes, i: nat)
    requires i <= |s|
    ensures AreLines(LinesFrom(s, i)) && Text(LinesFrom(s, i)) == s[i..]
    decreases |s| - i
  {
    if i < |s| {
      var n := LineEnd(s, i);
      LinesFromAreLines(s, n);
      ConsLines(s[i..n], LinesFrom(s, n));
      assert s[i..n] + s[n..] == s[i..];
    }
  }

  lemma LinesAreLines(s: Bytes)
    ensures AreLines(Lines(s)) && Text(Lines(s)) == s
  {
    LinesFromAreLines(s, 0);
    assert s[0..] == s;
  }

  lemma LineEndIs(s: Bytes, i: nat, n: nat)
    requires i < n <= |s| && (forall j | i <= j < n - 1 :: s[j] != LF) && (n < |s| ==> s[n - 1] == LF)
    ensures LineEnd(s, i) == n
  {
  }

  lemma AfterLine(before: Bytes, l: Bytes, rest: Bytes)
    requires IsLine(l) && (rest == [] || Ended(l))
    ensures LineEnd(before + l + rest, |before|) == |before| + |l|
    ensures (before + l + rest)[|before|..|before| + |l|] == l
  {
    var s := before + l + rest;
    assert forall j | 0 <= j < |l| :: s[|before| + j] == l[j];
    LineEndIs(s, |before|, |before| + |l|);
  }

  lemma {:induction false} LinesAfter(before: Bytes, ls: seq<Bytes>)
    requires AreLines(ls)
    ensures LinesFrom(before + Text(ls), |before|) == ls
    decreases |ls|
  {
    if ls == [] {
      assert before + Text(ls) == before;
    } else {
      var rest := Text(ls[1..]);
      AfterLine(before, ls[0], rest);
      assert before + ls[0] + rest == before + Text(ls);
      TailLines(ls);
      LinesAfter(before + ls[0], ls[1..]);
      assert ls == [ls[0]] + ls[1..];
    }
  }

  lemma TailLines(ls: seq<Bytes>)
    requires AreLines(ls) && ls != []
    ensures AreLines(ls[1..]) && IsLine(ls[0]) && (Text(ls[1..]) == [] || Ended(ls[0]))
  {
  }

  lemma LinesOfText(ls: seq<Bytes>)
    requires AreLines(ls)
    ensures Lines(Text(ls)) == ls
  {
    LinesAfter([], ls);
    assert [] + Text(ls) == Text(ls);
  }

  lemma {:induction false} TextJoins(a: seq<Bytes>, b: seq<Bytes>)
    ensures Text(a + b) == Text(a) + Text(b)
  {
    if a == [] {
      assert a + b == b;
    } else {
      assert (a + b)[1..] == a[1..] + b;
      TextJoins(a[1..], b);
    }
  }

  // ---------- header and fields ----------

  predicate Blank(l: Bytes) {
    l == [CR, LF] || l == [LF]
  }

  /** How many lines stand before the first empty one. */
  function HeaderCount(ls: seq<Bytes>): (n: nat)
    ensures n <= |ls| && (forall i | 0 <= i < n :: !Blank(ls[i])) && (n < |ls| ==> Blank(ls[n]))
  {
    if ls == [] || Blank(ls[0]) then 0 else 1 + HeaderCount(ls[1..])
  }

  function HeaderLines(s: Bytes): seq<Bytes> {
    Lines(s)[..HeaderCount(Lines(s))]
  }

  /** The empty line and everything after it. */
  function Body(s: Bytes): Bytes {
    Text(Lines(s)[HeaderCount(Lines(s))..])
  }

  predicate Continues(l: Bytes) {
    l != [] && (l[0] == SPACE || l[0] == TAB)
  }

  type Field = seq<Bytes>

  /** Lines grouped into fields; a leading continuation stands alone. */
  function Fields(ls: seq<Bytes>): (fs: seq<Field>)
    ensures forall i | 0 <= i < |fs| :: fs[i] != []
    ensures ls != [] ==> fs != []
    decreases |ls|
  {
    if ls == [] then []
    else
      var fs, l := Fields(ls[..|ls| - 1]), ls[|ls| - 1];
      if Continues(l) && fs != [] then fs[..|fs| - 1] + [fs[|fs| - 1] + [l]] else fs + [[l]]
  }

  function Lower(b: byte): byte {
    if 65 <= b <= 90 then b + 32 else b
  }

  /** The bytes start with `bcc:` in any case. */
  predicate StartsBcc(s: Bytes) {
    |s| >= 4 && Lower(s[0]) == 98 && Lower(s[1]) == 99 && Lower(s[2]) == 99 && s[3] == 58
  }

  /** A Bcc field (section 3.6.3), read off the field's whole text. */
  predicate IsBcc(f: Field) {
    StartsBcc(Text(f))
  }

  lemma BccByFirstLine(f: Field)
    requires f != [] && IsLine(f[0]) && (|f| > 1 ==> Ended(f[0]))
    ensures IsBcc(f) <==> StartsBcc(f[0])
  {
    assert Text(f) == f[0] + Text(f[1..]);
    if |f[0]| < 4 && |f| > 1 {
      assert f[0][|f[0]| - 1] == LF;
    }
  }

  function WithoutBcc(fs: seq<Field>): (r: seq<Field>)
    ensures forall f | f in r :: !IsBcc(f)
  {
    if fs == [] then []
    else if IsBcc(fs[|fs| - 1]) then WithoutBcc(fs[..|fs| - 1])
    else WithoutBcc(fs[..|fs| - 1]) + [fs[|fs| - 1]]
  }

  function Flat(fs: seq<Field>): seq<Bytes> {
    if fs == [] then [] else Flat(fs[..|fs| - 1]) + fs[|fs| - 1]
  }

  /** The reference: the non-Bcc fields in order, then the body untouched. */
  function Stripped(s: Bytes): Bytes {
    Text(Flat(WithoutBcc(Fields(HeaderLines(s))))) + Body(s)
  }

  // ---------- one line at a time ----------

  function Kept(ls: seq<Bytes>): seq<Bytes> {
    Flat(WithoutBcc(Fields(ls)))
  }

  predicate Skipping(ls: seq<Bytes>) {
    var fs := Fields(ls);
    fs != [] && IsBcc(fs[|fs| - 1])
  }

  predicate AllEnded(ls: seq<Bytes>) {
    forall l | l in ls :: IsLine(l) && Ended(l)
  }

  lemma FieldsOneMore(ls: seq<Bytes>, l: Bytes)
    ensures Fields(ls + [l]) ==
            var fs := Fields(ls);
            if Continues(l) && fs != [] then fs[..|fs| - 1] + [fs[|fs| - 1] + [l]] else fs + [[l]]
  {
    assert (ls + [l])[..|ls|] == ls;
  }

  /** Every field starts with one of the lines. */
  predicate HeadsIn(fs: seq<Field>, ls: seq<Bytes>) {
    forall i | 0 <= i < |fs| :: fs[i] != [] && fs[i][0] in ls
  }

  lemma HeadsWiden(fs: seq<Field>, ls: seq<Bytes>, l: Bytes)
    requires HeadsIn(fs, ls)
    ensures HeadsIn(fs, ls + [l]) && HeadsIn(fs + [[l]], ls + [l])
    ensures fs != [] ==> HeadsIn(fs[..|fs| - 1] + [fs[|fs| - 1] + [l]], ls + [l])
  {
  }

  lemma {:induction false} FieldHeads(ls: seq<Bytes>)
    ensures HeadsIn(Fields(ls), ls)
    decreases |ls|
  {
    if ls != [] {
      var before, l := ls[..|ls| - 1], ls[|ls| - 1];
      assert ls == before + [l];
      FieldHeads(before);
      HeadsWiden(Fields(before), before, l);
      FieldsOneMore(before, l);
    }
  }

  lemma LongerField(f: Field, l: Bytes)
    requires f != [] && IsLine(f[0]) && Ended(f[0])
    ensures IsBcc(f + [l]) <==> IsBcc(f)
  {
    BccByFirstLine(f);
    BccByFirstLine(f + [l]);
  }

  lemma WithoutOneMore(fs: seq<Field>, f: Field)
    ensures WithoutBcc(fs + [f]) == if IsBcc(f) then WithoutBcc(fs) else WithoutBcc(fs) + [f]
    ensures Flat(fs + [f]) == Flat(fs) + f
  {
    assert (fs + [f])[..|fs|] == fs;
  }

  lemma LoneField(l: Bytes)
    ensures IsBcc([l]) <==> StartsBcc(l)
  {
    assert Text([l]) == l + Text([]);
  }

  /** A continuation joins the field in progress. */
  lemma JoinField(front: seq<Field>, f: Field, l: Bytes)
    requires IsBcc(f + [l]) <==> IsBcc(f)
    ensures Flat(WithoutBcc(front + [f + [l]])) == Flat(WithoutBcc(front + [f])) + if IsBcc(f) then [] else [l]
    ensures var w := WithoutBcc(front + [f]);
            && WithoutBcc(front + [f + [l]]) == (if IsBcc(f) || w == [] then w else w[..|w| - 1] + [w[|w| - 1] + [l]])
            && (!IsBcc(f) ==> w != [])
  {
    AppendField(front, f);
    AppendField(front, f + [l]);
    var t := Flat(WithoutBcc(front));
    assert t + (f + [l]) == (t + f) + [l];
  }

  lemma ContinueFields(ls: seq<Bytes>, l: Bytes) returns (front: seq<Field>, f: Field)
    requires AllEnded(ls) && Continues(l) && ls != []
    ensures Fields(ls) == front + [f] && Fields(ls + [l]) == front + [f + [l]]
    ensures IsBcc(f + [l]) <==> IsBcc(f)
  {
    FieldsOneMore(ls, l);
    FieldHeads(ls);
    var fs := Fields(ls);
    front, f := fs[..|fs| - 1], fs[|fs| - 1];
    LongerField(f, l);
  }

  lemma LastField(front: seq<Field>, f: Field)
    ensures (front + [f])[|front + [f]| - 1] == f
  {
  }

  lemma ContinueKept(ls: seq<Bytes>, l: Bytes)
    requires AllEnded(ls) && Continues(l) && ls != []
    ensures Skipping(ls + [l]) == Skipping(ls)
    ensures Kept(ls + [l]) == Kept(ls) + if Skipping(ls) then [] else [l]
    ensures WithoutBcc(Fields(ls + [l])) ==
            var w := WithoutBcc(Fields(ls));
            if Skipping(ls) || w == [] then w else w[..|w| - 1] + [w[|w| - 1] + [l]]
    ensures !Skipping(ls) ==> WithoutBcc(Fields(ls)) != []
  {
    var front, f := ContinueFields(ls, l);
    LastField(front, f);
    LastField(front, f + [l]);
    JoinField(front, f, l);
  }

  /** Any other line starts a field. */
  lemma StartKept(ls: seq<Bytes>, l: Bytes)
    requires !Continues(l) || ls == []
    ensures Skipping(ls + [l]) == StartsBcc(l)
    ensures Kept(ls + [l]) == Kept(ls) + if StartsBcc(l) then [] else [l]
    ensures WithoutBcc(Fields(ls + [l])) == WithoutBcc(Fields(ls)) + if StartsBcc(l) then [] else [[l]]
  {
    var fs, f := Fields(ls), [l];
    FieldsOneMore(ls, l);
    assert Fields(ls + [l]) == fs + [f];
    LoneField(l);
    AppendField(fs, f);
  }

  lemma AppendField(fs: seq<Field>, f: Field)
    ensures WithoutBcc(fs + [f]) == WithoutBcc(fs) + if IsBcc(f) then [] else [f]
    ensures Flat(WithoutBcc(fs + [f])) == Flat(WithoutBcc(fs)) + if IsBcc(f) then [] else f
    ensures (fs + [f])[|fs + [f]| - 1] == f
  {
    WithoutOneMore(fs, f);
    WithoutOneMore(WithoutBcc(fs), f);
  }

  predicate Skips(ls: seq<Bytes>, l: Bytes) {
    if Continues(l) && ls != [] then Skipping(ls) else StartsBcc(l)
  }

  lemma KeptOneMore(ls: seq<Bytes>, l: Bytes)
    requires AllEnded(ls)
    ensures Skipping(ls + [l]) == Skips(ls, l)
    ensures Kept(ls + [l]) == Kept(ls) + if Skips(ls, l) then [] else [l]
  {
    if Continues(l) && ls != [] {
      ContinueKept(ls, l);
    } else {
      StartKept(ls, l);
    }
  }

  /** The fields of what is kept are the fields kept. */
  lemma {:induction false} FieldsOfKept(ls: seq<Bytes>)
    requires AreLines(ls)
    ensures Fields(Kept(ls)) == WithoutBcc(Fields(ls))
    ensures forall l | l in Kept(ls) :: l in ls
    decreases |ls|
  {
    if ls != [] {
      var before, l := ls[..|ls| - 1], ls[|ls| - 1];
      assert ls == before + [l];
      FieldsOfKept(before);
      FieldsOneMore(Kept(before), l);
      if Continues(l) && before != [] {
        ContinueKept(before, l);
      } else {
        StartKept(before, l);
      }
    }
  }

  lemma {:induction false} WithoutTwice(fs: seq<Field>)
    ensures WithoutBcc(WithoutBcc(fs)) == WithoutBcc(fs)
  {
    if fs != [] {
      var front, f := fs[..|fs| - 1], fs[|fs| - 1];
      WithoutTwice(front);
      WithoutOneMore(WithoutBcc(front), f);
    }
  }

  // ---------- what the reference promises ----------

  lemma {:induction false} CountOf(header: seq<Bytes>, body: seq<Bytes>)
    requires (forall i | 0 <= i < |header| :: !Blank(header[i])) && (body == [] || Blank(body[0]))
    ensures HeaderCount(header + body) == |header|
  {
    if header == [] {
      assert header + body == body;
    } else {
      assert (header + body)[1..] == header[1..] + body;
      CountOf(header[1..], body);
    }
  }

  lemma KeptAreLines(header: seq<Bytes>, body: seq<Bytes>)
    requires AreLines(header + body) && body != []
    ensures AreLines(Kept(header) + body)
  {
    var ls := header + body;
    assert forall i | 0 <= i < |header| :: header[i] == ls[i];
    assert forall i | 0 <= i < |body| :: body[i] == ls[|header| + i];
    FieldsOfKept(header);
    var all := Kept(header) + body;
    forall i | 0 <= i < |all| ensures IsLine(all[i]) && (i < |all| - 1 ==> Ended(all[i])) {
      if i < |Kept(header)| {
        assert all[i] in header;
      } else {
        assert all[i] == body[i - |Kept(header)|];
      }
    }
  }

  lemma {:induction false} KeptStaysLines(ls: seq<Bytes>)
    requires AreLines(ls)
    ensures AreLines(Kept(ls))
    decreases |ls|
  {
    if ls != [] {
      var before, l := ls[..|ls| - 1], ls[|ls| - 1];
      assert ls == before + [l];
      KeptStaysLines(before);
      FieldsOfKept(before);
      KeptOneMore(before, l);
      OneMoreLine(Kept(before), l);
    }
  }

  lemma OneMoreLine(ls: seq<Bytes>, l: Bytes)
    requires AllEnded(ls) && IsLine(l)
    ensures AreLines(ls + [l])
  {
  }

  predicate IsMessage(header: seq<Bytes>, body: seq<Bytes>) {
    AreLines(header + body) && (forall l | l in header :: !Blank(l)) && (body == [] || Blank(body[0]))
  }

  lemma Reassembled(header: seq<Bytes>, body: seq<Bytes>)
    requires IsMessage(header, body)
    ensures var s := Text(header) + Text(body); HeaderLines(s) == header && Body(s) == Text(body)
  {
    TextJoins(header, body);
    LinesOfText(header + body);
    CountOf(header, body);
    assert (header + body)[..|header|] == header && (header + body)[|header|..] == body;
  }

  lemma KeptIsMessage(header: seq<Bytes>, body: seq<Bytes>)
    requires IsMessage(header, body)
    ensures IsMessage(Kept(header), body)
  {
    if body == [] {
      assert header + body == header && Kept(header) + body == Kept(header);
      KeptStaysLines(header);
    } else {
      KeptAreLines(header, body);
    }
    HeaderOfMessage(header, body);
    FieldsOfKept(header);
  }

  lemma HeaderOfMessage(header: seq<Bytes>, body: seq<Bytes>)
    requires AreLines(header + body)
    ensures AreLines(header)
  {
    var ls := header + body;
    assert forall i | 0 <= i < |header| :: header[i] == ls[i];
  }

  lemma Parted(s: Bytes) returns (body: seq<Bytes>)
    ensures IsMessage(HeaderLines(s), body) && Body(s) == Text(body) && s == Text(HeaderLines(s)) + Body(s)
    ensures AreLines(HeaderLines(s))
  {
    LinesAreLines(s);
    var ls := Lines(s);
    var n := HeaderCount(ls);
    body := ls[n..];
    assert ls[..n] + body == ls;
    TextJoins(ls[..n], body);
    HeaderOfMessage(ls[..n], body);
  }

  /** The output's header fields are the input's without the Bcc ones, in order;
      separator and body are byte for byte the same; nothing is left to remove. */
  lemma StripsExactly(s: Bytes)
    ensures Fields(HeaderLines(Stripped(s))) == WithoutBcc(Fields(HeaderLines(s)))
    ensures forall f | f in Fields(HeaderLines(Stripped(s))) :: !IsBcc(f)
    ensures Body(Stripped(s)) == Body(s)
    ensures Stripped(Stripped(s)) == Stripped(s)
  {
    var body := Parted(s);
    KeptIsMessage(HeaderLines(s), body);
    Reassembled(Kept(HeaderLines(s)), body);
    FieldsOfKept(HeaderLines(s));
    WithoutTwice(Fields(HeaderLines(s)));
  }

  // ---------- which names go ----------

  function Alone(l: Bytes): seq<Bytes> {
    if StartsBcc(l) then [] else [l]
  }

  lemma Associates<T>(a: seq<T>, b: seq<T>, c: seq<T>)
    ensures (a + b) + c == a + (b + c)
  {
  }

  /** The line is kept or dropped by itself; the others are as they would be alone. */
  predicate ByItself(l: Bytes, ls: seq<Bytes>) {
    Kept([l] + ls) == Alone(l) + Kept(ls) && (ls != [] ==> Skipping([l] + ls) == Skipping(ls))
  }

  lemma FirstByItself(l: Bytes)
    ensures ByItself(l, [])
  {
    KeptOneMore([], l);
    assert [l] + [] == [] + [l] && Kept([]) == [];
  }

  lemma NextByItself(l: Bytes, before: seq<Bytes>, x: Bytes)
    requires IsLine(l) && Ended(l) && AllEnded(before) && ByItself(l, before) && (before == [] ==> !Continues(x))
    ensures ByItself(l, before + [x])
  {
    assert AllEnded([l] + before);
    KeptOneMore([l] + before, x);
    KeptOneMore(before, x);
    assert Skips([l] + before, x) == Skips(before, x);
    Associates(Alone(l), Kept(before), if Skips(before, x) then [] else [x]);
    Associates([l], before, [x]);
  }

  lemma {:induction false} EndedByItself(l: Bytes, ls: seq<Bytes>, k: nat)
    requires k <= |ls| && IsLine(l) && Ended(l) && AllEnded(ls[..k]) && (k > 0 ==> !Continues(ls[0]))
    ensures ByItself(l, ls[..k])
  {
    if k == 0 {
      FirstByItself(l);
    } else {
      assert ls[..k] == ls[..k - 1] + [ls[k - 1]];
      EndedByItself(l, ls, k - 1);
      NextByItself(l, ls[..k - 1], ls[k - 1]);
    }
  }

  lemma KeptAfter(l: Bytes, ls: seq<Bytes>)
    requires AreLines([l] + ls) && (ls == [] || !Continues(ls[0]))
    ensures ByItself(l, ls)
  {
    if ls == [] {
      FirstByItself(l);
    } else {
      var k := |ls| - 1;
      LinesButLast(l, ls);
      EndedByItself(l, ls, k);
      NextByItself(l, ls[..k], ls[k]);
      assert ls[..k] + [ls[k]] == ls;
    }
  }

  lemma LinesButLast(l: Bytes, ls: seq<Bytes>)
    requires AreLines([l] + ls) && ls != []
    ensures IsLine(l) && Ended(l) && AllEnded(ls[..|ls| - 1])
  {
    var all := [l] + ls;
    assert all[0] == l;
    assert forall i | 0 <= i < |ls| - 1 :: ls[i] == all[i + 1];
  }

  lemma ShorterMessage(l: Bytes, header: seq<Bytes>, body: seq<Bytes>)
    requires IsMessage([l] + header, body)
    ensures IsMessage(header, body)
  {
    var ls := [l] + header + body;
    assert forall i | 0 <= i < |header + body| :: (header + body)[i] == ls[i + 1];
    assert forall h | h in header :: h in [l] + header;
  }

  lemma TextFirst(l: Bytes, ls: seq<Bytes>)
    ensures Text([l] + ls) == l + Text(ls)
  {
    assert ([l] + ls)[1..] == ls;
  }

  lemma StrippedParts(header: seq<Bytes>, body: seq<Bytes>)
    requires IsMessage(header, body)
    ensures Stripped(Text(header) + Text(body)) == Text(Kept(header)) + Text(body)
  {
    Reassembled(header, body);
  }

  lemma FirstLineOf(l: Bytes, header: seq<Bytes>, body: seq<Bytes>)
    requires IsMessage([l] + header, body)
    ensures Stripped(l + (Text(header) + Text(body))) == Text(Kept([l] + header)) + Text(body)
    ensures Stripped(Text(header) + Text(body)) == Text(Kept(header)) + Text(body)
    ensures AreLines([l] + header)
  {
    HeaderOfMessage([l] + header, body);
    ShorterMessage(l, header, body);
    StrippedParts([l] + header, body);
    StrippedParts(header, body);
    TextFirst(l, header);
    Associates(l, Text(header), Text(body));
  }

  lemma TextAfter(l: Bytes, kept: seq<Bytes>, b: Bytes)
    ensures Text(Alone(l) + kept) + b == if StartsBcc(l) then Text(kept) + b else l + (Text(kept) + b)
  {
    if StartsBcc(l) {
      assert Alone(l) + kept == kept;
    } else {
      TextFirst(l, kept);
      Associates(l, Text(kept), b);
    }
  }

  lemma LineByItself(l: Bytes, header: seq<Bytes>, body: seq<Bytes>)
    requires IsMessage([l] + header, body) && (header == [] || !Continues(header[0]))
    ensures var s := Text(header) + Text(body); Stripped(l + s) == if StartsBcc(l) then Stripped(s) else l + Stripped(s)
  {
    FirstLineOf(l, header, body);
    KeptAfter(l, header);
    TextAfter(l, Kept(header), Text(body));
  }

  /** The eight ways to write `bcc:`. */
  predicate Spelled(l: Bytes) {
    |l| >= 4 && (l[0] == 66 || l[0] == 98) && (l[1] == 67 || l[1] == 99) && (l[2] == 67 || l[2] == 99) && l[3] == 58
  }

  lemma SpellsBcc(l: Bytes)
    ensures StartsBcc(l) == Spelled(l)
  {
  }

  /** A header line of its own is dropped exactly when it starts with one of them; the
      rest of the message is stripped as if the line were not there. */
  lemma AnyCaseOfBcc(l: Bytes, header: seq<Bytes>, body: seq<Bytes>)
    requires IsMessage([l] + header, body) && (header == [] || !Continues(header[0]))
    ensures var s := Text(header) + Text(body); Stripped(l + s) == if Spelled(l) then Stripped(s) else l + Stripped(s)
  {
    LineByItself(l, header, body);
    SpellsBcc(l);
  }

  // ---------- the code ----------

  /** `s` from byte `i` on is the lines of `ls` from the `k`-th on. */
  ghost predicate Cut(s: Bytes, ls: seq<Bytes>, i: nat, k: nat) {
    i <= |s| && k <= |ls| && LinesFrom(s, i) == ls[k..]
  }

  lemma HeadOfTail(ls: seq<Bytes>, k: nat, l: Bytes, rest: seq<Bytes>)
    requires k <= |ls| && ls[k..] == [l] + rest
    ensures k < |ls| && ls[k] == l && ls[k + 1..] == rest
  {
    assert ls[k..][0] == l && ls[k..][1..] == rest;
  }

  lemma NextCut(s: Bytes, ls: seq<Bytes>, i: nat, k: nat)
    requires Cut(s, ls, i, k) && i < |s|
    ensures var n := LineEnd(s, i); k < |ls| && ls[k] == s[i..n] && Cut(s, ls, n, k + 1)
  {
    var n := LineEnd(s, i);
    HeadOfTail(ls, k, s[i..n], LinesFrom(s, n));
  }

  lemma CountIs(ls: seq<Bytes>, k: nat)
    requires k <= |ls| && (forall j | 0 <= j < k :: !Blank(ls[j])) && (k < |ls| ==> Blank(ls[k]))
    ensures HeaderCount(ls) == k
  {
  }

  lemma Cancels(a: Bytes, s: Bytes, i: nat)
    requires i <= |s| && a + s[i..] == s
    ensures a == s[..i]
  {
    assert |a| == i;
    assert (a + s[i..])[..i] == a;
  }

  lemma HeaderStops(raw: Bytes, ls: seq<Bytes>, i: nat, k: nat)
    requires ls == Lines(raw) && Cut(raw, ls, i, k) && k < |ls|
    requires SeenPlain(ls, k) && Blank(ls[k])
    ensures raw[..i] == Text(HeaderLines(raw)) && raw[i..] == Body(raw)
  {
    CountIs(ls, k);
    LinesAreLines(raw);
    LinesFromAreLines(raw, i);
    TextJoins(ls[..k], ls[k..]);
    assert ls[..k] + ls[k..] == ls;
    Cancels(Text(ls[..k]), raw, i);
  }

  lemma NeverBlank(raw: Bytes)
    requires forall j | 0 <= j < |Lines(raw)| :: !Blank(Lines(raw)[j])
    ensures Text(HeaderLines(raw)) == raw && Body(raw) == []
  {
    CountIs(Lines(raw), |Lines(raw)|);
    LinesAreLines(raw);
    assert Lines(raw)[..|Lines(raw)|] == Lines(raw);
  }

  ghost predicate SeenPlain(ls: seq<Bytes>, k: nat) {
    k <= |ls| && forall j | 0 <= j < k :: !Blank(ls[j])
  }

  lemma PlainToTheEnd(raw: Bytes, ls: seq<Bytes>, k: nat)
    requires ls == Lines(raw) && Cut(raw, ls, |raw|, k) && SeenPlain(ls, k)
    ensures Text(HeaderLines(raw)) == raw && Body(raw) == []
  {
    assert k == |ls|;
    NeverBlank(raw);
  }

  /** The index of the empty line that ends the header block; None when every
      byte is header. */
  method FindHeaderEnd(raw: Bytes) returns (end: Option<nat>)
    ensures var n := if end.Some? then end.value else |raw|;
            n <= |raw| && raw[..n] == Text(HeaderLines(raw)) && raw[n..] == Body(raw)
    ensures end.None? <==> Body(raw) == []
  {
    var i := 0;
    ghost var k := 0;
    ghost var ls := Lines(raw);
    assert raw[..|raw|] == raw && raw[|raw|..] == [];
    while i < |raw|
      invariant Cut(raw, ls, i, k) && SeenPlain(ls, k)
      decreases |raw| - i
    {
      var n := LineEnd(raw, i);
      NextCut(raw, ls, i, k);
      var line := raw[i..n];
      if line[|line| - 1] != LF {
        PlainToTheEnd(raw, ls, k + 1);
        return None;
      }
      if line == [CR, LF] || line == [LF] {
        HeaderStops(raw, ls, i, k);
        return Some(i);
      }
      i, k := n, k + 1;
    }
    PlainToTheEnd(raw, ls, k);
    end := None;
  }

  /** The header lines one by one, each kept or skipped with its field. */
  method StripHeaders(headers: Bytes, ghost hs: seq<Bytes>) returns (out: Bytes)
    requires AreLines(hs) && headers == Text(hs)
    ensures out == Text(Kept(hs))
  {
    LinesOfText(hs);
    out := [];
    var skipping := false;
    var start := 0;
    ghost var k := 0;
    while start < |headers|
      invariant Cut(headers, hs, start, k) && out == Text(Kept(hs[..k])) && skipping == Skipping(hs[..k])
      decreases |headers| - start
    {
      var end := LineEnd(headers, start);
      NextCut(headers, hs, start, k);
      NextLine(hs, k);
      var line := headers[start..end];
      if Continues(line) {
        if !skipping {
          out := out + line;
        }
      } else {
        skipping := StartsBcc(line);
        if !skipping {
          out := out + line;
        }
      }
      start, k := end, k + 1;
    }
    assert hs[..k] == hs;
  }

  method StripBccHeader(raw: Bytes) returns (out: Bytes)
    ensures out == Stripped(raw)
  {
    var found := FindHeaderEnd(raw);
    var headerEnd := if found.Some? then found.value else |raw|;
    ghost var _ := Parted(raw);
    out := StripHeaders(raw[..headerEnd], HeaderLines(raw));
    out := out + raw[headerEnd..];
  }

  /** What one line does to the skipping flag and to what is kept. */
  lemma NextLine(hs: seq<Bytes>, k: nat)
    requires AreLines(hs) && k < |hs|
    ensures var skips := if Continues(hs[k]) then Skipping(hs[..k]) else StartsBcc(hs[k]);
            && Skipping(hs[..k + 1]) == skips
            && Text(Kept(hs[..k + 1])) == Text(Kept(hs[..k])) + if skips then [] else hs[k]
  {
    var before, l := hs[..k], hs[k];
    assert hs[..k + 1] == before + [l];
    KeptOneMore(before, l);
    TextJoins(Kept(before), [l]);
    assert Text([l]) == l + Text([]);
  }
}

/** Subject keys: the normal form threads are matched by, and the prefixes that
    replies and forwards put in front of it. */
module Subject {
  import opened Text

  const PREFIXES: seq<string> := ["re:", "fw:", "fwd:"]

  function StripOne(s: string): (r: string)
    ensures |r| <= |s|
    ensures |r| == |s| <==> forall p | p in PREFIXES :: !HasPrefix(s, p)
    ensures |r| == |s| ==> r == s
  {
    if HasPrefix(s, "re:") then s[3..]
    else if HasPrefix(s, "fw:") then s[3..]
    else if HasPrefix(s, "fwd:") then s[4..]
    else
      assert forall p | p in PREFIXES :: p == "re:" || p == "fw:" || p == "fwd:";
      s
  }

  /** What is left when no reply or forward prefix remains in front. */
  function Core(s: string): string
    decreases |s|
  {
    var t := StripOne(s);
    if |t| == |s| then s else Core(TrimStart(t))
  }

  lemma {:induction false} CoreFacts(s: string)
    ensures NoPrefix(Core(s))
    ensures s == [] || !IsSpace(s[0]) ==> Core(s) == [] || !IsSpace(Core(s)[0])
    decreases |s|
  {
    var t := StripOne(s);
    if |t| != |s| {
      TrimStartFacts(t);
      CoreFacts(TrimStart(t));
    }
  }

  function Normalize(raw: string): string {
    Join(Words(Lower(Core(Trim(raw)))), " ")
  }

  /** The loop as written: strip until nothing changes. */
  method NormalizeSubject(raw: string) returns (key: string)
    ensures key == Normalize(raw)
  {
    var s := Trim(raw);
    while true
      invariant Core(s) == Core(Trim(raw))
      decreases |s|
    {
      var stripped := StripOne(s);
      if |stripped| == |s| {
        break;
      }
      s := TrimStart(stripped);
    }
    key := Join(Words(Lower(s)), " ");
  }

  datatype Answer = Replied | Forwarded

  function Tag(a: Answer): string {
    if a.Replied? then "Re:" else "Fwd:"
  }

  /** Replies count `Re:` as their prefix, forwards `Fwd:` and `Fw:`. */
  predicate Already(t: string, a: Answer) {
    if a.Replied? then HasPrefix(t, "re:") else HasPrefix(t, "fwd:") || HasPrefix(t, "fw:")
  }

  /** The subject of a reply or a forward. */
  function Answered(original: string, a: Answer): string {
    var t := TrimStart(original);
    if Already(t, a) then original else Tag(a) + " " + t
  }

  // ---------- replies keep the key ----------

  lemma {:induction false} TrimEndSuffix(p: string, s: string)
    requires TrimEnd(s) != []
    ensures TrimEnd(p + s) == p + TrimEnd(s)
    decreases |s|
  {
    if IsSpace(s[|s| - 1]) {
      assert (p + s)[..|p + s| - 1] == p + s[..|s| - 1];
      TrimEndSuffix(p, s[..|s| - 1]);
    }
  }

  lemma {:induction false} TrimEndAll(p: string, s: string)
    requires TrimEnd(s) == []
    ensures TrimEnd(p + s) == TrimEnd(p)
    decreases |s|
  {
    if s == [] {
      assert p + s == p;
    } else {
      assert IsSpace(s[|s| - 1]);
      assert (p + s)[..|p + s| - 1] == p + s[..|s| - 1];
      TrimEndAll(p, s[..|s| - 1]);
    }
  }

  lemma {:induction false} TrimStartFixed(s: string)
    requires s == [] || !IsSpace(s[0])
    ensures TrimStart(s) == s
  {
  }

  lemma TrimStartSpace(s: string)
    ensures TrimStart(" " + s) == TrimStart(s)
  {
    assert (" " + s)[1..] == s;
  }

  predicate Solid(tag: string) {
    tag != [] && !IsSpace(tag[0]) && !IsSpace(tag[|tag| - 1])
  }

  lemma CoreStrips(s: string, rest: string)
    requires StripOne(s) == rest && |rest| < |s|
    ensures Core(s) == Core(TrimStart(rest))
  {
  }

  lemma TrimEndTag(tag: string)
    requires Solid(tag)
    ensures TrimEnd(tag + " ") == tag
  {
    assert (tag + " ")[..|tag|] == tag;
  }

  lemma TrimOf(s: string)
    requires s == [] || !IsSpace(s[0])
    ensures Trim(s) == TrimEnd(s)
  {
    TrimStartFixed(s);
  }

  lemma TaggedTrim(tag: string, head: string, t: string)
    requires Solid(tag) && head == tag + " "
    ensures Trim(head + t) == TrimEnd(head + t)
  {
    assert (head + t)[0] == tag[0];
    TrimOf(head + t);
  }

  lemma TaggedBlank(tag: string, head: string, t: string)
    requires Solid(tag) && head == tag + " " && TrimEnd(t) == []
    ensures TrimEnd(head + t) == tag
  {
    TrimEndAll(head, t);
    TrimEndTag(tag);
  }

  lemma TaggedText(tag: string, head: string, t: string)
    requires Solid(tag) && head == tag + " " && TrimEnd(t) != []
    ensures TrimEnd(head + t) == tag + (" " + TrimEnd(t))
  {
    TrimEndSuffix(head, t);
  }

  lemma CoreOfBlank(s: string, rest: string)
    requires s != [] && StripOne(s) == rest && rest == []
    ensures Core(s) == Core(rest)
  {
    CoreStrips(s, rest);
  }

  lemma CoreOfText(s: string, rest: string, u: string)
    requires StripOne(s) == rest && |rest| < |s| && rest == " " + u && (u == [] || !IsSpace(u[0]))
    ensures Core(s) == Core(u)
  {
    CoreStrips(s, rest);
    TrimStartSpace(u);
    TrimStartFixed(u);
  }

  /** A prefix that ends in a space is stripped back to the trimmed subject. */
  lemma PrefixedCore(tag: string, head: string, t: string)
    requires Solid(tag) && head == tag + " "
    requires Core(tag) == Core([]) && Core(tag + (" " + TrimEnd(t))) == Core(TrimEnd(t))
    ensures Core(Trim(head + t)) == Core(TrimEnd(t))
  {
    TaggedTrim(tag, head, t);
    if TrimEnd(t) == [] {
      TaggedBlank(tag, head, t);
    } else {
      TaggedText(tag, head, t);
    }
  }

  lemma SameCore(a: string, b: string)
    requires Core(Trim(a)) == Core(Trim(b))
    ensures Normalize(a) == Normalize(b)
  {
  }

  lemma TaggedKeepsKey(tag: string, head: string, s: string, t: string)
    requires Solid(tag) && head == tag + " " && t == TrimStart(s)
    requires Core(tag) == Core([]) && Core(tag + (" " + TrimEnd(t))) == Core(TrimEnd(t))
    ensures Normalize(head + t) == Normalize(s)
  {
    PrefixedCore(tag, head, t);
    SameCore(head + t, s);
  }

  lemma TagStrips(a: Answer, rest: string)
    ensures StripOne(Tag(a) + rest) == rest
  {
    var s := Tag(a) + rest;
    if a.Replied? {
      assert s[..3] == "Re:" && Lower("Re:") == "re:";
    } else {
      assert s[..4] == "Fwd:" && Lower("Fwd:") == "fwd:";
      assert Lower(s[..3])[0] == 'f' && Lower(s[..3])[2] == 'd';
    }
  }

  lemma TagIsSolid(a: Answer)
    ensures Solid(Tag(a))
  {
  }

  /** One reply or forward leaves the key as it was. */
  lemma AnswerKeepsKey(s: string, a: Answer)
    ensures Normalize(Answered(s, a)) == Normalize(s)
  {
    var tag, t := Tag(a), TrimStart(s);
    var u := TrimEnd(t);
    TrimStartFacts(s);
    TrimEndFacts(t);
    if !Already(t, a) {
      TagIsSolid(a);
      TagStrips(a, []);
      assert tag + [] == tag;
      TagStrips(a, " " + u);
      CoreOfBlank(tag, []);
      CoreOfText(tag + (" " + u), " " + u, u);
      TaggedKeepsKey(tag, tag + " ", s, t);
    }
  }

  // ---------- which prefixes ----------

  /** A reply or forward prefix, in any case. */
  predicate IsTag(tag: string) {
    CaseOf(tag, "re:") || CaseOf(tag, "fw:") || CaseOf(tag, "fwd:")
  }

  lemma TagLowers(tag: string)
    requires IsTag(tag)
    ensures Lower(tag) == "re:" || Lower(tag) == "fw:" || Lower(tag) == "fwd:"
    ensures Solid(tag)
  {
    forall p: string | CaseOf(tag, p) ensures Lower(tag) == p {
      CaseLowers(tag, p);
    }
    assert LowerChar(tag[0]) == Lower(tag)[0] && LowerChar(tag[|tag| - 1]) == Lower(tag)[|tag| - 1];
  }

  lemma LowerOfPrefix(s: string, n: nat)
    requires n <= |s|
    ensures Lower(s[..n]) == Lower(s)[..n]
  {
  }

  lemma AnyTagStrips(tag: string, rest: string)
    requires IsTag(tag)
    ensures StripOne(tag + rest) == rest
  {
    TagLowers(tag);
    var s := tag + rest;
    LowerOfPrefix(s, |tag|);
    LowerOfPrefix(s, 3);
    assert s[..|tag|] == tag && s[|tag|..] == rest;
    assert Lower(s)[..|tag|] == Lower(tag);
    assert Lower(s[..3])[0] == Lower(tag)[0] && Lower(s[..3])[2] == Lower(tag)[2];
  }

  lemma {:induction false} TrimsCommute(s: string)
    ensures TrimEnd(TrimStart(s)) == TrimStart(TrimEnd(s))
  {
    if s != [] && IsSpace(s[0]) {
      var rest := s[1..];
      assert s == [s[0]] + rest;
      TrimsCommute(rest);
      if TrimEnd(rest) == [] {
        TrimEndAll([s[0]], rest);
      } else {
        TrimEndSuffix([s[0]], rest);
        assert ([s[0]] + TrimEnd(rest))[1..] == TrimEnd(rest);
      }
    } else {
      TrimEndFacts(s);
      TrimStartFixed(TrimEnd(s));
    }
  }

  lemma TagEnds(tag: string)
    requires Solid(tag)
    ensures TrimEnd(tag) == tag
  {
  }

  /** Each of the three prefixes, in any case and with or without a space after it,
      leaves the key of any subject as it was. */
  lemma AnyTagLeavesKey(tag: string, s: string)
    requires IsTag(tag)
    ensures Normalize(tag + s) == Normalize(s)
  {
    TagLowers(tag);
    TagEnds(tag);
    TrimsCommute(s);
    assert (tag + s)[0] == tag[0];
    TrimOf(tag + s);
    var u := TrimEnd(s);
    if u == [] {
      TrimEndAll(tag, s);
    } else {
      TrimEndSuffix(tag, s);
    }
    assert TrimEnd(tag + s) == tag + u;
    AnyTagStrips(tag, u);
    CoreStrips(tag + u, u);
    SameCore(tag + s, s);
  }

  /** And nothing else is a prefix: any other subject is only put in lower case and
      respaced. */
  lemma OthersStay(s: string)
    requires forall n | 0 <= n <= |Trim(s)| :: !IsTag(Trim(s)[..n])
    ensures Normalize(s) == Join(Words(Lower(Trim(s))), " ")
  {
    var t := Trim(s);
    forall p | p in PREFIXES ensures !HasPrefix(t, p) {
      PrefixIsTag(t, p);
    }
  }

  lemma PrefixIsTag(t: string, p: string)
    requires p in PREFIXES
    ensures HasPrefix(t, p) ==> |p| <= |t| && IsTag(t[..|p|])
  {
    if HasPrefix(t, p) {
      assert CaseOf(t[..|p|], p) by {
        assert forall i | 0 <= i < |p| :: LowerChar(t[..|p|][i]) == p[i];
      }
      assert p == "re:" || p == "fw:" || p == "fwd:";
    }
  }

  function Nested(s: string, answers: seq<Answer>): string
    decreases |answers|
  {
    if answers == [] then s else Answered(Nested(s, answers[..|answers| - 1]), answers[|answers| - 1])
  }

  /** Any chain of replies and forwards, in any order, threads by one key. */
  lemma {:induction false} ChainKeepsKey(s: string, answers: seq<Answer>)
    ensures Normalize(Nested(s, answers)) == Normalize(s)
    decreases |answers|
  {
    if answers != [] {
      ChainKeepsKey(s, answers[..|answers| - 1]);
      AnswerKeepsKey(Nested(s, answers[..|answers| - 1]), answers[|answers| - 1]);
    }
  }

  // ---------- the key of a key ----------

  predicate Low(s: string) {
    forall i | 0 <= i < |s| :: LowerChar(s[i]) == s[i]
  }

  predicate Plain(w: string) {
    IsWord(w) && Low(w)
  }

  /** Lower-case words, the first of which carries no prefix. */
  predicate KeyWords(ws: seq<string>) {
    && AllPlain(ws)
    && (ws != [] ==> NoPrefix(ws[0]))
  }

  lemma LowSlice(s: string, i: nat, j: nat)
    requires Low(s) && i <= j <= |s|
    ensures Low(s[i..j])
  {
  }

  lemma PlainHead(t: string)
    requires Low(t) && t != [] && !IsSpace(t[0])
    ensures Plain(t[..WordLength(t)])
  {
    var n := WordLength(t);
    WordLengthFacts(t);
    LowSlice(t, 0, n);
    WordSlice(t, n);
  }

  lemma WordSlice(t: string, n: nat)
    requires 0 < n <= |t| && forall i | 0 <= i < n :: !IsSpace(t[i])
    ensures IsWord(t[..n])
  {
  }

  predicate AllPlain(ws: seq<string>) {
    forall i | 0 <= i < |ws| :: Plain(ws[i])
  }

  lemma PlainCons(w: string, ws: seq<string>)
    requires Plain(w) && AllPlain(ws)
    ensures AllPlain([w] + ws)
  {
  }

  lemma {:induction false} LowerWords(s: string)
    requires Low(s)
    ensures AllPlain(Words(s))
    decreases |s|
  {
    var t := TrimStart(s);
    TrimStartFacts(s);
    LowSlice(s, |s| - |t|, |s|);
    if t != [] {
      var n := WordLength(t);
      PlainHead(t);
      LowSlice(t, n, |t|);
      LowerWords(t[n..]);
      PlainCons(t[..n], Words(t[n..]));
    }
  }

  lemma FirstWord(s: string)
    requires s != [] && !IsSpace(s[0])
    ensures Words(s) != [] && Words(s)[0] == s[..WordLength(s)] && WordLength(s) > 0
  {
    TrimStartFixed(s);
  }

  lemma LowerTwice(s: string)
    ensures Lower(Lower(s)) == Lower(s)
    ensures forall p | p in PREFIXES :: HasPrefix(Lower(s), p) ==> HasPrefix(s, p)
  {
    forall p | p in PREFIXES && HasPrefix(Lower(s), p)
      ensures HasPrefix(s, p)
    {
      assert Lower(Lower(s)[..|p|]) == Lower(s[..|p|]);
    }
  }

  lemma PrefixOfPrefix(s: string, n: nat, p: string)
    requires n <= |s| && HasPrefix(s[..n], p)
    ensures HasPrefix(s, p)
  {
    assert s[..n][..|p|] == s[..|p|];
  }

  predicate NoPrefix(s: string) {
    forall p | p in PREFIXES :: !HasPrefix(s, p)
  }

  lemma WordsAreKeyWords(l: string)
    requires Low(l) && (l == [] || !IsSpace(l[0])) && NoPrefix(l)
    ensures KeyWords(Words(l))
  {
    LowerWords(l);
    if l != [] {
      FirstWord(l);
      forall p | p in PREFIXES ensures !HasPrefix(Words(l)[0], p) {
        if HasPrefix(l[..WordLength(l)], p) {
          PrefixOfPrefix(l, WordLength(l), p);
        }
      }
    }
  }

  lemma LowerIsLow(s: string)
    ensures Low(Lower(s)) && (s != [] ==> IsSpace(Lower(s)[0]) == IsSpace(s[0]))
  {
  }

  lemma KeyIsKeyWords(raw: string)
    ensures KeyWords(Words(Lower(Core(Trim(raw)))))
  {
    var c := Core(Trim(raw));
    TrimHead(raw);
    CoreFacts(Trim(raw));
    LowerTwice(c);
    LowerIsLow(c);
    WordsAreKeyWords(Lower(c));
  }

  lemma TrimHead(raw: string)
    ensures Trim(raw) == [] || !IsSpace(Trim(raw)[0])
  {
    TrimStartFacts(raw);
    TrimEndFacts(TrimStart(raw));
  }

  function JoinTail(ws: seq<string>): string
    requires ws != []
  {
    if |ws| == 1 then [] else " " + Join(ws[1..], " ")
  }

  lemma JoinSplits(ws: seq<string>)
    requires ws != []
    ensures Join(ws, " ") == ws[0] + JoinTail(ws)
  {
  }

  lemma {:induction false} JoinLow(ws: seq<string>)
    requires ws != [] && AllPlain(ws)
    ensures Join(ws, " ") != [] && Low(Join(ws, " ")) && !IsSpace(Join(ws, " ")[|Join(ws, " ")| - 1])
  {
    JoinSplits(ws);
    if |ws| > 1 {
      JoinLow(ws[1..]);
    }
  }

  lemma WordFirst(w: string, rest: string)
    requires IsWord(w) && (rest == [] || IsSpace(rest[0]))
    ensures Words(w + rest) == [w] + Words(rest)
  {
    var k := w + rest;
    WordLengthIs(k, |w|);
    assert k[0] == w[0];
    TrimStartFixed(k);
    assert k[..|w|] == w && k[|w|..] == rest;
  }

  lemma WordsSkip(s: string)
    ensures Words(" " + s) == Words(s)
  {
    TrimStartSpace(s);
  }

  lemma TailWords(ws: seq<string>)
    requires ws != [] && Words(Join(ws[1..], " ")) == ws[1..]
    ensures Words(JoinTail(ws)) == ws[1..]
  {
    if |ws| > 1 {
      WordsSkip(Join(ws[1..], " "));
    }
  }

  lemma {:induction false} WordsOfJoin(ws: seq<string>)
    requires AllPlain(ws)
    ensures Words(Join(ws, " ")) == ws
  {
    if ws != [] {
      assert AllPlain(ws[1..]);
      WordsOfJoin(ws[1..]);
      TailWords(ws);
      JoinedWords(ws, JoinTail(ws));
    }
  }

  lemma JoinedWords(ws: seq<string>, tail: string)
    requires ws != [] && IsWord(ws[0]) && tail == JoinTail(ws) && Words(tail) == ws[1..]
    ensures Words(Join(ws, " ")) == ws
  {
    JoinSplits(ws);
    TailStarts(ws);
    WordFirst(ws[0], tail);
    assert ws == [ws[0]] + ws[1..];
  }

  lemma TailStarts(ws: seq<string>)
    requires ws != []
    ensures JoinTail(ws) == [] || JoinTail(ws)[0] == ' '
  {
  }

  lemma PrefixChars(k: string, p: string)
    requires p in PREFIXES && HasPrefix(k, p)
    ensures forall i | 0 <= i < |p| :: k[i] != ' '
  {
    assert p == "re:" || p == "fw:" || p == "fwd:";
    forall i | 0 <= i < |p| ensures k[i] != ' ' {
      assert Lower(k[..|p|])[i] == LowerChar(k[i]) == p[i];
    }
  }

  lemma NoPrefixAcross(w: string, rest: string, p: string)
    requires p in PREFIXES && !HasPrefix(w, p) && (rest == [] || rest[0] == ' ')
    ensures !HasPrefix(w + rest, p)
  {
    var k := w + rest;
    if |p| <= |w| {
      assert k[..|p|] == w[..|p|];
    } else if HasPrefix(k, p) {
      assert k[|w|] == rest[0];
      PrefixChars(k, p);
      assert false;
    }
  }

  /** A key is its own key, so re-normalising a stored one changes nothing. */
  lemma NormalizeTwice(raw: string)
    ensures Normalize(Normalize(raw)) == Normalize(raw)
  {
    KeyIsKeyWords(raw);
    KeyFixed(Words(Lower(Core(Trim(raw)))));
  }

  lemma NothingToStrip(k: string)
    requires k != [] && !IsSpace(k[0]) && !IsSpace(k[|k| - 1]) && Low(k) && NoPrefix(k)
    ensures Lower(Core(Trim(k))) == k
  {
    TrimOf(k);
    assert TrimEnd(k) == k;
    assert |StripOne(k)| == |k|;
  }

  lemma KeyFixed(ws: seq<string>)
    requires KeyWords(ws)
    ensures Normalize(Join(ws, " ")) == Join(ws, " ")
  {
    WordsOfJoin(ws);
    if ws != [] {
      JoinSplits(ws);
      JoinLow(ws);
      KeyHead(ws);
      NothingToStrip(Join(ws, " "));
    }
  }

  lemma KeyHead(ws: seq<string>)
    requires KeyWords(ws) && ws != []
    ensures var k := Join(ws, " "); NoPrefix(k) && k != [] && !IsSpace(k[0])
  {
    JoinSplits(ws);
    forall p | p in PREFIXES ensures !HasPrefix(ws[0] + JoinTail(ws), p) {
      NoPrefixAcross(ws[0], JoinTail(ws), p);
    }
  }
}

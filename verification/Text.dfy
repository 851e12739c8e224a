/** Strings the way the source's standard library sees them: Unicode scalar
    values, Unicode white space, ASCII case. */
module Text {
  import opened Wrappers

  /** The White_Space property of the Unicode character database. */
  predicate IsSpace(c: char) {
    || '\t' <= c <= '\r' || c == ' ' || c == '\U{85}' || c == '\U{A0}' || c == '\U{1680}'
    || '\U{2000}' <= c <= '\U{200A}' || c == '\U{2028}' || c == '\U{2029}'
    || c == '\U{202F}' || c == '\U{205F}' || c == '\U{3000}'
  }

  function TrimStart(s: string): (r: string)
    ensures |r| <= |s|
  {
    if s != [] && IsSpace(s[0]) then TrimStart(s[1..]) else s
  }

  /** What is left is a suffix that does not start with a space. */
  lemma {:induction false} TrimStartFacts(s: string)
    ensures TrimStart(s) == [] || !IsSpace(TrimStart(s)[0])
    ensures TrimStart(s) == s[|s| - |TrimStart(s)|..]
  {
    if s != [] && IsSpace(s[0]) {
      TrimStartFacts(s[1..]);
    }
  }

  function TrimEnd(s: string): (r: string)
    ensures |r| <= |s|
  {
    if s != [] && IsSpace(s[|s| - 1]) then TrimEnd(s[..|s| - 1]) else s
  }

  lemma {:induction false} TrimEndFacts(s: string)
    ensures TrimEnd(s) == [] || !IsSpace(TrimEnd(s)[|TrimEnd(s)| - 1])
    ensures TrimEnd(s) == s[..|TrimEnd(s)|]
  {
    if s != [] && IsSpace(s[|s| - 1]) {
      TrimEndFacts(s[..|s| - 1]);
    }
  }

  function Trim(s: string): string {
    TrimEnd(TrimStart(s))
  }

  predicate AllSpace(s: string) {
    forall i | 0 <= i < |s| :: IsSpace(s[i])
  }

  lemma {:induction false} StartPads(s: string) returns (pre: string)
    ensures s == pre + TrimStart(s) && AllSpace(pre)
  {
    if s != [] && IsSpace(s[0]) {
      pre := StartPads(s[1..]);
      pre := [s[0]] + pre;
    } else {
      pre := [];
    }
  }

  lemma {:induction false} EndPads(s: string) returns (post: string)
    ensures s == TrimEnd(s) + post && AllSpace(post)
    decreases |s|
  {
    if s != [] && IsSpace(s[|s| - 1]) {
      post := EndPads(s[..|s| - 1]);
      post := post + [s[|s| - 1]];
    } else {
      post := [];
    }
  }

  /** What trimming takes off is white space. */
  lemma TrimPads(s: string) returns (pre: string, post: string)
    ensures s == pre + Trim(s) + post && AllSpace(pre) && AllSpace(post)
  {
    pre := StartPads(s);
    post := EndPads(TrimStart(s));
  }

  lemma {:induction false} StartOfPadded(pre: string, m: string)
    requires AllSpace(pre) && (m == [] || !IsSpace(m[0]))
    ensures TrimStart(pre + m) == m
  {
    if pre == [] {
      assert pre + m == m;
    } else {
      assert (pre + m)[1..] == pre[1..] + m;
      StartOfPadded(pre[1..], m);
    }
  }

  lemma {:induction false} EndOfPadded(m: string, post: string)
    requires AllSpace(post) && (m == [] || !IsSpace(m[|m| - 1]))
    ensures TrimEnd(m + post) == m
    decreases |post|
  {
    if post == [] {
      assert m + post == m;
    } else {
      assert (m + post)[..|m + post| - 1] == m + post[..|post| - 1];
      EndOfPadded(m, post[..|post| - 1]);
    }
  }

  /** And all of it: what is left is what stood between. */
  lemma TrimOfPadded(pre: string, m: string, post: string)
    requires AllSpace(pre) && AllSpace(post) && m != [] && !IsSpace(m[0]) && !IsSpace(m[|m| - 1])
    ensures Trim(pre + m + post) == m
  {
    assert pre + m + post == pre + (m + post);
    StartOfPadded(pre, m + post);
    EndOfPadded(m, post);
  }

  function LowerChar(c: char): char {
    if 'A' <= c <= 'Z' then c - 'A' + 'a' else c
  }

  function Lower(s: string): (r: string)
    ensures |r| == |s| && forall i | 0 <= i < |s| :: r[i] == LowerChar(s[i])
  {
    seq(|s|, i requires 0 <= i < |s| => LowerChar(s[i]))
  }

  /** `typed` is the lower-case `w` with any of its letters in upper case. */
  predicate CaseOf(typed: string, w: string) {
    |typed| == |w| &&
    forall i | 0 <= i < |w| ::
      LowerChar(w[i]) == w[i] && (typed[i] == w[i] || ('a' <= w[i] <= 'z' && typed[i] as int + 32 == w[i] as int))
  }

  lemma CaseLowers(typed: string, w: string)
    requires CaseOf(typed, w)
    ensures Lower(typed) == w
  {
    forall i | 0 <= i < |w| ensures LowerChar(typed[i]) == w[i] {
      if typed[i] != w[i] {
        assert 'A' <= typed[i] <= 'Z';
      }
    }
  }

  /** `get(..n)` and `eq_ignore_ascii_case`. */
  predicate HasPrefix(s: string, lowered: string) {
    |s| >= |lowered| && Lower(s[..|lowered|]) == lowered
  }

  /** What `split_whitespace` yields: the maximal runs of non-space. */
  function Words(s: string): seq<string>
    decreases |s|
  {
    var t := TrimStart(s);
    TrimStartFacts(s);
    if t == [] then []
    else
      var n := WordLength(t);
      [t[..n]] + Words(t[n..])
  }

  predicate IsWord(w: string) {
    w != [] && forall i | 0 <= i < |w| :: !IsSpace(w[i])
  }

  function WordLength(s: string): (n: nat)
    ensures n <= |s| && (s != [] && !IsSpace(s[0]) ==> n > 0)
  {
    if s == [] || IsSpace(s[0]) then 0 else 1 + WordLength(s[1..])
  }

  lemma {:induction false} WordLengthIs(s: string, n: nat)
    requires n <= |s| && (forall i | 0 <= i < n :: !IsSpace(s[i])) && (n < |s| ==> IsSpace(s[n]))
    ensures WordLength(s) == n
  {
    if n > 0 {
      WordLengthIs(s[1..], n - 1);
    }
  }

  lemma {:induction false} WordLengthFacts(s: string)
    ensures forall i | 0 <= i < WordLength(s) :: !IsSpace(s[i])
  {
    if s != [] && !IsSpace(s[0]) {
      WordLengthFacts(s[1..]);
    }
  }

  function Join(ws: seq<string>, sep: string): string {
    if ws == [] then [] else if |ws| == 1 then ws[0] else ws[0] + sep + Join(ws[1..], sep)
  }

  /** Where a character first occurs, or the length. */
  function First(s: string, c: char): (i: nat)
    ensures i <= |s| && (i < |s| ==> s[i] == c) && forall j | 0 <= j < i :: s[j] != c
  {
    if s == [] || s[0] == c then 0 else 1 + First(s[1..], c)
  }

  function SplitOnce(s: string, c: char): Option<(string, string)> {
    var i := First(s, c);
    if i < |s| then Some((s[..i], s[i + 1..])) else None
  }

  lemma FirstAt(head: string, c: char, rest: string)
    requires c !in head
    ensures First(head + [c] + rest, c) == |head|
    ensures SplitOnce(head + [c] + rest, c) == Some((head, rest))
  {
    var s := head + [c] + rest;
    assert s[|head|] == c;
    assert forall j | 0 <= j < |head| :: s[j] == head[j];
    assert s[..|head|] == head && s[|head| + 1..] == rest;
  }
}

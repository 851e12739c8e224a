/** Rewriting `cid:` references to inline data URIs.

    The reference scans the text one character at a time and decides at each
    `cid:` which entry, if any, replaces it; the code walks the occurrences with
    a copy cursor. Lengths are UTF-8 byte lengths. */
module CidRefs {
  import opened Wrappers
  import opened Text

  const MAX_OUTPUT_BYTES: nat := 48 * 1024 * 1024
  const MAX_REPLACEMENTS_PER_CID: nat := 64

  function CharSize(c: char): (n: nat)
    ensures 1 <= n <= 4
  {
    if c < '\U{80}' then 1 else if c < '\U{800}' then 2 else if c < '\U{10000}' then 3 else 4
  }

  function Size(s: string): nat {
    if s == [] then 0 else Size(s[..|s| - 1]) + CharSize(s[|s| - 1])
  }

  lemma {:induction false} SizeJoins(a: string, b: string)
    ensures Size(a + b) == Size(a) + Size(b)
  {
    if b == [] {
      assert a + b == a;
    } else {
      assert (a + b)[..|a + b| - 1] == a + b[..|b| - 1];
      SizeJoins(a, b[..|b| - 1]);
    }
  }

  // ---------- entries ----------

  /** A map entry with its bare id; `ord` is its place in the map. */
  datatype Entry = Entry(bare: string, uri: string, ord: nat)

  function TrimOpen(s: string): string {
    if s != [] && s[0] == '<' then TrimOpen(s[1..]) else s
  }

  function TrimClose(s: string): string {
    if s != [] && s[|s| - 1] == '>' then TrimClose(s[..|s| - 1]) else s
  }

  /** The entries whose id is not empty once its brackets are gone. */
  function Usable(cids: seq<(string, string)>): (es: seq<Entry>)
    ensures forall i | 0 <= i < |es| :: es[i].bare != [] && es[i].ord < |cids|
    ensures forall i, j | 0 <= i < j < |es| :: es[i].ord < es[j].ord
    ensures forall i | 0 <= i < |es| ::
              es[i].uri == cids[es[i].ord].1 && es[i].bare == TrimClose(TrimOpen(cids[es[i].ord].0))
  {
    if cids == [] then []
    else
      var front, last := Usable(cids[..|cids| - 1]), cids[|cids| - 1];
      var bare := TrimClose(TrimOpen(last.0));
      if bare == [] then front else front + [Entry(bare, last.1, |cids| - 1)]
  }

  /** Longer ids first, and map order among equals. */
  predicate Ahead(a: Entry, b: Entry) {
    Size(a.bare) > Size(b.bare) || (Size(a.bare) == Size(b.bare) && a.ord < b.ord)
  }

  predicate Ordered(es: seq<Entry>) {
    forall i, j | 0 <= i < j < |es| :: Ahead(es[i], es[j])
  }

  function Insert(e: Entry, es: seq<Entry>): seq<Entry> {
    if es == [] || Size(es[0].bare) <= Size(e.bare) then [e] + es else [es[0]] + Insert(e, es[1..])
  }

  /** The stable sort by descending id length. */
  function Sort(es: seq<Entry>): seq<Entry> {
    if es == [] then [] else Insert(es[0], Sort(es[1..]))
  }

  lemma ConsOrders(e: Entry, es: seq<Entry>)
    requires Ordered(es) && forall i | 0 <= i < |es| :: Ahead(e, es[i])
    ensures Ordered([e] + es)
  {
  }

  lemma {:induction false} InsertKeeps(e: Entry, es: seq<Entry>)
    ensures multiset(Insert(e, es)) == multiset(es) + multiset{e}
  {
    if es != [] && Size(es[0].bare) > Size(e.bare) {
      InsertKeeps(e, es[1..]);
      assert es == [es[0]] + es[1..];
    }
  }

  lemma InsertMember(e: Entry, es: seq<Entry>, j: nat)
    requires j < |Insert(e, es)|
    ensures Insert(e, es)[j] == e || Insert(e, es)[j] in es
  {
    InsertKeeps(e, es);
    assert Insert(e, es)[j] in multiset(Insert(e, es));
  }

  lemma {:induction false} InsertOrders(e: Entry, es: seq<Entry>)
    requires Ordered(es) && forall i | 0 <= i < |es| :: e.ord < es[i].ord
    ensures Ordered(Insert(e, es))
  {
    if es == [] || Size(es[0].bare) <= Size(e.bare) {
      ConsOrders(e, es);
    } else {
      var rest := Insert(e, es[1..]);
      InsertOrders(e, es[1..]);
      forall j | 0 <= j < |rest| ensures Ahead(es[0], rest[j]) {
        InsertMember(e, es[1..], j);
      }
      ConsOrders(es[0], rest);
    }
  }

  lemma {:induction false} SortOrders(es: seq<Entry>)
    requires forall i, j | 0 <= i < j < |es| :: es[i].ord < es[j].ord
    ensures Ordered(Sort(es)) && multiset(Sort(es)) == multiset(es)
  {
    if es != [] {
      SortOrders(es[1..]);
      assert es == [es[0]] + es[1..];
      forall i | 0 <= i < |Sort(es[1..])| ensures es[0].ord < Sort(es[1..])[i].ord {
        assert Sort(es[1..])[i] in multiset(es[1..]);
      }
      InsertOrders(es[0], Sort(es[1..]));
      InsertKeeps(es[0], Sort(es[1..]));
    }
  }

  // ---------- matching ----------

  predicate EndsRef(c: char) {
    c == '"' || c == '\'' || c == ')' || c == '>' || c == '<' || c == '&' || IsSpace(c)
  }

  /** The id stands at `at` and what follows it ends a reference. */
  predicate Matches(html: string, at: nat, bare: string) {
    && at + |bare| <= |html| && html[at..at + |bare|] == bare
    && (at + |bare| == |html| || EndsRef(html[at + |bare|]))
  }

  predicate IsCid(html: string, i: nat) {
    i + 4 <= |html| && html[i..i + 4] == "cid:"
  }

  /** The first entry, from the `k`-th on, whose id matches. */
  function FirstMatch(html: string, es: seq<Entry>, at: nat, k: nat): (r: Option<nat>)
    requires k <= |es|
    ensures r.Some? ==> k <= r.value < |es| && Matches(html, at, es[r.value].bare)
    ensures forall j | k <= j < (if r.Some? then r.value else |es|) :: !Matches(html, at, es[j].bare)
    decreases |es| - k
  {
    if k == |es| then None
    else if Matches(html, at, es[k].bare) then Some(k)
    else FirstMatch(html, es, at, k + 1)
  }

  function Choice(html: string, es: seq<Entry>, i: nat): (r: Option<nat>)
    ensures r.Some? ==> r.value < |es| && IsCid(html, i) && Matches(html, i + 4, es[r.value].bare)
  {
    if IsCid(html, i) then FirstMatch(html, es, i + 4, 0) else None
  }

  // ---------- the reference ----------

  /** What becomes of the text from a position on: one character copied, or one
      reference replaced by an entry's URI, and so on to the end. */
  datatype Trace = Stop | Copy(rest: Trace) | Put(entry: nat, rest: Trace)

  /** Uses so far, per entry. */
  type Uses = seq<nat>

  predicate Allowed(es: seq<Entry>, used: Uses, size: nat, e: nat)
    requires e < |es| && |used| == |es|
  {
    used[e] < MAX_REPLACEMENTS_PER_CID && size + Size(es[e].uri) <= MAX_OUTPUT_BYTES
  }

  function Past(es: seq<Entry>, i: nat, e: nat): nat
    requires e < |es|
  {
    i + 4 + |es[e].bare|
  }

  function OneMoreUse(used: Uses, e: nat): Uses
    requires e < |used|
  {
    used[e := used[e] + 1]
  }

  /** `size` is how many bytes would have been written before position `i`. */
  function Scan(html: string, es: seq<Entry>, i: nat, used: Uses, size: nat): Trace
    requires |used| == |es|
    decreases |html| - i
  {
    if i >= |html| then Stop
    else
      var c := Choice(html, es, i);
      if c.Some? && Allowed(es, used, size, c.value) then
        Put(c.value, Scan(html, es, Past(es, i, c.value), OneMoreUse(used, c.value), size + Size(es[c.value].uri)))
      else Copy(Scan(html, es, i + 1, used, size + CharSize(html[i])))
  }

  /** The text the trace writes, or nothing where the trace runs off the text. */
  function Output(html: string, es: seq<Entry>, t: Trace, i: nat): string {
    match t
    case Stop => []
    case Copy(rest) => (if i < |html| then [html[i]] else []) + Output(html, es, rest, i + 1)
    case Put(e, rest) => if e < |es| then es[e].uri + Output(html, es, rest, Past(es, i, e)) else []
  }

  function Zeros(n: nat): Uses {
    seq(n, _ => 0)
  }

  function Rewritten(html: string, cids: seq<(string, string)>): string {
    var es := Sort(Usable(cids));
    Output(html, es, Scan(html, es, 0, Zeros(|es|), 0), 0)
  }

  // ---------- what the reference promises ----------

  /** The entry for the reference at `i`: of all ids that match there, the longest,
      and the first in the map among equal ones. */
  predicate Best(html: string, es: seq<Entry>, i: nat, e: nat) {
    && e < |es| && IsCid(html, i) && Matches(html, i + 4, es[e].bare)
    && forall j | 0 <= j < |es| && Matches(html, i + 4, es[j].bare) :: j == e || Ahead(es[e], es[j])
  }

  /** A trace tiles the text from `i` to the end; it replaces references by their
      best entry only, within both limits, and copies a character only where no
      best entry is within them. */
  ghost predicate Proper(html: string, es: seq<Entry>, t: Trace, i: nat, used: Uses, size: nat)
    requires |used| == |es|
    decreases t
  {
    match t
    case Stop => i == |html|
    case Copy(rest) =>
      && i < |html| && (forall e | 0 <= e < |es| && Best(html, es, i, e) :: !Allowed(es, used, size, e))
      && Proper(html, es, rest, i + 1, used, size + CharSize(html[i]))
    case Put(e, rest) =>
      && Best(html, es, i, e) && Allowed(es, used, size, e)
      && Proper(html, es, rest, Past(es, i, e), OneMoreUse(used, e), size + Size(es[e].uri))
  }

  lemma ChoiceIsBest(html: string, es: seq<Entry>, i: nat)
    requires Ordered(es)
    ensures forall e | 0 <= e < |es| :: Best(html, es, i, e) <==> Choice(html, es, i) == Some(e)
  {
    forall e | 0 <= e < |es| && Best(html, es, i, e) ensures Choice(html, es, i) == Some(e) {
    }
  }

  /** The scan is the one proper trace: nothing else replaces exactly the best
      references within the limits. */
  lemma {:induction false} ScanIsProper(html: string, es: seq<Entry>, i: nat, used: Uses, size: nat, t: Trace)
    requires |used| == |es| && Ordered(es) && i <= |html|
    ensures Proper(html, es, t, i, used, size) <==> t == Scan(html, es, i, used, size)
    decreases |html| - i
  {
    if i < |html| {
      ChoiceIsBest(html, es, i);
      var c := Choice(html, es, i);
      match t
      case Stop =>
      case Copy(rest) => ScanIsProper(html, es, i + 1, used, size + CharSize(html[i]), rest);
      case Put(e, rest) =>
        if c == Some(e) && Allowed(es, used, size, e) {
          ScanIsProper(html, es, Past(es, i, e), OneMoreUse(used, e), size + Size(es[e].uri), rest);
        }
    }
  }

  function Puts(t: Trace, e: nat): nat {
    match t
    case Stop => 0
    case Copy(rest) => Puts(rest, e)
    case Put(f, rest) => (if f == e then 1 else 0) + Puts(rest, e)
  }

  /** No entry is used more than 64 times. */
  lemma {:induction false} BudgetHolds(html: string, es: seq<Entry>, t: Trace, i: nat, used: Uses, size: nat, e: nat)
    requires |used| == |es| && e < |es| && used[e] <= MAX_REPLACEMENTS_PER_CID
    requires Proper(html, es, t, i, used, size)
    ensures used[e] + Puts(t, e) <= MAX_REPLACEMENTS_PER_CID
    decreases t
  {
    match t
    case Stop =>
    case Copy(rest) => BudgetHolds(html, es, rest, i + 1, used, size + CharSize(html[i]), e);
    case Put(f, rest) => BudgetHolds(html, es, rest, Past(es, i, f), OneMoreUse(used, f), size + Size(es[f].uri), e);
  }

  lemma SizeOfSuffix(html: string, i: nat, j: nat)
    requires i <= j <= |html|
    ensures Size(html[i..]) == Size(html[i..j]) + Size(html[j..])
  {
    assert html[i..] == html[i..j] + html[j..];
    SizeJoins(html[i..j], html[j..]);
  }

  lemma SizeOfOne(c: char)
    ensures Size([c]) == CharSize(c)
  {
    assert Size([c]) == Size([]) + CharSize(c);
  }

  lemma SizeOfTail(html: string, i: nat)
    requires i < |html|
    ensures Size(html[i..]) == CharSize(html[i]) + Size(html[i + 1..])
  {
    SizeOfSuffix(html, i, i + 1);
    assert html[i..i + 1] == [html[i]];
    SizeOfOne(html[i]);
  }

  function AtLeastCap(size: nat): nat {
    if size > MAX_OUTPUT_BYTES then size else MAX_OUTPUT_BYTES
  }

  /** The output never outgrows the cap by more than the input. */
  lemma {:induction false} SizeBound(html: string, es: seq<Entry>, t: Trace, i: nat, used: Uses, size: nat)
    requires |used| == |es| && i <= |html| && Proper(html, es, t, i, used, size)
    ensures size + Size(Output(html, es, t, i)) <= AtLeastCap(size) + Size(html[i..])
    decreases t
  {
    match t
    case Stop =>
    case Copy(rest) =>
      SizeBound(html, es, rest, i + 1, used, size + CharSize(html[i]));
      SizeOfTail(html, i);
      SizeOfOne(html[i]);
      SizeJoins([html[i]], Output(html, es, rest, i + 1));
    case Put(e, rest) =>
      SizeBound(html, es, rest, Past(es, i, e), OneMoreUse(used, e), size + Size(es[e].uri));
      SizeOfSuffix(html, i, Past(es, i, e));
      SizeJoins(es[e].uri, Output(html, es, rest, Past(es, i, e)));
  }

  /** The whole promise about a rewritten text. */
  lemma RewriteIsProper(html: string, cids: seq<(string, string)>) returns (es: seq<Entry>, t: Trace)
    ensures Ordered(es) && multiset(es) == multiset(Usable(cids))
    ensures Proper(html, es, t, 0, Zeros(|es|), 0) && Rewritten(html, cids) == Output(html, es, t, 0)
    ensures forall e | 0 <= e < |es| :: Puts(t, e) <= MAX_REPLACEMENTS_PER_CID
    ensures Size(Rewritten(html, cids)) <= MAX_OUTPUT_BYTES + Size(html)
  {
    SortOrders(Usable(cids));
    es := Sort(Usable(cids));
    t := Scan(html, es, 0, Zeros(|es|), 0);
    ScanIsProper(html, es, 0, Zeros(|es|), 0, t);
    forall e | 0 <= e < |es| ensures Puts(t, e) <= MAX_REPLACEMENTS_PER_CID {
      BudgetHolds(html, es, t, 0, Zeros(|es|), 0, e);
    }
    SizeBound(html, es, t, 0, Zeros(|es|), 0);
    assert html[0..] == html;
  }

  // ---------- the code ----------

  /** The next occurrence of `cid:` at or after `from`, or the end. */
  function NextCid(html: string, from: nat): (i: nat)
    requires from <= |html|
    ensures from <= i <= |html| && (i < |html| ==> IsCid(html, i))
    ensures forall j | from <= j < i :: !IsCid(html, j)
    decreases |html| - from
  {
    if from == |html| || IsCid(html, from) then from else NextCid(html, from + 1)
  }

  /** Occurrences do not overlap. */
  lemma NoneInside(html: string, i: nat)
    requires IsCid(html, i)
    ensures !IsCid(html, i + 1) && !IsCid(html, i + 2) && !IsCid(html, i + 3)
  {
    var w := html[i..i + 4];
    assert html[i + 1] == w[1] && html[i + 2] == w[2] && html[i + 3] == w[3];
    assert forall j | i < j < i + 4 && IsCid(html, j) :: html[j..j + 4][0] == 'c';
  }

  function Tail(html: string, es: seq<Entry>, p: nat, used: Uses, size: nat): string
    requires |used| == |es|
  {
    Output(html, es, Scan(html, es, p, used, size), p)
  }

  /** The whole output when `w` has been written for everything before `p`. */
  function Come(html: string, es: seq<Entry>, w: string, p: nat, used: Uses): string
    requires |used| == |es|
  {
    w + Tail(html, es, p, used, Size(w))
  }

  predicate Replaces(html: string, es: seq<Entry>, i: nat, used: Uses, size: nat, e: nat)
    requires |used| == |es|
  {
    Choice(html, es, i) == Some(e) && Allowed(es, used, size, e)
  }

  lemma Regroup(a: string, b: string, c: string)
    ensures a + (b + c) == (a + b) + c
  {
  }

  lemma TailCopies(html: string, es: seq<Entry>, p: nat, used: Uses, size: nat)
    requires p < |html| && |used| == |es|
    requires var c := Choice(html, es, p); c.None? || !Allowed(es, used, size, c.value)
    ensures Tail(html, es, p, used, size) == [html[p]] + Tail(html, es, p + 1, used, size + CharSize(html[p]))
  {
  }

  lemma TailPuts(html: string, es: seq<Entry>, p: nat, used: Uses, size: nat, e: nat)
    requires p < |html| && |used| == |es| && Replaces(html, es, p, used, size, e)
    ensures Tail(html, es, p, used, size) ==
            es[e].uri + Tail(html, es, Past(es, p, e), OneMoreUse(used, e), size + Size(es[e].uri))
  {
  }

  /** Moving a piece of the tail over to what has been written. */
  lemma Shift(html: string, es: seq<Entry>, w: string, piece: string, p: nat, q: nat, used: Uses, more: Uses)
    requires |used| == |es| == |more|
    requires Tail(html, es, p, used, Size(w)) == piece + Tail(html, es, q, more, Size(w) + Size(piece))
    ensures Come(html, es, w, p, used) == Come(html, es, w + piece, q, more)
  {
    SizeJoins(w, piece);
    Regroup(w, piece, Tail(html, es, q, more, Size(w) + Size(piece)));
  }

  /** A character nothing replaces is copied. */
  lemma Keep(html: string, es: seq<Entry>, w: string, p: nat, used: Uses)
    requires p < |html| && |used| == |es|
    requires var c := Choice(html, es, p); c.None? || !Allowed(es, used, Size(w), c.value)
    ensures Come(html, es, w, p, used) == Come(html, es, w + [html[p]], p + 1, used)
  {
    TailCopies(html, es, p, used, Size(w));
    SizeOfOne(html[p]);
    Shift(html, es, w, [html[p]], p, p + 1, used, used);
  }

  lemma Replace(html: string, es: seq<Entry>, w: string, p: nat, used: Uses, e: nat)
    requires p < |html| && |used| == |es| && Replaces(html, es, p, used, Size(w), e)
    ensures Come(html, es, w, p, used) == Come(html, es, w + es[e].uri, Past(es, p, e), OneMoreUse(used, e))
  {
    TailPuts(html, es, p, used, Size(w), e);
    Shift(html, es, w, es[e].uri, p, Past(es, p, e), used, OneMoreUse(used, e));
  }

  /** Text without an occurrence is copied as it stands. */
  lemma {:induction false} Advance(html: string, es: seq<Entry>, w: string, p: nat, q: nat, used: Uses)
    requires p <= q <= |html| && |used| == |es| && forall j | p <= j < q :: !IsCid(html, j)
    ensures Come(html, es, w, p, used) == Come(html, es, w + html[p..q], q, used)
    decreases q - p
  {
    if p < q {
      Keep(html, es, w, p, used);
      Advance(html, es, w + [html[p]], p + 1, q, used);
      assert html[p..q] == [html[p]] + html[p + 1..q];
      assert w + [html[p]] + html[p + 1..q] == w + html[p..q];
    } else {
      assert w + html[p..q] == w;
    }
  }

  /** Up to the cursor written, from there to `p` about to be copied. */
  function Pending(html: string, out: string, cursor: nat, p: nat): string
    requires cursor <= p <= |html|
  {
    out + html[cursor..p]
  }

  lemma AdvancePending(html: string, es: seq<Entry>, out: string, cursor: nat, p: nat, q: nat, used: Uses)
    requires cursor <= p <= q <= |html| && |used| == |es| && forall j | p <= j < q :: !IsCid(html, j)
    ensures Come(html, es, Pending(html, out, cursor, p), p, used) == Come(html, es, Pending(html, out, cursor, q), q, used)
  {
    Advance(html, es, Pending(html, out, cursor, p), p, q, used);
    assert Pending(html, out, cursor, p) + html[p..q] == Pending(html, out, cursor, q);
  }

  lemma LeavePending(html: string, es: seq<Entry>, out: string, cursor: nat, i: nat, next: nat, used: Uses)
    requires cursor <= i < next <= |html| && |used| == |es| && forall j | i < j < next :: !IsCid(html, j)
    requires var c := Choice(html, es, i); c.None? || !Allowed(es, used, Size(Pending(html, out, cursor, i)), c.value)
    ensures Come(html, es, Pending(html, out, cursor, i), i, used)
         == Come(html, es, Pending(html, out, cursor, next), next, used)
  {
    Keep(html, es, Pending(html, out, cursor, i), i, used);
    assert Pending(html, out, cursor, i) + [html[i]] == Pending(html, out, cursor, i + 1);
    AdvancePending(html, es, out, cursor, i + 1, next, used);
  }

  /** The next occurrence, with none in between. */
  lemma NextIsNext(html: string, i: nat)
    requires IsCid(html, i)
    ensures forall j | i < j < NextCid(html, i + 4) :: !IsCid(html, j)
  {
    NoneInside(html, i);
  }

  lemma NothingPending(html: string, out: string, cursor: nat)
    requires cursor <= |html|
    ensures Pending(html, out, cursor, cursor) == out
  {
  }

  lemma CatchUp(html: string, es: seq<Entry>, out: string, cursor: nat, i: nat, next: nat, used: Uses)
    requires i < cursor <= |html| && next <= |html| && |used| == |es| && forall j | i < j < next :: !IsCid(html, j)
    ensures Come(html, es, out, cursor, used) ==
            var p := if next < cursor then cursor else next; Come(html, es, Pending(html, out, cursor, p), p, used)
  {
    NothingPending(html, out, cursor);
    if next >= cursor {
      AdvancePending(html, es, out, cursor, cursor, next, used);
    }
  }

  method RewriteCidRefs(html: string, cids: seq<(string, string)>) returns (out: string)
    ensures out == Rewritten(html, cids)
  {
    var es := Sort(Usable(cids));
    if es == [] {
      NothingToRewrite(html, 0, 0);
      assert Zeros(0) == [] && html[0..] == html;
      return html;
    }
    out := Walk(html, es);
  }

  /** Where the walk stands: everything before the cursor is out, and the rest of
      the whole output is still to come. */
  ghost predicate Underway(html: string, es: seq<Entry>, whole: string, out: string, cursor: nat, i: nat, used: Uses) {
    && i <= |html| && cursor <= |html| && |used| == |es| && (i < |html| ==> IsCid(html, i))
    && var p := if i < cursor then cursor else i;
       whole == Come(html, es, Pending(html, out, cursor, p), p, used)
  }

  /** One occurrence: inside what was replaced, left alone, or replaced. */
  method Visit(html: string, es: seq<Entry>, out: string, cursor: nat, i: nat, used: Uses, ghost whole: string)
    returns (out': string, cursor': nat, used': Uses)
    requires i < |html| && Underway(html, es, whole, out, cursor, i, used)
    ensures Underway(html, es, whole, out', cursor', NextCid(html, i + 4), used')
  {
    ghost var next := NextCid(html, i + 4);
    out', cursor', used' := out, cursor, used;
    NextIsNext(html, i);
    if i < cursor {
      NothingPending(html, out, cursor);
      CatchUp(html, es, out, cursor, i, next, used);
    } else {
      var size := Size(out) + Size(html[cursor..i]);
      SizeJoins(out, html[cursor..i]);
      var entry := FirstMatch(html, es, i + 4, 0);
      if entry.None? || !Allowed(es, used, size, entry.value) {
        LeavePending(html, es, out, cursor, i, next, used);
      } else {
        Replace(html, es, Pending(html, out, cursor, i), i, used, entry.value);
        out' := out + html[cursor..i] + es[entry.value].uri;
        cursor' := Past(es, i, entry.value);
        used' := OneMoreUse(used, entry.value);
        CatchUp(html, es, out', cursor', i, next, used');
      }
    }
  }

  lemma Begins(html: string, es: seq<Entry>, used: Uses)
    requires |used| == |es|
    ensures Underway(html, es, Tail(html, es, 0, used, 0), [], 0, NextCid(html, 0), used)
  {
    NothingPending(html, [], 0);
    AdvancePending(html, es, [], 0, 0, NextCid(html, 0), used);
    assert Come(html, es, [], 0, used) == Tail(html, es, 0, used, 0);
  }

  lemma Ends(html: string, es: seq<Entry>, whole: string, out: string, cursor: nat, used: Uses)
    requires Underway(html, es, whole, out, cursor, |html|, used)
    ensures whole == out + html[cursor..]
  {
    assert html[cursor..|html|] == html[cursor..];
  }

  /** From occurrence to occurrence, with a cursor up to which the text is out. */
  method Walk(html: string, es: seq<Entry>) returns (out: string)
    ensures out == Output(html, es, Scan(html, es, 0, Zeros(|es|), 0), 0)
  {
    var used := Zeros(|es|);
    out := [];
    var cursor: nat := 0;
    var i := NextCid(html, 0);
    ghost var whole := Tail(html, es, 0, used, 0);
    Begins(html, es, used);
    while i < |html|
      invariant Underway(html, es, whole, out, cursor, i, used)
      decreases |html| - i
    {
      out, cursor, used := Visit(html, es, out, cursor, i, used, whole);
      i := NextCid(html, i + 4);
    }
    Ends(html, es, whole, out, cursor, used);
    out := out + html[cursor..];
  }

  lemma {:induction false} NothingToRewrite(html: string, i: nat, size: nat)
    requires i <= |html|
    ensures Output(html, [], Scan(html, [], i, [], size), i) == html[i..]
    decreases |html| - i
  {
    if i < |html| {
      NothingToRewrite(html, i + 1, size + CharSize(html[i]));
      assert html[i..] == [html[i]] + html[i + 1..];
    }
  }
}

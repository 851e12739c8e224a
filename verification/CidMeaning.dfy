/** Which references an HTML body's known ids are found in. */
module CidMeaning {
  import opened Wrappers
  import opened Text
  import opened CidRefs

  /** What may follow a reference: a quote of either kind, a closing or opening
      bracket, an entity, white space. */
  predicate Closes(c: char) {
    c in ['"', '\'', ')', '>', '<', '&'] || IsSpace(c)
  }

  /** `cid:` and the id stand at `i`, and the text ends there or goes on with a
      character that closes a reference and is part of no id. */
  ghost predicate Mentions(html: string, es: seq<Entry>, i: nat, id: string) {
    var n := i + 4 + |id|;
    && n <= |html| && html[i..i + 4] == "cid:" && html[i + 4..n] == id
    && (n < |html| ==> Closes(html[n]) && forall j | 0 <= j < |es| :: html[n] !in es[j].bare)
  }

  predicate FirstWith(es: seq<Entry>, id: string, e: nat) {
    e < |es| && es[e].bare == id && forall j | 0 <= j < e :: es[j].bare != id
  }

  lemma LongerIsBigger(a: string, b: string)
    requires |a| < |b| && b[..|a|] == a
    ensures Size(a) < Size(b)
  {
    assert b == a + b[|a|..];
    SizeJoins(a, b[|a|..]);
    assert Size(b[|a|..]) > 0;
  }

  lemma OthersMiss(html: string, es: seq<Entry>, i: nat, id: string, e: nat, j: nat)
    requires Ordered(es) && Mentions(html, es, i, id) && FirstWith(es, id, e) && j < e
    ensures !Matches(html, i + 4, es[j].bare)
  {
    var other := es[j].bare;
    assert Ahead(es[j], es[e]);
    if Matches(html, i + 4, other) {
      if |other| <= |id| {
        assert id[..|other|] == other by {
          assert html[i + 4..i + 4 + |id|][..|other|] == html[i + 4..i + 4 + |other|];
        }
        if |other| < |id| {
          LongerIsBigger(other, id);
        }
      }
    }
  }

  lemma {:induction false} FirstMatchIs(html: string, es: seq<Entry>, at: nat, k: nat, e: nat)
    requires k <= e < |es| && Matches(html, at, es[e].bare) && forall j | k <= j < e :: !Matches(html, at, es[j].bare)
    ensures FirstMatch(html, es, at, k) == Some(e)
    decreases e - k
  {
    if k < e {
      FirstMatchIs(html, es, at, k + 1, e);
    }
  }

  lemma MentionChosen(html: string, es: seq<Entry>, i: nat, id: string, e: nat)
    requires Ordered(es) && Mentions(html, es, i, id) && FirstWith(es, id, e)
    ensures Choice(html, es, i) == Some(e) && Past(es, i, e) == i + 4 + |id| && i < |html|
  {
    forall j | 0 <= j < e ensures !Matches(html, i + 4, es[j].bare) {
      OthersMiss(html, es, i, id, e, j);
    }
    FirstMatchIs(html, es, i + 4, 0, e);
  }

  /** Such a mention of a known id, wherever the scan meets it, is replaced by the
      first entry with that id, as long as both limits allow. */
  lemma MentionIsReplaced(html: string, es: seq<Entry>, i: nat, used: Uses, size: nat, id: string, e: nat)
    requires |used| == |es| && Ordered(es) && Mentions(html, es, i, id) && FirstWith(es, id, e)
    requires used[e] < MAX_REPLACEMENTS_PER_CID && size + Size(es[e].uri) <= MAX_OUTPUT_BYTES
    ensures Tail(html, es, i, used, size) ==
              es[e].uri + Tail(html, es, i + 4 + |id|, used[e := used[e] + 1], size + Size(es[e].uri))
  {
    MentionChosen(html, es, i, id, e);
    TailPuts(html, es, i, used, size, e);
  }

  lemma OneFurther(html: string, i: nat, n: nat)
    requires i < n <= |html|
    ensures html[i..n] == [html[i]] + html[i + 1..n] && Size(html[i..n]) == CharSize(html[i]) + Size(html[i + 1..n])
  {
    assert html[i..n] == [html[i]] + html[i + 1..n];
    SizeJoins([html[i]], html[i + 1..n]);
    SizeOfOne(html[i]);
  }

  lemma {:induction false} NoCidCopies(html: string, es: seq<Entry>, i: nat, n: nat, used: Uses, size: nat)
    requires |used| == |es| && i <= n <= |html| && forall j | i <= j < n :: !IsCid(html, j)
    ensures Tail(html, es, i, used, size) == html[i..n] + Tail(html, es, n, used, size + Size(html[i..n]))
    decreases n - i
  {
    if i == n {
      assert html[i..n] == [];
    } else {
      var more := size + CharSize(html[i]);
      OneFurther(html, i, n);
      TailCopies(html, es, i, used, size);
      NoCidCopies(html, es, i + 1, n, used, more);
      Regroup([html[i]], html[i + 1..n], Tail(html, es, n, used, size + Size(html[i..n])));
    }
  }

  lemma FirstPuts(html: string, es: seq<Entry>, i: nat, id: string, e: nat)
    requires Ordered(es) && Mentions(html, es, i, id) && FirstWith(es, id, e) && forall j | 0 <= j < i :: !IsCid(html, j)
    requires Size(html[..i]) + Size(es[e].uri) <= MAX_OUTPUT_BYTES
    ensures html[..i] + es[e].uri <= Tail(html, es, 0, Zeros(|es|), 0)
  {
    var n := i + 4 + |id|;
    NoCidCopies(html, es, 0, i, Zeros(|es|), 0);
    assert html[0..i] == html[..i];
    var size := Size(html[..i]);
    MentionIsReplaced(html, es, i, Zeros(|es|), size, id, e);
    Regroup(html[..i], es[e].uri, Tail(html, es, n, Zeros(|es|)[e := 1], size + Size(es[e].uri)));
  }

  /** The first mention of a known id is replaced by its URI, whatever closes it: two
      kinds of quotes among the rest. */
  lemma FirstMentionIsReplaced(html: string, cids: seq<(string, string)>, i: nat, id: string, e: nat)
    requires var es := Sort(Usable(cids));
             && Mentions(html, es, i, id) && FirstWith(es, id, e) && (forall j | 0 <= j < i :: !IsCid(html, j))
             && Size(html[..i]) + Size(es[e].uri) <= MAX_OUTPUT_BYTES
    ensures html[..i] + Sort(Usable(cids))[e].uri <= Rewritten(html, cids)
  {
    SortOrders(Usable(cids));
    FirstPuts(html, Sort(Usable(cids)), i, id, e);
  }
}

/** Comma-joined UID sets, cut so that no IMAP command grows too long. */
module UidChunks {
  import opened Wrappers
  import opened Decimal

  const UID_BATCH_LIMIT: nat := 1000
  const UID_BATCH_BYTES_LIMIT: nat := 4096

  /** Reading a batch back: split on commas, parse each part. */
  function ParseAll(parts: seq<string>): Option<seq<nat>> {
    if parts == [] then Some([])
    else
      var front, last := ParseAll(parts[..|parts| - 1]), ParseU32(parts[|parts| - 1]);
      if front.Some? && last.Some? then Some(front.value + [last.value]) else None
  }

  function ReadBatch(batch: string): Option<seq<nat>> {
    ParseAll(SplitOn(batch, ','))
  }

  function ReadAll(batches: seq<string>): Option<seq<nat>> {
    if batches == [] then Some([])
    else
      var front, last := ReadAll(batches[..|batches| - 1]), ReadBatch(batches[|batches| - 1]);
      if front.Some? && last.Some? then Some(front.value + last.value) else None
  }

  predicate AllU32(uids: seq<nat>) {
    forall i | 0 <= i < |uids| :: uids[i] <= U32_MAX
  }

  function Joined(uids: seq<nat>): string {
    if uids == [] then []
    else if |uids| == 1 then Digits(uids[0])
    else Joined(uids[..|uids| - 1]) + "," + Digits(uids[|uids| - 1])
  }

  lemma ParseOneMore(parts: seq<string>, part: string)
    ensures ParseAll(parts + [part]) ==
            if ParseAll(parts).Some? && ParseU32(part).Some? then Some(ParseAll(parts).value + [ParseU32(part).value])
            else None
  {
    assert (parts + [part])[..|parts|] == parts;
  }

  function Decimals(uids: seq<nat>): seq<string> {
    seq(|uids|, i requires 0 <= i < |uids| => Digits(uids[i]))
  }

  lemma DecimalsOneMore(uids: seq<nat>, u: nat)
    ensures Decimals(uids + [u]) == Decimals(uids) + [Digits(u)]
  {
  }

  lemma {:induction false} SplitJoined(uids: seq<nat>)
    requires uids != []
    ensures SplitOn(Joined(uids), ',') == Decimals(uids)
  {
    var k := |uids| - 1;
    var front, last := uids[..k], uids[k];
    assert uids == front + [last];
    DecimalsOneMore(front, last);
    if k == 0 {
      assert Decimals(front) == [];
      SplitNothing(Digits(last), ',');
    } else {
      SplitJoined(front);
      SplitAppends(Joined(front), ',', Digits(last));
    }
  }

  lemma {:induction false} ParseDecimals(uids: seq<nat>)
    requires AllU32(uids)
    ensures ParseAll(Decimals(uids)) == Some(uids)
  {
    if uids != [] {
      var k := |uids| - 1;
      var front, last := uids[..k], uids[k];
      ParseDecimals(front);
      ParseLast(front, last);
      assert front + [last] == uids;
    }
  }

  lemma ParseLast(front: seq<nat>, last: nat)
    requires last <= U32_MAX && ParseAll(Decimals(front)) == Some(front)
    ensures ParseAll(Decimals(front + [last])) == Some(front + [last])
  {
    ParseDigits(last);
    DecimalsOneMore(front, last);
    ParseOneMore(Decimals(front), Digits(last));
  }

  lemma ReadJoined(uids: seq<nat>)
    requires uids != [] && AllU32(uids)
    ensures ReadBatch(Joined(uids)) == Some(uids)
  {
    SplitJoined(uids);
    ParseDecimals(uids);
  }

  /** One comma and at most ten digits per UID. */
  lemma {:induction false} JoinedLength(uids: seq<nat>)
    requires uids != [] && AllU32(uids)
    ensures 0 < |Joined(uids)| <= 11 * |uids| - 1
  {
    var k := |uids| - 1;
    U32Short(uids[k]);
    if k > 0 {
      JoinedLength(uids[..k]);
    }
  }

  lemma ReadOneMore(batches: seq<string>, uids: seq<nat>)
    requires ReadAll(batches).Some? && uids != [] && AllU32(uids)
    ensures ReadAll(batches + [Joined(uids)]) == Some(ReadAll(batches).value + uids)
  {
    assert (batches + [Joined(uids)])[..|batches|] == batches;
    ReadJoined(uids);
  }

  predicate Fits(batch: string) {
    && ReadBatch(batch).Some? && 1 <= |ReadBatch(batch).value| <= UID_BATCH_LIMIT
    && |batch| <= UID_BATCH_BYTES_LIMIT
  }

  predicate Filled(batch: string) {
    Fits(batch) && |ReadBatch(batch).value| >= 372
  }

  lemma JoinedOneMore(held: seq<nat>, u: nat)
    ensures Joined(held + [u]) == if held == [] then Digits(u) else Joined(held) + "," + Digits(u)
  {
    assert (held + [u])[..|held|] == held;
  }

  /** A batch the loop closes early is full in UIDs or within one UID of full in
      bytes. */
  lemma ClosedIsFilled(held: seq<nat>, s: string)
    requires AllU32(held) && 0 < |held| <= UID_BATCH_LIMIT && |Joined(held)| <= UID_BATCH_BYTES_LIMIT && |s| <= 10
    requires |held| >= UID_BATCH_LIMIT || |Joined(held)| + 1 + |s| > UID_BATCH_BYTES_LIMIT
    ensures Filled(Joined(held))
  {
    ReadJoined(held);
    JoinedLength(held);
  }

  /** What the loop has written and still holds, after the first `n` UIDs. */
  ghost predicate Accounted(out: seq<string>, held: seq<nat>, uids: seq<nat>) {
    && ReadAll(out).Some? && ReadAll(out).value + held == uids
    && 372 * |out| <= |uids| - |held|
    && forall i | 0 <= i < |out| :: Filled(out[i])
  }

  lemma Flush(out: seq<string>, held: seq<nat>, uids: seq<nat>)
    requires Accounted(out, held, uids) && held != [] && AllU32(held) && Filled(Joined(held))
    ensures Accounted(out + [Joined(held)], [], uids)
  {
    ReadOneMore(out, held);
    ReadJoined(held);
    var all := out + [Joined(held)];
    assert forall i | 0 <= i < |all| :: all[i] == if i < |out| then out[i] else Joined(held);
  }

  lemma TakeOneMore(out: seq<string>, held: seq<nat>, uids: seq<nat>, u: nat)
    requires Accounted(out, held, uids)
    ensures Accounted(out, held + [u], uids + [u])
  {
    assert ReadAll(out).value + (held + [u]) == uids + [u];
  }

  /** The batch in hand with one more UID. */
  method Add(current: string, ghost held: seq<nat>, s: string, ghost u: nat) returns (longer: string)
    requires current == Joined(held) && s == Digits(u) && (held == [] <==> current == [])
    ensures longer == Joined(held + [u]) && longer != []
    ensures |longer| == |current| + |s| + if current == [] then 0 else 1
  {
    JoinedOneMore(held, u);
    longer := current;
    if longer != [] {
      longer := longer + [','];
    }
    longer := longer + s;
  }

  /** The batch in hand: what it holds, and that it fits. */
  predicate InHand(current: string, held: seq<nat>) {
    && current == Joined(held) && (held == [] <==> current == []) && AllU32(held)
    && |held| <= UID_BATCH_LIMIT && |current| <= UID_BATCH_BYTES_LIMIT
  }

  /** One UID more: into the batch in hand, or into a new one when that is full. */
  method Take(out: seq<string>, current: string, count: nat, u: nat, ghost held: seq<nat>, ghost seen: seq<nat>)
    returns (out': seq<string>, current': string, count': nat, ghost held': seq<nat>)
    requires Accounted(out, held, seen) && InHand(current, held) && count == |held| && u <= U32_MAX
    ensures Accounted(out', held', seen + [u]) && InHand(current', held') && count' == |held'| > 0
  {
    var s := Digits(u);
    U32Short(u);
    out', current', count', held' := out, current, count, held;
    var needed := if current == [] then |s| else 1 + |s|;
    if count >= UID_BATCH_LIMIT || (current != [] && |current| + needed > UID_BATCH_BYTES_LIMIT) {
      ClosedIsFilled(held, s);
      Flush(out, held, seen);
      out', current', count', held' := out + [current], [], 0, [];
    }
    TakeOneMore(out', held', seen, u);
    current' := Add(current', held', s, u);
    held' := held' + [u];
    count' := count' + 1;
  }

  lemma FlushLast(out: seq<string>, held: seq<nat>, uids: seq<nat>)
    requires Accounted(out, held, uids) && held != [] && InHand(Joined(held), held)
    ensures var all := out + [Joined(held)];
            && ReadAll(all) == Some(uids) && |all| <= (|uids| + 371) / 372
            && (forall i | 0 <= i < |all| :: Fits(all[i])) && (forall i | 0 <= i < |all| - 1 :: Filled(all[i]))
  {
    ReadOneMore(out, held);
    ReadJoined(held);
    var all := out + [Joined(held)];
    assert forall i | 0 <= i < |all| :: all[i] == if i < |out| then out[i] else Joined(held);
  }

  /** Nothing lost, reordered or merged; no batch too long; and none but the last
      cut early, so there are never more batches than a 372nd of the UIDs. */
  method Chunk(uids: seq<nat>) returns (out: seq<string>)
    requires AllU32(uids)
    ensures ReadAll(out) == Some(uids)
    ensures forall i | 0 <= i < |out| :: Fits(out[i])
    ensures forall i | 0 <= i < |out| - 1 :: Filled(out[i])
    ensures |out| <= (|uids| + 371) / 372
  {
    out := [];
    if uids == [] {
      return;
    }
    var current: string, count := [], 0;
    ghost var held: seq<nat> := [];
    for i := 0 to |uids|
      invariant Accounted(out, held, uids[..i]) && InHand(current, held) && count == |held|
      invariant i > 0 ==> count > 0
    {
      assert uids[..i + 1] == uids[..i] + [uids[i]];
      out, current, count, held := Take(out, current, count, uids[i], held, uids[..i]);
    }
    assert uids[..|uids|] == uids;
    FlushLast(out, held, uids);
    if current != [] {
      out := out + [current];
    }
  }
}

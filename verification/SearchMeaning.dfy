/** What a typed operator asks for, name by name. */
module SearchMeaning {
  import opened Wrappers
  import opened Text
  import opened SearchQuery

  /** `typed` is the word `w`, in any case. */
  predicate Says(typed: string, w: string) {
    CaseOf(typed, w) && forall i | 0 <= i < |w| :: 'a' <= w[i] <= 'z'
  }

  lemma SaidLowers(typed: string, w: string)
    requires Says(typed, w)
    ensures Lower(typed) == w && ':' !in typed && '"' !in typed && forall c | c in typed :: !IsSpace(c)
  {
    CaseLowers(typed, w);
  }

  /** A value typed bare, or in quotes because it has spaces. */
  function Raw(value: string, quoted: bool): string {
    if quoted then ['"'] + value + ['"'] else value
  }

  predicate Typeable(value: string, quoted: bool) {
    value != [] && '"' !in value && (!quoted ==> forall c | c in value :: !IsSpace(c))
  }

  lemma QuotesTrimmed(value: string, quoted: bool)
    requires Typeable(value, quoted)
    ensures TrimQuotes(Raw(value, quoted)) == value
  {
    assert TrimQuotes(value) == value;
    if quoted {
      var inner := value + ['"'];
      assert Raw(value, quoted)[1..] == inner && inner[..|inner| - 1] == value;
    }
  }

  // ---------- the token ----------

  lemma {:induction false} PlainRun(s: string, rest: string, quoted: bool, run: string)
    requires '"' !in s && (!quoted ==> forall c | c in s :: !IsSpace(c))
    ensures Runs(Marks(s + rest, quoted), run) == Runs(Marks(rest, quoted), run + s)
  {
    if s == [] {
      assert s + rest == rest && run + s == run;
    } else {
      NextMark(s + rest, quoted, run);
      assert (s + rest)[1..] == s[1..] + rest && run + s == (run + [s[0]]) + s[1..];
      PlainRun(s[1..], rest, quoted, run + [s[0]]);
    }
  }

  lemma RawRun(value: string, quoted: bool, run: string)
    requires Typeable(value, quoted)
    ensures Runs(Marks(Raw(value, quoted), false), run) == [run + Raw(value, quoted)]
  {
    if quoted {
      var inner := value + ['"'];
      NextMark(Raw(value, quoted), false, run);
      assert Raw(value, quoted)[1..] == inner;
      PlainRun(value, ['"'], true, run + ['"']);
      NextMark(['"'], true, (run + ['"']) + value);
      assert ['"'][1..] == [];
      assert ((run + ['"']) + value) + ['"'] == run + Raw(value, quoted);
    } else {
      PlainRun(value, [], false, run);
      assert value + [] == value;
    }
  }

  function Token(name: string, value: string, quoted: bool): string {
    name + [':'] + Raw(value, quoted)
  }

  lemma TokenAlone(name: string, value: string, quoted: bool)
    requires Typeable(value, quoted) && '"' !in name && forall c | c in name :: !IsSpace(c)
    ensures Tokens(Token(name, value, quoted)) == [Token(name, value, quoted)]
  {
    var head := name + [':'];
    PlainRun(head, Raw(value, quoted), false, []);
    assert [] + head == head;
    RawRun(value, quoted, head);
  }

  // ---------- the operator ----------

  /** What `name:value` adds to a query, for each operator. */
  predicate Asks(date: string -> Option<int>, q: Query, name: string, value: string, r: Query) {
    && (Says(name, "from") ==> r == q.(fields := q.fields + [(From, value)]))
    && (Says(name, "to") ==> r == q.(fields := q.fields + [(To, value)]))
    && (Says(name, "subject") ==> r == q.(fields := q.fields + [(Subject, value)]))
    && (Says(name, "is") && Says(value, "unread") ==> r == q.(unread := Some(true)))
    && (Says(name, "is") && Says(value, "read") ==> r == q.(unread := Some(false)))
    && (Says(name, "has") && Says(value, "attachment") ==> r == q.(attachment := Some(true)))
    && (Says(name, "has") && Says(value, "noattachment") ==> r == q.(attachment := Some(false)))
    && (Says(name, "before") ==> r == if date(value).Some? then q.(before := date(value)) else q)
    && (Says(name, "after") ==> r == if date(value).Some? then q.(after := date(value)) else q)
    && (Says(name, "in") ==> r == q.(folder := Some(value)))
  }

  predicate IsName(name: string) {
    || Says(name, "from") || Says(name, "to") || Says(name, "subject") || Says(name, "is")
    || Says(name, "has") || Says(name, "before") || Says(name, "after") || Says(name, "in")
  }

  lemma NamesAre(name: string)
    requires IsName(name)
    ensures name != [] && Known(Lower(name)) && ':' !in name && '"' !in name && forall c | c in name :: !IsSpace(c)
    ensures forall w: string | Says(name, w) :: Lower(name) == w
  {
    forall w: string | Says(name, w)
      ensures Lower(name) == w && ':' !in name && '"' !in name && forall c | c in name :: !IsSpace(c)
    {
      SaidLowers(name, w);
    }
  }

  lemma TokenSplits(name: string, value: string, quoted: bool)
    requires IsName(name)
    ensures SplitOperator(Token(name, value, quoted)) == Some((name, Raw(value, quoted)))
  {
    NamesAre(name);
    FirstAt(name, ':', Raw(value, quoted));
  }

  lemma OperatorAsks(date: string -> Option<int>, q: Query, name: string, value: string, quoted: bool)
    requires IsName(name) && Typeable(value, quoted)
    ensures Asks(date, q, name, value, Took(date, q, Token(name, value, quoted)))
  {
    TokenSplits(name, value, quoted);
    QuotesTrimmed(value, quoted);
    NamesAre(name);
    forall w: string | Says(value, w) ensures Lower(value) == w {
      SaidLowers(value, w);
    }
  }

  /** An operator typed after any other tokens, its name in any case, its value bare
      or in quotes, sets the part of the query it is named for and leaves the rest. */
  lemma OperatorTyped(date: string -> Option<int>, tokens: seq<string>, name: string, value: string, quoted: bool)
    requires IsName(name) && Typeable(value, quoted)
    ensures Tokens(Token(name, value, quoted)) == [Token(name, value, quoted)]
    ensures Asks(date, Parsed(date, tokens), name, value, Parsed(date, tokens + [Token(name, value, quoted)]))
    ensures Asks(date, EMPTY, name, value, Parsed(date, Tokens(Token(name, value, quoted))))
  {
    NamesAre(name);
    TokenAlone(name, value, quoted);
    OperatorAsks(date, Parsed(date, tokens), name, value, quoted);
    ParsedOneMore(date, tokens, Token(name, value, quoted));
    OperatorAsks(date, EMPTY, name, value, quoted);
    ParsedOneMore(date, [], Token(name, value, quoted));
    assert [] + [Token(name, value, quoted)] == [Token(name, value, quoted)];
  }
}

/** Search queries: tokens, operators, and the rendering as a Tantivy query, read
    back by a lexer of the grammar it is written in. */
module SearchQuery {
  import opened Wrappers
  import opened Text

  /** Which characters beyond ASCII are alphanumeric is the Unicode database's to
      say; none of them is white space. */
  datatype Unicode = Unicode(alnum: char -> bool)

  predicate AsciiAlnum(c: char) {
    '0' <= c <= '9' || 'A' <= c <= 'Z' || 'a' <= c <= 'z'
  }

  ghost predicate Sane(u: Unicode) {
    && (forall c: char :: c < '\U{80}' ==> (u.alnum(c) <==> AsciiAlnum(c)))
    && forall c: char :: u.alnum(c) ==> !IsSpace(c)
  }

  // ---------- tokens ----------

  /** Each character, or None where a space outside quotes separates. */
  function Marks(s: string, quoted: bool): seq<Option<char>> {
    if s == [] then []
    else if s[0] == '"' then [Some('"')] + Marks(s[1..], !quoted)
    else if IsSpace(s[0]) && !quoted then [None] + Marks(s[1..], quoted)
    else [Some(s[0])] + Marks(s[1..], quoted)
  }

  /** The maximal runs of characters, `run` being the one in progress. */
  function Runs(ms: seq<Option<char>>, run: string): seq<string> {
    if ms == [] then (if run == [] then [] else [run])
    else if ms[0].Some? then Runs(ms[1..], run + [ms[0].value])
    else (if run == [] then [] else [run]) + Runs(ms[1..], [])
  }

  method Tokenize(input: string) returns (tokens: seq<string>)
    ensures tokens == Tokens(input)
  {
    tokens := [];
    var current: string := [];
    var quoted := false;
    for i := 0 to |input|
      invariant Runs(Marks(input, false), []) == tokens + Runs(Marks(input[i..], quoted), current)
    {
      var ch := input[i];
      assert input[i..][1..] == input[i + 1..];
      NextMark(input[i..], quoted, current);
      if ch == '"' {
        current := current + [ch];
        quoted := !quoted;
      } else if IsSpace(ch) && !quoted {
        if current != [] {
          tokens := tokens + [current];
          current := [];
        }
      } else {
        current := current + [ch];
      }
    }
    assert input[|input|..] == [];
    if current != [] {
      tokens := tokens + [current];
    }
  }

  lemma NextMark(s: string, quoted: bool, run: string)
    requires s != []
    ensures Runs(Marks(s, quoted), run) ==
            if s[0] == '"' then Runs(Marks(s[1..], !quoted), run + [s[0]])
            else if IsSpace(s[0]) && !quoted then
              (if run == [] then [] else [run]) + Runs(Marks(s[1..], quoted), [])
            else Runs(Marks(s[1..], quoted), run + [s[0]])
  {
    if s[0] == '"' {
      assert Marks(s, quoted)[1..] == Marks(s[1..], !quoted);
    } else {
      assert Marks(s, quoted)[1..] == Marks(s[1..], quoted);
    }
  }

  function Concat(ts: seq<string>): string {
    if ts == [] then [] else ts[0] + Concat(ts[1..])
  }

  function Somes(ms: seq<Option<char>>): string {
    if ms == [] then [] else (if ms[0].Some? then [ms[0].value] else []) + Somes(ms[1..])
  }

  lemma ConcatCons(run: string, rest: seq<string>)
    ensures Concat((if run == [] then [] else [run]) + rest) == run + Concat(rest)
  {
    if run == [] {
      assert [] + rest == rest;
    } else {
      assert ([run] + rest)[1..] == rest;
    }
  }

  lemma Grouped(run: string, c: char, rest: string)
    ensures run + [c] + rest == run + ([c] + rest)
  {
  }

  predicate NoneEmpty(ts: seq<string>) {
    forall i | 0 <= i < |ts| :: ts[i] != []
  }

  /** Tokens hold every character but the separating spaces, in order, and none is
      empty. */
  lemma {:induction false} TokensKeepText(ms: seq<Option<char>>, run: string)
    ensures Concat(Runs(ms, run)) == run + Somes(ms)
    ensures NoneEmpty(Runs(ms, run))
    decreases |ms|
  {
    if ms == [] {
      ConcatCons(run, []);
      assert (if run == [] then [] else [run]) + [] == Runs(ms, run);
    } else {
      var rest := ms[1..];
      if ms[0].Some? {
        TokensKeepText(rest, run + [ms[0].value]);
        Grouped(run, ms[0].value, Somes(rest));
      } else {
        TokensKeepText(rest, []);
        ConcatCons(run, Runs(rest, []));
      }
    }
  }

  // ---------- queries ----------

  datatype SearchField = From | To | Subject

  function Column(f: SearchField): string {
    match f
    case From => "from_json"
    case To => "to_json"
    case Subject => "subject"
  }

  datatype Query = Query(
    terms: seq<string>,
    fields: seq<(SearchField, string)>,
    unread: Option<bool>,
    attachment: Option<bool>,
    before: Option<int>,
    after: Option<int>,
    folder: Option<string>)

  const EMPTY := Query([], [], None, None, None, None, None)

  predicate HasFts(q: Query) {
    q.terms != [] || q.fields != []
  }

  function TrimQuotes(s: string): string {
    if s != [] && s[0] == '"' then TrimQuotes(s[1..])
    else if s != [] && s[|s| - 1] == '"' then TrimQuotes(s[..|s| - 1])
    else s
  }

  predicate Known(op: string) {
    op == "from" || op == "to" || op == "subject" || op == "is" || op == "has"
    || op == "before" || op == "after" || op == "in"
  }

  /** The operator, in lower case, and its value; any other colon is just text. */
  function SplitOperator(token: string): Option<(string, string)> {
    match SplitOnce(token, ':')
    case None => None
    case Some((head, tail)) => if head != [] && Known(Lower(head)) then Some((head, tail)) else None
  }

  function AddTerm(q: Query, term: string): Query {
    q.(terms := q.terms + [term])
  }

  /** `date` reads `YYYY-MM-DD`. An operator that takes text and has none becomes
      the literal text it was typed as. */
  function ApplyOperator(date: string -> Option<int>, q: Query, op: string, raw: string): Query {
    var value := TrimQuotes(raw);
    var name, word := Lower(op), Lower(value);
    if name == "from" && value != [] then q.(fields := q.fields + [(From, value)])
    else if name == "to" && value != [] then q.(fields := q.fields + [(To, value)])
    else if name == "subject" && value != [] then q.(fields := q.fields + [(Subject, value)])
    else if name == "is" then
      if word == "unread" then q.(unread := Some(true))
      else if word == "read" then q.(unread := Some(false))
      else if word != [] then AddTerm(q, "is:" + word)
      else q
    else if name == "has" then
      if word == "attachment" then q.(attachment := Some(true))
      else if word == "noattachment" then q.(attachment := Some(false))
      else if word != [] then AddTerm(q, "has:" + word)
      else q
    else if name == "before" then (if date(value).Some? then q.(before := date(value)) else q)
    else if name == "after" then (if date(value).Some? then q.(after := date(value)) else q)
    else if name == "in" && value != [] then q.(folder := Some(value))
    else AddTerm(q, op + ":" + value)
  }

  function Took(date: string -> Option<int>, q: Query, token: string): Query {
    var split := SplitOperator(token);
    if split.Some? then ApplyOperator(date, q, split.value.0, split.value.1) else AddTerm(q, token)
  }

  function Parsed(date: string -> Option<int>, tokens: seq<string>): Query {
    if tokens == [] then EMPTY
    else Took(date, Parsed(date, tokens[..|tokens| - 1]), tokens[|tokens| - 1])
  }

  function Tokens(input: string): seq<string> {
    Runs(Marks(input, false), [])
  }

  method Parse(date: string -> Option<int>, input: string) returns (q: Query)
    ensures q == Parsed(date, Tokens(input))
  {
    q := EMPTY;
    var tokens := Tokenize(input);
    for i := 0 to |tokens|
      invariant q == Parsed(date, tokens[..i])
    {
      ParsedOneMore(date, tokens[..i], tokens[i]);
      assert tokens[..i + 1] == tokens[..i] + [tokens[i]];
      q := Took(date, q, tokens[i]);
    }
    assert tokens[..|tokens|] == tokens;
  }

  /** The text a term searches for. */
  function Literal(s: string): string {
    TrimQuotes(Trim(s))
  }

  predicate WordChar(u: Unicode, c: char) {
    u.alnum(c) || c == '_' || c == '@' || c == '.' || c == '\''
  }

  predicate Keyword(s: string) {
    Lower(s) == "and" || Lower(s) == "or" || Lower(s) == "not"
  }

  predicate PlainWord(u: Unicode, s: string) {
    s != [] && (forall i | 0 <= i < |s| :: WordChar(u, s[i])) && s[0] != '.' && !Keyword(s)
  }

  predicate Special(c: char) {
    c == '"' || c == '\\'
  }

  function Escaped(s: string): string {
    if s == [] then [] else (if Special(s[0]) then ['\\', s[0]] else [s[0]]) + Escaped(s[1..])
  }

  function Escape(u: Unicode, s: string): string {
    EscapeText(u, Literal(s))
  }

  function EscapeText(u: Unicode, inner: string): string {
    if inner == [] then [] else if PlainWord(u, inner) then inner else Quoted(inner)
  }

  function Quoted(s: string): string {
    ['"'] + Escaped(s) + ['"']
  }

  method EscapeForTantivy(u: Unicode, s: string) returns (r: string)
    ensures r == Escape(u, s)
  {
    var inner := Literal(s);
    if inner == [] {
      return [];
    }
    if PlainWord(u, inner) {
      return inner;
    }
    r := ['"'];
    for i := 0 to |inner|
      invariant ['"'] + Escaped(inner) == r + Escaped(inner[i..])
    {
      assert inner[i..][1..] == inner[i + 1..];
      if Special(inner[i]) {
        r := r + ['\\'];
      }
      r := r + [inner[i]];
    }
    assert inner[|inner|..] == [];
    r := r + ['"'];
  }

  /** A clause as the user meant it: where to look and the literal text. */
  datatype Atom = Atom(field: Option<SearchField>, text: string)

  type Clause = (Option<SearchField>, string)

  function Source(q: Query): seq<Clause> {
    seq(|q.terms|, i requires 0 <= i < |q.terms| => (None, q.terms[i]))
    + seq(|q.fields|, i requires 0 <= i < |q.fields| => (Some(q.fields[i].0), q.fields[i].1))
  }

  function Prefix(f: Option<SearchField>): string {
    if f.Some? then Column(f.value) + ":" else []
  }

  function Part(u: Unicode, c: Clause): string {
    Prefix(c.0) + Escape(u, c.1)
  }

  function JoinParts(u: Unicode, cs: seq<Clause>): string {
    if cs == [] then []
    else if |cs| == 1 then Part(u, cs[0])
    else Part(u, cs[0]) + (AND + JoinParts(u, cs[1..]))
  }

  function Rendered(u: Unicode, q: Query): Option<string> {
    if HasFts(q) then Some(JoinParts(u, Source(q))) else None
  }

  function Atoms(cs: seq<Clause>): seq<Atom> {
    if cs == [] then [] else [Atom(cs[0].0, Literal(cs[0].1))] + Atoms(cs[1..])
  }

  // ---------- reading it back ----------

  function RunLength(u: Unicode, s: string): (n: nat)
    ensures n <= |s| && (forall i | 0 <= i < n :: WordChar(u, s[i])) && (n < |s| ==> !WordChar(u, s[n]))
  {
    if s == [] || !WordChar(u, s[0]) then 0 else 1 + RunLength(u, s[1..])
  }

  /** After an opening quote: the text up to the closing one, escapes undone. */
  function LexQuoted(s: string): (r: Option<(string, string)>)
    ensures r.Some? ==> |r.value.1| < |s|
    decreases |s|
  {
    if s == [] then None
    else if s[0] == '"' then Some(([], s[1..]))
    else if s[0] == '\\' && |s| < 2 then None
    else
      var skip := if s[0] == '\\' then 1 else 0;
      match LexQuoted(s[skip + 1..])
      case None => None
      case Some((text, rest)) => Some(([s[skip]] + text, rest))
  }

  /** A quoted phrase, or a word that is no operator. */
  function LexBody(u: Unicode, s: string): (r: Option<(string, string)>)
    ensures r.Some? ==> |r.value.1| < |s|
  {
    if s != [] && s[0] == '"' then LexQuoted(s[1..])
    else
      var n := RunLength(u, s);
      if n == 0 || s[0] == '.' || s[..n] == "AND" || s[..n] == "OR" || s[..n] == "NOT" then None
      else Some((s[..n], s[n..]))
  }

  function FieldNamed(name: string): Option<SearchField> {
    if name == Column(From) then Some(From)
    else if name == Column(To) then Some(To)
    else if name == Column(Subject) then Some(Subject)
    else None
  }

  function LexAtom(u: Unicode, s: string): (r: Option<(Atom, string)>)
    ensures r.Some? ==> |r.value.1| < |s|
  {
    var n := RunLength(u, s);
    var scoped := 0 < n < |s| && s[n] == ':';
    var field := if scoped then FieldNamed(s[..n]) else None;
    if scoped && field.None? then None
    else
      match LexBody(u, if scoped then s[n + 1..] else s)
      case None => None
      case Some((text, rest)) => Some((Atom(field, text), rest))
  }

  const AND: string := " AND "

  function Lex(u: Unicode, s: string): Option<seq<Atom>>
    decreases |s|
  {
    match LexAtom(u, s)
    case None => None
    case Some((atom, rest)) =>
      if rest == [] then Some([atom])
      else if AND <= rest then
        (match Lex(u, rest[|AND|..])
         case None => None
         case Some(more) => Some([atom] + more))
      else None
  }

  // ---------- rendering keeps the meaning ----------

  lemma {:induction false} LexEscaped(s: string, tail: string)
    ensures LexQuoted(Escaped(s) + ['"'] + tail) == Some((s, tail))
  {
    var whole := Escaped(s) + ['"'] + tail;
    if s == [] {
      assert whole[1..] == tail;
    } else {
      LexEscaped(s[1..], tail);
      var skip := if Special(s[0]) then 1 else 0;
      assert whole[skip] == s[0];
      assert whole[skip + 1..] == Escaped(s[1..]) + ['"'] + tail;
      assert [s[0]] + s[1..] == s;
    }
  }

  /** What may follow a part: nothing, or the space before AND. */
  predicate Follows(tail: string) {
    tail == [] || tail[0] == ' '
  }

  lemma RunIs(u: Unicode, w: string, tail: string)
    requires forall i | 0 <= i < |w| :: WordChar(u, w[i])
    requires tail == [] || !WordChar(u, tail[0])
    ensures RunLength(u, w + tail) == |w|
  {
    var s := w + tail;
    var n := RunLength(u, s);
    assert forall i | 0 <= i < |w| :: s[i] == w[i];
    assert tail != [] ==> s[|w|] == tail[0];
  }

  lemma WordStart(u: Unicode, w: string)
    requires Sane(u) && w != [] && WordChar(u, w[0])
    ensures w[0] != '"'
  {
    assert !WordChar(u, '"');
  }

  lemma TailStops(u: Unicode, tail: string)
    requires Sane(u) && Follows(tail)
    ensures tail == [] || !WordChar(u, tail[0])
  {
    assert !WordChar(u, ' ');
  }

  lemma LexWord(u: Unicode, w: string, tail: string, s: string)
    requires Sane(u) && PlainWord(u, w) && Follows(tail) && s == w + tail
    ensures LexBody(u, s) == Some((w, tail)) && RunLength(u, s) == |w|
  {
    WordStart(u, w);
    TailStops(u, tail);
    RunIs(u, w, tail);
    NotOperator(w);
    LexRun(u, w, tail, s);
  }

  lemma NotOperator(w: string)
    requires !Keyword(w)
    ensures w != "AND" && w != "OR" && w != "NOT"
  {
    Uppercase();
  }

  lemma LexRun(u: Unicode, w: string, tail: string, s: string)
    requires s == w + tail && RunLength(u, s) == |w| > 0 && w[0] != '.' && w[0] != '"'
    requires w != "AND" && w != "OR" && w != "NOT"
    ensures LexBody(u, s) == Some((w, tail))
  {
    assert s[0] == w[0] && s[..|w|] == w && s[|w|..] == tail;
  }

  lemma Uppercase()
    ensures Keyword("AND") && Keyword("OR") && Keyword("NOT")
  {
    assert Lower("AND") == "and" && Lower("OR") == "or" && Lower("NOT") == "not";
  }

  lemma LexPhrase(u: Unicode, inner: string, q: string, tail: string)
    requires Sane(u) && q == Quoted(inner)
    ensures LexBody(u, q + tail) == Some((inner, tail)) && Unscoped(u, q + tail)
  {
    var s := q + tail;
    assert s[1..] == Escaped(inner) + ['"'] + tail;
    LexEscaped(inner, tail);
    assert s[0] == '"' && !WordChar(u, '"');
  }

  /** No field name in front. */
  predicate Unscoped(u: Unicode, s: string) {
    var n := RunLength(u, s);
    n == 0 || n == |s| || s[n] != ':'
  }

  predicate ReadsAs(u: Unicode, s: string, r: Option<(string, string)>) {
    Unscoped(u, s) && LexBody(u, s) == r
  }

  lemma BlankTerm(u: Unicode, escaped: string, tail: string)
    requires Sane(u) && Follows(tail) && escaped == []
    ensures ReadsAs(u, escaped + tail, None)
  {
    assert escaped + tail == tail && !WordChar(u, ' ');
  }

  lemma WordTerm(u: Unicode, w: string, tail: string)
    requires Sane(u) && PlainWord(u, w) && Follows(tail)
    ensures ReadsAs(u, w + tail, Some((w, tail)))
  {
    LexWord(u, w, tail, w + tail);
    assert tail != [] ==> (w + tail)[|w|] == ' ';
  }

  lemma PhraseTerm(u: Unicode, inner: string, q: string, tail: string)
    requires Sane(u) && q == Quoted(inner)
    ensures ReadsAs(u, q + tail, Some((inner, tail)))
  {
    LexPhrase(u, inner, q, tail);
  }

  /** An escaped term reads back as its literal text, and only an empty one does
      not read back at all. */
  lemma LexTerm(u: Unicode, inner: string, escaped: string, tail: string)
    requires Sane(u) && Follows(tail) && escaped == EscapeText(u, inner)
    ensures ReadsAs(u, escaped + tail, if inner == [] then None else Some((inner, tail)))
  {
    if inner == [] {
      BlankTerm(u, escaped, tail);
    } else if PlainWord(u, inner) {
      WordTerm(u, inner, tail);
    } else {
      PhraseTerm(u, inner, escaped, tail);
    }
  }

  lemma ColumnIsWord(u: Unicode, f: SearchField)
    requires Sane(u)
    ensures forall i | 0 <= i < |Column(f)| :: WordChar(u, Column(f)[i])
    ensures FieldNamed(Column(f)) == Some(f) && Column(f) != []
  {
    var name := Column(f);
    forall i | 0 <= i < |name| ensures WordChar(u, name[i]) {
      assert AsciiAlnum(name[i]) || name[i] == '_';
    }
  }

  lemma ScopedRun(u: Unicode, f: SearchField, rest: string)
    requires Sane(u)
    ensures var s := Column(f) + ":" + rest; var n := RunLength(u, s);
            n == |Column(f)| && n < |s| && s[n] == ':' && s[..n] == Column(f) && s[n + 1..] == rest
  {
    ColumnIsWord(u, f);
    var name := Column(f);
    assert !WordChar(u, ':');
    assert name + ":" + rest == name + (":" + rest);
    RunIs(u, name, ":" + rest);
  }

  lemma LexScoped(u: Unicode, f: SearchField, rest: string)
    requires Sane(u)
    ensures LexAtom(u, Column(f) + ":" + rest) ==
            match LexBody(u, rest)
            case None => None
            case Some((text, tail)) => Some((Atom(Some(f), text), tail))
  {
    ScopedRun(u, f, rest);
    ColumnIsWord(u, f);
  }

  lemma LexUnscoped(u: Unicode, s: string)
    requires Unscoped(u, s)
    ensures LexAtom(u, s) ==
            match LexBody(u, s)
            case None => None
            case Some((text, tail)) => Some((Atom(None, text), tail))
  {
  }

  /** The atom a part reads back as, if its text is not blank. */
  function AtomRead(c: Clause, tail: string): Option<(Atom, string)> {
    if Literal(c.1) == [] then None else Some((Atom(c.0, Literal(c.1)), tail))
  }

  lemma LexPart(u: Unicode, c: Clause, part: string, tail: string)
    requires Sane(u) && Follows(tail) && part == Part(u, c)
    ensures LexAtom(u, part + tail) == AtomRead(c, tail)
  {
    var inner := Literal(c.1);
    var escaped := EscapeText(u, inner);
    LexTerm(u, inner, escaped, tail);
    Reassociate(Prefix(c.0), escaped, tail);
    if c.0.Some? {
      Reassociate(Column(c.0.value), ":", escaped + tail);
      LexScoped(u, c.0.value, escaped + tail);
    } else {
      assert Prefix(c.0) + (escaped + tail) == escaped + tail;
      LexUnscoped(u, escaped + tail);
    }
  }

  lemma Reassociate(a: string, b: string, c: string)
    ensures a + b + c == a + (b + c)
  {
  }

  predicate AllLiteral(cs: seq<Clause>) {
    cs == [] || (Literal(cs[0].1) != [] && AllLiteral(cs[1..]))
  }

  lemma LexMore(u: Unicode, s: string, atom: Atom, tail: string, more: string)
    requires LexAtom(u, s) == Some((atom, tail)) && tail == AND + more
    ensures Lex(u, s) == if Lex(u, more).Some? then Some([atom] + Lex(u, more).value) else None
  {
    assert AND <= tail && tail[|AND|..] == more;
  }

  lemma LexLast(u: Unicode, s: string, atom: Atom)
    requires LexAtom(u, s) == Some((atom, []))
    ensures Lex(u, s) == Some([atom])
  {
  }

  lemma {:induction false} LexJoined(u: Unicode, cs: seq<Clause>)
    requires Sane(u) && cs != []
    ensures Lex(u, JoinParts(u, cs)) == if AllLiteral(cs) then Some(Atoms(cs)) else None
  {
    var part := Part(u, cs[0]);
    if |cs| == 1 {
      LexPart(u, cs[0], part, []);
      assert part + [] == part && cs[1..] == [];
      if Literal(cs[0].1) != [] {
        LexLast(u, part, Atom(cs[0].0, Literal(cs[0].1)));
        assert Atoms(cs) == [Atom(cs[0].0, Literal(cs[0].1))];
      }
    } else {
      var more := JoinParts(u, cs[1..]);
      LexPart(u, cs[0], part, AND + more);
      LexJoined(u, cs[1..]);
      if Literal(cs[0].1) != [] {
        LexMore(u, part + (AND + more), Atom(cs[0].0, Literal(cs[0].1)), AND + more, more);
      }
    }
  }

  /** A query renders to a string that reads back as exactly its clauses, joined by
      AND, if and only if no term of it is blank once its quotes are off; a blank
      one makes the whole string unreadable. */
  lemma RenderingKeepsMeaning(u: Unicode, q: Query)
    requires Sane(u) && HasFts(q)
    ensures Lex(u, Rendered(u, q).value) == if AllLiteral(Source(q)) then Some(Atoms(Source(q))) else None
  {
    LexJoined(u, Source(q));
  }

  function Mapped(f: Clause -> string, cs: seq<Clause>): seq<string> {
    seq(|cs|, i requires 0 <= i < |cs| => f(cs[i]))
  }

  lemma MapOneMore(f: Clause -> string, cs: seq<Clause>, i: nat)
    requires i < |cs|
    ensures Mapped(f, cs[..i + 1]) == Mapped(f, cs[..i]) + [f(cs[i])]
  {
  }

  function Renderer(u: Unicode): Clause -> string {
    (c: Clause) => Part(u, c)
  }

  method EscapeTerms(u: Unicode, terms: seq<string>, ghost cs: seq<Clause>) returns (parts: seq<string>)
    requires |cs| >= |terms| && forall i | 0 <= i < |terms| :: cs[i] == (None, terms[i])
    ensures parts == Mapped(Renderer(u), cs[..|terms|])
  {
    parts := [];
    ghost var f := Renderer(u);
    for i := 0 to |terms|
      invariant parts == Mapped(f, cs[..i])
    {
      var escaped := EscapeForTantivy(u, terms[i]);
      MapOneMore(f, cs, i);
      TermPart(u, cs[i], escaped);
      parts := parts + [escaped];
    }
  }

  method EscapeFields(u: Unicode, fields: seq<(SearchField, string)>, before: seq<string>, ghost n: nat, ghost cs: seq<Clause>)
    returns (parts: seq<string>)
    requires |cs| == n + |fields| && before == Mapped(Renderer(u), cs[..n])
    requires forall j | 0 <= j < |fields| :: cs[n + j] == (Some(fields[j].0), fields[j].1)
    ensures parts == Mapped(Renderer(u), cs)
  {
    parts := before;
    ghost var f := Renderer(u);
    for j := 0 to |fields|
      invariant parts == Mapped(f, cs[..n + j])
    {
      var escaped := EscapeForTantivy(u, fields[j].1);
      MapOneMore(f, cs, n + j);
      parts := parts + [Column(fields[j].0) + ":" + escaped];
    }
    assert cs[..|cs|] == cs;
  }

  /** Terms first, then fields, each escaped, joined by AND. */
  method ToTantivyString(u: Unicode, q: Query) returns (r: Option<string>)
    ensures r == Rendered(u, q)
  {
    if !HasFts(q) {
      return None;
    }
    var parts := EscapeTerms(u, q.terms, Source(q));
    parts := EscapeFields(u, q.fields, parts, |q.terms|, Source(q));
    PartsJoin(u, Source(q));
    r := Some(Join(parts, AND));
  }

  lemma TermPart(u: Unicode, c: Clause, escaped: string)
    requires c.0.None? && escaped == Escape(u, c.1)
    ensures Part(u, c) == escaped
  {
    assert [] + escaped == escaped;
  }

  lemma JoinCons(p: string, more: seq<string>)
    requires more != []
    ensures Join([p] + more, AND) == p + (AND + Join(more, AND))
  {
    assert ([p] + more)[1..] == more;
    Reassociate(p, AND, Join(more, AND));
  }

  lemma MapCons(f: Clause -> string, cs: seq<Clause>)
    requires cs != []
    ensures Mapped(f, cs) == [f(cs[0])] + Mapped(f, cs[1..])
  {
  }

  lemma JoinMore(u: Unicode, cs: seq<Clause>)
    requires |cs| > 1
    ensures JoinParts(u, cs) == Part(u, cs[0]) + (AND + JoinParts(u, cs[1..]))
  {
  }

  lemma {:induction false} PartsJoin(u: Unicode, cs: seq<Clause>)
    ensures Join(Mapped(Renderer(u), cs), AND) == JoinParts(u, cs)
  {
    if |cs| > 1 {
      PartsJoin(u, cs[1..]);
      MapCons(Renderer(u), cs);
      JoinCons(Part(u, cs[0]), Mapped(Renderer(u), cs[1..]));
      JoinMore(u, cs);
    }
  }

  // ---------- from what was typed ----------

  /** No token is an operator; other colons, as in `http://x` or `10:30`, are text. */
  predicate NoOperator(tokens: seq<string>) {
    forall i | 0 <= i < |tokens| :: SplitOperator(tokens[i]) == None
  }

  lemma ParsedOneMore(date: string -> Option<int>, tokens: seq<string>, token: string)
    ensures Parsed(date, tokens + [token]) == Took(date, Parsed(date, tokens), token)
  {
    assert (tokens + [token])[..|tokens|] == tokens;
  }

  lemma {:induction false} BareTokens(date: string -> Option<int>, tokens: seq<string>)
    requires NoOperator(tokens)
    ensures Parsed(date, tokens) == EMPTY.(terms := tokens)
  {
    if tokens != [] {
      var k := |tokens| - 1;
      var front, last := tokens[..k], tokens[k];
      assert front + [last] == tokens;
      BareTokens(date, front);
      ParsedOneMore(date, front, last);
    }
  }

  /** Words and phrases typed without operators are searched for as typed, all of
      them, unless one is blank. */
  lemma TypedWordsAreSearched(u: Unicode, date: string -> Option<int>, input: string)
    requires Sane(u) && NoOperator(Tokens(input)) && Tokens(input) != []
    ensures var q := Parsed(date, Tokens(input));
            var cs := seq(|Tokens(input)|, i requires 0 <= i < |Tokens(input)| => (None, Tokens(input)[i]));
            HasFts(q) && Lex(u, Rendered(u, q).value) == if AllLiteral(cs) then Some(Atoms(cs)) else None
  {
    var q := Parsed(date, Tokens(input));
    BareTokens(date, Tokens(input));
    RenderingKeepsMeaning(u, q);
    assert Source(q) == seq(|Tokens(input)|, i requires 0 <= i < |Tokens(input)| => (None, Tokens(input)[i]));
  }

  /** An empty pair of quotes is such a blank word: the query it makes has a
      full-text part, and that part reads back as nothing. */
  lemma EmptyQuotesSpoilQuery(u: Unicode, date: string -> Option<int>)
    requires Sane(u)
    ensures Tokens(['"', '"']) == [['"', '"']] && HasFts(Parsed(date, Tokens(['"', '"'])))
    ensures Lex(u, Rendered(u, Parsed(date, Tokens(['"', '"']))).value) == None
  {
    QuotePairIsToken();
    assert SplitOnce(['"', '"'], ':') == None;
    TypedWordsAreSearched(u, date, ['"', '"']);
    assert Literal(['"', '"']) == TrimQuotes(['"', '"']) == TrimQuotes(['"']) == [];
  }

  lemma QuotePairIsToken()
    ensures Tokens(['"', '"']) == [['"', '"']]
  {
    NextMark(['"', '"'], false, []);
    NextMark(['"'], true, ['"']);
    assert ['"', '"'][1..] == ['"'] && ['"'][1..] == [];
    assert [] + ['"'] == ['"'] && ['"'] + ['"'] == ['"', '"'];
  }
}

/** The query printer of `db/cache.py`: what a person typed, made into something FTS5 accepts, by a loop that appends
    to and pops from a list of parts.  Its partner is a lexer for the printed text, written from FTS5's rule for quoted
    strings: a doubled quote stands for one. */
module Search {
  import opened Common

  datatype Token = Phrase(body: string, star: bool) | Operator(name: string)

  const OPERATORS: set<string> := {"AND", "OR", "NOT"}

  // ------------------------------------------------------------------ what was typed

  /** What Python's `str.split` and `str.strip` call whitespace. */
  predicate IsSpace(c: char) {
    || '\t' <= c <= '\r' || '\U{1c}' <= c <= ' ' || c == '\U{85}' || c == '\U{a0}'
    || c == '\U{1680}' || '\U{2000}' <= c <= '\U{200a}' || c == '\U{2028}' || c == '\U{2029}'
    || c == '\U{202f}' || c == '\U{205f}' || c == '\U{3000}'
  }

  /** `text.split()`, with `word` the chunk read so far. */
  function Chunks(text: string, word: string): seq<string>
    decreases |text|
  {
    var closed := if word == "" then [] else [word];
    if text == "" then closed
    else if IsSpace(text[0]) then closed + Chunks(text[1..], "")
    else Chunks(text[1..], word + [text[0]])
  }

  function Split(text: string): seq<string> { Chunks(text, "") }

  function Squeezed(text: string): string {
    if text == "" then "" else (if IsSpace(text[0]) then "" else [text[0]]) + Squeezed(text[1..])
  }

  function Flat(chunks: seq<string>): string {
    if chunks == [] then "" else chunks[0] + Flat(chunks[1..])
  }

  predicate Solid(chunk: string) { chunk != "" && forall c <- chunk :: !IsSpace(c) }

  lemma FlatAppend(a: seq<string>, b: seq<string>)
    ensures Flat(a + b) == Flat(a) + Flat(b)
  {
    if a == [] {
      assert a + b == b;
    } else {
      assert (a + b)[1..] == a[1..] + b;
    }
  }

  /** Splitting loses the whitespace and nothing else. */
  lemma {:induction false} ChunksAreTheText(text: string, word: string)
    requires forall c <- word :: !IsSpace(c)
    ensures forall chunk <- Chunks(text, word) :: Solid(chunk)
    ensures Flat(Chunks(text, word)) == word + Squeezed(text)
    decreases |text|
  {
    var closed := if word == "" then [] else [word];
    assert Flat(closed) == word;
    if text != "" {
      if IsSpace(text[0]) {
        ChunksAreTheText(text[1..], "");
        FlatAppend(closed, Chunks(text[1..], ""));
      } else {
        ChunksAreTheText(text[1..], word + [text[0]]);
      }
    }
  }

  lemma {:induction false} ChunksOfTwo(a: string, c: char, b: string, word: string)
    requires IsSpace(c)
    ensures Chunks(a + [c] + b, word) == Chunks(a, word) + Chunks(b, "")
    decreases |a|
  {
    var text := a + [c] + b;
    if a == "" {
      assert text[0] == c && text[1..] == b;
    } else {
      assert text[0] == a[0] && text[1..] == a[1..] + [c] + b;
      ChunksOfTwo(a[1..], c, b, if IsSpace(a[0]) then "" else word + [a[0]]);
    }
  }

  lemma {:induction false} ChunksOfOne(text: string, word: string)
    requires forall c <- text :: !IsSpace(c)
    ensures Chunks(text, word) == if word + text == "" then [] else [word + text]
    decreases |text|
  {
    if text == "" {
      assert word + text == word;
    } else {
      ChunksOfOne(text[1..], word + [text[0]]);
      assert word + text == (word + [text[0]]) + text[1..];
    }
  }

  /** Every whitespace cuts and nothing else does: of the characters of ASCII, those are the blank, tab to carriage
      return, and the four separators. */
  lemma SplitExactly(a: string, c: char, b: string)
    ensures IsSpace(c) ==> Split(a + [c] + b) == Split(a) + Split(b)
    ensures Solid(a) ==> Split(a) == [a]
    ensures Split("") == []
    ensures c < '\U{80}' ==> (IsSpace(c) <==> '\U{9}' <= c <= '\U{d}' || '\U{1c}' <= c <= '\U{20}')
  {
    if IsSpace(c) {
      ChunksOfTwo(a, c, b, "");
    }
    if Solid(a) {
      ChunksOfOne(a, "");
      assert "" + a == a;
    }
  }

  predicate Starred(chunk: string) { chunk != "" && Last(chunk) == '*' }

  function Body(chunk: string): string { if Starred(chunk) then chunk[..|chunk| - 1] else chunk }

  /** The phrase a chunk stands for. */
  function PhraseOf(chunk: string): Token { Phrase(Body(chunk), Starred(chunk)) }

  predicate Blank(s: string) { forall c <- s :: IsSpace(c) }

  predicate IsTerm(chunk: string) { chunk !in OPERATORS && !Blank(Body(chunk)) }

  /** The chunks that name something to look for, in order. */
  function Terms(chunks: seq<string>): seq<Token> {
    if chunks == [] then []
    else (if IsTerm(chunks[0]) then [PhraseOf(chunks[0])] else []) + Terms(chunks[1..])
  }

  // ------------------------------------------------------------------ how it is read

  function Joint(pending: Option<string>): Token {
    Operator(if pending.Some? then pending.value else "AND")
  }

  /** The operator held back after one more chunk, and what the chunk adds. */
  function HeldBy(chunk: string, pending: Option<string>, started: bool): Option<string> {
    if chunk in OPERATORS then (if started && pending.None? then Some(chunk) else pending)
    else if Blank(Body(chunk)) then pending else None
  }

  function AddedBy(chunk: string, pending: Option<string>, started: bool): seq<Token> {
    if !IsTerm(chunk) then [] else (if started then [Joint(pending)] else []) + [PhraseOf(chunk)]
  }

  /** The expression the chunks stand for.  An operator is held back until a phrase follows it, so
      nothing ever has to be taken away again; of several in a row the first is the one meant. */
  function Reading(chunks: seq<string>, pending: Option<string>, started: bool): seq<Token> {
    if chunks == [] then []
    else
      AddedBy(chunks[0], pending, started)
      + Reading(chunks[1..], HeldBy(chunks[0], pending, started), started || IsTerm(chunks[0]))
  }

  function Phrases(tokens: seq<Token>): seq<Token> {
    if tokens == [] then [] else (if tokens[0].Phrase? then [tokens[0]] else []) + Phrases(tokens[1..])
  }

  predicate IsJoint(token: Token) { token.Operator? && token.name in OPERATORS }

  /** Phrase, operator, phrase, ..., phrase. */
  predicate Alternates(tokens: seq<Token>) {
    && tokens != []
    && tokens[0].Phrase?
    && (|tokens| > 1 ==> IsJoint(tokens[1]) && Alternates(tokens[2..]))
  }

  lemma PhraseAndRest(phrase: Token, rest: seq<Token>)
    requires phrase.Phrase? && (rest != [] ==> IsJoint(rest[0]) && Alternates(rest[1..]))
    ensures Alternates([phrase] + rest) && Phrases([phrase] + rest) == [phrase] + Phrases(rest)
  {
    var core := [phrase] + rest;
    assert core[1..] == rest;
    assert rest != [] ==> core[2..] == rest[1..];
  }

  lemma JointAndCore(joint: Token, core: seq<Token>)
    requires IsJoint(joint)
    ensures Phrases([joint] + core) == Phrases(core) && ([joint] + core)[1..] == core
  {
    assert ([joint] + core)[1..] == core;
  }

  /** What is read is empty exactly if nothing is looked for, and alternates. */
  ghost predicate Reads(chunks: seq<string>, r: seq<Token>, started: bool) {
    && Terms(chunks) == Phrases(r) && (r == [] <==> Terms(chunks) == [])
    && (r != [] ==> if started then IsJoint(r[0]) && Alternates(r[1..]) else Alternates(r))
  }

  /** The first chunk, and the rest. */
  lemma ReadingUnfolds(chunks: seq<string>, pending: Option<string>, started: bool)
    requires chunks != []
    ensures var r, held := Reading(chunks, pending, started), HeldBy(chunks[0], pending, started);
            if !IsTerm(chunks[0]) then r == Reading(chunks[1..], held, started)
            else
              var more := [PhraseOf(chunks[0])] + Reading(chunks[1..], None, true);
              held == None && r == if started then [Joint(pending)] + more else more
  {
    var held := HeldBy(chunks[0], pending, started);
    var rest := Reading(chunks[1..], held, started || IsTerm(chunks[0]));
    if !IsTerm(chunks[0]) {
      assert [] + rest == rest;
    } else if started {
      assert [Joint(pending)] + [PhraseOf(chunks[0])] + rest == [Joint(pending)] + ([PhraseOf(chunks[0])] + rest);
    } else {
      assert [] + [PhraseOf(chunks[0])] == [PhraseOf(chunks[0])];
    }
  }

  lemma TermReads(chunks: seq<string>, pending: Option<string>, started: bool)
    requires chunks != [] && IsTerm(chunks[0]) && (pending.Some? ==> pending.value in OPERATORS)
    requires Reads(chunks[1..], Reading(chunks[1..], None, true), true)
    ensures Reads(chunks, Reading(chunks, pending, started), started)
  {
    var rest, phrase := Reading(chunks[1..], None, true), PhraseOf(chunks[0]);
    ReadingUnfolds(chunks, pending, started);
    PhraseAndRest(phrase, rest);
    if started {
      JointAndCore(Joint(pending), [phrase] + rest);
    }
  }

  lemma {:induction false} ReadingIsAlternating(chunks: seq<string>, pending: Option<string>, started: bool)
    requires pending.Some? ==> pending.value in OPERATORS
    ensures Reads(chunks, Reading(chunks, pending, started), started)
  {
    if chunks != [] {
      ReadingUnfolds(chunks, pending, started);
      ReadingIsAlternating(chunks[1..], HeldBy(chunks[0], pending, started), started || IsTerm(chunks[0]));
      if IsTerm(chunks[0]) {
        TermReads(chunks, pending, started);
      } else {
        assert Terms(chunks) == [] + Terms(chunks[1..]) == Terms(chunks[1..]);
      }
    }
  }

  // ------------------------------------------------------------------ what joins the phrases

  /** Every chunk is looked for but the three operators and a bare star; a star at its end asks for a prefix. */
  lemma TermExactly(chunk: string)
    requires Solid(chunk)
    ensures IsTerm(chunk) <==> chunk != "AND" && chunk != "OR" && chunk != "NOT" && chunk != "*"
    ensures var phrase := PhraseOf(chunk);
            && phrase.body + (if phrase.star then "*" else "") == chunk
            && (phrase.star <==> chunk[|chunk| - 1] == '*')
  {
    if Body(chunk) != "" {
      assert Body(chunk)[0] in chunk && !Blank(Body(chunk));
    }
  }

  predicate NoTerms(chunks: seq<string>) { forall chunk <- chunks :: !IsTerm(chunk) }

  /** The first operator typed, or AND. */
  function FirstOperator(gap: seq<string>): string {
    if gap == [] then "AND"
    else if gap[0] == "AND" || gap[0] == "OR" || gap[0] == "NOT" then gap[0]
    else FirstOperator(gap[1..])
  }

  /** The operator held back after some chunks. */
  function HeldAfter(chunks: seq<string>, pending: Option<string>, started: bool): Option<string> {
    if chunks == [] then pending
    else HeldAfter(chunks[1..], HeldBy(chunks[0], pending, started), started || IsTerm(chunks[0]))
  }

  lemma HeadOfTwo(a: seq<string>, b: seq<string>)
    requires a != []
    ensures (a + b)[0] == a[0] && (a + b)[1..] == a[1..] + b
    ensures NoTerms(a) <==> !IsTerm(a[0]) && NoTerms(a[1..])
  {
    assert a == [a[0]] + a[1..];
  }

  lemma {:induction false} ReadingAppend(a: seq<string>, b: seq<string>, pending: Option<string>, started: bool)
    ensures Reading(a + b, pending, started) == Reading(a, pending, started) + Reading(b, HeldAfter(a, pending, started), started || !NoTerms(a))
    decreases |a|
  {
    if a == [] {
      assert a + b == b;
    } else {
      HeadOfTwo(a, b);
      var held, more := HeldBy(a[0], pending, started), started || IsTerm(a[0]);
      var added, rest := AddedBy(a[0], pending, started), Reading(a[1..], held, more);
      var last := Reading(b, HeldAfter(a, pending, started), started || !NoTerms(a));
      ReadingAppend(a[1..], b, held, more);
      assert added + (rest + last) == (added + rest) + last;
    }
  }

  lemma {:induction false} HeldAppend(a: seq<string>, b: seq<string>, pending: Option<string>, started: bool)
    ensures HeldAfter(a + b, pending, started) == HeldAfter(b, HeldAfter(a, pending, started), started || !NoTerms(a))
    decreases |a|
  {
    if a == [] {
      assert a + b == b;
    } else {
      HeadOfTwo(a, b);
      HeldAppend(a[1..], b, HeldBy(a[0], pending, started), started || IsTerm(a[0]));
    }
  }

  lemma {:induction false} ReadingOfGap(gap: seq<string>, pending: Option<string>, started: bool)
    requires NoTerms(gap)
    ensures Reading(gap, pending, started) == []
    ensures HeldAfter(gap, pending, started) ==
              if pending.Some? || !started then pending
              else if forall chunk <- gap :: chunk !in OPERATORS then None else Some(FirstOperator(gap))
    ensures (forall chunk <- gap :: chunk !in OPERATORS) ==> FirstOperator(gap) == "AND"
    decreases |gap|
  {
    if gap != [] {
      assert gap[0] in gap && gap == [gap[0]] + gap[1..];
      ReadingOfGap(gap[1..], HeldBy(gap[0], pending, started), started);
    }
  }

  lemma ReadingOfTerm(y: string, pending: Option<string>, started: bool)
    requires IsTerm(y)
    ensures Reading([y], pending, started) == (if started then [Joint(pending)] else []) + [PhraseOf(y)]
    ensures HeldAfter([y], pending, started) == None
  {
    assert [y][1..] == [];
  }

  lemma HeldAfterTerm(before: seq<string>)
    requires before != [] && IsTerm(Last(before))
    ensures HeldAfter(before, None, false) == None && !NoTerms(before)
  {
    var rest := before[..|before| - 1];
    assert before == rest + [Last(before)] && Last(before) in before;
    HeldAppend(rest, [Last(before)], None, false);
    ReadingOfTerm(Last(before), HeldAfter(rest, None, false), !NoTerms(rest));
  }

  lemma JoinedByGap(before: seq<string>, gap: seq<string>, y: string)
    requires NoTerms(gap) && IsTerm(y) && before != [] && IsTerm(Last(before))
    ensures Reading(before + gap + [y], None, false) == Reading(before, None, false) + [Operator(FirstOperator(gap)), PhraseOf(y)]
  {
    HeldAfterTerm(before);
    ReadingAppend(before, gap + [y], None, false);
    assert before + gap + [y] == before + (gap + [y]);
    ReadingAppend(gap, [y], None, true);
    ReadingOfGap(gap, None, true);
    ReadingOfTerm(y, HeldAfter(gap, None, true), true);
  }

  /** Chunks that are not looked for change nothing at either end; between two that are, the first operator among
      them joins the two, or AND if there is none.  That fixes every reading. */
  lemma ReadingExactly(before: seq<string>, gap: seq<string>, y: string)
    requires NoTerms(gap) && IsTerm(y)
    ensures Reading(before + gap, None, false) == Reading(before, None, false)
    ensures Reading(gap + [y], None, false) == [PhraseOf(y)]
    ensures before != [] && IsTerm(Last(before)) ==>
              Reading(before + gap + [y], None, false) == Reading(before, None, false) + [Operator(FirstOperator(gap)), PhraseOf(y)]
  {
    ReadingAppend(before, gap, None, false);
    ReadingOfGap(gap, HeldAfter(before, None, false), !NoTerms(before));
    ReadingAppend(gap, [y], None, false);
    ReadingOfGap(gap, None, false);
    ReadingOfTerm(y, None, false);
    if before != [] && IsTerm(Last(before)) {
      JoinedByGap(before, gap, y);
    }
  }

  // ------------------------------------------------------------------ printing

  function Escape(s: string): string {
    if s == "" then "" else (if s[0] == '"' then "\"\"" else [s[0]]) + Escape(s[1..])
  }

  function Print(token: Token): string {
    match token
    case Operator(name) => name
    case Phrase(body, star) => "\"" + Escape(body) + "\"" + (if star then "*" else "")
  }

  function PrintAll(tokens: seq<Token>): (parts: seq<string>)
    ensures |parts| == |tokens|
  {
    seq(|tokens|, i requires 0 <= i < |tokens| => Print(tokens[i]))
  }

  /** `" ".join(parts)`. */
  function Spaced(parts: seq<string>): string {
    if parts == [] then "" else if |parts| == 1 then parts[0] else parts[0] + " " + Spaced(parts[1..])
  }

  function Query(text: string): Option<string> {
    var tokens := Reading(Split(text), None, false);
    if tokens == [] then None else Some(Spaced(PrintAll(tokens)))
  }

  function Held(pending: Option<string>): seq<Token> {
    if pending.Some? then [Operator(pending.value)] else []
  }

  /** What the loop has appended so far: a finished expression, then perhaps one operator. */
  ghost predicate SoFar(parts: seq<string>, emitted: seq<Token>, pending: Option<string>) {
    && (emitted != [] ==> Last(emitted).Phrase?)
    && (pending.Some? ==> emitted != [] && pending.value in OPERATORS)
    && parts == PrintAll(emitted + Held(pending))
  }

  lemma LastPart(parts: seq<string>, emitted: seq<Token>, pending: Option<string>)
    requires SoFar(parts, emitted, pending)
    ensures parts == [] <==> emitted == []
    ensures parts != [] ==> (Last(parts) in OPERATORS <==> pending.Some?)
    ensures parts != [] && pending.Some? ==> parts[..|parts| - 1] == PrintAll(emitted)
  {
    if parts != [] && pending.None? {
      assert Last(parts) == Print(Last(emitted)) && Last(parts)[0] == '"';
    }
  }

  function Joined(emitted: seq<Token>, pending: Option<string>, phrase: Token): seq<Token> {
    emitted + (if emitted != [] then [Joint(pending)] else []) + [phrase]
  }

  lemma AppendOperator(parts: seq<string>, emitted: seq<Token>, name: string)
    requires SoFar(parts, emitted, None) && emitted != [] && name in OPERATORS
    ensures SoFar(parts + [name], emitted, Some(name))
  {
    assert emitted + Held(None) == emitted;
  }

  lemma AppendPhrase(parts: seq<string>, emitted: seq<Token>, pending: Option<string>, phrase: Token)
    requires SoFar(parts, emitted, pending) && phrase.Phrase?
    ensures var more := if emitted != [] && pending.None? then ["AND"] else [];
            SoFar(parts + more + [Print(phrase)], Joined(emitted, pending, phrase), None)
  {
    var tokens := Joined(emitted, pending, phrase);
    assert tokens + Held(None) == tokens;
    var more := if emitted != [] && pending.None? then ["AND"] else [];
    assert PrintAll(tokens) == parts + more + [Print(phrase)];
  }

  lemma DropOperator(parts: seq<string>, emitted: seq<Token>, pending: Option<string>)
    requires SoFar(parts, emitted, pending) && pending.Some?
    ensures parts != [] && SoFar(parts[..|parts| - 1], emitted, None)
  {
    assert emitted + Held(None) == emitted;
    assert PrintAll(emitted + Held(pending)) == PrintAll(emitted) + [pending.value];
  }

  /** The whole reading is what has been emitted, then the reading of the chunks still to come. */
  ghost predicate Reached(chunks: seq<string>, i: nat, emitted: seq<Token>, pending: Option<string>)
    requires i <= |chunks|
  {
    Reading(chunks, None, false) == emitted + Reading(chunks[i..], pending, emitted != [])
  }

  lemma ReachedNext(chunks: seq<string>, i: nat, emitted: seq<Token>, pending: Option<string>)
    requires i < |chunks| && Reached(chunks, i, emitted, pending)
    ensures var chunk := chunks[i];
            if chunk in OPERATORS then
              Reached(chunks, i + 1, emitted, if emitted != [] && pending.None? then Some(chunk) else pending)
            else if Blank(Body(chunk)) then Reached(chunks, i + 1, emitted, pending)
            else Reached(chunks, i + 1, Joined(emitted, pending, PhraseOf(chunk)), None)
  {
    assert chunks[i..][0] == chunks[i] && chunks[i..][1..] == chunks[i + 1..];
    ReadingUnfolds(chunks[i..], pending, emitted != []);
    if IsTerm(chunks[i]) {
      var phrase, rest := PhraseOf(chunks[i]), Reading(chunks[i + 1..], None, true);
      var joint := if emitted != [] then [Joint(pending)] else [];
      assert emitted + (joint + ([phrase] + rest)) == Joined(emitted, pending, phrase) + rest;
      assert [] + ([phrase] + rest) == [phrase] + rest;
    }
  }

  /** `fts_query` as it runs: parts appended chunk by chunk, dangling operators popped at the end. */
  method FtsQuery(text: string) returns (query: Option<string>)
    ensures query == Query(text)
  {
    var chunks := Split(text);
    var parts: seq<string> := [];
    ghost var emitted: seq<Token>, pending: Option<string> := [], None;
    for i := 0 to |chunks|
      invariant SoFar(parts, emitted, pending) && Reached(chunks, i, emitted, pending)
    {
      var chunk := chunks[i];
      ReachedNext(chunks, i, emitted, pending);
      LastPart(parts, emitted, pending);
      var open := parts != [] && Last(parts) !in OPERATORS;
      if chunk in OPERATORS {
        if open {
          AppendOperator(parts, emitted, chunk);
          parts, pending := parts + [chunk], Some(chunk);
        }
        continue;
      }
      var body := Body(chunk);
      if Blank(body) {
        continue;
      }
      var phrase := Phrase(body, Starred(chunk));
      AppendPhrase(parts, emitted, pending, phrase);
      parts := parts + (if open then ["AND"] else []) + [Print(phrase)];
      emitted, pending := Joined(emitted, pending, phrase), None;
    }
    while parts != [] && Last(parts) in OPERATORS
      invariant SoFar(parts, emitted, pending) && Reached(chunks, |chunks|, emitted, pending)
    {
      LastPart(parts, emitted, pending);
      DropOperator(parts, emitted, pending);
      parts, pending := parts[..|parts| - 1], None;
    }
    LastPart(parts, emitted, pending);
    assert emitted + Held(None) == emitted;
    query := if parts == [] then None else Some(Spaced(parts));
  }

  // ------------------------------------------------------------------ reading it back

  /** The inside of a quoted string and what follows it, after the opening quote. */
  function Quoted(s: string): Option<(string, string)> {
    if s == "" then None
    else if s[0] != '"' then
      var r := Quoted(s[1..]);
      if r.None? then None else Some(([s[0]] + r.value.0, r.value.1))
    else if |s| > 1 && s[1] == '"' then
      var r := Quoted(s[2..]);
      if r.None? then None else Some(("\"" + r.value.0, r.value.1))
    else Some(("", s[1..]))
  }

  lemma QuotedShrinks(s: string)
    ensures Quoted(s).Some? ==> |Quoted(s).value.1| < |s|
  {}

  function Word(s: string): (word: string)
    ensures |word| <= |s| && s[..|word|] == word
    ensures |word| < |s| ==> s[|word|] == ' '
  {
    if s == "" || s[0] == ' ' then "" else [s[0]] + Word(s[1..])
  }

  /** The tokens of a printed query, or None when it is not one. */
  function Lex(s: string): Option<seq<Token>>
    decreases |s|
  {
    if s == "" then Some([])
    else if s[0] == '"' then
      QuotedShrinks(s[1..]);
      var q := Quoted(s[1..]);
      if q.None? then None
      else
        var (body, after) := q.value;
        var star := after != "" && after[0] == '*';
        LexAfter(Phrase(body, star), if star then after[1..] else after)
    else
      var word := Word(s);
      if word == "" then None else LexAfter(Operator(word), s[|word|..])
  }

  /** One token read; a single space comes before the next. */
  function LexAfter(token: Token, rest: string): Option<seq<Token>>
    decreases |rest|
  {
    if rest == "" then Some([token])
    else if rest[0] != ' ' || |rest| == 1 then None
    else
      var more := Lex(rest[1..]);
      if more.None? then None else Some([token] + more.value)
  }

  lemma {:induction false} QuotedUndoesEscape(body: string, rest: string)
    requires rest == "" || rest[0] != '"'
    ensures Quoted(Escape(body) + "\"" + rest) == Some((body, rest))
  {
    var s := Escape(body) + "\"" + rest;
    if body == "" {
      assert s == "\"" + rest;
      assert s[1..] == rest;
    } else {
      QuotedUndoesEscape(body[1..], rest);
      var t := Escape(body[1..]) + "\"" + rest;
      if body[0] == '"' {
        assert s == "\"\"" + t;
        assert s[2..] == t;
      } else {
        assert s == [body[0]] + t;
        assert s[1..] == t;
      }
      assert body == [body[0]] + body[1..];
    }
  }

  lemma {:induction false} WordStops(name: string, rest: string)
    requires forall i :: 0 <= i < |name| ==> name[i] != ' '
    requires rest == "" || rest[0] == ' '
    ensures Word(name + rest) == name
  {
    if name == "" {
      assert name + rest == rest;
    } else {
      WordStops(name[1..], rest);
      assert (name + rest)[1..] == name[1..] + rest;
    }
  }

  lemma LexPhrase(body: string, star: bool, rest: string)
    requires rest == "" || rest[0] == ' '
    ensures Lex(Print(Phrase(body, star)) + rest) == LexAfter(Phrase(body, star), rest)
  {
    var after := (if star then "*" else "") + rest;
    var s := "\"" + (Escape(body) + "\"" + after);
    assert Print(Phrase(body, star)) + rest == s;
    assert s[1..] == Escape(body) + "\"" + after;
    QuotedUndoesEscape(body, after);
    assert (if star then after[1..] else after) == rest;
    assert (after != "" && after[0] == '*') == star;
  }

  lemma LexOperator(name: string, rest: string)
    requires name in OPERATORS
    requires rest == "" || rest[0] == ' '
    ensures Lex(name + rest) == LexAfter(Operator(name), rest)
  {
    assert name != "" && name[0] != '"' && forall i :: 0 <= i < |name| ==> name[i] != ' ';
    WordStops(name, rest);
    assert (name + rest)[|name|..] == rest;
  }

  lemma LexOne(token: Token, rest: string)
    requires token.Phrase? || IsJoint(token)
    requires rest == "" || rest[0] == ' '
    ensures Lex(Print(token) + rest) == LexAfter(token, rest)
  {
    if token.Phrase? {
      LexPhrase(token.body, token.star, rest);
    } else {
      LexOperator(token.name, rest);
    }
  }

  predicate Wellformed(tokens: seq<Token>) {
    forall i :: 0 <= i < |tokens| ==> tokens[i].Phrase? || IsJoint(tokens[i])
  }

  lemma AlternatingIsWellformed(tokens: seq<Token>)
    requires Alternates(tokens)
    ensures Wellformed(tokens)
  {
    if |tokens| > 1 {
      AlternatingIsWellformed(tokens[2..]);
      assert forall i :: 2 <= i < |tokens| ==> tokens[i] == tokens[2..][i - 2];
    }
  }

  lemma LexMore(token: Token, tail: string, more: seq<Token>)
    requires token.Phrase? || IsJoint(token)
    requires tail != "" && Lex(tail) == Some(more)
    ensures Lex(Print(token) + (" " + tail)) == Some([token] + more)
  {
    var rest := " " + tail;
    LexOne(token, rest);
    assert rest[1..] == tail;
  }

  lemma LexLast(token: Token)
    requires token.Phrase? || IsJoint(token)
    ensures Lex(Print(token)) == Some([token])
  {
    LexOne(token, "");
    assert Print(token) + "" == Print(token);
  }

  lemma SpacedMore(parts: seq<string>)
    requires |parts| > 1
    ensures Spaced(parts) == parts[0] + (" " + Spaced(parts[1..]))
  {
    var rest := Spaced(parts[1..]);
    assert parts[0] + " " + rest == parts[0] + (" " + rest);
  }

  lemma {:induction false} LexUndoesPrint(tokens: seq<Token>)
    requires Wellformed(tokens)
    ensures Lex(Spaced(PrintAll(tokens))) == Some(tokens)
    ensures tokens != [] ==> Spaced(PrintAll(tokens)) != ""
  {
    if tokens != [] {
      var parts, more := PrintAll(tokens), tokens[1..];
      assert parts[1..] == PrintAll(more) && parts[0] == Print(tokens[0]) != "";
      LexUndoesPrint(more);
      assert tokens == [tokens[0]] + more;
      if more == [] {
        LexLast(tokens[0]);
        assert tokens == [tokens[0]] && Spaced(parts) == Print(tokens[0]);
      } else {
        LexMore(tokens[0], Spaced(PrintAll(more)), more);
        SpacedMore(parts);
      }
    }
  }

  /** Nothing to search for exactly when nothing but operators and bare stars was typed; otherwise
      what was printed reads back as an alternation whose phrases are exactly the chunks typed. */
  lemma QueryRoundTrip(text: string)
    ensures Query(text).None? <==> forall chunk <- Split(text) :: chunk in OPERATORS || chunk == "*"
    ensures Query(text).Some? ==>
              var read := Lex(Query(text).value);
              && read == Some(Reading(Split(text), None, false))
              && Alternates(read.value) && Phrases(read.value) == Terms(Split(text))
  {
    var chunks := Split(text);
    ChunksAreTheText(text, "");
    ReadingIsAlternating(chunks, None, false);
    TermsOfSolid(chunks);
    var tokens := Reading(chunks, None, false);
    if tokens != [] {
      AlternatingIsWellformed(tokens);
      LexUndoesPrint(tokens);
    }
  }

  lemma TermsOfSolid(chunks: seq<string>)
    requires forall chunk <- chunks :: Solid(chunk)
    ensures Terms(chunks) == [] <==> forall chunk <- chunks :: chunk in OPERATORS || chunk == "*"
  {
    if chunks != [] {
      TermsOfSolid(chunks[1..]);
      var c := chunks[0];
      assert Solid(c) && c in chunks;
      assert forall x <- chunks :: x == c || x in chunks[1..];
      if Body(c) != "" {
        assert Body(c)[0] in c;
        assert !Blank(Body(c));
      }
    }
  }
}

/** The stateful layer of the calculator's lexer: a cursor over one line of text
    that each call of Advance moves past the next token, and the caller's loop
    that advances until the end of input or the first error. */
module Lexing {
  import opened Scanner

  // ---------------------------------------------------------------------------
  // Classifiers

  /** What the lexer applies to the text after its cursor: FindToken. */
  type Classifier = string -> Result<(Token, nat)>

  /** What the lexer needs of its classifier, and what FindToken guarantees:
      empty text is the end of input, the end of input is found on empty text
      only, and any other token spans at least one character of the text. */
  ghost predicate MakesProgress(find: Classifier)
  {
    find([]) == Ok((EOF, 0)) &&
    forall t :: find(t).Ok? ==>
      (find(t).value.0 == EOF <==> t == []) &&
      find(t).value.1 <= |t| &&
      (t != [] ==> 1 <= find(t).value.1)
  }

  lemma FindTokenMakesProgress()
    ensures MakesProgress(FindToken)
  {
    forall t | FindToken(t).Ok?
      ensures (FindToken(t).value.0 == EOF <==> t == []) && FindToken(t).value.1 <= |t|
      ensures t != [] ==> 1 <= FindToken(t).value.1
    {
    }
  }

  // ---------------------------------------------------------------------------
  // The lexer

  /** A lexer over one line. `prevEnd` is where the previous token ended and
      `[curStart, curEnd)` is the span of the current token `token`. */
  class Lexer {
    const text: string
    /** The classifier Advance applies; the constructor makes it FindToken. */
    const classify: Classifier
    var prevEnd: nat
    var curStart: nat
    var curEnd: nat
    var token: Token

    /** The spans never leave a gap and stay inside the text, the end of input
        spans no characters, and the classifier makes progress. */
    ghost predicate Valid()
      reads this
    {
      MakesProgress(classify) &&
      prevEnd == curStart <= curEnd <= |text| &&
      (token == EOF ==> curStart == curEnd)
    }

    /** A fresh lexer: all positions at the start of the text, no token yet. */
    constructor (text: string)
      ensures Valid()
      ensures this.text == text && classify == FindToken
      ensures prevEnd == 0 && curStart == 0 && curEnd == 0 && token == EOF
    {
      this.text := text;
      classify := FindToken;
      prevEnd, curStart, curEnd := 0, 0, 0;
      token := EOF;
      FindTokenMakesProgress();
    }

    /** The kind of the current token. */
    function Peek(): (t: Token)
      reads this
      requires Valid()
      ensures t == EOF ==> curStart == curEnd
    {
      token
    }

    /** The text of the current token: it extends the text before the token to
        the text up to the token's end. */
    function Content(): (s: string)
      reads this
      requires Valid()
      ensures |s| == curEnd - curStart
      ensures text[..curStart] + s == text[..curEnd]
    {
      text[curStart..curEnd]
    }

    /** Where the current token starts: where the previous one ended. */
    function StartLoc(): (l: nat)
      reads this
      requires Valid()
      ensures l == prevEnd && l <= curEnd
    {
      curStart
    }

    /** Where the previous token ended: where the current one starts. */
    function PreviousEndLoc(): (l: nat)
      reads this
      requires Valid()
      ensures l == curStart && l <= |text|
    {
      prevEnd
    }

    /** Moves past the next token. The previous end and the new start move to the
        old end before the classification; on success the current span and token
        become what the classifier finds there, and on failure the span's end
        and the token keep their old values. At the end of the text advancing
        yields the end of input, and once the lexer stands there on the end of
        input, advancing again changes nothing. */
    method Advance() returns (r: Result<()>)
      requires Valid()
      modifies this
      ensures Valid()
      ensures prevEnd == old(curEnd) && curStart == old(curEnd)
      ensures r.Ok? ==> classify(text[curStart..]) == Ok((token, curEnd - curStart))
      ensures r.Err? ==> classify(text[curStart..]) == Err(r.error) && curEnd == old(curEnd) && token == old(token)
      ensures old(curEnd) == |text| ==> r.Ok? && token == EOF && curEnd == old(curEnd)
      ensures old(token) == EOF && old(curEnd) == |text| ==> r.Ok? && unchanged(this)
    {
      prevEnd := curEnd;
      curStart := curEnd;
      var found := classify(text[curStart..]);
      if found.Err? {
        return Err(found.error);
      }
      var (tok, len) := found.value;
      curEnd := curStart + len;
      token := tok;
      return Ok(());
    }
  }

  // ---------------------------------------------------------------------------
  // The token stream of a whole line

  /** One token of the stream: its kind and its span `[start, end)`. */
  datatype Span = Span(token: Token, start: nat, end: nat)

  /** The tokens read before the loop stopped, and the error that stopped it
      (`None` when it stopped at the end of input). */
  datatype ScanOutcome = ScanOutcome(spans: seq<Span>, error: Option<LexError>)

  /** Where the last of `spans` ends, or `pos` when there is none. */
  function EndOf(spans: seq<Span>, pos: nat): nat
  {
    if spans == [] then pos else spans[|spans| - 1].end
  }

  /** The spans tile the text from `pos`: the first starts at `pos`, each is the
      token `find` classifies at its start, and each starts where the previous one
      ended. */
  ghost predicate Tiles(find: Classifier, text: string, pos: nat, spans: seq<Span>)
    decreases |spans|
  {
    spans == [] ||
    (spans[0].start == pos <= spans[0].end <= |text| &&
     find(text[pos..]) == Ok((spans[0].token, spans[0].end - pos)) &&
     Tiles(find, text, spans[0].end, spans[1..]))
  }

  /** The token stream from position `pos`: what a caller sees who advances until
      the end of input or the first error. Every token but the `EOF` consumes at
      least one character, so there are at most as many tokens as remaining
      characters, plus the `EOF`. */
  function Scan(find: Classifier, text: string, pos: nat): (r: ScanOutcome)
    requires MakesProgress(find) && pos <= |text|
    ensures |r.spans| <= |text| - pos + 1
    decreases |text| - pos
  {
    match find(text[pos..])
    case Err(e) => ScanOutcome([], Some(e))
    case Ok((tok, len)) =>
      if tok == EOF then ScanOutcome([Span(EOF, pos, pos)], None)
      else
        var rest := Scan(find, text, pos + len);
        ScanOutcome([Span(tok, pos, pos + len)] + rest.spans, rest.error)
  }

  /** The stream tiles the text from `pos` with the tokens the classifier finds. */
  lemma {:induction false} ScanTiles(find: Classifier, text: string, pos: nat)
    requires MakesProgress(find) && pos <= |text|
    ensures Tiles(find, text, pos, Scan(find, text, pos).spans)
    ensures pos <= EndOf(Scan(find, text, pos).spans, pos) <= |text|
    decreases |text| - pos
  {
    var found := find(text[pos..]);
    if found.Ok? && found.value.0 != EOF {
      var (tok, len) := found.value;
      var rest := Scan(find, text, pos + len).spans;
      ScanTiles(find, text, pos + len);
      var spans := [Span(tok, pos, pos + len)] + rest;
      assert Scan(find, text, pos).spans == spans;
      assert spans[1..] == rest;
      if rest != [] {
        assert EndOf(spans, pos) == EndOf(rest, pos + len);
      }
    }
  }

  /** The stream stops at its one `EOF` token exactly when no error stops it
      first. */
  lemma {:induction false} ScanEndsOnce(find: Classifier, text: string, pos: nat)
    requires MakesProgress(find) && pos <= |text|
    ensures var r := Scan(find, text, pos);
      (forall i :: 0 <= i < |r.spans| - 1 ==> r.spans[i].token != EOF) &&
      (r.error.None? <==> r.spans != [] && r.spans[|r.spans| - 1].token == EOF)
    decreases |text| - pos
  {
    var found := find(text[pos..]);
    if found.Ok? && found.value.0 != EOF {
      var (tok, len) := found.value;
      var rest := Scan(find, text, pos + len);
      ScanEndsOnce(find, text, pos + len);
      var spans := [Span(tok, pos, pos + len)] + rest.spans;
      assert Scan(find, text, pos) == ScanOutcome(spans, rest.error);
      forall i | 0 <= i < |spans| - 1
        ensures spans[i].token != EOF
      {
        if i > 0 {
          assert spans[i] == rest.spans[i - 1];
        }
      }
    }
  }

  /** A stream that reaches the end of input covers the whole rest of the text;
      one that stops at an error stops where the classifier reports it. */
  lemma {:induction false} ScanStopsWhere(find: Classifier, text: string, pos: nat)
    requires MakesProgress(find) && pos <= |text|
    ensures var r := Scan(find, text, pos);
      EndOf(r.spans, pos) <= |text| &&
      (r.error.None? ==> EndOf(r.spans, pos) == |text|) &&
      (r.error.Some? ==> find(text[EndOf(r.spans, pos)..]) == Err(r.error.value))
    decreases |text| - pos
  {
    var found := find(text[pos..]);
    if found.Err? {
      assert Scan(find, text, pos) == ScanOutcome([], Some(found.error));
    } else if found.value.0 == EOF {
      assert text[pos..] == [];
      assert Scan(find, text, pos) == ScanOutcome([Span(EOF, pos, pos)], None);
    } else {
      var (tok, len) := found.value;
      var rest := Scan(find, text, pos + len);
      ScanStopsWhere(find, text, pos + len);
      var spans := [Span(tok, pos, pos + len)] + rest.spans;
      assert Scan(find, text, pos) == ScanOutcome(spans, rest.error);
      if rest.spans != [] {
        assert EndOf(spans, pos) == EndOf(rest.spans, pos + len);
      }
    }
  }

  /** The text of each span, in order, joined together. */
  function Consumed(find: Classifier, text: string, pos: nat, spans: seq<Span>): string
    requires Tiles(find, text, pos, spans)
    decreases |spans|
  {
    if spans == [] then []
    else text[spans[0].start..spans[0].end] + Consumed(find, text, spans[0].end, spans[1..])
  }

  /** The contents of successive tokens join up to exactly the text they cover. */
  lemma {:induction false} ConsumedIsText(find: Classifier, text: string, pos: nat, spans: seq<Span>)
    requires pos <= |text| && Tiles(find, text, pos, spans)
    ensures pos <= EndOf(spans, pos) <= |text|
    ensures Consumed(find, text, pos, spans) == text[pos..EndOf(spans, pos)]
    decreases |spans|
  {
    if spans != [] {
      var next := spans[0].end;
      ConsumedIsText(find, text, next, spans[1..]);
      assert EndOf(spans[1..], next) == EndOf(spans, pos);
    }
  }

  // ---------------------------------------------------------------------------
  // The caller's loop

  /** The stream `o` with `prefix` read before it. */
  function Append(prefix: seq<Span>, o: ScanOutcome): ScanOutcome
  {
    ScanOutcome(prefix + o.spans, o.error)
  }

  lemma AppendAssoc(a: seq<Span>, b: seq<Span>, o: ScanOutcome)
    ensures Append(a, Append(b, o)) == Append(a + b, o)
  {
    assert a + (b + o.spans) == (a + b) + o.spans;
  }

  /** An error where the stream stands ends it: the tokens read so far are all
      it has. */
  lemma ScanStopsAtError(find: Classifier, text: string, read: seq<Span>, pos: nat)
    requires MakesProgress(find) && pos <= |text| && find(text[pos..]).Err?
    requires Scan(find, text, 0) == Append(read, Scan(find, text, pos))
    ensures Scan(find, text, 0) == ScanOutcome(read, Some(find(text[pos..]).error))
  {
    assert read + [] == read;
  }

  /** The end of input where the stream stands is its last token. */
  lemma ScanStopsAtEnd(find: Classifier, text: string, read: seq<Span>, s: Span)
    requires MakesProgress(find) && s.start <= s.end && s.start <= |text|
    requires s.token == EOF && find(text[s.start..]) == Ok((EOF, s.end - s.start))
    requires Scan(find, text, 0) == Append(read, Scan(find, text, s.start))
    ensures Scan(find, text, 0) == ScanOutcome(read + [s], None)
  {
    assert s == Span(EOF, s.start, s.start);
    assert Scan(find, text, s.start) == ScanOutcome([s], None);
  }

  /** Any other token where the stream stands is read, and the stream goes on
      where that token ends. */
  lemma ScanGoesOn(find: Classifier, text: string, read: seq<Span>, s: Span)
    requires MakesProgress(find) && s.start <= s.end && s.start <= |text|
    requires s.token != EOF && find(text[s.start..]) == Ok((s.token, s.end - s.start))
    requires Scan(find, text, 0) == Append(read, Scan(find, text, s.start))
    ensures s.end <= |text|
    ensures Scan(find, text, 0) == Append(read + [s], Scan(find, text, s.end))
  {
    var t := text[s.start..];
    assert find(t).Ok? && find(t).value.1 <= |t|;
    var rest := Scan(find, text, s.end);
    assert Scan(find, text, s.start) == ScanOutcome([s] + rest.spans, rest.error);
    AppendAssoc(read, [s], rest);
  }

  /** The lexer has read `read` so far: the stream of the whole text is `read`
      followed by the stream from where the lexer stands. */
  ghost predicate HasRead(lexer: Lexer, read: seq<Span>)
    reads lexer
  {
    lexer.Valid() &&
    Scan(lexer.classify, lexer.text, 0) == Append(read, Scan(lexer.classify, lexer.text, lexer.curEnd))
  }

  /** One round of the caller's loop: advance, and on success record the token
      read. The loop goes on (`more`) after any token but the end of input. */
  method Step(lexer: Lexer, read: seq<Span>) returns (spans: seq<Span>, error: Option<LexError>, more: bool)
    requires HasRead(lexer, read)
    modifies lexer
    ensures lexer.Valid() && old(lexer.curEnd) <= lexer.curEnd
    ensures more ==> error == None && HasRead(lexer, spans) && old(lexer.curEnd) < lexer.curEnd
    ensures !more ==> ScanOutcome(spans, error) == Scan(lexer.classify, lexer.text, 0)
  {
    ghost var from := lexer.curEnd;
    var r := lexer.Advance();
    if r.Err? {
      ScanStopsAtError(lexer.classify, lexer.text, read, from);
      return read, Some(r.error), false;
    }
    var s := Span(lexer.Peek(), lexer.StartLoc(), lexer.curEnd);
    spans, error, more := read + [s], None, lexer.Peek() != EOF;
    if more {
      ScanGoesOn(lexer.classify, lexer.text, read, s);
    } else {
      ScanStopsAtEnd(lexer.classify, lexer.text, read, s);
    }
  }

  /** The caller's loop: make a lexer over `text` and advance it until it fails
      or yields the end of input, recording each token read. What it records is
      the token stream of the text. */
  method Tokenize(text: string) returns (spans: seq<Span>, error: Option<LexError>)
    ensures ScanOutcome(spans, error) == Scan(FindToken, text, 0)
  {
    var lexer := new Lexer(text);
    spans, error := [], None;
    var more := true;
    assert Append([], Scan(FindToken, text, 0)) == Scan(FindToken, text, 0);
    while more
      invariant lexer.text == text && lexer.classify == FindToken && lexer.Valid()
      invariant more ==> error == None && HasRead(lexer, spans)
      invariant !more ==> ScanOutcome(spans, error) == Scan(FindToken, text, 0)
      decreases |text| - lexer.curEnd, more
    {
      spans, error, more := Step(lexer, spans);
    }
  }
}

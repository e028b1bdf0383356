/** Concrete inputs and what the lexer makes of them. */
module Examples {
  import opened Scanner
  import opened Lexing

  /** A typed decimal literal: the run `128`, then the suffix `u128`. */
  lemma TypedDecimalExample()
    ensures FindToken("128u128") == Ok((NumTypedValue, 7))
  {
    var t := "128u128";
    MaximalRunUnique(Decimal, t, RunLength(Decimal, t), 3);
    assert t[3..] == "u128";
  }

  /** Separators belong to the run. */
  lemma SeparatorExample()
    ensures FindToken("1_000") == Ok((NumValue, 5))
  {
    var t := "1_000";
    MaximalRunUnique(Decimal, t, RunLength(Decimal, t), 5);
    assert t[5..] == "";
  }

  /** `u1` is no width suffix: the literal is the run alone. */
  lemma NoSuffixExample()
    ensures FindToken("1u1") == Ok((NumValue, 1))
  {
    var t := "1u1";
    MaximalRunUnique(Decimal, t, RunLength(Decimal, t), 1);
    assert t[1..] == "u1";
  }

  /** A hexadecimal literal spans the prefix and the whole hexadecimal run. */
  lemma HexExample()
    ensures FindToken("0x1A_2b") == Ok((NumValue, 7))
  {
    var t := "0x1A_2b";
    HexStartIsPrefix(t);
    var h := t[2..];
    assert h == "1A_2b";
    MaximalRunUnique(Hexadecimal, h, RunLength(Hexadecimal, h), 5);
    assert h[5..] == "";
  }

  /** Nothing the hexadecimal scan accepts follows `0x`: the lexer backs off to
      the lone `0`. */
  lemma HexBackOffExample()
    ensures FindToken("0xg") == Ok((NumValue, 1))
  {
    var t := "0xg";
    HexStartIsPrefix(t);
    var h := t[2..];
    assert h == "g";
    MaximalRunUnique(Hexadecimal, h, RunLength(Hexadecimal, h), 0);
    assert h[0..] == "g";
  }

  /** A width suffix right after `0x` counts as the hexadecimal part, so there
      is no back-off. */
  lemma HexSuffixOnlyExample()
    ensures FindToken("0xu8") == Ok((NumTypedValue, 4))
  {
    var t := "0xu8";
    HexStartIsPrefix(t);
    var h := t[2..];
    assert h == "u8";
    MaximalRunUnique(Hexadecimal, h, RunLength(Hexadecimal, h), 0);
    assert h[0..] == "u8";
  }

  /** `0x` alone is too short for the hexadecimal branch: the decimal scan reads
      the `0`. */
  lemma ShortHexPrefixExample()
    ensures FindToken("0x") == Ok((NumValue, 1))
  {
    var t := "0x";
    HexStartIsPrefix(t);
    MaximalRunUnique(Decimal, t, RunLength(Decimal, t), 1);
    assert t[1..] == "x";
  }

  /** Operators and spaces are one character; anything else is an error naming
      the character. */
  lemma SymbolExamples()
    ensures FindToken("+1") == Ok((Plus, 1))
    ensures FindToken("= 3") == Ok((Equal, 1))
    ensures FindToken(" ") == Ok((Space, 1))
    ensures FindToken("\t") == Err(InvalidCharacter('\t'))
    ensures FindToken("#") == Err(InvalidCharacter('#'))
    ensures ErrorMessage(InvalidCharacter('#')) == "Invalid character: '#'"
  {
  }

  /** The tokens of `1+2` one at a time. */
  lemma OnePlusTwoTokens()
    ensures FindToken("1+2") == Ok((NumValue, 1))
    ensures FindToken("1+2"[1..]) == Ok((Plus, 1))
    ensures FindToken("1+2"[2..]) == Ok((NumValue, 1))
    ensures FindToken("1+2"[3..]) == Ok((EOF, 0))
  {
    var t := "1+2";
    MaximalRunUnique(Decimal, t, RunLength(Decimal, t), 1);
    assert t[1..] == "+2" && t[2..] == "2" && t[3..] == "";
    MaximalRunUnique(Decimal, t[2..], RunLength(Decimal, t[2..]), 1);
    assert t[2..][1..] == "";
  }

  /** The stream of `1+2` under any classifier that finds its tokens. */
  lemma StreamOfOnePlusTwo(find: Classifier, t: string)
    requires MakesProgress(find) && |t| == 3
    requires find(t[0..]) == Ok((NumValue, 1)) && find(t[1..]) == Ok((Plus, 1))
    requires find(t[2..]) == Ok((NumValue, 1)) && find(t[3..]) == Ok((EOF, 0))
    ensures Scan(find, t, 0) ==
      ScanOutcome([Span(NumValue, 0, 1), Span(Plus, 1, 2), Span(NumValue, 2, 3), Span(EOF, 3, 3)], None)
  {
    var s0, s1, s2 := Span(NumValue, 0, 1), Span(Plus, 1, 2), Span(NumValue, 2, 3);
    assert Append([], Scan(find, t, 0)) == Scan(find, t, 0);
    ScanGoesOn(find, t, [], s0);
    assert [] + [s0] == [s0];
    ScanGoesOn(find, t, [s0], s1);
    assert [s0] + [s1] == [s0, s1];
    ScanGoesOn(find, t, [s0, s1], s2);
    assert [s0, s1] + [s2] == [s0, s1, s2];
    ScanStopsAtEnd(find, t, [s0, s1, s2], Span(EOF, 3, 3));
  }

  /** The stream of `1+2`: two numbers around a plus, then the end of input. */
  lemma StreamExample()
    ensures MakesProgress(FindToken)
    ensures Scan(FindToken, "1+2", 0) ==
      ScanOutcome([Span(NumValue, 0, 1), Span(Plus, 1, 2), Span(NumValue, 2, 3), Span(EOF, 3, 3)], None)
  {
    FindTokenMakesProgress();
    OnePlusTwoTokens();
    assert "1+2"[0..] == "1+2";
    StreamOfOnePlusTwo(FindToken, "1+2");
  }

  /** The first token of `1#` and the error after it. */
  lemma OneHashTokens()
    ensures FindToken("1#") == Ok((NumValue, 1))
    ensures FindToken("1#"[1..]) == Err(InvalidCharacter('#'))
  {
    MaximalRunUnique(Decimal, "1#", RunLength(Decimal, "1#"), 1);
    assert "1#"[1..] == "#";
  }

  /** A failed advance on `1#`: the first call reads the `1`; the second fails on
      `#` after moving the start and the previous end to the old end, and keeps
      the old end and token. */
  method FailedAdvanceExample() returns (lexer: Lexer, first: Result<()>, second: Result<()>)
    ensures first.Ok? && second == Err(InvalidCharacter('#'))
    ensures lexer.prevEnd == 1 && lexer.curStart == 1 && lexer.curEnd == 1 && lexer.token == NumValue
  {
    OneHashTokens();
    lexer := new Lexer("1#");
    assert lexer.text[0..] == "1#";
    first := lexer.Advance();
    assert lexer.curEnd == 1;
    second := lexer.Advance();
  }
}

/** The pure classification layer of the calculator's lexer: given the text that
    remains after the cursor, decide which token starts there and how many
    characters it spans. Text is a sequence of characters; every character a token
    consumes is ASCII, so character positions and byte offsets coincide. */
module Scanner {

  /** The token kinds, in declaration order. */
  datatype Token = EOF | NumValue | NumTypedValue | Plus | Equal | Space

  /** The lexer's only failure: no rule matches the next character. */
  datatype LexError = InvalidCharacter(c: char)

  datatype Result<T> = Ok(value: T) | Err(error: LexError)

  datatype Option<T> = None | Some(value: T)

  // ---------------------------------------------------------------------------
  // The error message

  const ErrorPrefix: string := "Invalid character: '"

  /** The text of the error, as the lexer formats it: the prefix, the offending
      character, and a closing quote. */
  function ErrorMessage(e: LexError): (m: string)
    ensures |m| == |ErrorPrefix| + 2
    ensures m[..|ErrorPrefix|] == ErrorPrefix && m[|m| - 1] == '\''
    ensures m[|ErrorPrefix|] == e.c
  {
    ErrorPrefix + [e.c] + "'"
  }

  /** The message names the character: different characters give different messages. */
  lemma ErrorMessageInjective(e1: LexError, e2: LexError)
    requires ErrorMessage(e1) == ErrorMessage(e2)
    ensures e1 == e2
  {
    assert e1.c == ErrorMessage(e1)[|ErrorPrefix|];
  }

  // ---------------------------------------------------------------------------
  // Character classes

  predicate IsDigit(c: char) { '0' <= c <= '9' }

  /** The two kinds of numeric literal. */
  datatype Base = Decimal | Hexadecimal

  /** Characters of a literal in base `b`: digits and the `_` separator, and for
      hexadecimal also `a`-`f` and `A`-`F`. */
  predicate IsNumberChar(b: Base, c: char)
  {
    match b
    case Decimal => IsDigit(c) || c == '_'
    case Hexadecimal => 'a' <= c <= 'f' || 'A' <= c <= 'F' || IsDigit(c) || c == '_'
  }

  /** The first characters a token can start with. */
  predicate StartsToken(c: char) { IsDigit(c) || c == '+' || c == '=' || c == ' ' }

  // ---------------------------------------------------------------------------
  // Maximal runs

  /** `n` is the length of the longest prefix of `text` made of characters of
      base `b`. */
  predicate IsMaximalRun(b: Base, text: string, n: nat)
  {
    n <= |text| &&
    (forall i :: 0 <= i < n ==> IsNumberChar(b, text[i])) &&
    (n < |text| ==> !IsNumberChar(b, text[n]))
  }

  /** Scans the run of base-`b` characters at the start of `text`: the position
      of the first character outside the class, or the whole length when there is
      none. */
  function RunLength(b: Base, text: string): (n: nat)
    ensures IsMaximalRun(b, text, n)
    decreases |text|
  {
    if text == [] || !IsNumberChar(b, text[0]) then 0 else 1 + RunLength(b, text[1..])
  }

  /** There is only one maximal run. */
  lemma MaximalRunUnique(b: Base, text: string, n1: nat, n2: nat)
    requires IsMaximalRun(b, text, n1) && IsMaximalRun(b, text, n2)
    ensures n1 == n2
  {
  }

  // ---------------------------------------------------------------------------
  // Width suffixes

  /** The typed-literal width suffixes. */
  const WidthSuffixes: set<string> := {"u8", "u16", "u32", "u64", "u128", "u256"}

  /** `p` is a prefix of `s`, tested character by character as the lexer's
      `starts_with` does. */
  predicate StartsWith(s: string, p: string)
    decreases |p|
  {
    p == [] || (s != [] && s[0] == p[0] && StartsWith(s[1..], p[1..]))
  }

  /** The character-by-character test agrees with Dafny's prefix relation. */
  lemma {:induction false} StartsWithIsPrefix(s: string, p: string)
    ensures StartsWith(s, p) <==> p <= s
    decreases |p|
  {
    if p != [] && s != [] {
      StartsWithIsPrefix(s[1..], p[1..]);
      if p <= s {
        assert p[1..] <= s[1..];
      }
    }
  }

  /** Some width suffix starts `rest`. */
  predicate HasWidthSuffix(rest: string)
  {
    exists w :: w in WidthSuffixes && w <= rest
  }

  /** No width suffix is a prefix of another, so at most one of them starts any text
      and the order in which they are tested does not matter. */
  lemma {:induction false} WidthSuffixUnique(rest: string, w1: string, w2: string)
    requires w1 in WidthSuffixes && w1 <= rest
    requires w2 in WidthSuffixes && w2 <= rest
    ensures w1 == w2
  {
    if |w1| <= |w2| {
      assert w1 == w2[..|w1|];
      WidthSuffixPrefixFree(w1, w2);
    } else {
      assert w2 == w1[..|w2|];
      WidthSuffixPrefixFree(w2, w1);
    }
  }

  /** A width suffix that is a prefix of another is that suffix. */
  lemma WidthSuffixPrefixFree(a: string, b: string)
    requires a in WidthSuffixes && b in WidthSuffixes
    requires |a| <= |b| && a == b[..|a|]
    ensures a == b
  {
    if b == "u8" || b == "u16" || b == "u32" || b == "u64" {
      assert a[1] == b[1];
    } else {
      assert a[1] == b[1] && (|a| >= 3 ==> a[2] == b[2]);
    }
  }

  /** Given `text` and the length `n` of its numeric run, checks the text right
      after the run for a width suffix (`u8`, then `u64`/`u16`/`u32`, then
      `u128`/`u256`) and returns the token kind and the total length. Which
      suffix it finds is stated by NumberMaybeWithSuffixFindsSuffix. */
  function NumberMaybeWithSuffix(text: string, n: nat): (r: (Token, nat))
    requires n <= |text|
    ensures n <= r.1 <= |text|
    ensures r.0 != NumTypedValue ==> r == (NumValue, n)
  {
    var rest := text[n..];
    if StartsWith(rest, "u8") then
      (NumTypedValue, n + 2)
    else if StartsWith(rest, "u64") || StartsWith(rest, "u16") || StartsWith(rest, "u32") then
      (NumTypedValue, n + 3)
    else if StartsWith(rest, "u128") || StartsWith(rest, "u256") then
      (NumTypedValue, n + 4)
    else
      (NumValue, n)
  }

  /** The literal is typed exactly when a width suffix follows the run, and the
      characters it adds to the run are that suffix. */
  lemma NumberMaybeWithSuffixFindsSuffix(text: string, n: nat)
    requires n <= |text|
    ensures var r := NumberMaybeWithSuffix(text, n);
      (r.0 == NumTypedValue <==> HasWidthSuffix(text[n..])) &&
      (r.0 == NumTypedValue ==> text[n..r.1] in WidthSuffixes)
  {
    var rest := text[n..];
    var r := NumberMaybeWithSuffix(text, n);
    forall w | w in WidthSuffixes
      ensures StartsWith(rest, w) <==> w <= rest
    {
      StartsWithIsPrefix(rest, w);
    }
    if r.0 == NumTypedValue {
      var w :| w in WidthSuffixes && StartsWith(rest, w) && |w| == r.1 - n;
      assert text[n..r.1] == rest[..|w|] == w;
    }
  }

  // ---------------------------------------------------------------------------
  // Numeric literals

  /** The first `len` characters of `text` are a numeric literal of kind `tok`: a
      maximal run of base-`b` characters, then either exactly one width suffix (a
      typed literal) or, when no width suffix follows the run, nothing more. */
  ghost predicate IsNumberLiteral(b: Base, text: string, tok: Token, len: nat)
  {
    exists n :: IsMaximalRun(b, text, n) && LiteralAfterRun(text, n, tok, len)
  }

  ghost predicate LiteralAfterRun(text: string, n: nat, tok: Token, len: nat)
  {
    n <= len <= |text| &&
    ((tok == NumTypedValue && text[n..len] in WidthSuffixes) ||
     (tok == NumValue && len == n && !HasWidthSuffix(text[n..])))
  }

  /** A width suffix right after the run is one that starts the rest. */
  lemma SuffixOfRun(text: string, n: nat, len: nat)
    requires n <= len <= |text| && text[n..len] in WidthSuffixes
    ensures text[n..len] <= text[n..] && HasWidthSuffix(text[n..])
  {
    assert text[n..len] <= text[n..];
  }

  /** A text starts with at most one numeric literal of a given base. */
  lemma NumberLiteralUnique(b: Base, text: string, t1: Token, l1: nat, t2: Token, l2: nat)
    requires IsNumberLiteral(b, text, t1, l1) && IsNumberLiteral(b, text, t2, l2)
    ensures t1 == t2 && l1 == l2
  {
    var n1: nat :| IsMaximalRun(b, text, n1) && LiteralAfterRun(text, n1, t1, l1);
    var n2: nat :| IsMaximalRun(b, text, n2) && LiteralAfterRun(text, n2, t2, l2);
    MaximalRunUnique(b, text, n1, n2);
    var rest := text[n1..];
    if t1 == NumTypedValue {
      SuffixOfRun(text, n1, l1);
    }
    if t2 == NumTypedValue {
      SuffixOfRun(text, n1, l2);
    }
    if t1 == NumTypedValue && t2 == NumTypedValue {
      WidthSuffixUnique(rest, text[n1..l1], text[n1..l2]);
    }
  }

  /** Scans a decimal literal at the start of `text`. */
  function DecimalNumber(text: string): (r: (Token, nat))
    ensures r.1 <= |text|
  {
    NumberMaybeWithSuffix(text, RunLength(Decimal, text))
  }

  /** Scans the digits of a hexadecimal literal at the start of `text` (the text
      after the `0x` prefix). */
  function HexNumber(text: string): (r: (Token, nat))
    ensures r.1 <= |text|
  {
    NumberMaybeWithSuffix(text, RunLength(Hexadecimal, text))
  }

  /** The scan of a maximal run followed by the suffix check yields a literal. */
  lemma ScanIsLiteral(b: Base, text: string)
    ensures var r := NumberMaybeWithSuffix(text, RunLength(b, text));
      IsNumberLiteral(b, text, r.0, r.1)
  {
    var n := RunLength(b, text);
    NumberMaybeWithSuffixFindsSuffix(text, n);
    var r := NumberMaybeWithSuffix(text, n);
    assert LiteralAfterRun(text, n, r.0, r.1);
  }

  /** DecimalNumber returns exactly the decimal literal that starts the text. */
  lemma DecimalNumberIsLiteral(text: string, tok: Token, len: nat)
    ensures DecimalNumber(text) == (tok, len) <==> IsNumberLiteral(Decimal, text, tok, len)
  {
    ScanIsLiteral(Decimal, text);
    if IsNumberLiteral(Decimal, text, tok, len) {
      var r := DecimalNumber(text);
      NumberLiteralUnique(Decimal, text, tok, len, r.0, r.1);
    }
  }

  /** HexNumber returns exactly the hexadecimal literal that starts the text. */
  lemma HexNumberIsLiteral(text: string, tok: Token, len: nat)
    ensures HexNumber(text) == (tok, len) <==> IsNumberLiteral(Hexadecimal, text, tok, len)
  {
    ScanIsLiteral(Hexadecimal, text);
    if IsNumberLiteral(Hexadecimal, text, tok, len) {
      var r := HexNumber(text);
      NumberLiteralUnique(Hexadecimal, text, tok, len, r.0, r.1);
    }
  }

  // ---------------------------------------------------------------------------
  // Token classification

  /** The hexadecimal branch applies: the text starts with `0x` and goes on after it. */
  predicate IsHexStart(text: string) { StartsWith(text, "0x") && |text| > 2 }

  /** Classifies the token at the start of `text`: end of input on empty text; a
      numeric literal on a digit (hexadecimal after `0x`, backing off to the lone
      `0` when nothing follows the prefix that the hexadecimal scan accepts);
      `Plus`, `Equal` or `Space` on `+`, `=` or a space; otherwise an error naming
      the character. */
  function FindToken(text: string): (r: Result<(Token, nat)>)
    ensures r == Ok((EOF, 0)) <==> text == []
    ensures r.Ok? && text != [] ==> r.value.0 != EOF && 1 <= r.value.1 <= |text|
    ensures r.Err? <==> text != [] && !StartsToken(text[0])
    ensures r.Err? ==> r.error == InvalidCharacter(text[0])
  {
    if text == [] then Ok((EOF, 0))
    else
      var c := text[0];
      if IsDigit(c) then
        if IsHexStart(text) then
          var (tok, hexLen) := HexNumber(text[2..]);
          if hexLen == 0 then Ok((NumValue, 1)) else Ok((tok, 2 + hexLen))
        else
          assert IsNumberChar(Decimal, text[0]);
          Ok(DecimalNumber(text))
      else if c == '+' then Ok((Plus, 1))
      else if c == '=' then Ok((Equal, 1))
      else if c == ' ' then Ok((Space, 1))
      else Err(InvalidCharacter(c))
  }

  /** What the token at the start of `text` is, stated without the scanners: a
      declarative account of each rule of FindToken. */
  ghost predicate IsLexeme(text: string, tok: Token, len: nat)
  {
    if text == [] then tok == EOF && len == 0
    else if |text| > 2 && text[0] == '0' && text[1] == 'x' then
      if IsNumberLiteral(Hexadecimal, text[2..], NumValue, 0) then tok == NumValue && len == 1
      else 2 <= len && IsNumberLiteral(Hexadecimal, text[2..], tok, len - 2)
    else if IsDigit(text[0]) then IsNumberLiteral(Decimal, text, tok, len)
    else if text[0] == '+' then tok == Plus && len == 1
    else if text[0] == '=' then tok == Equal && len == 1
    else if text[0] == ' ' then tok == Space && len == 1
    else false
  }

  /** FindToken succeeds with `(tok, len)` exactly when `(tok, len)` is the lexeme
      that starts the text; it fails exactly when no lexeme starts the text. */
  lemma {:induction false} FindTokenIsLexeme(text: string, tok: Token, len: nat)
    ensures FindToken(text) == Ok((tok, len)) <==> IsLexeme(text, tok, len)
  {
    HexStartIsPrefix(text);
    if text != [] && IsHexStart(text) {
      HexLexeme(text, tok, len);
    } else if text != [] && IsDigit(text[0]) {
      DecimalNumberIsLiteral(text, tok, len);
    }
  }

  /** The hexadecimal branch is taken exactly on a `0x` followed by more text. */
  lemma HexStartIsPrefix(text: string)
    ensures IsHexStart(text) <==> |text| > 2 && text[0] == '0' && text[1] == 'x'
  {
    if |text| > 2 {
      StartsWithIsPrefix(text, "0x");
      assert "0x" <= text <==> text[..2] == "0x";
    }
  }

  /** The hexadecimal case of FindTokenIsLexeme. */
  lemma HexLexeme(text: string, tok: Token, len: nat)
    requires |text| > 2 && text[0] == '0' && text[1] == 'x'
    ensures FindToken(text) == Ok((tok, len)) <==> IsLexeme(text, tok, len)
  {
    HexStartIsPrefix(text);
    var rest := text[2..];
    HexNumberIsLiteral(rest, NumValue, 0);
    if len >= 2 {
      HexNumberIsLiteral(rest, tok, len - 2);
    }
  }

  /** Every lexeme is what FindToken returns, so no text starts with two lexemes. */
  lemma LexemeUnique(text: string, t1: Token, l1: nat, t2: Token, l2: nat)
    requires IsLexeme(text, t1, l1) && IsLexeme(text, t2, l2)
    ensures t1 == t2 && l1 == l2
  {
    FindTokenIsLexeme(text, t1, l1);
    FindTokenIsLexeme(text, t2, l2);
  }
}

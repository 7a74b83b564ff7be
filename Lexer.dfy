/** The tokenizer of whitespace/tokenizer.py, as written.

    Two quirks of that file shape everything below:
    - `TokenType.fromString` tests `s == ' ' or '[Space]'`, which is always
      truthy, so every token it classifies is a Space;
    - strict mode looks at the character AFTER the one it consumes, both to
      count lines and (fatally, at the end of the text) to index.
    The recursion of `nextToken` is kept: `NextTokenAt` is its specification and
    the `Tokenizer` class carries the index and line it advances. */
module Lexer {
  import opened Base

  datatype TokenType = Tab | Space | Linefeed | Eof

  datatype Token = Token(kind: TokenType, line: int)

  /** Python truthiness of a string. */
  predicate Truthy(s: string) { |s| > 0 }

  /** `TokenType.fromString`: each test is `s == x or y` with a non-empty
      literal `y`, so the first branch is always taken. */
  function FromString(s: string): (r: Option<TokenType>)
    ensures r == Some(Space)
  {
    if s == " " || Truthy("[Space]") then Some(Space)
    else if s == "\t" || Truthy("[Tab]") then Some(Tab)
    else if s == "\n" || Truthy("[LF]") then Some(Linefeed)
    else None
  }

  /** The classification the language defines for the three strict-syntax
      characters (and the one the tests of the token type expect). */
  function CharKind(c: char): (r: TokenType)
    ensures r != Eof
    ensures r == Space <==> c == ' '
    ensures r == Tab <==> c == '\t'
  {
    if c == ' ' then Space else if c == '\t' then Tab else Linefeed
  }

  /** `text.count(c)` for a one-character needle. */
  function Count(text: string, c: char): nat
  {
    if text == [] then 0
    else Count(text[..|text| - 1], c) + (if text[|text| - 1] == c then 1 else 0)
  }

  /** The count is positive exactly when the character occurs. */
  lemma {:induction false} CountPositiveIffContains(text: string, c: char)
    ensures Count(text, c) > 0 <==> c in text
  {
    if text != [] {
      var init := text[..|text| - 1];
      CountPositiveIffContains(init, c);
      assert text == init + [text[|text| - 1]];
      assert c in text <==> c in init || text[|text| - 1] == c;
    }
  }

  /** `text.index(c, start)`: the first position at or after `start` holding
      `c`; None stands for the ValueError raised when there is none. */
  function FindFrom(text: string, c: char, start: nat): (r: Option<nat>)
    ensures r.Some? ==> start <= r.value < |text| && text[r.value] == c
    ensures r.Some? ==> forall j :: start <= j < r.value ==> text[j] != c
    ensures r.None? ==> forall j :: start <= j < |text| ==> text[j] != c
    decreases |text| - start
  {
    if start >= |text| then None
    else if text[start] == c then Some(start)
    else FindFrom(text, c, start + 1)
  }

  predicate IsWhitespace(c: char) { c == ' ' || c == '\t' || c == '\n' }

  /** The tokenizer's position: the next index to scan and the current line. */
  datatype Scan = Scan(token: Token, index: nat, line: int)

  /** `Tokenizer.nextToken` from (index, line) in the given mode. */
  function NextTokenAt(text: string, readable: bool, index: nat, line: int): (r: Result<Scan>)
    requires index <= |text|
    ensures r.Ok? ==> index <= r.value.index <= |text| && line <= r.value.line
    ensures r.Ok? ==> r.value.token.kind == Space || r.value.token.kind == Eof
    ensures r.Ok? && r.value.token.kind != Eof ==> index < r.value.index
    ensures r.Ok? && r.value.token.kind == Eof ==> r.value.index == |text| && r.value.token.line == r.value.line
    decreases |text| - index
  {
    if index >= |text| then Ok(Scan(Token(Eof, line), index, line))
    else if readable then
      if text[index] == '[' then
        match FindFrom(text, ']', index)
        case None => Err(ValueError)
        case Some(e) =>
          // fromString never answers None here, so its None branch is dead
          var kind := FromString(text[index..e + 1]);
          Ok(Scan(Token(kind.value, line), e + 1, line))
      else if text[index] == '\n' then NextTokenAt(text, readable, index + 1, line + 1)
      else NextTokenAt(text, readable, index + 1, line)
    else if IsWhitespace(text[index]) then
      var kind := FromString([text[index]]);
      // the character after the consumed one is indexed unconditionally
      if index + 1 >= |text| then Err(IndexError)
      else
        var line' := if text[index + 1] == '\n' then line + 1 else line;
        Ok(Scan(Token(kind.value, line' - 1), index + 1, line'))
    else
      // `return self.nextToken()` with the index unchanged: never returns
      Err(NoProgress)
  }

  /** `Tokenizer.allTokens` from (index, line): the tokens before the first Eof. */
  function AllTokensFrom(text: string, readable: bool, index: nat, line: int): Result<seq<Token>>
    requires index <= |text|
    decreases |text| - index
  {
    match NextTokenAt(text, readable, index, line)
    case Err(e) => Err(e)
    case Ok(s) =>
      if s.token.kind == Eof then Ok([])
      else
        match AllTokensFrom(text, readable, s.index, s.line)
        case Err(e) => Err(e)
        case Ok(rest) => Ok([s.token] + rest)
  }

  /** Once the text is exhausted the tokenizer answers Eof with the current
      line and stays where it is, so it answers Eof forever. */
  lemma EofForever(text: string, readable: bool, index: nat, line: int)
    requires index == |text|
    ensures NextTokenAt(text, readable, index, line) == Ok(Scan(Token(Eof, line), index, line))
  {
  }

  /** Every token the tokenizer returns before Eof is a Space, and none is Eof. */
  lemma {:induction false} AllTokensAreSpaces(text: string, readable: bool, index: nat, line: int)
    requires index <= |text|
    requires AllTokensFrom(text, readable, index, line).Ok?
    ensures forall t :: t in AllTokensFrom(text, readable, index, line).value ==> t.kind == Space
    decreases |text| - index
  {
    var s := NextTokenAt(text, readable, index, line).value;
    if s.token.kind != Eof {
      AllTokensAreSpaces(text, readable, s.index, s.line);
      var rest := AllTokensFrom(text, readable, s.index, s.line).value;
      assert AllTokensFrom(text, readable, index, line).value == [s.token] + rest;
    }
  }

  /** Readable mode, at '[': the token ends just past the next ']' and keeps the
      current line; with no ']' ahead the scan raises ValueError. */
  lemma ReadableBracket(text: string, index: nat, line: int)
    requires index < |text| && text[index] == '['
    ensures FindFrom(text, ']', index).None? ==> NextTokenAt(text, true, index, line) == Err(ValueError)
    ensures FindFrom(text, ']', index).Some? ==>
      NextTokenAt(text, true, index, line) == Ok(Scan(Token(Space, line), FindFrom(text, ']', index).value + 1, line))
  {
  }

  /** Readable mode, on any other character: a newline adds one to the line and
      is skipped, anything else is skipped, and scanning resumes one further on. */
  lemma ReadableSkips(text: string, index: nat, line: int)
    requires index < |text| && text[index] != '['
    ensures NextTokenAt(text, true, index, line)
         == NextTokenAt(text, true, index + 1, if text[index] == '\n' then line + 1 else line)
  {
  }

  /** Strict mode: a non-whitespace character never lets the scan return, a
      whitespace character in last position raises IndexError, and any other
      whitespace character becomes a token one past it whose line is one less
      than the line counter after looking at the next character. */
  lemma StrictScan(text: string, index: nat, line: int)
    requires index < |text|
    ensures !IsWhitespace(text[index]) ==> NextTokenAt(text, false, index, line) == Err(NoProgress)
    ensures IsWhitespace(text[index]) && index + 1 == |text| ==>
      NextTokenAt(text, false, index, line) == Err(IndexError)
    ensures IsWhitespace(text[index]) && index + 1 < |text| ==>
      var line' := if text[index + 1] == '\n' then line + 1 else line;
      NextTokenAt(text, false, index, line) == Ok(Scan(Token(Space, line' - 1), index + 1, line'))
  {
  }

  /** The object of whitespace/tokenizer.py: the text, the scanning position and
      line, and the mode chosen once at construction. */
  class Tokenizer {
    const text: string
    var index: nat
    var line: int
    const readableMode: bool

    ghost predicate Valid()
      reads this
    {
      index <= |text|
    }

    /** Readable mode is chosen iff the text contains a '['. */
    constructor(text: string)
      ensures Valid()
      ensures this.text == text && index == 0 && line == 1
      ensures readableMode <==> '[' in text
    {
      this.text := text;
      index := 0;
      line := 1;
      readableMode := Count(text, '[') > 0;
      CountPositiveIffContains(text, '[');
    }

    /** `returnNextToken`: skip the current character and scan on. */
    method ReturnNextToken() returns (r: Result<Token>)
      requires Valid() && index < |text|
      modifies this
      ensures Valid()
      ensures var s := NextTokenAt(text, readableMode, old(index) + 1, old(line));
              s.Ok? ==> r == Ok(s.value.token) && index == s.value.index && line == s.value.line
      ensures var s := NextTokenAt(text, readableMode, old(index) + 1, old(line));
              s.Err? ==> r == Err(s.error)
      ensures old(index) <= index && old(line) <= line
      decreases |text| - index, 0
    {
      index := index + 1;
      r := NextToken();
    }

    /** `nextToken`: the next token, or the exception the scan raises. */
    method NextToken() returns (r: Result<Token>)
      requires Valid()
      modifies this
      ensures Valid()
      ensures var s := NextTokenAt(text, readableMode, old(index), old(line));
              s.Ok? ==> r == Ok(s.value.token) && index == s.value.index && line == s.value.line
      ensures var s := NextTokenAt(text, readableMode, old(index), old(line));
              s.Err? ==> r == Err(s.error)
      ensures old(index) <= index && old(line) <= line
      decreases |text| - index, 1
    {
      if index >= |text| {
        return Ok(Token(Eof, line));
      }
      if readableMode {
        if text[index] == '[' {
          var endIndex := FindFrom(text, ']', index);
          if endIndex.None? {
            return Err(ValueError);
          }
          var kind := FromString(text[index..endIndex.value + 1]);
          index := endIndex.value + 1;
          return Ok(Token(kind.value, line));
        } else if text[index] == '\n' {
          line := line + 1;
          r := ReturnNextToken();
        } else {
          r := ReturnNextToken();
        }
      } else {
        if IsWhitespace(text[index]) {
          var kind := FromString([text[index]]);
          index := index + 1;
          if index >= |text| {
            return Err(IndexError);
          }
          if text[index] == '\n' {
            line := line + 1;
          }
          r := Ok(Token(kind.value, line - 1));
        } else {
          return Err(NoProgress);
        }
      }
    }

    /** `allTokens`: every token up to the first Eof, in order, Eof excluded. */
    method AllTokens() returns (r: Result<seq<Token>>)
      requires Valid()
      modifies this
      ensures Valid()
      ensures r == AllTokensFrom(text, readableMode, old(index), old(line))
    {
      var out: seq<Token> := [];
      PrependNothing(AllTokensFrom(text, readableMode, index, line));
      while true
        invariant Valid()
        invariant AllTokensFrom(text, readableMode, old(index), old(line))
               == Prepend(out, AllTokensFrom(text, readableMode, index, line))
        decreases |text| - index
      {
        ghost var index0, line0 := index, line;
        var tok := NextToken();
        if tok.Err? {
          return Err(tok.error);
        }
        if tok.value.kind == Eof {
          assert AllTokensFrom(text, readableMode, index0, line0) == Ok([]);
          assert out + [] == out;
          return Ok(out);
        }
        ghost var rest := AllTokensFrom(text, readableMode, index, line);
        PrependTwice(out, [tok.value], rest);
        out := out + [tok.value];
      }
    }
  }

  lemma PrependNothing(r: Result<seq<Token>>)
    ensures Prepend([], r) == r
  {
    if r.Ok? {
      assert [] + r.value == r.value;
    }
  }

  lemma PrependTwice(a: seq<Token>, b: seq<Token>, r: Result<seq<Token>>)
    ensures Prepend(a, Prepend(b, r)) == Prepend(a + b, r)
  {
    if r.Ok? {
      assert a + (b + r.value) == (a + b) + r.value;
    }
  }

  /** `out` followed by the tokens of a result, or its exception. */
  function Prepend(out: seq<Token>, r: Result<seq<Token>>): Result<seq<Token>>
  {
    match r
    case Err(e) => Err(e)
    case Ok(rest) => Ok(out + rest)
  }
}

/** The `Scanner` struct of src/scanner.rs: a cursor over the source that
    pushes tokens as it goes. Each method is proved against the step and
    scan functions of module Lexing. */
module Scanner {
  import opened Wrappers
  import opened Tokens
  import opened Lexing

  class Scanner {
    const source: seq<char>
    var tokens: seq<Token>
    var start: nat
    var current: nat
    var line: nat
    var errorOccurred: bool

    ghost predicate Valid()
      reads this
    {
      start <= current <= |source| && line >= 1
    }

    constructor (source: seq<char>)
      ensures Valid()
      ensures this.source == source && tokens == [] && start == 0 && current == 0
      ensures line == 1 && !errorOccurred
    {
      this.source := source;
      tokens := [];
      start := 0;
      current := 0;
      line := 1;
      errorOccurred := false;
    }

    /** Past the last character; in a valid state that is exactly at the
        end, never beyond it. */
    predicate IsAtEnd(): (r: bool)
      reads this
      ensures Valid() ==> (r <==> current == |source|)
    {
      current >= |source|
    }

    /** The flag `Error` sets; no method clears it. */
    predicate HasError(): (r: bool)
      reads this
      ensures r <==> errorOccurred
    {
      errorOccurred
    }

    /** Consumes and returns the next character, or returns NUL without
        moving when the input is exhausted. */
    method Advance() returns (c: char)
      requires Valid()
      modifies this`current
      ensures Valid()
      ensures old(current) < |source| ==> c == source[old(current)] && current == old(current) + 1
      ensures old(current) >= |source| ==> c == '\0' && current == old(current)
    {
      if current < |source| {
        c := source[current];
        current := current + 1;
      } else {
        c := '\0';
      }
    }

    /** Consumes the next character only when it is `expected`. */
    method MatchNext(expected: char) returns (matched: bool)
      requires Valid()
      modifies this`current
      ensures Valid()
      ensures matched == Follows(source, old(current), expected)
      ensures current == if matched then old(current) + 1 else old(current)
    {
      if IsAtEnd() {
        return false;
      }
      if source[current] == expected {
        current := current + 1;
        return true;
      }
      return false;
    }

    /** Pushes a token whose lexeme is the text from `start` to `current`. */
    method AddToken(kind: TokenKind)
      requires Valid()
      modifies this`tokens
      ensures tokens == old(tokens) + [Token(kind, source[start..current], None, line)]
    {
      tokens := tokens + [Token(kind, source[start..current], None, line)];
    }

    /** Moves the cursor up to, not past, the next line break. */
    method SkipToEndOfLine()
      requires Valid()
      modifies this`current
      ensures Valid()
      ensures current == LineEnd(source, old(current))
    {
      while current < |source|
        invariant old(current) <= current <= |source|
        invariant LineEnd(source, current) == LineEnd(source, old(current))
        decreases |source| - current
      {
        if source[current] == '\n' {
          break;
        }
        current := current + 1;
      }
    }

    /** Records an unexpected character; the flag is never cleared. */
    method Error(c: char)
      modifies this`errorOccurred
      ensures errorOccurred
    {
      errorOccurred := true;
    }

    /** One step of the scan: the effect of `Lex` at the cursor. Called at
        the end of the input it reads NUL and changes nothing. */
    method ScanToken()
      requires Valid()
      modifies this
      ensures Valid() && start == old(start)
      ensures old(current) >= |source| ==>
        current == old(current) && tokens == old(tokens) && line == old(line) && errorOccurred == old(errorOccurred)
      ensures old(current) < |source| ==>
        var step := Lex(source, old(current));
        && current == step.end
        && line == LineAfter(step, old(line))
        && errorOccurred == (old(errorOccurred) || step.action.Unexpected?)
        && tokens == old(tokens) + Emitted(source, start, step, old(line))
    {
      ghost var step := if current < |source| then Lex(source, current) else Lexed(Skip, current);
      var c := Advance();
      match c {
        case '(' => AddToken(LeftParen);
        case ')' => AddToken(RightParen);
        case '{' => AddToken(LeftBrace);
        case '}' => AddToken(RightBrace);
        case '*' => AddToken(Star);
        case '.' => AddToken(Dot);
        case ',' => AddToken(Comma);
        case '+' => AddToken(Plus);
        case '-' => AddToken(Minus);
        case ';' => AddToken(Semicolon);
        case '=' =>
          var two := MatchNext('=');
          if two { AddToken(EqualEqual); } else { AddToken(Equal); }
        case '!' =>
          var two := MatchNext('=');
          if two { AddToken(BangEqual); } else { AddToken(Bang); }
        case '<' =>
          var two := MatchNext('=');
          if two { AddToken(LessEqual); } else { AddToken(Less); }
        case '>' =>
          var two := MatchNext('=');
          if two { AddToken(GreaterEqual); } else { AddToken(Greater); }
        case '/' =>
          var comment := MatchNext('/');
          if comment { SkipToEndOfLine(); } else { AddToken(Slash); }
        case '\n' => line := line + 1;
        case '\0' => {}
        case _ => Error(c);
      }
    }

    /** Scans the rest of the source and pushes the end marker: the tokens,
        flag and line are those of `ScanFrom` from the old cursor. `start`
        is left wherever the last step began; it is private bookkeeping of
        one step that no caller reads, so it is not stated. */
    method ScanTokens()
      requires Valid()
      modifies this
      ensures Valid() && current == |source|
      ensures var s := ScanFrom(source, old(current), old(line));
        && tokens == old(tokens) + s.tokens + [EofToken(s.line)]
        && errorOccurred == (old(errorOccurred) || s.hadError)
        && line == s.line
    {
      while !IsAtEnd()
        invariant Valid()
        invariant var s := ScanFrom(source, current, line);
          var whole := ScanFrom(source, old(current), old(line));
          && tokens + s.tokens == old(tokens) + whole.tokens
          && (errorOccurred || s.hadError) == (old(errorOccurred) || whole.hadError)
          && s.line == whole.line
        decreases |source| - current
      {
        ghost var step, before, pushed := Lex(source, current), line, tokens;
        start := current;
        ScanToken();
        ScanFromUnfold(source, start, before);
        ghost var rest, emitted := ScanFrom(source, current, line), Emitted(source, start, step, before);
        assert tokens == pushed + emitted;
        SeqAssoc(pushed, emitted, rest.tokens);
      }
      tokens := tokens + [EofToken(line)];
    }
  }

  lemma SeqAssoc<T>(a: seq<T>, b: seq<T>, c: seq<T>)
    ensures (a + b) + c == a + (b + c)
  {
  }

  /** A fresh scanner over `source`, run to the end: what the caller reads
      back through `get_tokens` and `has_error`. */
  method Tokenize(source: seq<char>) returns (tokens: seq<Token>, hadError: bool)
    ensures tokens == Scan(source).tokens && hadError == Scan(source).hadError
  {
    var scanner := new Scanner(source);
    scanner.ScanTokens();
    ghost var s := ScanFrom(source, 0, 1);
    assert [] + s.tokens == s.tokens;
    tokens := scanner.tokens;
    hadError := scanner.HasError();
  }
}

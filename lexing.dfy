/** The scanner of src/scanner.rs as pure functions: what one call of
    `scan_token` does at a position (`Lex`), and what the whole
    `scan_tokens` loop produces (`ScanFrom`, `Scan`). The class in
    module Scanner is proved to compute exactly these. */
module Lexing {
  import opened Wrappers
  import opened Tokens

  /** The characters `scan_token` handles without reporting an error. Every
      other character (space, quote, digits, letters, ...) is unexpected. */
  const Recognised: set<char> :=
    {'(', ')', '{', '}', '*', '.', ',', '+', '-', ';', '=', '!', '<', '>', '/', '\n', '\0'}

  /** What one step does besides moving the cursor. */
  datatype Action =
    | Emit(kind: TokenKind)   // push a token whose lexeme is the consumed text
    | NewLine                 // count a line break
    | Skip                    // a comment, or a NUL character: nothing happens
    | Unexpected(c: char)     // report the character and raise the error flag

  /** The action of one step and the cursor position it leaves behind. */
  datatype Lexed = Lexed(action: Action, end: nat)

  predicate Follows(src: seq<char>, i: nat, c: char) {
    i < |src| && src[i] == c
  }

  /** Where `skip_to_end_of_line`, started at `i`, stops: the first line
      break at or after `i`, or the end of the input. */
  function LineEnd(src: seq<char>, i: nat): (r: nat)
    requires i <= |src|
    ensures i <= r <= |src|
    ensures r == |src| || src[r] == '\n'
    ensures forall j | i <= j < r :: src[j] != '\n'
    decreases |src| - i
  {
    if i == |src| || src[i] == '\n' then i else LineEnd(src, i + 1)
  }

  /** The `=`, `!`, `<`, `>` arms: look one character ahead for `=`. */
  function OneOrTwo(src: seq<char>, start: nat, one: TokenKind, two: TokenKind): Lexed
    requires start < |src|
  {
    if Follows(src, start + 1, '=') then Lexed(Emit(two), start + 2)
    else Lexed(Emit(one), start + 1)
  }

  /** One call of `scan_token` with the cursor at `start`. */
  function Lex(src: seq<char>, start: nat): (r: Lexed)
    requires start < |src|
    // progress: at least one character is consumed, never more than the input
    ensures start < r.end <= |src|
    // lexeme fidelity: an emitted token's text is the fixed spelling of its kind
    ensures r.action.Emit? ==> r.end <= start + 2 && FixedSpelling(r.action.kind) == Some(src[start..r.end])
    // a step longer than one character is a comment or a two-character operator
    ensures r.end > start + 1 ==> src[start] == '/' || (r.end == start + 2 && src[start + 1] == '=')
    // only the first consumed character can be a line break, and it is one exactly on NewLine
    ensures r.action.NewLine? <==> src[start] == '\n'
    ensures forall j | start < j < r.end :: src[j] != '\n'
    // errors are raised exactly for the characters outside the match table
    ensures r.action.Unexpected? <==> src[start] !in Recognised
    ensures r.action.Unexpected? ==> r.action.c == src[start] && r.end == start + 1
  {
    assert src[start..start + 1] == [src[start]];
    assert start + 2 <= |src| ==> src[start..start + 2] == [src[start], src[start + 1]];
    match src[start]
    case '(' => Lexed(Emit(LeftParen), start + 1)
    case ')' => Lexed(Emit(RightParen), start + 1)
    case '{' => Lexed(Emit(LeftBrace), start + 1)
    case '}' => Lexed(Emit(RightBrace), start + 1)
    case '*' => Lexed(Emit(Star), start + 1)
    case '.' => Lexed(Emit(Dot), start + 1)
    case ',' => Lexed(Emit(Comma), start + 1)
    case '+' => Lexed(Emit(Plus), start + 1)
    case '-' => Lexed(Emit(Minus), start + 1)
    case ';' => Lexed(Emit(Semicolon), start + 1)
    case '=' => OneOrTwo(src, start, Equal, EqualEqual)
    case '!' => OneOrTwo(src, start, Bang, BangEqual)
    case '<' => OneOrTwo(src, start, Less, LessEqual)
    case '>' => OneOrTwo(src, start, Greater, GreaterEqual)
    case '/' =>
      if Follows(src, start + 1, '/') then Lexed(Skip, LineEnd(src, start + 2))
      else Lexed(Emit(Slash), start + 1)
    case '\n' => Lexed(NewLine, start + 1)
    case '\0' => Lexed(Skip, start + 1)
    case c => Lexed(Unexpected(c), start + 1)
  }

  /** The outcome of scanning: tokens, the error flag and the final line. */
  datatype Scanned = Scanned(tokens: seq<Token>, hadError: bool, line: nat)

  /** The tokens, error flag and line that the `scan_tokens` loop produces
      from cursor `pos` on line `line` (before the end marker is pushed). */
  function ScanFrom(src: seq<char>, pos: nat, line: nat): (r: Scanned)
    requires pos <= |src|
    ensures line <= r.line
    ensures forall t | t in r.tokens ::
              && t.kind != Eof && t.literal == None
              && FixedSpelling(t.kind) == Some(t.lexeme)
              && line <= t.line <= r.line
    ensures forall i, j | 0 <= i < j < |r.tokens| :: r.tokens[i].line <= r.tokens[j].line
    decreases |src| - pos
  {
    if pos == |src| then Scanned([], false, line)
    else
      var step := Lex(src, pos);
      var rest := ScanFrom(src, step.end, LineAfter(step, line));
      Scanned(Emitted(src, pos, step, line) + rest.tokens, step.action.Unexpected? || rest.hadError, rest.line)
  }

  /** The line counter after a step. */
  function LineAfter(step: Lexed, line: nat): nat {
    if step.action.NewLine? then line + 1 else line
  }

  /** The token a step pushes, if any: its lexeme is the consumed text. */
  function Emitted(src: seq<char>, pos: nat, step: Lexed, line: nat): seq<Token>
    requires pos <= step.end <= |src|
  {
    if step.action.Emit? then [Token(step.action.kind, src[pos..step.end], None, line)] else []
  }

  /** One turn of the `scan_tokens` loop, as an equation. */
  lemma ScanFromUnfold(src: seq<char>, pos: nat, line: nat)
    requires pos < |src|
    ensures var step := Lex(src, pos);
      var rest := ScanFrom(src, step.end, LineAfter(step, line));
      ScanFrom(src, pos, line) ==
        Scanned(Emitted(src, pos, step, line) + rest.tokens, step.action.Unexpected? || rest.hadError, rest.line)
  {
  }

  function EofToken(line: nat): Token {
    Token(Eof, "", None, line)
  }

  /** What a fresh scanner holds after `scan_tokens`: line 1, cursor 0, then
      one end marker pushed after the loop. */
  function Scan(src: seq<char>): (r: Scanned)
    ensures r.line >= 1
  {
    var s := ScanFrom(src, 0, 1);
    Scanned(s.tokens + [EofToken(s.line)], s.hadError, s.line)
  }

  // ---------------------------------------------------------------------
  // Properties of one step

  /** `=`, `!`, `<`, `>` take the two-character kind exactly when `=`
      follows, consuming both characters; otherwise the one-character kind. */
  lemma MaximalMunch(src: seq<char>, start: nat)
    requires start < |src| && src[start] in {'=', '!', '<', '>'}
    ensures var r := Lex(src, start);
      && r.action.Emit?
      && (Follows(src, start + 1, '=') ==> r.end == start + 2 && FixedSpelling(r.action.kind) == Some([src[start], '=']))
      && (!Follows(src, start + 1, '=') ==> r.end == start + 1 && FixedSpelling(r.action.kind) == Some([src[start]]))
  {
  }

  /** `//` emits nothing and stops at the next line break (not consumed) or
      at the end of input; a lone `/` is a SLASH. */
  lemma Comment(src: seq<char>, start: nat)
    requires start < |src| && src[start] == '/'
    ensures var r := Lex(src, start);
      && (Follows(src, start + 1, '/') ==>
            && r.action == Skip
            && (r.end == |src| || src[r.end] == '\n')
            && forall j | start <= j < r.end :: src[j] != '\n')
      && (!Follows(src, start + 1, '/') ==> r == Lexed(Emit(Slash), start + 1))
  {
  }

  /** The ten one-character punctuation marks map to their fixed kinds. */
  lemma Punctuation(src: seq<char>, start: nat)
    requires start < |src| && src[start] in {'(', ')', '{', '}', '*', '.', ',', '+', '-', ';'}
    ensures var r := Lex(src, start);
      r.action.Emit? && r.end == start + 1 && FixedSpelling(r.action.kind) == Some([src[start]])
  {
  }

  // ---------------------------------------------------------------------
  // Properties of a whole scan

  /** The token list ends with exactly one end marker. */
  lemma ScanEndsWithEof(src: seq<char>)
    ensures var ts := Scan(src).tokens;
      && |ts| > 0 && ts[|ts| - 1].kind == Eof
      && forall i | 0 <= i < |ts| - 1 :: ts[i].kind != Eof
  {
    var s := ScanFrom(src, 0, 1);
    forall i | 0 <= i < |s.tokens| ensures s.tokens[i].kind != Eof {
      assert s.tokens[i] in s.tokens;
    }
  }

  /** Every token but the end marker carries the fixed spelling of its kind,
      and the lines of the tokens never decrease. */
  lemma ScanLexemes(src: seq<char>)
    ensures var ts := Scan(src).tokens;
      && (forall i | 0 <= i < |ts| - 1 :: FixedSpelling(ts[i].kind) == Some(ts[i].lexeme))
      && (forall i, j | 0 <= i < j < |ts| :: 1 <= ts[i].line <= ts[j].line)
  {
    var s := ScanFrom(src, 0, 1);
    var ts := Scan(src).tokens;
    forall i | 0 <= i < |s.tokens| ensures FixedSpelling(ts[i].kind) == Some(ts[i].lexeme) && 1 <= ts[i].line <= s.line {
      assert ts[i] == s.tokens[i] && s.tokens[i] in s.tokens;
    }
  }

  function NewlinesIn(s: seq<char>): nat {
    if s == [] then 0 else (if s[0] == '\n' then 1 else 0) + NewlinesIn(s[1..])
  }

  lemma {:induction false} NewlinesInConcat(a: seq<char>, b: seq<char>)
    ensures NewlinesIn(a + b) == NewlinesIn(a) + NewlinesIn(b)
  {
    if a == [] {
      assert a + b == b;
    } else {
      assert (a + b)[1..] == a[1..] + b;
      NewlinesInConcat(a[1..], b);
    }
  }

  lemma {:induction false} NewlinesInNone(s: seq<char>)
    requires forall j | 0 <= j < |s| :: s[j] != '\n'
    ensures NewlinesIn(s) == 0
  {
    if s != [] {
      NewlinesInNone(s[1..]);
    }
  }

  lemma {:induction false} ScanFromLine(src: seq<char>, pos: nat, line: nat)
    requires pos <= |src|
    ensures ScanFrom(src, pos, line).line == line + NewlinesIn(src[pos..])
    decreases |src| - pos
  {
    if pos < |src| {
      var step := Lex(src, pos);
      ScanFromLine(src, step.end, LineAfter(step, line));
      assert src[pos..] == [src[pos]] + src[pos + 1..step.end] + src[step.end..];
      NewlinesInConcat([src[pos]] + src[pos + 1..step.end], src[step.end..]);
      NewlinesInConcat([src[pos]], src[pos + 1..step.end]);
      NewlinesInNone(src[pos + 1..step.end]);
    }
  }

  /** The final line, which the end marker carries, is one more than the
      number of line breaks in the source: comments never swallow one. */
  lemma ScanLineCount(src: seq<char>)
    ensures Scan(src).line == 1 + NewlinesIn(src)
    ensures Scan(src).tokens[|Scan(src).tokens| - 1].line == 1 + NewlinesIn(src)
  {
    ScanFromLine(src, 0, 1);
    assert src[0..] == src;
  }

  lemma {:induction false} ScanFromNoError(src: seq<char>, pos: nat, line: nat)
    requires pos <= |src|
    requires forall i | pos <= i < |src| :: src[i] in Recognised
    ensures !ScanFrom(src, pos, line).hadError
    decreases |src| - pos
  {
    if pos < |src| {
      var step := Lex(src, pos);
      ScanFromNoError(src, step.end, LineAfter(step, line));
    }
  }

  /** A source made only of recognised characters scans without error. */
  lemma ScanWithoutStrangers(src: seq<char>)
    requires forall i | 0 <= i < |src| :: src[i] in Recognised
    ensures !Scan(src).hadError
  {
    ScanFromNoError(src, 0, 1);
  }

  /** Unless it opens a `//` comment, a step consumes no unrecognised
      character past its first. */
  lemma StepRecognised(src: seq<char>, pos: nat)
    requires pos < |src| && !(src[pos] == '/' && pos + 1 < |src| && src[pos + 1] == '/')
    ensures forall j | pos < j < Lex(src, pos).end :: src[j] in Recognised
  {
    if Lex(src, pos).end == pos + 2 {
      assert src[pos + 1] == '=' && '=' in Recognised;
    }
  }

  lemma {:induction false} ScanFromErrorIff(src: seq<char>, pos: nat, line: nat)
    requires pos <= |src|
    requires forall i | pos <= i < |src| - 1 :: !(src[i] == '/' && src[i + 1] == '/')
    ensures ScanFrom(src, pos, line).hadError <==> exists i | pos <= i < |src| :: src[i] !in Recognised
    decreases |src| - pos
  {
    if pos < |src| {
      var step := Lex(src, pos);
      ScanFromUnfold(src, pos, line);
      ScanFromErrorIff(src, step.end, LineAfter(step, line));
      StepRecognised(src, pos);
      assert (src[pos] !in Recognised) == step.action.Unexpected?;
    }
  }

  /** Without comments in play (no `/` directly followed by `/`), the error
      flag is raised exactly when some character is outside the match table;
      a lone `/` is SLASH, and an error does not stop the scan. */
  lemma ScanErrorIff(src: seq<char>)
    requires forall i | 0 <= i < |src| - 1 :: !(src[i] == '/' && src[i + 1] == '/')
    ensures Scan(src).hadError <==> exists i | 0 <= i < |src| :: src[i] !in Recognised
  {
    ScanFromErrorIff(src, 0, 1);
  }

  /** An empty source yields only the end marker on line 1, without error. */
  lemma ScanEmpty()
    ensures Scan("") == Scanned([EofToken(1)], false, 1)
  {
  }

  /** `!=`, a space, a `//` comment, a line break and `>` give BANG_EQUAL
      on line 1 and GREATER on line 2; the space is reported and skipped. */
  lemma ScanExample()
    ensures Scan("!= //c\n>") ==
      Scanned([Token(BangEqual, "!=", None, 1), Token(Greater, ">", None, 2), EofToken(2)], true, 2)
  {
    var ne, gt := Token(BangEqual, "!=", None, 1), Token(Greater, ">", None, 2);
    assert [ne] + [gt] == [ne, gt];
    assert [ne, gt] + [EofToken(2)] == [ne, gt, EofToken(2)];
    var src := ['!', '=', ' ', '/', '/', 'c', '\n', '>'];
    assert src == "!= //c\n>";
    assert src[0] == '!' && src[1] == '=' && src[2] == ' ' && src[3] == '/' && src[4] == '/';
    assert src[5] == 'c' && src[6] == '\n' && src[7] == '>' && |src| == 8;
    assert src[7..8] == [src[7]];
    assert src[0..2] == [src[0], src[1]];
    assert LineEnd(src, 5) == 6;
    assert Lex(src, 7) == Lexed(Emit(Greater), 8);
    assert Lex(src, 6) == Lexed(NewLine, 7);
    assert Lex(src, 3) == Lexed(Skip, 6);
    assert Lex(src, 2) == Lexed(Unexpected(' '), 3);
    assert Lex(src, 0) == Lexed(Emit(BangEqual), 2);
    ScanFromUnfold(src, 7, 2);
    ScanFromUnfold(src, 6, 1);
    ScanFromUnfold(src, 3, 1);
    ScanFromUnfold(src, 2, 1);
    ScanFromUnfold(src, 0, 1);
    assert ScanFrom(src, 8, 2) == Scanned([], false, 2);
    assert ScanFrom(src, 7, 2) == Scanned([gt], false, 2);
    assert ScanFrom(src, 6, 1) == Scanned([gt], false, 2);
    assert ScanFrom(src, 3, 1) == Scanned([gt], false, 2);
    assert ScanFrom(src, 2, 1) == Scanned([gt], true, 2);
    assert Emitted(src, 0, Lex(src, 0), 1) == [ne];
    assert ScanFrom(src, 0, 1) == Scanned([ne, gt], true, 2);
    assert Scan(src) == Scanned([ne, gt, EofToken(2)], true, 2);
  }
}

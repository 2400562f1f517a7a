/** The lexer of lexical.c as pure functions over an in-memory source.

    The C keeps its state in globals: the lookahead character nextchar and
    the line counter.  Here that state is a Cursor: how many characters
    nextChar has delivered (pos), the lookahead itself (look), and the line
    count.  The end of the source plays the role of EOF, and reading past
    it keeps returning EOF.  Every fatal exit becomes an Err, and every loop
    of st_nextToken that can spin forever on some input returns
    Err(Diverges) on exactly that input. */
module Lexical {
  import opened Results
  import opened Share

  /** Token_kind of lexical.h, in declaration order. */
  datatype Kind =
    | Var | Const | Func
    | IntType | DoubleType
    | StringType | BooleanType
    | For | While | Do
    | Continue | Break | Return
    | If | Elsif | Else
    | Switch | Case | Default
    | NullLiteral
    | TrueLiteral | FalseLiteral
    | ModString
    | LeftBraceString | RightBraceString
    | LogicalOrString | LogicalAndString
    | LogicalNotString
    | Stdin | Stdout | Stderr
    | EndOfKeyword
    | Assign | AddAssign | SubAssign
    | MulAssign | DivAssign | ModAssign
    | Comma | Semicolon | Colon | Period
    | LeftParlen | RightParlen
    | LeftBrace | RightBrace
    | LeftBraket | RightBraket
    | Pipe | Amp
    | LogicalOr | LogicalAnd
    | Equal | NotEqual
    | Greater | GreaterEqual
    | LessThan | LessThanEqual
    | Plus | Minus | Mul | Div | Mod | LogicalNot
    | Power
    | Increment | Decrement
    | PutToStream | GetFromStream
    | DoubleQuote
    | EndOfKeysymbol
    | Identifier
    | IntLiteral | DoubleLiteral
    | StringLiteral
    | EndOfToken
    | Letter
    | Digit
    | Others
    | EndOfCharKind
    | EndOfFile

  /** The union of Token.  Tokens whose union the lexer leaves unset carry
      NoPayload; a double literal keeps its text, since strtod is not
      modelled. */
  datatype Payload =
    | NoPayload
    | IntPayload(intValue: int)
    | DoublePayload(doubleText: string)
    | StringPayload(stringValue: string)
    | BoolPayload(boolValue: bool)
    | IdentPayload(identifier: string)

  datatype Token = Token(kind: Kind, payload: Payload)

  const EndOfFileToken := Token(EndOfFile, NoPayload)

  /** The fatal exits of st_nextToken. */
  datatype LexError = MultiplePoints | TooLargeNumber | TooLongString | LonePipe | LoneAmp

  /** How the front end stops: a fatal lexer exit, a loop that never ends,
      or one of the compile errors checkGetToken raises. */
  datatype Halt = LexFatal(error: LexError) | Diverges | SyntaxError | InvalidCharError

  // ---------------------------------------------------------------------
  // Characters

  predicate IsLetterChar(ch: char) { 'a' <= ch <= 'z' || 'A' <= ch <= 'Z' }

  predicate IsDigitChar(ch: char) { '0' <= ch <= '9' }

  /** The kinds init_char_kind gives single characters. */
  function SymbolKind(ch: char): Kind {
    match ch
    case '=' => Assign
    case ',' => Comma
    case ';' => Semicolon
    case ':' => Colon
    case '.' => Period
    case '(' => LeftParlen
    case ')' => RightParlen
    case '{' => LeftBrace
    case '}' => RightBrace
    case '[' => LeftBraket
    case ']' => RightBraket
    case '|' => Pipe
    case '&' => Amp
    case '>' => Greater
    case '<' => LessThan
    case '+' => Plus
    case '-' => Minus
    case '*' => Mul
    case '/' => Div
    case '%' => Mod
    case '!' => LogicalNot
    case '"' => DoubleQuote
    case _ => Others
  }

  /** char_kind: letters (isalpha in the C locale), digits, the symbol
      characters, and OTHERS for everything else. */
  function CharKind(ch: char): (k: Kind)
    ensures k == Letter <==> IsLetterChar(ch)
    ensures k == Digit <==> IsDigitChar(ch)
    ensures !IsLetterChar(ch) && !IsDigitChar(ch) ==> k == SymbolKind(ch)
  {
    if IsLetterChar(ch) then Letter
    else if IsDigitChar(ch) then Digit
    else SymbolKind(ch)
  }

  /** The kind the first two loops of init_char_kind give a character. */
  function BaseKind(ch: char): Kind {
    if IsLetterChar(ch) then Letter else if IsDigitChar(ch) then Digit else Others
  }

  /** The assignments init_char_kind makes after those loops, in order. */
  const SymbolTable: seq<(char, Kind)> := [
    ('=', Assign),
    (',', Comma), (';', Semicolon),
    (':', Colon), ('.', Period),
    ('(', LeftParlen), (')', RightParlen),
    ('{', LeftBrace), ('}', RightBrace),
    ('[', LeftBraket), (']', RightBraket),
    ('|', Pipe), ('&', Amp),
    ('>', Greater), ('<', LessThan),
    ('+', Plus), ('-', Minus),
    ('*', Mul), ('/', Div),
    ('%', Mod), ('!', LogicalNot),
    ('"', DoubleQuote)
  ]

  /** The table after the first m of those assignments. */
  function Assigned(ch: char, m: nat): Kind
    requires m <= |SymbolTable|
  {
    if m == 0 then BaseKind(ch)
    else if SymbolTable[m - 1].0 == ch then SymbolTable[m - 1].1
    else Assigned(ch, m - 1)
  }

  /** Every assignment gives a character the kind SymbolKind names. */
  lemma {:induction false} SymbolTableAgrees(k: nat)
    requires k < |SymbolTable|
    ensures SymbolKind(SymbolTable[k].0) == SymbolTable[k].1
    ensures SymbolTable[k].1 != Others
  {
    if k == 0 {
    } else if k == 1 {
    } else if k == 2 {
    } else if k == 3 {
    } else if k == 4 {
    } else if k == 5 {
    } else if k == 6 {
    } else if k == 7 {
    } else if k == 8 {
    } else if k == 9 {
    } else if k == 10 {
    } else if k == 11 {
    } else if k == 12 {
    } else if k == 13 {
    } else if k == 14 {
    } else if k == 15 {
    } else if k == 16 {
    } else if k == 17 {
    } else if k == 18 {
    } else if k == 19 {
    } else if k == 20 {
    } else if k == 21 {
    }
  }

  /** After m assignments a character has its symbol kind when one of them
      named it and its letter/digit kind otherwise. */
  lemma {:induction false} AssignedPrefix(ch: char, m: nat)
    requires m <= |SymbolTable|
    ensures Assigned(ch, m) ==
      if exists k | 0 <= k < m :: SymbolTable[k].0 == ch then SymbolKind(ch) else BaseKind(ch)
  {
    if m > 0 {
      AssignedPrefix(ch, m - 1);
      if SymbolTable[m - 1].0 == ch {
        SymbolTableAgrees(m - 1);
      } else {
        assert (exists k | 0 <= k < m :: SymbolTable[k].0 == ch)
          == (exists k | 0 <= k < m - 1 :: SymbolTable[k].0 == ch);
      }
    }
  }

  /** A character SymbolKind does not send to Others is one the table names. */
  lemma {:induction false} SymbolKindInTable(ch: char)
    requires SymbolKind(ch) != Others
    ensures exists k | 0 <= k < |SymbolTable| :: SymbolTable[k].0 == ch
  {
    match ch
    case '=' => assert SymbolTable[0].0 == ch;
    case ',' => assert SymbolTable[1].0 == ch;
    case ';' => assert SymbolTable[2].0 == ch;
    case ':' => assert SymbolTable[3].0 == ch;
    case '.' => assert SymbolTable[4].0 == ch;
    case '(' => assert SymbolTable[5].0 == ch;
    case ')' => assert SymbolTable[6].0 == ch;
    case '{' => assert SymbolTable[7].0 == ch;
    case '}' => assert SymbolTable[8].0 == ch;
    case '[' => assert SymbolTable[9].0 == ch;
    case ']' => assert SymbolTable[10].0 == ch;
    case '|' => assert SymbolTable[11].0 == ch;
    case '&' => assert SymbolTable[12].0 == ch;
    case '>' => assert SymbolTable[13].0 == ch;
    case '<' => assert SymbolTable[14].0 == ch;
    case '+' => assert SymbolTable[15].0 == ch;
    case '-' => assert SymbolTable[16].0 == ch;
    case '*' => assert SymbolTable[17].0 == ch;
    case '/' => assert SymbolTable[18].0 == ch;
    case '%' => assert SymbolTable[19].0 == ch;
    case '!' => assert SymbolTable[20].0 == ch;
    case '"' => assert SymbolTable[21].0 == ch;
    case _ =>
  }

  /** After all of them the table is char_kind. */
  lemma {:induction false} AssignedAll(ch: char)
    ensures Assigned(ch, |SymbolTable|) == CharKind(ch)
  {
    AssignedPrefix(ch, |SymbolTable|);
    if exists k | 0 <= k < |SymbolTable| :: SymbolTable[k].0 == ch {
      var k :| 0 <= k < |SymbolTable| && SymbolTable[k].0 == ch;
      SymbolTableAgrees(k);
    } else if SymbolKind(ch) != Others {
      SymbolKindInTable(ch);
    }
  }

  // ---------------------------------------------------------------------
  // The cursor

  /** The lookahead: a character, or EOF. */
  datatype Look = Ch(c: char) | Eof

  datatype Cursor = Cursor(pos: nat, look: Look, line: nat)

  /** initSource: the lookahead is a newline that comes before the source
      and is not counted, and no line has been read. */
  const Start := Cursor(0, Ch('\n'), 0)

  /** How far the cursor is from the end: every read of a character brings
      it closer, and only EOF keeps it where it is. */
  function Measure(src: string, c: Cursor): nat {
    (if c.pos < |src| then 2 * (|src| - c.pos) else 0) + (if c.look.Ch? then 1 else 0)
  }

  /** The number of newlines among the first n characters of src. */
  function Newlines(src: string, n: nat): nat
    requires n <= |src|
  {
    if n == 0 then 0 else Newlines(src, n - 1) + (if src[n - 1] == '\n' then 1 else 0)
  }

  /** The line count agrees with the newlines delivered so far. */
  ghost predicate Counted(src: string, c: Cursor) {
    c.pos <= |src| && c.line == Newlines(src, c.pos)
  }

  /** nextChar: the next character of the source becomes the lookahead, and
      a newline read bumps the line count.  At the end, EOF, for good. */
  function Advance(src: string, c: Cursor): (r: Cursor)
    ensures c.look.Ch? ==> Measure(src, r) < Measure(src, c)
    ensures c.look.Eof? ==> r == c
    ensures r.pos >= c.pos
    ensures Counted(src, c) ==> Counted(src, r)
  {
    if c.look.Eof? then c
    else if c.pos >= |src| then Cursor(c.pos, Eof, c.line)
    else Cursor(c.pos + 1, Ch(src[c.pos]), if src[c.pos] == '\n' then c.line + 1 else c.line)
  }

  predicate IsSpace(l: Look) { l == Ch(' ') || l == Ch('\t') || l == Ch('\n') }

  /** The kind of the lookahead.  EOF, which the C looks up in char_kind
      out of bounds, counts as OTHERS. */
  function LookKind(l: Look): Kind {
    if l.Ch? then CharKind(l.c) else Others
  }

  predicate IsAlnum(l: Look) { LookKind(l) == Letter || LookKind(l) == Digit }

  predicate IsDigit(l: Look) { LookKind(l) == Digit }

  // ---------------------------------------------------------------------
  // The loops of st_nextToken

  /** The whitespace loop at the top of st_nextToken. */
  function SkipSpaces(src: string, c: Cursor): (r: Cursor)
    ensures !IsSpace(r.look)
    ensures Measure(src, r) <= Measure(src, c) && r.pos >= c.pos
    ensures Counted(src, c) ==> Counted(src, r)
    decreases Measure(src, c)
  {
    if IsSpace(c.look) then SkipSpaces(src, Advance(src, c)) else c
  }

  /** The identifier loop: the lookahead is stored and the next character
      read while the buffer has room; with a full buffer and a letter or
      digit still ahead the loop spins. */
  function ReadWord(src: string, c: Cursor, buf: string): (r: Result<(string, Cursor), Halt>)
    requires IsAlnum(c.look)
    ensures r.Ok? ==> var (word, c') := r.value;
      && |buf| < |word| <= MAX_LEN_IDENTIFIER && word[..|buf|] == buf
      && !IsAlnum(c'.look) && Measure(src, c') < Measure(src, c) && c'.pos >= c.pos
      && (Counted(src, c) ==> Counted(src, c'))
    ensures r.Err? ==> r.error == Diverges
    decreases Measure(src, c)
  {
    if |buf| >= MAX_LEN_IDENTIFIER then Err(Diverges)
    else
      var c' := Advance(src, c);
      if IsAlnum(c'.look) then ReadWord(src, c', buf + [c.look.c])
      else Ok((buf + [c.look.c], c'))
  }

  /** END_OF_KEYWORD: the ordinal of that kind, 31, counts the names in
      Token_kind up to it, including stdin, stdout and stderr, which the
      table does not list.  The keyword scan therefore also compares a word
      with the three entries that follow the keywords in the table. */
  const END_OF_KEYWORD: nat := 31

  /** keyword_table, in order: the keywords, the end-of-keyword entry and
      the symbols, written in four pieces. */
  const KeywordTable: seq<(string, Kind)> := TypeAndLoopWords + BranchAndValueWords + AssignAndPunctuation + Operators

  const TypeAndLoopWords: seq<(string, Kind)> := [
    ("var", Var), ("const", Const), ("func", Func),
    ("int", IntType), ("double", DoubleType),
    ("string", StringType), ("bool", BooleanType),
    ("for", For), ("while", While), ("do", Do),
    ("continue", Continue), ("break", Break), ("return", Return)
  ]

  const BranchAndValueWords: seq<(string, Kind)> := [
    ("if", If), ("elsif", Elsif), ("else", Else),
    ("switch", Switch), ("case", Case), ("default", Default),
    ("null", NullLiteral),
    ("true", TrueLiteral), ("false", FalseLiteral),
    ("mod", ModString),
    ("begin", LeftBraceString), ("end", RightBraceString),
    ("or", LogicalOrString), ("and", LogicalAndString),
    ("not", LogicalNotString)
  ]

  const AssignAndPunctuation: seq<(string, Kind)> := [
    ("$dummy_end_of_keyword", EndOfKeyword),
    ("=", Assign), ("+=", AddAssign), ("-=", SubAssign),
    ("*=", MulAssign), ("/=", DivAssign), ("%=", ModAssign),
    (",", Comma), (";", Semicolon), (":", Colon), (".", Period),
    ("(", LeftParlen), (")", RightParlen),
    ("{", LeftBrace), ("}", RightBrace),
    ("[", LeftBraket), ("]", RightBraket)
  ]

  const Operators: seq<(string, Kind)> := [
    ("|", Pipe), ("&", Amp),
    ("||", LogicalOr), ("&&", LogicalAnd),
    ("==", Equal), ("!=", NotEqual),
    (">", Greater), (">=", GreaterEqual),
    ("<", LessThan), ("<=", LessThanEqual),
    ("+", Plus), ("-", Minus), ("*", Mul), ("/", Div), ("%", Mod), ("!", LogicalNot),
    ("**", Power),
    ("++", Increment), ("--", Decrement),
    ("\"", DoubleQuote),
    ("$dummy_end_of_keysymbol", EndOfKeysymbol)
  ]

  /** The keyword scan from entry i on: the kind of the first entry below
      END_OF_KEYWORD that spells the word. */
  function Keyword(word: string, i: nat): (r: Option<Kind>)
    requires i <= END_OF_KEYWORD
    ensures r.Some? ==> exists j | i <= j < END_OF_KEYWORD :: KeywordTable[j] == (word, r.value)
    ensures r.None? ==> forall j | i <= j < END_OF_KEYWORD :: KeywordTable[j].0 != word
    decreases END_OF_KEYWORD - i
  {
    if i == END_OF_KEYWORD then None
    else if KeywordTable[i].0 == word then Some(KeywordTable[i].1)
    else Keyword(word, i + 1)
  }

  /** The token for a word read by ReadWord: a word that fills the buffer
      is cut to MAX_LEN_IDENTIFIER - 1 characters, then it is a keyword (true
      and false with their value) or an identifier. */
  function WordToken(buf: string): Token {
    var word := if |buf| >= MAX_LEN_IDENTIFIER then buf[..MAX_LEN_IDENTIFIER - 1] else buf;
    match Keyword(word, 0)
    case Some(k) =>
      Token(k, if k == TrueLiteral then BoolPayload(true)
               else if k == FalseLiteral then BoolPayload(false)
               else NoPayload)
    case None => Token(Identifier, IdentPayload(word))
  }

  /** The number loop: a digit is stored and the next character read; a
      '.' read right after a digit is stored too and marks the literal as a
      double, and a second such '.' is fatal.  With a full buffer and a
      digit still ahead the loop spins. */
  function ReadNumber(src: string, c: Cursor, buf: string, isDouble: bool)
    : (r: Result<(string, bool, Cursor), Halt>)
    requires IsDigit(c.look)
    ensures r.Ok? ==> |buf| < |r.value.0| && r.value.0[..|buf|] == buf && (isDouble ==> r.value.1)
    ensures r.Ok? ==> !IsDigit(r.value.2.look) && Measure(src, r.value.2) < Measure(src, c) && r.value.2.pos >= c.pos
    ensures r.Ok? && Counted(src, c) ==> Counted(src, r.value.2)
    ensures r.Err? ==> r.error == Diverges || r.error == LexFatal(MultiplePoints)
    decreases Measure(src, c)
  {
    if |buf| >= MAX_LEN_NUMBER_LITERAL then Err(Diverges)
    else
      var buf1 := buf + [c.look.c];
      var c1 := Advance(src, c);
      if c1.look == Ch('.') then
        if isDouble then Err(LexFatal(MultiplePoints))
        else
          var c2 := Advance(src, c1);
          if IsDigit(c2.look) then
            var r := ReadNumber(src, c2, buf1 + ['.'], true);
            assert r.Ok? ==> r.value.0[..|buf|] == (buf1 + ['.'])[..|buf|];
            r
          else Ok((buf1 + ['.'], true, c2))
      else if IsDigit(c1.look) then
        var r := ReadNumber(src, c1, buf1, isDouble);
        assert r.Ok? ==> r.value.0[..|buf|] == buf1[..|buf|];
        r
      else Ok((buf1, isDouble, c1))
  }

  /** LONG_MAX on an LP64 target: strtol saturates there. */
  const LONG_MAX: int := 0x7fff_ffff_ffff_ffff

  /** The value of a string of decimal digits. */
  function DecimalValue(digits: string): nat {
    if digits == [] then 0
    else
      var d := digits[|digits| - 1];
      DecimalValue(digits[..|digits| - 1]) * 10 + (if IsDigitChar(d) then d as int - '0' as int else 0)
  }

  /** The conversion of a long to a 32-bit int: two's complement wrap-around. */
  function Int32Wrap(v: int): (r: int)
    ensures -0x8000_0000 <= r < 0x8000_0000
    ensures (r - v) % 0x1_0000_0000 == 0
  {
    (v + 0x8000_0000) % 0x1_0000_0000 - 0x8000_0000
  }

  /** int_value = strtol(number_buf, NULL, 10). */
  function IntValueOf(digits: string): int {
    var v := DecimalValue(digits);
    Int32Wrap(if v > LONG_MAX then LONG_MAX else v)
  }

  /** The token for a number: too many characters is fatal. */
  function NumberToken(num: string, isDouble: bool): (r: Result<Token, Halt>)
    ensures r.Err? <==> |num| >= MAX_LEN_NUMBER_LITERAL
    ensures r.Ok? ==> r.value.kind == (if isDouble then DoubleLiteral else IntLiteral)
  {
    if |num| >= MAX_LEN_NUMBER_LITERAL then Err(LexFatal(TooLargeNumber))
    else if isDouble then Ok(Token(DoubleLiteral, DoublePayload(num)))
    else Ok(Token(IntLiteral, IntPayload(IntValueOf(num))))
  }

  /** The string loop, entered with the character after the opening quote:
      every character up to the next '"' is stored while the buffer has
      room.  A backslash is stored and the next character read, which is
      what the ordinary branch does too, so the character after a backslash
      is tested against '"' like any other.  With a full buffer, or at EOF,
      the loop spins. */
  function ReadString(src: string, c: Cursor, buf: string): (r: Result<(string, Cursor), Halt>)
    ensures r.Ok? ==> var (s, c') := r.value;
      && |buf| <= |s| && s[..|buf|] == buf && '"' !in s[|buf|..]
      && c'.look == Ch('"') && Measure(src, c') <= Measure(src, c) && c'.pos >= c.pos
      && (Counted(src, c) ==> Counted(src, c'))
    ensures r.Err? ==> r.error == Diverges
    decreases Measure(src, c)
  {
    if c.look == Ch('"') then Ok((buf, c))
    else if c.look.Eof? || |buf| >= MAX_LEN_STRING_LITERAL then Err(Diverges)
    else
      var r := ReadString(src, Advance(src, c), buf + [c.look.c]);
      assert r.Ok? ==> r.value.0[|buf|..] == [c.look.c] + r.value.0[|buf| + 1..];
      r
  }

  /** The token for a string: a buffer that has filled up is fatal. */
  function StringToken(s: string): (r: Result<Token, Halt>)
    ensures r.Err? <==> |s| >= MAX_LEN_STRING_LITERAL
    ensures r.Ok? ==> r.value == Token(StringLiteral, StringPayload(s))
  {
    if |s| >= MAX_LEN_STRING_LITERAL then Err(LexFatal(TooLongString))
    else Ok(Token(StringLiteral, StringPayload(s)))
  }

  /** The inner loop of a block comment: read until the lookahead is '*'. */
  function SkipToStar(src: string, c: Cursor): (r: Result<Cursor, Halt>)
    ensures r.Ok? ==> (r.value.look == Ch('*') && Measure(src, r.value) <= Measure(src, c) && r.value.pos >= c.pos
                       && (Counted(src, c) ==> Counted(src, r.value)))
    ensures r.Err? ==> r.error == Diverges
    decreases Measure(src, c)
  {
    if c.look == Ch('*') then Ok(c)
    else if c.look.Eof? then Err(Diverges)
    else SkipToStar(src, Advance(src, c))
  }

  /** A block comment, entered with the character after the opening slash and star:
      find a '*', read the next character, and stop once that is '/'; the
      lookahead is then the character after the comment. */
  function BlockComment(src: string, c: Cursor): (r: Result<Cursor, Halt>)
    ensures r.Ok? ==> (Measure(src, r.value) < Measure(src, c) && r.value.pos >= c.pos
                       && (Counted(src, c) ==> Counted(src, r.value)))
    ensures r.Err? ==> r.error == Diverges
    decreases Measure(src, c)
  {
    var s :- SkipToStar(src, c);
    var c1 := Advance(src, s);
    if c1.look == Ch('/') then Ok(Advance(src, c1)) else BlockComment(src, c1)
  }

  /** A line comment, entered with the second '/' as lookahead: read until
      the lookahead is a newline, which is left for the whitespace loop. */
  function LineComment(src: string, c: Cursor): (r: Result<Cursor, Halt>)
    requires c.look.Ch?
    ensures r.Ok? ==> (r.value.look == Ch('\n') && Measure(src, r.value) < Measure(src, c) && r.value.pos >= c.pos
                       && (Counted(src, c) ==> Counted(src, r.value)))
    ensures r.Err? ==> r.error == Diverges
    decreases Measure(src, c)
  {
    var c1 := Advance(src, c);
    if c1.look == Ch('\n') then Ok(c1)
    else if c1.look.Eof? then Err(Diverges)
    else LineComment(src, c1)
  }

  // ---------------------------------------------------------------------
  // Symbols

  /** The two-character operator a symbol of kind k starts when the next
      character is l, if there is one. */
  function Second(k: Kind, l: Look): Option<Kind> {
    match k
    case Plus => if l == Ch('=') then Some(AddAssign) else if l == Ch('+') then Some(Increment) else None
    case Minus => if l == Ch('=') then Some(SubAssign) else if l == Ch('-') then Some(Decrement) else None
    case Mul => if l == Ch('=') then Some(MulAssign) else if l == Ch('*') then Some(Power) else None
    case Div => if l == Ch('=') then Some(DivAssign) else None
    case Mod => if l == Ch('=') then Some(ModAssign) else None
    case Pipe => if l == Ch('|') then Some(LogicalOr) else None
    case Amp => if l == Ch('&') then Some(LogicalAnd) else None
    case Assign => if l == Ch('=') then Some(Equal) else None
    case LogicalNot => if l == Ch('=') then Some(NotEqual) else None
    case Greater => if l == Ch('=') then Some(GreaterEqual) else None
    case LessThan => if l == Ch('=') then Some(LessThanEqual) else None
    case _ => None
  }

  /** The symbol cases of st_nextToken, given the kind of the first
      character and the cursor after it: the two-character operators by
      longest match, a lone '|' or '&' fatal, and every other character its
      own kind. */
  function Symbol(src: string, k: Kind, c1: Cursor): Result<(Token, Cursor), Halt> {
    match Second(k, c1.look)
    case Some(k2) => Ok((Token(k2, NoPayload), Advance(src, c1)))
    case None =>
      if k == Pipe then Err(LexFatal(LonePipe))
      else if k == Amp then Err(LexFatal(LoneAmp))
      else Ok((Token(k, NoPayload), c1))
  }

  // ---------------------------------------------------------------------
  // st_nextToken

  /** The identifier or keyword case, from its first letter. */
  function Word(src: string, c0: Cursor): Result<(Token, Cursor), Halt>
    requires IsAlnum(c0.look)
  {
    var (buf, c2) :- ReadWord(src, c0, []);
    Ok((WordToken(buf), c2))
  }

  /** The number case, from its first digit. */
  function Number(src: string, c0: Cursor): Result<(Token, Cursor), Halt>
    requires IsDigit(c0.look)
  {
    var (num, dbl, c2) :- ReadNumber(src, c0, [], false);
    var t :- NumberToken(num, dbl);
    Ok((t, c2))
  }

  /** The string case, from the opening quote: the closing quote is
      consumed too. */
  function Quoted(src: string, c0: Cursor): Result<(Token, Cursor), Halt> {
    var (s, c2) :- ReadString(src, Advance(src, c0), []);
    var t :- StringToken(s);
    Ok((t, Advance(src, c2)))
  }

  /** st_nextToken: skip whitespace, return END_OF_FILE at the end, and
      otherwise read one token by the kind of its first character.  A
      comment is skipped and the token after it returned; the C does this
      by calling nextToken again, which leaves the previous token as it was
      (see LexicalStore.Lexer.NextToken). */
  function Scan(src: string, c: Cursor): (r: Result<(Token, Cursor), Halt>)
    ensures r.Ok? ==> r.value.1.pos >= c.pos && (Counted(src, c) ==> Counted(src, r.value.1))
    decreases Measure(src, c), 1
  {
    var c0 := SkipSpaces(src, c);
    if c0.look.Eof? then Ok((EndOfFileToken, c0)) else Dispatch(src, c0)
  }

  /** The token that starts with the lookahead, chosen by its kind. */
  function Dispatch(src: string, c0: Cursor): (r: Result<(Token, Cursor), Halt>)
    requires c0.look.Ch?
    ensures r.Ok? ==> r.value.1.pos >= c0.pos && (Counted(src, c0) ==> Counted(src, r.value.1))
    decreases Measure(src, c0), 0
  {
    var k := CharKind(c0.look.c);
    var c1 := Advance(src, c0);
    if k == Letter then Word(src, c0)
    else if k == Digit then Number(src, c0)
    else if k == DoubleQuote then Quoted(src, c0)
    else if k == Div && c1.look == Ch('*') then
      var c2 :- BlockComment(src, Advance(src, c1));
      Scan(src, c2)
    else if k == Div && c1.look == Ch('/') then
      var c2 :- LineComment(src, c1);
      Scan(src, c2)
    else Symbol(src, k, c1)
  }

  // The branches of a scan from a cursor whose lookahead starts a token.

  lemma {:induction false} ScanLetter(src: string, c0: Cursor)
    requires c0.look.Ch? && IsLetterChar(c0.look.c)
    ensures Scan(src, c0) == Word(src, c0)
  {
  }

  lemma {:induction false} ScanDigit(src: string, c0: Cursor)
    requires c0.look.Ch? && IsDigitChar(c0.look.c)
    ensures Scan(src, c0) == Number(src, c0)
  {
  }

  lemma {:induction false} ScanQuote(src: string, c0: Cursor)
    requires c0.look == Ch('"')
    ensures Scan(src, c0) == Quoted(src, c0)
  {
  }

  lemma {:induction false} ScanSlashStar(src: string, c0: Cursor)
    requires c0.look == Ch('/') && Advance(src, c0).look == Ch('*')
    ensures Scan(src, c0) ==
      match BlockComment(src, Advance(src, Advance(src, c0)))
      case Ok(c2) => Scan(src, c2)
      case Err(e) => Err(e)
  {
  }

  lemma {:induction false} ScanSlashSlash(src: string, c0: Cursor)
    requires c0.look == Ch('/') && Advance(src, c0).look == Ch('/')
    ensures Scan(src, c0) ==
      match LineComment(src, Advance(src, c0))
      case Ok(c2) => Scan(src, c2)
      case Err(e) => Err(e)
  {
  }

  lemma {:induction false} ScanSymbol(src: string, c0: Cursor)
    requires c0.look.Ch? && !IsSpace(c0.look) && !IsLetterChar(c0.look.c) && !IsDigitChar(c0.look.c)
    requires c0.look != Ch('"')
    requires c0.look == Ch('/') ==> Advance(src, c0).look != Ch('*') && Advance(src, c0).look != Ch('/')
    ensures Scan(src, c0) == Symbol(src, SymbolKind(c0.look.c), Advance(src, c0))
  {
  }

  /** The number case once its loop has stopped. */
  lemma {:induction false} NumberFrom(src: string, c0: Cursor, num: string, isDouble: bool, c2: Cursor)
    requires IsDigit(c0.look) && ReadNumber(src, c0, [], false) == Ok((num, isDouble, c2))
    ensures Number(src, c0) == match NumberToken(num, isDouble) case Ok(t) => Ok((t, c2)) case Err(e) => Err(e)
  {
  }

  /** The string case once its loop has stopped. */
  lemma {:induction false} QuotedFrom(src: string, c0: Cursor, s: string, c2: Cursor)
    requires ReadString(src, Advance(src, c0), []) == Ok((s, c2))
    ensures Quoted(src, c0) == match StringToken(s) case Ok(t) => Ok((t, Advance(src, c2))) case Err(e) => Err(e)
  {
  }

  /** The number case when its loop fails. */
  lemma {:induction false} NumberFails(src: string, c0: Cursor)
    requires IsDigit(c0.look) && ReadNumber(src, c0, [], false).Err?
    ensures Number(src, c0) == Err(ReadNumber(src, c0, [], false).error)
  {
  }
}

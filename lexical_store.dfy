/** The lexer of lexical.c as the C runs it: a cursor advanced in place, the
    char_kind table in an array, the previous and current token in fields,
    and one loop per loop of st_nextToken.  Each method is proved to do
    what the Lexical functions describe. */
module LexicalStore {
  import opened Results
  import opened Share
  import opened Lexical

  /** A scan with a result and a new cursor, seen from the method that runs
      it: on success the token it returns and where the cursor ends up; on
      failure the same failure (the C exits, so the state is not looked at). */
  ghost predicate Yields<T>(spec: Result<(T, Cursor), Halt>, r: Result<T, Halt>, after: Cursor) {
    match spec
    case Ok((v, c)) => r == Ok(v) && after == c
    case Err(e) => r == Err(e)
  }

  /** The same for a loop that only moves the cursor. */
  ghost predicate Moves(spec: Result<Cursor, Halt>, r: Result<(), Halt>, after: Cursor) {
    match spec
    case Ok(c) => r == Ok(()) && after == c
    case Err(e) => r == Err(e)
  }

  /** The first loop of init_char_kind. */
  method ClearKinds(a: array<Kind>)
    requires a.Length == 256
    modifies a
    ensures forall j | 0 <= j < 256 :: a[j] == Others
  {
    for i := 0 to 256
      invariant forall j | 0 <= j < i :: a[j] == Others
    {
      a[i] := Others;
    }
  }

  /** The letter and digit loop of init_char_kind. */
  method MarkAlnum(a: array<Kind>)
    requires a.Length == 256
    requires forall j | 0 <= j < 256 :: a[j] == Others
    modifies a
    ensures forall j | 0 <= j < 256 :: a[j] == Assigned(j as char, 0)
  {
    for i := 0 to 256
      invariant forall j | 0 <= j < i :: a[j] == BaseKind(j as char)
      invariant forall j | i <= j < 256 :: a[j] == Others
    {
      if IsLetterChar(i as char) {
        a[i] := Letter;
      } else if IsDigitChar(i as char) {
        a[i] := Digit;
      }
    }
  }

  /** The symbol assignments of init_char_kind, in order. */
  method MarkSymbols(a: array<Kind>)
    requires a.Length == 256
    requires forall j | 0 <= j < 256 :: a[j] == Assigned(j as char, 0)
    modifies a
    ensures forall j | 0 <= j < 256 :: a[j] == Assigned(j as char, |SymbolTable|)
  {
    for m := 0 to |SymbolTable|
      invariant forall j | 0 <= j < 256 :: a[j] == Assigned(j as char, m)
    {
      a[SymbolTable[m].0 as int] := SymbolTable[m].1;
    }
  }

  /** A pass of st_nextToken from c that ends at after: either it settles
      the token the scan from c yields, or (None) it has skipped a comment
      and the scan from after yields the same. */
  ghost predicate Passes(src: string, c: Cursor, t: Option<Result<Token, Halt>>, after: Cursor) {
    match t
    case Some(r) => Yields(Scan(src, c), r, after)
    case None => Scan(src, after) == Scan(src, c) && Measure(src, after) < Measure(src, c)
  }

  /** The keyword scan of st_nextToken, over keyword_table. */
  method LookupWord(buf: string) returns (t: Token)
    ensures t == WordToken(buf)
  {
    var word := buf;
    if |buf| >= MAX_LEN_IDENTIFIER {
      word := buf[..MAX_LEN_IDENTIFIER - 1];
    }
    var i := 0;
    while i < END_OF_KEYWORD
      invariant i <= END_OF_KEYWORD
      invariant Keyword(word, i) == Keyword(word, 0)
    {
      if KeywordTable[i].0 == word {
        var k := KeywordTable[i].1;
        if k == TrueLiteral {
          t := Token(k, BoolPayload(true));
        } else if k == FalseLiteral {
          t := Token(k, BoolPayload(false));
        } else {
          t := Token(k, NoPayload);
        }
        return;
      }
      i := i + 1;
    }
    t := Token(Identifier, IdentPayload(word));
  }

  class Lexer {
    const src: string
    const charKind: array<Kind>
    var pos: nat
    var look: Look
    var line: nat
    var prevToken: Token
    var currentToken: Token

    /** char_kind has been set up by init_char_kind. */
    ghost predicate Valid()
      reads this, charKind
    {
      charKind.Length == 256 && forall i | 0 <= i < 256 :: charKind[i] == CharKind(i as char)
    }

    function Cur(): Cursor
      reads this
    {
      Cursor(pos, look, line)
    }

    function PrevToken(): Token
      reads this
    {
      prevToken
    }

    /** initSource over the given source.  prev_token and current_token are
        zero-initialised statics in the C, hence of kind VAR. */
    constructor (source: string)
      ensures Valid() && src == source && Cur() == Start
      ensures prevToken == Token(Var, NoPayload) && currentToken == Token(Var, NoPayload)
    {
      src := source;
      charKind := new Kind[256];
      pos, look, line := 0, Ch('\n'), 0;
      prevToken, currentToken := Token(Var, NoPayload), Token(Var, NoPayload);
      new;
      InitCharKind();
    }

    /** init_char_kind: OTHERS everywhere, then letters and digits, then the
        symbol characters. */
    method InitCharKind()
      requires charKind.Length == 256
      modifies charKind
      ensures Valid()
    {
      ClearKinds(charKind);
      MarkAlnum(charKind);
      MarkSymbols(charKind);
      forall j | 0 <= j < 256
        ensures charKind[j] == CharKind(j as char)
      {
        AssignedAll(j as char);
      }
    }

    /** nextChar over the in-memory source. */
    method NextChar()
      modifies this
      ensures Cur() == Advance(src, old(Cur()))
      ensures prevToken == old(prevToken) && currentToken == old(currentToken)
    {
      if look.Eof? {
        return;
      }
      if pos >= |src| {
        look := Eof;
        return;
      }
      var ch := src[pos];
      pos, look := pos + 1, Ch(ch);
      if ch == '\n' {
        line := line + 1;
      }
    }

    /** char_kind[(int)nextchar]. */
    method KindOf(l: Look) returns (k: Kind)
      requires Valid()
      ensures k == LookKind(l)
    {
      if l.Eof? {
        return Others;
      }
      if l.c as int < 256 {
        k := charKind[l.c as int];
      } else {
        k := Others;
      }
    }

    method SkipWhitespace()
      modifies this
      ensures Cur() == SkipSpaces(src, old(Cur()))
      ensures prevToken == old(prevToken) && currentToken == old(currentToken)
    {
      while look == Ch(' ') || look == Ch('\t') || look == Ch('\n')
        invariant SkipSpaces(src, Cur()) == SkipSpaces(src, old(Cur()))
        invariant prevToken == old(prevToken) && currentToken == old(currentToken)
        decreases Measure(src, Cur())
      {
        NextChar();
      }
    }

    /** The identifier loop.  Once the buffer is full the C loop makes no
        more progress while a letter or digit is ahead; the method reports
        that as Diverges. */
    method ReadIdentifier() returns (r: Result<string, Halt>)
      requires Valid() && IsAlnum(look)
      modifies this
      ensures Yields(ReadWord(src, old(Cur()), []), r, Cur())
      ensures prevToken == old(prevToken) && currentToken == old(currentToken)
    {
      var buf: string := [];
      while true
        invariant IsAlnum(look)
        invariant ReadWord(src, Cur(), buf) == ReadWord(src, old(Cur()), [])
        invariant prevToken == old(prevToken) && currentToken == old(currentToken)
        decreases Measure(src, Cur())
      {
        if |buf| >= MAX_LEN_IDENTIFIER {
          return Err(Diverges);
        }
        buf := buf + [look.c];
        NextChar();
        var k := KindOf(look);
        if k != Letter && k != Digit {
          return Ok(buf);
        }
      }
    }

    /** The number loop. */
    method ReadNumberLiteral() returns (r: Result<(string, bool), Halt>)
      requires Valid() && IsDigit(look)
      modifies this
      ensures match ReadNumber(src, old(Cur()), [], false)
        case Ok((num, dbl, c)) => r == Ok((num, dbl)) && Cur() == c
        case Err(e) => r == Err(e)
      ensures prevToken == old(prevToken) && currentToken == old(currentToken)
    {
      var buf: string := [];
      var isDouble := false;
      while true
        invariant IsDigit(look)
        invariant ReadNumber(src, Cur(), buf, isDouble) == ReadNumber(src, old(Cur()), [], false)
        invariant prevToken == old(prevToken) && currentToken == old(currentToken)
        decreases Measure(src, Cur())
      {
        if |buf| >= MAX_LEN_NUMBER_LITERAL {
          return Err(Diverges);
        }
        buf := buf + [look.c];
        NextChar();
        if look == Ch('.') {
          if isDouble {
            return Err(LexFatal(MultiplePoints));
          }
          isDouble := true;
          buf := buf + ['.'];
          NextChar();
        }
        var k := KindOf(look);
        if k != Digit {
          return Ok((buf, isDouble));
        }
      }
    }

    /** The string loop, entered with the character after the quote. */
    method ReadStringLiteral() returns (r: Result<string, Halt>)
      modifies this
      ensures Yields(ReadString(src, old(Cur()), []), r, Cur())
      ensures prevToken == old(prevToken) && currentToken == old(currentToken)
    {
      var buf: string := [];
      while look != Ch('"')
        invariant ReadString(src, Cur(), buf) == ReadString(src, old(Cur()), [])
        invariant prevToken == old(prevToken) && currentToken == old(currentToken)
        decreases Measure(src, Cur())
      {
        if look.Eof? || |buf| >= MAX_LEN_STRING_LITERAL {
          return Err(Diverges);
        }
        buf := buf + [look.c];
        // A backslash takes the same path: store, then read the next character.
        NextChar();
      }
      r := Ok(buf);
    }

    /** A block comment, entered with the character after its opening. */
    method SkipBlockComment() returns (r: Result<(), Halt>)
      modifies this
      ensures Moves(BlockComment(src, old(Cur())), r, Cur())
      ensures prevToken == old(prevToken) && currentToken == old(currentToken)
    {
      while true
        invariant BlockComment(src, Cur()) == BlockComment(src, old(Cur()))
        invariant prevToken == old(prevToken) && currentToken == old(currentToken)
        decreases Measure(src, Cur())
      {
        ghost var c := Cur();
        while look != Ch('*')
          invariant SkipToStar(src, Cur()) == SkipToStar(src, c)
          invariant prevToken == old(prevToken) && currentToken == old(currentToken)
          decreases Measure(src, Cur())
        {
          if look.Eof? {
            return Err(Diverges);
          }
          NextChar();
        }
        NextChar();
        if look == Ch('/') {
          NextChar();
          return Ok(());
        }
      }
    }

    /** A line comment, entered with its second '/' as lookahead. */
    method SkipLineComment() returns (r: Result<(), Halt>)
      requires look.Ch?
      modifies this
      ensures Moves(LineComment(src, old(Cur())), r, Cur())
      ensures prevToken == old(prevToken) && currentToken == old(currentToken)
    {
      while true
        invariant look.Ch?
        invariant LineComment(src, Cur()) == LineComment(src, old(Cur()))
        invariant prevToken == old(prevToken) && currentToken == old(currentToken)
        decreases Measure(src, Cur())
      {
        NextChar();
        if look == Ch('\n') {
          return Ok(());
        }
        if look.Eof? {
          return Err(Diverges);
        }
      }
    }

    /** The symbol cases, entered with the character after the first one. */
    method ReadSymbol(k: Kind) returns (r: Result<Token, Halt>)
      modifies this
      ensures Yields(Symbol(src, k, old(Cur())), r, Cur())
      ensures prevToken == old(prevToken) && currentToken == old(currentToken)
    {
      var pair := Second(k, look);
      if pair.Some? {
        NextChar();
        return Ok(Token(pair.value, NoPayload));
      }
      if k == Pipe {
        return Err(LexFatal(LonePipe));
      }
      if k == Amp {
        return Err(LexFatal(LoneAmp));
      }
      r := Ok(Token(k, NoPayload));
    }

    /** The string literal case, entered with the opening quote ahead. */
    method ReadQuoted() returns (r: Result<Token, Halt>)
      requires look == Ch('"')
      modifies this
      ensures Yields(Quoted(src, old(Cur())), r, Cur())
      ensures prevToken == old(prevToken) && currentToken == old(currentToken)
    {
      NextChar();
      var s := ReadStringLiteral();
      if s.Err? {
        return Err(s.error);
      }
      NextChar();
      if |s.value| >= MAX_LEN_STRING_LITERAL {
        return Err(LexFatal(TooLongString));
      }
      r := Ok(Token(StringLiteral, StringPayload(s.value)));
    }

    /** The number case, from the first digit. */
    method ReadNumberToken() returns (r: Result<Token, Halt>)
      requires Valid() && IsDigit(look)
      modifies this
      ensures Yields(Number(src, old(Cur())), r, Cur())
      ensures prevToken == old(prevToken) && currentToken == old(currentToken)
    {
      var n := ReadNumberLiteral();
      if n.Err? {
        return Err(n.error);
      }
      var (num, dbl) := n.value;
      if |num| >= MAX_LEN_NUMBER_LITERAL {
        return Err(LexFatal(TooLargeNumber));
      }
      if dbl {
        r := Ok(Token(DoubleLiteral, DoublePayload(num)));
      } else {
        r := Ok(Token(IntLiteral, IntPayload(IntValueOf(num))));
      }
    }

    /** The word case, from the first letter. */
    method ReadWordToken() returns (r: Result<Token, Halt>)
      requires Valid() && IsAlnum(look)
      modifies this
      ensures Yields(Word(src, old(Cur())), r, Cur())
      ensures prevToken == old(prevToken) && currentToken == old(currentToken)
    {
      var w := ReadIdentifier();
      if w.Err? {
        return Err(w.error);
      }
      var t := LookupWord(w.value);
      r := Ok(t);
    }

    /** st_nextToken.  Where the C returns nextToken() after a comment, the
        loop goes round again. */
    method StNextToken() returns (r: Result<Token, Halt>)
      requires Valid()
      modifies this
      ensures Yields(Scan(src, old(Cur())), r, Cur())
      ensures prevToken == old(prevToken) && currentToken == old(currentToken)
    {
      while true
        invariant Scan(src, Cur()) == Scan(src, old(Cur()))
        invariant prevToken == old(prevToken) && currentToken == old(currentToken)
        decreases Measure(src, Cur())
      {
        var t := Round();
        if t.Some? {
          return t.value;
        }
      }
    }

    /** One pass of st_nextToken: a token or a failure, or None once a
        comment has been skipped. */
    method Round() returns (t: Option<Result<Token, Halt>>)
      requires Valid()
      modifies this
      ensures Passes(src, old(Cur()), t, Cur())
      ensures prevToken == old(prevToken) && currentToken == old(currentToken)
    {
      SkipWhitespace();
      if look.Eof? {
        return Some(Ok(EndOfFileToken));
      }
      var k := KindOf(look);
      var r;
      if k == Letter {
        r := ReadWordToken();
      } else if k == Digit {
        r := ReadNumberToken();
      } else if k == DoubleQuote {
        r := ReadQuoted();
      } else {
        t := AfterFirst(old(Cur()), k);
        return;
      }
      t := Some(r);
    }

    /** The rest of a pass once the first character is known to start a
        symbol or a comment; c is where the pass started. */
    method AfterFirst(ghost c: Cursor, k: Kind) returns (t: Option<Result<Token, Halt>>)
      requires Cur() == SkipSpaces(src, c) && look.Ch? && k == CharKind(look.c)
      requires k != Letter && k != Digit && k != DoubleQuote
      modifies this
      ensures Passes(src, c, t, Cur())
      ensures prevToken == old(prevToken) && currentToken == old(currentToken)
    {
      NextChar();
      if k == Div && look == Ch('*') {
        t := BlockPass(c);
      } else if k == Div && look == Ch('/') {
        t := LinePass(c);
      } else {
        var r := ReadSymbol(k);
        t := Some(r);
      }
    }

    /** A block comment pass, from the star. */
    method BlockPass(ghost c: Cursor) returns (t: Option<Result<Token, Halt>>)
      requires SkipSpaces(src, c).look == Ch('/') && Cur() == Advance(src, SkipSpaces(src, c)) && look == Ch('*')
      modifies this
      ensures Passes(src, c, t, Cur())
      ensures prevToken == old(prevToken) && currentToken == old(currentToken)
    {
      NextChar();
      var e := SkipBlockComment();
      t := if e.Err? then Some(Err(e.error)) else None;
    }

    /** A line comment pass, from the second slash. */
    method LinePass(ghost c: Cursor) returns (t: Option<Result<Token, Halt>>)
      requires SkipSpaces(src, c).look == Ch('/') && Cur() == Advance(src, SkipSpaces(src, c)) && look == Ch('/')
      modifies this
      ensures Passes(src, c, t, Cur())
      ensures prevToken == old(prevToken) && currentToken == old(currentToken)
    {
      var e := SkipLineComment();
      t := if e.Err? then Some(Err(e.error)) else None;
    }

    /** nextToken: the current token becomes the previous one and the next
        token the current one.  The nested nextToken the C makes after a
        comment saves the same current token, so the previous token is the
        one before the comment. */
    method NextToken() returns (r: Result<Token, Halt>)
      requires Valid()
      modifies this
      ensures Yields(Scan(src, old(Cur())), r, Cur())
      ensures PrevToken() == old(currentToken)
      ensures r.Ok? ==> currentToken == r.value
    {
      prevToken := currentToken;
      r := StNextToken();
      if r.Ok? {
        currentToken := r.value;
      }
    }

    /** checkGetToken: the next token if t has kind k; otherwise a compile
        error, an invalid character one when OTHERS was expected. */
    method CheckGetToken(t: Token, k: Kind) returns (r: Result<Token, Halt>)
      requires Valid()
      modifies this
      ensures t.kind == k ==> Yields(Scan(src, old(Cur())), r, Cur()) && PrevToken() == old(currentToken)
      ensures t.kind != k ==> r == Err(if k == Others then InvalidCharError else SyntaxError)
    {
      if t.kind == k {
        r := NextToken();
      } else if k == Others {
        r := Err(InvalidCharError);
      } else {
        r := Err(SyntaxError);
      }
    }

    /** checkGetToken2: the same for two kinds, except that the invalid
        character error is chosen by the kind of t. */
    method CheckGetToken2(t: Token, k1: Kind, k2: Kind) returns (r: Result<Token, Halt>)
      requires Valid()
      modifies this
      ensures t.kind == k1 || t.kind == k2 ==> Yields(Scan(src, old(Cur())), r, Cur()) && PrevToken() == old(currentToken)
      ensures t.kind != k1 && t.kind != k2 ==> r == Err(if t.kind == Others then InvalidCharError else SyntaxError)
    {
      if t.kind == k1 || t.kind == k2 {
        r := NextToken();
      } else if t.kind == Others {
        r := Err(InvalidCharError);
      } else {
        r := Err(SyntaxError);
      }
    }
  }
}

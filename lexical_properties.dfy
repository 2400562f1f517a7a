/** What st_nextToken does to a source, stated character by character:
    the cursor with src[i] as lookahead is At(src, i), and each lemma says
    which token a scan from there yields and where it leaves the cursor. */
module LexicalProperties {
  import opened Results
  import opened Share
  import opened Lexical

  // ---------------------------------------------------------------------
  // Cursors over the source

  /** The cursor whose lookahead is src[i], every newline up to and
      including it counted; At(src, |src|) is EOF. */
  function At(src: string, i: nat): (c: Cursor)
    requires i <= |src|
    ensures Counted(src, c)
    ensures i < |src| ==> c.look == Ch(src[i])
    ensures i == |src| ==> c.look == Eof
  {
    if i < |src| then Cursor(i + 1, Ch(src[i]), Newlines(src, i + 1))
    else Cursor(|src|, Eof, Newlines(src, |src|))
  }

  /** nextChar moves the lookahead one character on, and bumps the line
      count iff that character is a newline. */
  lemma {:induction false} AdvanceAt(src: string, i: nat)
    requires i < |src|
    ensures Advance(src, At(src, i)) == At(src, i + 1)
    ensures At(src, i + 1).line == At(src, i).line + (if i + 1 < |src| && src[i + 1] == '\n' then 1 else 0)
  {
  }

  /** initSource: the first character read is src[0]. */
  lemma {:induction false} StartAt(src: string)
    ensures Advance(src, Start) == At(src, 0)
    ensures Scan(src, Start) == Scan(src, At(src, 0))
  {
  }

  /** EOF is sticky: at the end every scan yields END_OF_FILE and leaves the
      cursor where it is. */
  lemma {:induction false} ScanAtEnd(src: string, c: Cursor)
    requires c.look.Eof?
    ensures Scan(src, c) == Ok((EndOfFileToken, c))
  {
  }

  /** Slices of the source join up. */
  lemma {:induction false} SliceJoin(s: string, a: nat, b: nat, c: nat)
    requires a <= b <= c <= |s|
    ensures s[a..b] + s[b..c] == s[a..c]
  {
  }

  lemma {:induction false} SliceSnoc(s: string, a: nat, b: nat)
    requires a <= b < |s|
    ensures s[a..b] + [s[b]] == s[a..b + 1]
  {
  }

  lemma {:induction false} SliceCons(buf: string, s: string, k: nat, j: nat)
    requires k < j <= |s|
    ensures buf + [s[k]] + s[k + 1..j] == buf + s[k..j]
  {
    assert s[k..j] == [s[k]] + s[k + 1..j];
  }

  predicate SpaceChar(ch: char) { ch == ' ' || ch == '\t' || ch == '\n' }

  predicate AlnumChar(ch: char) { IsLetterChar(ch) || IsDigitChar(ch) }

  /** Whitespace skipping: from src[i], the cursor stops at the first
      character at or after i that is not a space, tab or newline. */
  lemma {:induction false} SkipSpacesAt(src: string, i: nat, j: nat)
    requires i <= j <= |src|
    requires forall k | i <= k < j :: SpaceChar(src[k])
    requires j == |src| || !SpaceChar(src[j])
    ensures SkipSpaces(src, At(src, i)) == At(src, j)
    decreases j - i
  {
    if i < j {
      AdvanceAt(src, i);
      SkipSpacesAt(src, i + 1, j);
    }
  }

  // ---------------------------------------------------------------------
  // Words

  /** The identifier loop over a run of letters and digits src[k..j] that
      began at i: it stores the run and stops at the first other character. */
  lemma {:induction false} ReadWordRun(src: string, i: nat, k: nat, j: nat)
    requires i <= k < j <= |src| && j - i <= MAX_LEN_IDENTIFIER
    requires AlnumChar(src[k]) && forall m | k <= m < j :: AlnumChar(src[m])
    requires j == |src| || !AlnumChar(src[j])
    ensures ReadWord(src, At(src, k), src[i..k]) == Ok((src[i..j], At(src, j)))
    decreases j - k
  {
    AdvanceAt(src, k);
    SliceSnoc(src, i, k);
    if k + 1 < j {
      assert AlnumChar(src[k + 1]);
      ReadWordRun(src, i, k + 1, j);
    }
  }

  /** A word longer than the identifier buffer makes the loop spin. */
  lemma {:induction false} ReadWordLong(src: string, i: nat, k: nat)
    requires i <= k <= i + MAX_LEN_IDENTIFIER && i + MAX_LEN_IDENTIFIER < |src|
    requires AlnumChar(src[k]) && forall m | k <= m <= i + MAX_LEN_IDENTIFIER :: AlnumChar(src[m])
    ensures ReadWord(src, At(src, k), src[i..k]) == Err(Diverges)
    decreases i + MAX_LEN_IDENTIFIER - k
  {
    if k < i + MAX_LEN_IDENTIFIER {
      AdvanceAt(src, k);
      SliceSnoc(src, i, k);
      assert AlnumChar(src[k + 1]);
      ReadWordLong(src, i, k + 1);
    }
  }

  /** A letter followed by letters and digits is one word token, and the
      scan stops right after it; at more than MAX_LEN_IDENTIFIER characters
      the C loops forever. */
  lemma {:induction false} ScanWord(src: string, i: nat, j: nat)
    requires i < j <= |src| && IsLetterChar(src[i])
    requires forall m | i <= m < j :: AlnumChar(src[m])
    requires j == |src| || !AlnumChar(src[j])
    ensures j - i <= MAX_LEN_IDENTIFIER ==> Scan(src, At(src, i)) == Ok((WordToken(src[i..j]), At(src, j)))
    ensures j - i > MAX_LEN_IDENTIFIER ==> Scan(src, At(src, i)) == Err(Diverges)
  {
    assert src[i..i] == [];
    ScanLetter(src, At(src, i));
    if j - i <= MAX_LEN_IDENTIFIER {
      ReadWordRun(src, i, i, j);
    } else {
      ReadWordLong(src, i, i);
    }
  }

  /** The keyword scan stops at the first entry spelt like the word. */
  lemma {:induction false} KeywordFirstMatch(w: string, i: nat, j: nat)
    requires i <= j < END_OF_KEYWORD && KeywordTable[j].0 == w
    requires forall l | i <= l < j :: KeywordTable[l].0 != w
    ensures Keyword(w, i) == Some(KeywordTable[j].1)
    decreases j - i
  {
    if i < j {
      KeywordFirstMatch(w, i + 1, j);
    }
  }

  /** The entries of keyword_table from END_OF_KEYWORD - 3 on are symbols,
      none of them a word. */
  lemma {:induction false} SymbolEntriesNotWords(w: string, j: nat)
    requires forall m | 0 <= m < |w| :: AlnumChar(w[m])
    requires 28 <= j < |KeywordTable|
    ensures KeywordTable[j].0 != w
  {
    assert KeywordTable[j].0[0] == KeywordTable[j].0[0];
    assert !AlnumChar(KeywordTable[j].0[0]);
  }

  /** A word spelt like a keyword_table entry has the kind of the first
      such entry, true and false with their value; every other word is an
      identifier naming itself. */
  lemma {:induction false} WordMeaning(w: string)
    requires 0 < |w| < MAX_LEN_IDENTIFIER
    requires forall m | 0 <= m < |w| :: AlnumChar(w[m])
    ensures forall j | 0 <= j < |KeywordTable| && KeywordTable[j].0 == w && (forall l | 0 <= l < j :: KeywordTable[l].0 != w) ::
      WordToken(w).kind == KeywordTable[j].1
    ensures (forall j | 0 <= j < |KeywordTable| :: KeywordTable[j].0 != w) ==>
      WordToken(w) == Token(Identifier, IdentPayload(w))
    ensures WordToken(w).kind == TrueLiteral ==> WordToken(w).payload == BoolPayload(true)
    ensures WordToken(w).kind == FalseLiteral ==> WordToken(w).payload == BoolPayload(false)
  {
    forall j | 0 <= j < |KeywordTable| && KeywordTable[j].0 == w && (forall l | 0 <= l < j :: KeywordTable[l].0 != w)
      ensures WordToken(w).kind == KeywordTable[j].1
    {
      if j >= 28 {
        SymbolEntriesNotWords(w, j);
      } else {
        KeywordFirstMatch(w, 0, j);
      }
    }
  }

  // ---------------------------------------------------------------------
  // Numbers

  /** The number loop over a run of digits src[k..j] ending at a character
      that is neither a digit nor '.', with src[i..k] already stored: it
      stores the run and stops there. */
  lemma {:induction false} DigitRun(src: string, i: nat, k: nat, j: nat, buf: string, isDouble: bool)
    requires i <= k < j <= |src| && j - i <= MAX_LEN_NUMBER_LITERAL && buf == src[i..k]
    requires forall m | k <= m < j :: IsDigitChar(src[m])
    requires j == |src| || (!IsDigitChar(src[j]) && src[j] != '.')
    ensures ReadNumber(src, At(src, k), buf, isDouble) == Ok((src[i..j], isDouble, At(src, j)))
    decreases j - k
  {
    AdvanceAt(src, k);
    SliceSnoc(src, i, k);
    if k + 1 < j {
      assert IsDigitChar(src[k + 1]);
      DigitRun(src, i, k + 1, j, buf + [src[k]], isDouble);
    } else {
      assert At(src, j).look != Ch('.') && !IsDigit(At(src, j).look);
      assert At(src, k).look.c == src[k];
    }
  }

  /** A run of digits followed by '.', with src[i..k] already stored: the
      point is stored, the literal becomes a double, and the loop goes on
      if a digit follows. */
  lemma {:induction false} PointAfterRun(src: string, i: nat, k: nat, j: nat, buf: string)
    requires i <= k < j < |src| && j - i <= MAX_LEN_NUMBER_LITERAL && buf == src[i..k]
    requires forall m | k <= m < j :: IsDigitChar(src[m])
    requires src[j] == '.'
    ensures j + 1 < |src| && IsDigitChar(src[j + 1]) ==>
      ReadNumber(src, At(src, k), buf, false) == ReadNumber(src, At(src, j + 1), src[i..j + 1], true)
    ensures !(j + 1 < |src| && IsDigitChar(src[j + 1])) ==>
      ReadNumber(src, At(src, k), buf, false) == Ok((src[i..j + 1], true, At(src, j + 1)))
    decreases j - k
  {
    AdvanceAt(src, k);
    SliceSnoc(src, i, k);
    if k + 1 < j {
      assert IsDigitChar(src[k + 1]);
      PointAfterRun(src, i, k + 1, j, buf + [src[k]]);
    } else {
      AdvanceAt(src, j);
      SliceSnoc(src, i, j);
      assert At(src, k).look.c == src[k] && At(src, j).look == Ch('.');
      assert j + 1 < |src| ==> At(src, j + 1).look == Ch(src[j + 1]);
    }
  }

  /** In a double, a run of digits followed by '.' is fatal. */
  lemma {:induction false} SecondPointRun(src: string, k: nat, j: nat, buf: string)
    requires k < j < |src| && |buf| + (j - k) <= MAX_LEN_NUMBER_LITERAL
    requires IsDigitChar(src[k]) && forall m | k <= m < j :: IsDigitChar(src[m])
    requires src[j] == '.'
    ensures ReadNumber(src, At(src, k), buf, true) == Err(LexFatal(MultiplePoints))
    decreases j - k
  {
    AdvanceAt(src, k);
    if k + 1 < j {
      assert IsDigitChar(src[k + 1]);
      SecondPointRun(src, k + 1, j, buf + [src[k]]);
    }
  }

  /** The Number case of ScanInt. */
  lemma {:induction false} NumberInt(src: string, i: nat, j: nat)
    requires i < j <= |src| && j - i <= MAX_LEN_NUMBER_LITERAL
    requires IsDigitChar(src[i]) && forall m | i <= m < j :: IsDigitChar(src[m])
    requires j == |src| || (!IsDigitChar(src[j]) && src[j] != '.')
    ensures j - i < MAX_LEN_NUMBER_LITERAL ==>
      Number(src, At(src, i)) == Ok((Token(IntLiteral, IntPayload(IntValueOf(src[i..j]))), At(src, j)))
    ensures j - i == MAX_LEN_NUMBER_LITERAL ==> Number(src, At(src, i)) == Err(LexFatal(TooLargeNumber))
  {
    var c0 := At(src, i);
    assert ReadNumber(src, c0, [], false) == Ok((src[i..j], false, At(src, j))) by {
      DigitRun(src, i, i, j, [], false);
    }
    assert Number(src, c0) == match NumberToken(src[i..j], false) case Ok(t) => Ok((t, At(src, j))) case Err(e) => Err(e) by {
      NumberFrom(src, c0, src[i..j], false, At(src, j));
    }
  }

  /** A run of digits with no point is an INT_LITERAL holding the value
      strtol gives it; at MAX_LEN_NUMBER_LITERAL digits it is fatal. */
  lemma {:induction false} ScanInt(src: string, i: nat, j: nat)
    requires i < j <= |src| && j - i <= MAX_LEN_NUMBER_LITERAL
    requires IsDigitChar(src[i]) && forall m | i <= m < j :: IsDigitChar(src[m])
    requires j == |src| || (!IsDigitChar(src[j]) && src[j] != '.')
    ensures j - i < MAX_LEN_NUMBER_LITERAL ==>
      Scan(src, At(src, i)) == Ok((Token(IntLiteral, IntPayload(IntValueOf(src[i..j]))), At(src, j)))
    ensures j - i == MAX_LEN_NUMBER_LITERAL ==> Scan(src, At(src, i)) == Err(LexFatal(TooLargeNumber))
  {
    NumberInt(src, i, j);
    ScanDigit(src, At(src, i));
  }

  /** The Number case of ScanDouble. */
  lemma {:induction false} NumberDouble(src: string, i: nat, j: nat, m: nat)
    requires i < j < m <= |src| && m - i < MAX_LEN_NUMBER_LITERAL
    requires IsDigitChar(src[i]) && forall n | i <= n < j :: IsDigitChar(src[n])
    requires src[j] == '.' && forall n | j < n < m :: IsDigitChar(src[n])
    requires m == |src| || (!IsDigitChar(src[m]) && (m == j + 1 || src[m] != '.'))
    ensures Number(src, At(src, i)) == Ok((Token(DoubleLiteral, DoublePayload(src[i..m])), At(src, m)))
  {
    DoubleRun(src, i, j, m);
    NumberFrom(src, At(src, i), src[i..m], true, At(src, m));
  }

  /** The number loop over digits, one '.', and digits. */
  lemma {:induction false} DoubleRun(src: string, i: nat, j: nat, m: nat)
    requires i < j < m <= |src| && m - i < MAX_LEN_NUMBER_LITERAL
    requires IsDigitChar(src[i]) && forall n | i <= n < j :: IsDigitChar(src[n])
    requires src[j] == '.' && forall n | j < n < m :: IsDigitChar(src[n])
    requires m == |src| || (!IsDigitChar(src[m]) && (m == j + 1 || src[m] != '.'))
    ensures ReadNumber(src, At(src, i), [], false) == Ok((src[i..m], true, At(src, m)))
  {
    PointAfterRun(src, i, i, j, []);
    if j + 1 < m {
      assert IsDigitChar(src[j + 1]);
      DigitRun(src, i, j + 1, m, src[i..j + 1], true);
    }
  }

  lemma {:induction false} ScanDouble(src: string, i: nat, j: nat, m: nat)
    requires i < j < m <= |src| && m - i < MAX_LEN_NUMBER_LITERAL
    requires IsDigitChar(src[i]) && forall n | i <= n < j :: IsDigitChar(src[n])
    requires src[j] == '.' && forall n | j < n < m :: IsDigitChar(src[n])
    requires m == |src| || (!IsDigitChar(src[m]) && (m == j + 1 || src[m] != '.'))
    ensures Scan(src, At(src, i)) == Ok((Token(DoubleLiteral, DoublePayload(src[i..m])), At(src, m)))
  {
    NumberDouble(src, i, j, m);
    ScanDigit(src, At(src, i));
  }

  /** The Number case of ScanSecondPoint. */
  lemma {:induction false} NumberSecondPoint(src: string, i: nat, j: nat, m: nat)
    requires i < j && j + 1 < m < |src| && m - i <= MAX_LEN_NUMBER_LITERAL
    requires IsDigitChar(src[i]) && forall n | i <= n < j :: IsDigitChar(src[n])
    requires src[j] == '.' && forall n | j < n < m :: IsDigitChar(src[n])
    requires src[m] == '.'
    ensures Number(src, At(src, i)) == Err(LexFatal(MultiplePoints))
  {
    SecondPointStops(src, i, j, m);
    NumberFails(src, At(src, i));
  }

  /** The number loop of NumberSecondPoint. */
  lemma {:induction false} SecondPointStops(src: string, i: nat, j: nat, m: nat)
    requires i < j && j + 1 < m < |src| && m - i <= MAX_LEN_NUMBER_LITERAL
    requires IsDigitChar(src[i]) && forall n | i <= n < j :: IsDigitChar(src[n])
    requires src[j] == '.' && forall n | j < n < m :: IsDigitChar(src[n])
    requires src[m] == '.'
    ensures ReadNumber(src, At(src, i), [], false) == Err(LexFatal(MultiplePoints))
  {
    assert IsDigitChar(src[j + 1]);
    PointAfterRun(src, i, i, j, []);
    SecondPointRun(src, j + 1, m, src[i..j + 1]);
  }

  /** A second '.' after the digits of a double is fatal. */
  lemma {:induction false} ScanSecondPoint(src: string, i: nat, j: nat, m: nat)
    requires i < j && j + 1 < m < |src| && m - i <= MAX_LEN_NUMBER_LITERAL
    requires IsDigitChar(src[i]) && forall n | i <= n < j :: IsDigitChar(src[n])
    requires src[j] == '.' && forall n | j < n < m :: IsDigitChar(src[n])
    requires src[m] == '.'
    ensures Scan(src, At(src, i)) == Err(LexFatal(MultiplePoints))
  {
    NumberSecondPoint(src, i, j, m);
    ScanDigit(src, At(src, i));
  }

  /** Below 2^31 the value of an INT_LITERAL is the decimal value of its
      digits; beyond, strtol saturates and the conversion to int wraps. */
  lemma {:induction false} IntValueSmall(digits: string)
    requires DecimalValue(digits) < 0x8000_0000
    ensures IntValueOf(digits) == DecimalValue(digits)
  {
  }

  // ---------------------------------------------------------------------
  // Strings

  /** The string loop from k on, up to the closing quote at j. */
  lemma {:induction false} StringRun(src: string, i: nat, k: nat, j: nat)
    requires i < k <= j < |src| && j - i - 1 <= MAX_LEN_STRING_LITERAL
    requires src[j] == '"' && forall m | k <= m < j :: src[m] != '"'
    ensures ReadString(src, At(src, k), src[i + 1..k]) == Ok((src[i + 1..j], At(src, j)))
    decreases j - k
  {
    if k < j {
      AdvanceAt(src, k);
      SliceSnoc(src, i + 1, k);
      StringRun(src, i, k + 1, j);
    }
  }

  /** The Quoted case of ScanString. */
  lemma {:induction false} QuotedString(src: string, i: nat, j: nat)
    requires i < j < |src| && j - i - 1 < MAX_LEN_STRING_LITERAL
    requires src[i] == '"' && src[j] == '"' && forall m | i < m < j :: src[m] != '"'
    ensures Quoted(src, At(src, i)) == Ok((Token(StringLiteral, StringPayload(src[i + 1..j])), At(src, j + 1)))
  {
    var c0 := At(src, i);
    var s := src[i + 1..j];
    assert ReadString(src, Advance(src, c0), []) == Ok((s, At(src, j))) by {
      AdvanceAt(src, i);
      StringRun(src, i, i + 1, j);
      assert src[i + 1..i + 1] == [];
    }
    assert Quoted(src, c0) == Ok((Token(StringLiteral, StringPayload(s)), At(src, j + 1))) by {
      AdvanceAt(src, j);
      QuotedFrom(src, c0, s, At(src, j));
    }
  }

  /** A quote, up to MAX_LEN_STRING_LITERAL - 1 characters other than a
      quote, and a quote form a STRING_LITERAL holding exactly the
      characters between the quotes; a backslash is one of them. */
  lemma {:induction false} ScanString(src: string, i: nat, j: nat)
    requires i < j < |src| && j - i - 1 < MAX_LEN_STRING_LITERAL
    requires src[i] == '"' && src[j] == '"' && forall m | i < m < j :: src[m] != '"'
    ensures Scan(src, At(src, i)) == Ok((Token(StringLiteral, StringPayload(src[i + 1..j])), At(src, j + 1)))
  {
    QuotedString(src, i, j);
    ScanQuote(src, At(src, i));
  }

  // ---------------------------------------------------------------------
  // Comments

  /** The inner loop of a block comment up to the first star at or after k. */
  lemma {:induction false} SkipToStarRun(src: string, k: nat, j: nat)
    requires k <= j < |src| && src[j] == '*' && forall m | k <= m < j :: src[m] != '*'
    ensures SkipToStar(src, At(src, k)) == Ok(At(src, j))
    decreases j - k
  {
    if k < j {
      AdvanceAt(src, k);
      SkipToStarRun(src, k + 1, j);
    }
  }

  /** ClosesAt(src, k, j): the first star-slash pair at or after k starts at j. */
  ghost predicate ClosesAt(src: string, k: nat, j: nat) {
    k <= j && j + 1 < |src| && src[j] == '*' && src[j + 1] == '/'
    && forall m | k <= m < j :: !(src[m] == '*' && src[m + 1] == '/')
  }

  lemma {:induction false} BlockCommentRun(src: string, k: nat, j: nat)
    requires ClosesAt(src, k, j)
    ensures BlockComment(src, At(src, k)) == Ok(At(src, j + 2))
    decreases j - k
  {
    var s := FirstStar(src, k, j);
    SkipToStarRun(src, k, s);
    AdvanceAt(src, s);
    if s == j {
      AdvanceAt(src, j + 1);
    } else {
      assert src[s + 1] != '/';
      BlockCommentRun(src, s + 1, j);
    }
  }

  /** The first star at or after k, given one at j. */
  function FirstStar(src: string, k: nat, j: nat): (s: nat)
    requires k <= j < |src| && src[j] == '*'
    ensures k <= s <= j && src[s] == '*' && forall m | k <= m < s :: src[m] != '*'
    decreases j - k
  {
    if src[k] == '*' then k else FirstStar(src, k + 1, j)
  }

  /** A block comment yields no token: the scan goes on after the first
      star-slash that follows the opening pair. */
  lemma {:induction false} ScanBlockComment(src: string, i: nat, j: nat)
    requires i + 1 < |src| && src[i] == '/' && src[i + 1] == '*' && ClosesAt(src, i + 2, j)
    ensures Scan(src, At(src, i)) == Scan(src, At(src, j + 2))
  {
    AdvanceAt(src, i);
    AdvanceAt(src, i + 1);
    ScanSlashStar(src, At(src, i));
    BlockCommentRun(src, i + 2, j);
  }

  /** The line comment loop up to the first newline at or after k. */
  lemma {:induction false} LineCommentRun(src: string, k: nat, j: nat)
    requires k < j < |src| && src[j] == '\n' && forall m | k < m < j :: src[m] != '\n'
    ensures LineComment(src, At(src, k)) == Ok(At(src, j))
    decreases j - k
  {
    AdvanceAt(src, k);
    if k + 1 < j {
      LineCommentRun(src, k + 1, j);
    }
  }

  /** A line comment yields no token: the scan goes on at the newline that
      ends it. */
  lemma {:induction false} ScanLineComment(src: string, i: nat, j: nat)
    requires i + 1 < j < |src| && src[i] == '/' && src[i + 1] == '/'
    requires src[j] == '\n' && forall m | i + 1 < m < j :: src[m] != '\n'
    ensures Scan(src, At(src, i)) == Scan(src, At(src, j))
  {
    AdvanceAt(src, i);
    LineCommentRun(src, i + 1, j);
    ScanPastLineComment(src, At(src, i), At(src, j));
  }

  lemma {:induction false} ScanPastLineComment(src: string, c0: Cursor, c2: Cursor)
    requires c0.look == Ch('/') && Advance(src, c0).look == Ch('/')
    requires LineComment(src, Advance(src, c0)) == Ok(c2)
    ensures Scan(src, c0) == Scan(src, c2)
  {
    ScanSlashSlash(src, c0);
  }

  // ---------------------------------------------------------------------
  // Symbols and operators

  /** keyword_table is its four pieces laid end to end. */
  lemma {:induction false} TableLayout()
    ensures |KeywordTable| == 66
    ensures KeywordTable[28..45] == AssignAndPunctuation
    ensures KeywordTable[45..] == Operators
  {
  }

  /** What a symbol entry of keyword_table says about the lexer: a
      one-character entry is that character's kind, a two-character entry
      is the operator its first character starts when the second follows. */
  ghost predicate LexesAs(e: (string, Kind)) {
    var (s, k) := e;
    && 1 <= |s| <= 2 && SymbolKind(s[0]) != Others && s[0] != '"'
    && (|s| == 1 ==> SymbolKind(s[0]) == k)
    && (|s| == 2 ==> Second(SymbolKind(s[0]), Ch(s[1])) == Some(k))
  }

  lemma {:induction false} PunctuationEntry(m: nat)
    requires 1 <= m < |AssignAndPunctuation|
    ensures LexesAs(AssignAndPunctuation[m])
  {
    if m == 1 {
    } else if m == 2 {
    } else if m == 3 {
    } else if m == 4 {
    } else if m == 5 {
    } else if m == 6 {
    } else if m == 7 {
    } else if m == 8 {
    } else if m == 9 {
    } else if m == 10 {
    } else if m == 11 {
    } else if m == 12 {
    } else if m == 13 {
    } else if m == 14 {
    } else if m == 15 {
    } else if m == 16 {
    }
  }

  lemma {:induction false} OperatorEntry(m: nat)
    requires m < |Operators| - 2
    ensures LexesAs(Operators[m])
  {
    if m < 10 {
      LogicOperatorEntry(m);
    } else {
      ArithmeticOperatorEntry(m);
    }
  }

  /** | & || && == != > >= < <= */
  lemma {:induction false} LogicOperatorEntry(m: nat)
    requires m < 10
    ensures LexesAs(Operators[m])
  {
    if m == 0 {
    } else if m == 1 {
    } else if m == 2 {
    } else if m == 3 {
    } else if m == 4 {
    } else if m == 5 {
    } else if m == 6 {
    } else if m == 7 {
    } else if m == 8 {
    } else if m == 9 {
    }
  }

  /** + - * / % ! ** ++ -- */
  lemma {:induction false} ArithmeticOperatorEntry(m: nat)
    requires 10 <= m < 19
    ensures LexesAs(Operators[m])
  {
    if m == 10 {
    } else if m == 11 {
    } else if m == 12 {
    } else if m == 13 {
    } else if m == 14 {
    } else if m == 15 {
    } else if m == 16 {
    } else if m == 17 {
    } else if m == 18 {
    }
  }

  /** Entries 29 to 63 of keyword_table spell the symbols and operators,
      and each is lexed as its entry says. */
  lemma {:induction false} SymbolEntry(j: nat)
    requires 29 <= j < 64
    ensures LexesAs(KeywordTable[j])
  {
    TableLayout();
    if j < 45 {
      assert KeywordTable[j] == KeywordTable[28..45][j - 28];
      PunctuationEntry(j - 28);
    } else {
      assert KeywordTable[j] == KeywordTable[45..][j - 45];
      OperatorEntry(j - 45);
    }
  }

  /** Entry j of keyword_table, read from its piece. */
  lemma {:induction false} EntryAt(j: nat)
    requires 29 <= j < 64
    ensures KeywordTable[j] == if j < 45 then AssignAndPunctuation[j - 28] else Operators[j - 45]
  {
    TableLayout();
    if j < 45 {
      assert KeywordTable[j] == KeywordTable[28..45][j - 28];
    } else {
      assert KeywordTable[j] == KeywordTable[45..][j - 45];
    }
  }

  /** Every two-character operator of the lexer is spelled in the table. */
  lemma {:induction false} SecondSpelled(ch: char, c: char)
    requires Second(SymbolKind(ch), Ch(c)).Some?
    ensures exists j | 29 <= j < 64 :: KeywordTable[j] == ([ch, c], Second(SymbolKind(ch), Ch(c)).value)
  {
    var j: nat :=
      match ch
      case '+' => if c == '=' then 30 else 62
      case '-' => if c == '=' then 31 else 63
      case '*' => if c == '=' then 32 else 61
      case '/' => 33
      case '%' => 34
      case '|' => 47
      case '&' => 48
      case '=' => 49
      case '!' => 50
      case '>' => 52
      case _ => 54;
    EntryAt(j);
    assert KeywordTable[j] == ([ch, c], Second(SymbolKind(ch), Ch(c)).value);
  }

  /** The two-character operators the lexer knows are exactly the
      two-character spellings in keyword_table. */
  lemma {:induction false} SecondIsTable(ch: char, c: char, k: Kind)
    ensures Second(SymbolKind(ch), Ch(c)) == Some(k) <==>
      exists j | 29 <= j < 64 :: KeywordTable[j] == ([ch, c], k)
  {
    if Second(SymbolKind(ch), Ch(c)) == Some(k) {
      SecondSpelled(ch, c);
    }
    if exists j | 29 <= j < 64 :: KeywordTable[j] == ([ch, c], k) {
      var j :| 29 <= j < 64 && KeywordTable[j] == ([ch, c], k);
      SymbolEntry(j);
    }
  }

  /** A symbol character is neither a letter, a digit, white space nor a
      double quote (the quote has its own case). */
  lemma {:induction false} SymbolChar(ch: char)
    requires SymbolKind(ch) != Others && ch != '"'
    ensures !AlnumChar(ch) && !SpaceChar(ch) && CharKind(ch) == SymbolKind(ch)
  {
  }

  /** The Symbol case of ScanOperator. */
  lemma {:induction false} SymbolOperator(src: string, i: nat, j: nat)
    requires 29 <= j < 64 && |KeywordTable[j].0| == 2
    requires i + 1 < |src| && src[i..i + 2] == KeywordTable[j].0
    ensures !AlnumChar(src[i]) && !SpaceChar(src[i]) && src[i] != '"'
    ensures src[i] == '/' ==> src[i + 1] == '='
    ensures Symbol(src, SymbolKind(src[i]), At(src, i + 1)) == Ok((Token(KeywordTable[j].1, NoPayload), At(src, i + 2)))
  {
    SymbolEntry(j);
    assert src[i] == KeywordTable[j].0[0] && src[i + 1] == KeywordTable[j].0[1];
    SymbolChar(src[i]);
    AdvanceAt(src, i + 1);
  }

  /** A two-character operator spelled in keyword_table is read as one
      token, by longest match. */
  lemma {:induction false} ScanOperator(src: string, i: nat, j: nat)
    requires 29 <= j < 64 && |KeywordTable[j].0| == 2
    requires i + 1 < |src| && src[i..i + 2] == KeywordTable[j].0
    ensures Scan(src, At(src, i)) == Ok((Token(KeywordTable[j].1, NoPayload), At(src, i + 2)))
  {
    SymbolOperator(src, i, j);
    AdvanceAt(src, i);
    ScanSymbol(src, At(src, i));
  }

  /** The Symbol case of ScanSingle. */
  lemma {:induction false} SymbolSingle(src: string, i: nat)
    requires i < |src| && !AlnumChar(src[i]) && !SpaceChar(src[i]) && src[i] != '"'
    requires i + 1 < |src| ==> forall j | 29 <= j < 64 :: KeywordTable[j].0 != src[i..i + 2]
    ensures var k := CharKind(src[i]);
      && k == SymbolKind(src[i])
      && Symbol(src, k, At(src, i + 1)) ==
        if k == Pipe then Err(LexFatal(LonePipe))
        else if k == Amp then Err(LexFatal(LoneAmp))
        else Ok((Token(k, NoPayload), At(src, i + 1)))
  {
    var k := SymbolKind(src[i]);
    if i + 1 < |src| {
      assert src[i..i + 2] == [src[i], src[i + 1]];
      if Second(k, Ch(src[i + 1])).Some? {
        SecondSpelled(src[i], src[i + 1]);
      }
    }
  }

  /** Any other character that starts no word, number, string or comment
      is read alone when it and the next one spell no operator: a lone '|'
      or '&' is fatal, a symbol is its own kind and anything else is
      OTHERS. */
  lemma {:induction false} ScanSingle(src: string, i: nat)
    requires i < |src| && !AlnumChar(src[i]) && !SpaceChar(src[i]) && src[i] != '"'
    requires i + 1 < |src| ==> forall j | 29 <= j < 64 :: KeywordTable[j].0 != src[i..i + 2]
    requires i + 1 < |src| && src[i] == '/' ==> src[i + 1] != '*' && src[i + 1] != '/'
    ensures var k := CharKind(src[i]);
      Scan(src, At(src, i)) ==
        if k == Pipe then Err(LexFatal(LonePipe))
        else if k == Amp then Err(LexFatal(LoneAmp))
        else Ok((Token(k, NoPayload), At(src, i + 1)))
  {
    SymbolSingle(src, i);
    AdvanceAt(src, i);
    ScanSymbol(src, At(src, i));
  }
}

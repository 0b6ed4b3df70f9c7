/** What the lexer's state machine (src/lexer.c) does with each kind of
    input, stated over `Lexer.Aux` and `Lexer.NextToken`. */
module LexerProperties {
  import opened LibC
  import opened Tokens
  import opened Lexer

  /** White space between tokens is skipped: a scan that starts in front
      of a run of white space gives what a scan after it gives. */
  lemma {:induction false} SkipsWhitespace(input: seq<char>, i: nat, j: nat, lexeme: string)
    requires i <= j <= |input|
    requires forall k :: i <= k < j ==> IsSpace(input[k])
    ensures Aux(input, i, TokenKind.None, lexeme) == Aux(input, j, TokenKind.None, lexeme)
    decreases j - i
  {
    if i < j {
      SkipsSpace(input, i, lexeme);
      SkipsWhitespace(input, i + 1, j, lexeme);
    }
  }

  /** One white-space character in state NONE is read and dropped. */
  lemma SkipsSpace(input: seq<char>, i: nat, lexeme: string)
    requires i < |input| && IsSpace(input[i])
    ensures Aux(input, i, TokenKind.None, lexeme) == Aux(input, i + 1, TokenKind.None, lexeme)
  {
  }

  predicate IsIdentifierChar(c: char)
  {
    IsAlnum(c) || c == '_'
  }

  lemma {:induction false} IdentifierContinues(input: seq<char>, i: nat, k: nat, j: nat)
    requires i < k <= j <= |input|
    requires forall m :: k <= m < j ==> IsIdentifierChar(input[m])
    requires j < |input| ==> !IsIdentifierChar(input[j])
    ensures Aux(input, k, Identifier, input[i..k]) == Scan(true, Identifier, input[i..j], j, j == |input|)
    decreases j - k
  {
    if k < j {
      assert input[i..k] + [input[k]] == input[i..k + 1];
      IdentifierContinues(input, i, k + 1, j);
    }
  }

  /** An identifier starts with a letter and runs over letters, digits
      and underscores; the first other character is pushed back, and is
      where the next token starts. Keywords are then told apart by
      prefix. */
  lemma ScansIdentifier(input: seq<char>, i: nat, j: nat)
    requires i < j <= |input| && IsAlpha(input[i])
    requires forall m :: i < m < j ==> IsIdentifierChar(input[m])
    requires j < |input| ==> !IsIdentifierChar(input[j])
    ensures Aux(input, i, TokenKind.None, []) == Scan(true, Identifier, input[i..j], j, j == |input|)
    ensures NextToken(input, i, false)
         == Lexed(true, Token(Keyword(input[i..j]), 0, 0, input[i..j]), j, j == |input|)
  {
    assert [] + [input[i]] == input[i..i + 1];
    IdentifierContinues(input, i, i + 1, j);
  }

  lemma {:induction false} IntegerContinues(input: seq<char>, i: nat, k: nat, j: nat)
    requires i < k <= j <= |input|
    requires forall m :: k <= m < j ==> IsDigit(input[m])
    requires j < |input| ==> !IsDigit(input[j])
    ensures Aux(input, k, Integer, input[i..k]) == Scan(true, Integer, input[i..j], j, j == |input|)
    decreases j - k
  {
    if k < j {
      assert input[i..k] + [input[k]] == input[i..k + 1];
      IntegerContinues(input, i, k + 1, j);
    }
  }

  /** An integer literal is a maximal run of digits; the character after
      it (a letter included) is pushed back. */
  lemma ScansInteger(input: seq<char>, i: nat, j: nat)
    requires i < j <= |input|
    requires forall m :: i <= m < j ==> IsDigit(input[m])
    requires j < |input| ==> !IsDigit(input[j])
    ensures NextToken(input, i, false) == Lexed(true, Token(Integer, 0, 0, input[i..j]), j, j == |input|)
  {
    assert [] + [input[i]] == input[i..i + 1];
    IntegerContinues(input, i, i + 1, j);
  }

  lemma {:induction false} StringContinues(input: seq<char>, i: nat, k: nat, j: nat)
    requires i <= k <= j <= |input|
    requires forall m :: k <= m < j ==> input[m] != '"'
    ensures j < |input| && input[j] == '"' ==>
      Aux(input, k, TokenKind.String, input[i..k]) == Scan(true, TokenKind.String, input[i..j], j + 1, false)
    ensures j == |input| ==>
      Aux(input, k, TokenKind.String, input[i..k]) == Scan(false, Illegal, input[i..j], j, true)
    decreases j - k
  {
    if k < j {
      assert input[i..k] + [input[k]] == input[i..k + 1];
      StringContinues(input, i, k + 1, j);
    }
  }

  /** A double quote starts a string literal. Its lexeme is the text up to
      the next double quote, both quotes left out and white space kept. */
  lemma ScansString(input: seq<char>, i: nat, j: nat)
    requires i < j < |input| && input[i] == '"' && input[j] == '"'
    requires forall m :: i < m < j ==> input[m] != '"'
    ensures NextToken(input, i, false) == Lexed(true, Token(TokenKind.String, 0, 0, input[i + 1..j]), j + 1, false)
  {
    StringContinues(input, i + 1, i + 1, j);
    assert input[i + 1..i + 1] == [];
  }

  /** A string literal without its closing quote runs into the end of the
      input and is ILLEGAL. */
  lemma UnterminatedString(input: seq<char>, i: nat)
    requires i < |input| && input[i] == '"'
    requires forall m :: i < m < |input| ==> input[m] != '"'
    ensures NextToken(input, i, false) == Lexed(false, Token(Illegal, 0, 0, input[i + 1..]), |input|, true)
  {
    StringContinues(input, i + 1, i + 1, |input|);
    assert input[i + 1..i + 1] == [];
  }

  /** `=`, `>`, `<` and `!` look at the next character: an `=` makes the
      two-character operator; anything else is pushed back and the
      one-character operator is the token. At the end of the input `=`,
      `>` and `<` stand alone but `!` is ILLEGAL. */
  lemma ScansComparison(input: seq<char>, i: nat)
    requires i < |input| && input[i] in "=<>!"
    ensures var c := input[i];
      && (i + 1 < |input| && input[i + 1] == '=' ==>
            NextToken(input, i, false) == Lexed(true, Token(WithEqual(OpenKind(c)), 0, 0, [c, '=']), i + 2, false))
      && (i + 1 < |input| && input[i + 1] != '=' ==>
            NextToken(input, i, false) == Lexed(true, Token(OpenKind(c), 0, 0, [c]), i + 1, false))
      && (i + 1 == |input| && c != '!' ==>
            NextToken(input, i, false) == Lexed(true, Token(OpenKind(c), 0, 0, [c]), i + 1, true))
      && (i + 1 == |input| && c == '!' ==>
            NextToken(input, i, false) == Lexed(false, Token(Illegal, 0, 0, "!"), i + 1, true))
  {
    var c := input[i];
    assert Aux(input, i, TokenKind.None, []) == Aux(input, i + 1, OpenKind(c), [c]);
  }

  /** The four two-character operators. */
  lemma TwoCharacterKinds()
    ensures WithEqual(OpenKind('=')) == Equal && WithEqual(OpenKind('>')) == GreaterEqual
    ensures WithEqual(OpenKind('<')) == LessEqual && WithEqual(OpenKind('!')) == NotEqual
  {
  }

  lemma {:induction false} CommentContinues(input: seq<char>, i: nat, k: nat, j: nat)
    requires i < k <= j <= |input|
    requires forall m :: k <= m < j ==> input[m] != '\n'
    ensures j < |input| && input[j] == '\n' ==>
      Aux(input, k, Comment, input[i..k]) == Aux(input, j + 1, TokenKind.None, [])
    ensures j == |input| ==>
      Aux(input, k, Comment, input[i..k]) == Scan(true, End, input[i..j], j, true)
    decreases j - k
  {
    if k < j {
      assert input[i..k] + [input[k]] == input[i..k + 1];
      CommentContinues(input, i, k + 1, j);
    }
  }

  /** `//` starts a comment that runs to the end of the line. It never
      becomes a token: the scan continues after the newline, or gives END
      at the end of the input. */
  lemma SkipsComment(input: seq<char>, i: nat, j: nat)
    requires i + 2 <= j <= |input| && input[i] == '/' && input[i + 1] == '/'
    requires forall m :: i + 2 <= m < j ==> input[m] != '\n'
    ensures j < |input| && input[j] == '\n' ==>
      Aux(input, i, TokenKind.None, []) == Aux(input, j + 1, TokenKind.None, [])
    ensures j == |input| ==>
      NextToken(input, i, false) == Lexed(true, Token(End, 0, 0, input[i..j]), j, true)
  {
    assert [] + [input[i]] == input[i..i + 1];
    assert input[i..i + 1] + [input[i + 1]] == input[i..i + 2];
    assert Aux(input, i, TokenKind.None, []) == Aux(input, i + 1, Divide, input[i..i + 1]);
    assert Aux(input, i + 1, Divide, input[i..i + 1]) == Aux(input, i + 2, Comment, input[i..i + 2]);
    CommentContinues(input, i, i + 2, j);
  }

  /** A single `/` not followed by another is the division operator. */
  lemma ScansDivide(input: seq<char>, i: nat)
    requires i < |input| && input[i] == '/'
    requires i + 1 < |input| ==> input[i + 1] != '/'
    ensures NextToken(input, i, false) == Lexed(true, Token(Divide, 0, 0, "/"), i + 1, i + 1 == |input|)
  {
    assert Aux(input, i, TokenKind.None, []) == Aux(input, i + 1, Divide, "/");
  }

  /** At the end of the input the lexer yields END and sets the
      end-of-file indicator; from then on lexer_next fails at once. */
  lemma EndOfInput(input: seq<char>)
    ensures NextToken(input, |input|, false) == Lexed(true, Token(End, 0, 0, []), |input|, true)
    ensures !NextToken(input, |input|, true).ok
  {
  }

  /** Each punctuation and single-character operator character yields its
      own kind and is consumed; any other character that starts no token
      is ILLEGAL and lexer_next fails. */
  lemma ScansSingle(input: seq<char>, i: nat)
    requires i < |input|
    requires var c := input[i]; !IsSpace(c) && !IsAlnum(c) && c != '"' && !Opens(c)
    ensures NextToken(input, i, false)
         == Lexed(SingleKind(input[i]) != Illegal, Token(SingleKind(input[i]), 0, 0, [input[i]]), i + 1, false)
  {
  }

  /** Distinct punctuation characters give distinct kinds. */
  lemma SingleKindInjective(a: char, b: char)
    requires SingleKind(a) != Illegal && SingleKind(a) == SingleKind(b)
    ensures a == b
  {
  }

  /** Examples on fixed inputs: an identifier that merely starts with a
      keyword is that keyword. */
  lemma KeywordByPrefix()
    ensures Keyword("letter") == Let && Keyword("iffy") == If && Keyword("fnord") == Function
    ensures Keyword("truest") == True && Keyword("elsewhere") == Else
    ensures Keyword("le") == Identifier && Keyword("x") == Identifier
  {
    assert "iffy"[0] == 'i' && "fnord"[0] == 'f' && "fnord"[1] == 'n';
  }
}

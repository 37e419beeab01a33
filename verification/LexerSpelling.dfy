/** What the tokens of the lexer spell, in terms of their characters alone. */
module LexerSpelling {
  import opened Tokens
  import opened Lexer

  // ---------- spellings ----------

  predicate Letter(c: char) { 'A' <= c <= 'Z' || 'a' <= c <= 'z' || c == '_' }

  predicate Digit(c: char) { '0' <= c <= '9' }

  predicate Blank(c: char) { c in " \t\r\n" }

  predicate Digits(s: string) { forall k :: 0 <= k < |s| ==> Digit(s[k]) }

  predicate Blanks(s: string) { forall k :: 0 <= k < |s| ==> Blank(s[k]) }

  /** A letter, and letters and digits behind it. */
  predicate Word(s: string) {
    s != [] && Letter(s[0]) && forall k :: 0 <= k < |s| ==> Letter(s[k]) || Digit(s[k])
  }

  /** A point with digits before it, behind it or both. */
  predicate Mantissa(s: string) {
    |s| >= 2 && exists k :: 0 <= k < |s| && s[k] == '.' && Digits(s[..k]) && Digits(s[k + 1..])
  }

  predicate Marked(s: string) {
    s != [] && s[|s| - 1] in "eE" && Mantissa(s[..|s| - 1])
  }

  predicate Signed(s: string) {
    s != [] && s[|s| - 1] in "+-" && Marked(s[..|s| - 1])
  }

  /** A mantissa, the mark of an exponent, an optional sign and one digit at least. */
  predicate Scaled(s: string) {
    exists k :: 0 <= k < |s| && (Marked(s[..k]) || Signed(s[..k])) && Digits(s[k..])
  }

  predicate Quoted(s: string) {
    |s| >= 2 && s[0] == '"' && s[|s| - 1] == '"' && '"' !in s[1..|s| - 1]
  }

  predicate LineRemark(s: string) {
    |s| >= 3 && s[..2] == "//" && s[|s| - 1] == '\n' && '\n' !in s[2..|s| - 1]
  }

  /** The end of `s` is where the last of `depth` block comments is closed: marks are read in pairs of characters, so
      that the first of a pair of stars does not close anything with what follows. */
  predicate Closes(s: string, depth: nat)
    decreases |s|
  {
    if depth == 0 then s == []
    else if s == [] then false
    else if s[0] != '/' && s[0] != '*' then Closes(s[1..], depth)
    else if |s| == 1 then false
    else Closes(s[2..], if s[..2] == "/*" then depth + 1 else if s[..2] == "*/" then depth - 1 else depth)
  }

  predicate BlockRemark(s: string) {
    |s| >= 2 && s[..2] == "/*" && Closes(s[2..], 1)
  }

  /** The tokens that have just one spelling, and are no words. */
  const SYMBOLS: set<(Token, string)> := {
    (AMPERSAND, "&"), (AMPERSAND_BIS, "&&"), (AMPERSAND_EQUAL, "&="), (BANG, "!"), (BANG_EQUAL, "!="),
    (BRA_LEFT, "{"), (BRA_RIGHT, "}"), (CARET, "^"), (CARET_EQUAL, "^="), (COLON, ":"), (COLON_BIS, "::"),
    (COMMA, ","), (DOT, "."), (EQUAL, "="), (EQUAL_BIS, "=="), (KET_LEFT, "<"), (KET_LEFT_BIS, "<<"),
    (KET_LEFT_BIS_EQUAL, "<<="), (KET_LEFT_EQUAL, "<="), (KET_RIGHT, ">"), (KET_RIGHT_BIS, ">>"),
    (KET_RIGHT_BIS_EQUAL, ">>="), (KET_RIGHT_EQUAL, ">="), (MINUS, "-"), (MINUS_EQUAL, "-="), (MINUS_KET_RIGHT, "->"),
    (PAR_LEFT, "("), (PAR_RIGHT, ")"), (PERCENT, "%"), (PERCENT_EQUAL, "%="), (PIPE, "|"), (PIPE_BIS, "||"),
    (PIPE_EQUAL, "|="), (PLUS, "+"), (PLUS_EQUAL, "+="), (QUESTION, "?"), (SEMI_COLON, ";"), (SLASH, "/"),
    (SLASH_EQUAL, "/="), (SQR_LEFT, "["), (SQR_RIGHT, "]"), (STAR, "*"), (STAR_EQUAL, "*="), (TILDE, "~")
  }

  /** The tokens that are spelled by certain words. */
  const RESERVED: set<(Token, string)> := {
    (IF, "if"), (ELSE, "else"), (LET, "let"), (FUNC, "func"), (CLASS, "class"), (WHILE, "while"), (EXPORT, "export"),
    (IMPORT, "import"), (MODULE, "module"), (RETURN, "return")
  }

  predicate IsSymbol(t: Token, s: string) { (t, s) in SYMBOLS }

  predicate IsKeyed(t: Token, s: string) { (t, s) in RESERVED }

  predicate IsReserved(s: string) {
    s in {"if", "else", "let", "func", "class", "while", "export", "import", "module", "return"}
  }

  /** Whether characters that are not a word spell a token. */
  predicate SpellsOther(t: Token, s: string) {
    if t.WHITESPACE? then s != [] && Blanks(s)
    else if t.COMMENT? then s == "*/" || LineRemark(s) || BlockRemark(s)
    else if t.LIT_INTEGER? then s != [] && Digits(s)
    else if t.LIT_DECIMAL? then Mantissa(s) || Scaled(s)
    else if t.DATA? then Quoted(s)
    else IsSymbol(t, s)
  }

  /** Whether characters spell a token. */
  predicate Spells(t: Token, s: string) {
    if t.IDENTIFIER? then Word(s) && !IsReserved(s)
    else IsKeyed(t, s) || SpellsOther(t, s)
  }

  // ---------- what a node has read ----------

  /** Nodes that have read the symbol of their token, and may go on. */
  predicate Sign(n: Node) {
    n.Plus? || n.Star? || n.Percent? || n.Caret? || n.Minus? || n.KetLeft? || n.KetLeftBis? || n.KetRight?
    || n.KetRightBis? || n.Bang? || n.Equal? || n.Pipe? || n.Colon? || n.Ampersand? || n.Slash? || n.Dot?
  }

  /** What was read where the automaton is at a node. */
  ghost predicate Shape(n: Node, s: string) {
    if n.Initial? then s == []
    else if n.Whitespace? then s != [] && Blanks(s)
    else if n.Identifier? then Word(s)
    else if n.QuoteDouble? then s != [] && s[0] == '"' && '"' !in s[1..]
    else if n.CommentLine? then |s| >= 2 && s[..2] == "//" && '\n' !in s[2..]
    else if InBlock(n) then |s| >= 2 && s[..2] == "/*"
    else if n.Number? then s != [] && Digits(s)
    else if n.Decimal0? then Mantissa(s)
    else if n.Decimal1? then Marked(s)
    else if n.Decimal2? then Signed(s)
    else if n.Decimal3? then Scaled(s)
    else if n.Final? then SpellsOther(n.token, s)
    else Sign(n) && IsSymbol(Match(n), s)
  }

  predicate Numeric(n: Node) {
    n.Number? || n.Decimal0? || n.Decimal1? || n.Decimal2? || n.Decimal3?
  }

  /** From one node to the next, by a character that leads to no mark of a block comment. */
  ghost predicate Onward(n: Node, s: string, c: char) {
    && Shape(n, s) && c != '\'' && Next(n, c).Some?
    && !Next(n, c).value.SlashStar? && !Next(n, c).value.StarSlash?
  }

  /** Tokens with a symbol. */
  predicate Plainly(t: Token) {
    !t.WHITESPACE? && !t.COMMENT? && !t.LIT_INTEGER? && !t.LIT_DECIMAL? && !t.DATA?
  }

  /** A node whose token is spelled by what was read. */
  predicate HasRead(n: Node, s: string) {
    (Sign(n) || (n.Final? && Plainly(n.token))) && IsSymbol(Match(n), s)
  }

  lemma HasShape(n: Node, s: string)
    requires HasRead(n, s)
    ensures Shape(n, s)
  {
    hide Blanks, Digits, Word, Mantissa, Marked, Signed, Scaled, Quoted, LineRemark, BlockRemark, IsSymbol;
  }

  /** The token of a character alone. */
  function Single(c: char): Token {
    if c == '(' then PAR_LEFT else if c == ')' then PAR_RIGHT else if c == '{' then BRA_LEFT
    else if c == '}' then BRA_RIGHT else if c == '[' then SQR_LEFT else if c == ']' then SQR_RIGHT
    else if c == ';' then SEMI_COLON else if c == ',' then COMMA else if c == '?' then QUESTION
    else if c == '~' then TILDE else if c == '+' then PLUS else if c == '-' then MINUS else if c == '*' then STAR
    else if c == '/' then SLASH else if c == '%' then PERCENT else if c == '^' then CARET else if c == '.' then DOT
    else if c == '<' then KET_LEFT else if c == '>' then KET_RIGHT else if c == '=' then EQUAL
    else if c == '!' then BANG else if c == '|' then PIPE else if c == '&' then AMPERSAND else COLON
  }

  /** The token of a sign before an equals sign. */
  function Equaled(n: Node): Token {
    match n
    case Plus => PLUS_EQUAL
    case Minus => MINUS_EQUAL
    case Star => STAR_EQUAL
    case Slash => SLASH_EQUAL
    case Percent => PERCENT_EQUAL
    case Caret => CARET_EQUAL
    case KetLeft => KET_LEFT_EQUAL
    case KetLeftBis => KET_LEFT_BIS_EQUAL
    case KetRight => KET_RIGHT_EQUAL
    case KetRightBis => KET_RIGHT_BIS_EQUAL
    case Bang => BANG_EQUAL
    case Equal => EQUAL_BIS
    case Pipe => PIPE_EQUAL
    case _ => AMPERSAND_EQUAL
  }

  /** The token of a sign before some other character. */
  function Doubled(n: Node): Token {
    match n
    case Minus => MINUS_KET_RIGHT
    case KetLeft => KET_LEFT_BIS
    case KetRight => KET_RIGHT_BIS
    case Pipe => PIPE_BIS
    case Colon => COLON_BIS
    case _ => AMPERSAND_BIS
  }

  predicate Opens(c: char) { IsWhitespace(c) || IsAlpha(c) || IsDigit(c) || c == '"' }

  predicate IsSingle(c: char) {
    c in {'(', ')', '{', '}', '[', ']', ';', ',', '?', '~', '+', '-', '*', '/', '%', '^', '.', '<', '>', '=', '!', '|',
          '&', ':'}
  }

  lemma WhichAreSingle(c: char)
    requires FromInitial(c).Some? && c != '\'' && !Opens(c)
    ensures IsSingle(c)
  {
  }

  /** The node that has read a symbol. */
  function NodeOf(t: Token): Node
    requires Ordinary(t)
  {
    if t.PLUS? then Plus else if t.MINUS? then Minus else if t.STAR? then Star else if t.SLASH? then Slash
    else if t.PERCENT? then Percent else if t.CARET? then Caret else if t.DOT? then Dot
    else if t.KET_LEFT? then KetLeft else if t.KET_LEFT_BIS? then KetLeftBis
    else if t.KET_RIGHT? then KetRight else if t.KET_RIGHT_BIS? then KetRightBis
    else if t.BANG? then Bang else if t.EQUAL? then Equal else if t.PIPE? then Pipe else if t.COLON? then Colon
    else if t.AMPERSAND? then Ampersand else Final(t)
  }

  predicate HasSign(t: Token) {
    t.PLUS? || t.MINUS? || t.STAR? || t.SLASH? || t.PERCENT? || t.CARET? || t.DOT? || t.KET_LEFT? || t.KET_LEFT_BIS?
    || t.KET_RIGHT? || t.KET_RIGHT_BIS? || t.BANG? || t.EQUAL? || t.PIPE? || t.COLON? || t.AMPERSAND?
  }

  lemma SignedMatches(t: Token)
    requires HasSign(t)
    ensures Ordinary(t) && Match(NodeOf(t)) == t && Sign(NodeOf(t))
  {
  }

  lemma OtherNode(t: Token)
    requires Ordinary(t) && !HasSign(t)
    ensures NodeOf(t) == Final(t)
  {
  }

  lemma NodeMatches(t: Token)
    requires Ordinary(t)
    ensures Match(NodeOf(t)) == t && (Sign(NodeOf(t)) || NodeOf(t) == Final(t))
  {
    hide Ordinary, HasSign, NodeOf, Sign;
    if HasSign(t) {
      SignedMatches(t);
    } else {
      OtherNode(t);
    }
  }

  predicate IsLone(c: char) {
    c in {'(', ')', '{', '}', '[', ']', ';', ',', '?', '~'}
  }

  lemma LoneNode(c: char)
    requires IsLone(c)
    ensures Ordinary(Single(c)) && FromInitial(c) == Some(NodeOf(Single(c)))
  {
  }

  predicate Calculating(c: char) {
    c == '+' || c == '-' || c == '*' || c == '/' || c == '%' || c == '^' || c == '.'
  }

  lemma CalculatingNode(c: char)
    requires Calculating(c)
    ensures Ordinary(Single(c)) && FromInitial(c) == Some(NodeOf(Single(c)))
  {
  }

  lemma ComparingNode(c: char)
    requires IsSingle(c) && !IsLone(c) && !Calculating(c)
    ensures Ordinary(Single(c)) && FromInitial(c) == Some(NodeOf(Single(c)))
  {
  }

  lemma SingleNode(c: char)
    requires IsSingle(c)
    ensures Ordinary(Single(c)) && FromInitial(c) == Some(NodeOf(Single(c)))
  {
    hide FromInitial, Single, IsSingle, NodeOf, Ordinary;
    if IsLone(c) {
      LoneNode(c);
    } else if Calculating(c) {
      CalculatingNode(c);
    } else {
      ComparingNode(c);
    }
  }

  lemma SingleIsPlain(c: char)
    requires IsSingle(c)
    ensures Plainly(Single(c))
  {
  }

  lemma SingleSpells(c: char)
    requires IsSingle(c)
    ensures IsSymbol(Single(c), [c])
  {
  }

  lemma FirstBegins(c: char)
    requires Opens(c)
    ensures FromInitial(c) ==
              Some(if IsWhitespace(c) then Whitespace else if IsAlpha(c) then Identifier else if IsDigit(c) then Number
                   else QuoteDouble)
  {
  }

  lemma RunBegins(c: char)
    requires Opens(c)
    ensures FromInitial(c).Some? && Shape(FromInitial(c).value, [c])
  {
    hide FromInitial, SpellsOther, IsSymbol, Mantissa, Scaled, Marked, Signed;
    FirstBegins(c);
  }

  lemma FromNothing(s: string, c: char)
    requires Onward(Initial, s, c)
    ensures Next(Initial, c).Some? && Shape(Next(Initial, c).value, s + [c])
  {
    hide FromInitial, Shape, Opens, Single, Match, Sign, Next, Onward, IsSingle, Plainly, NodeOf, Ordinary;
    FirstCharacter(s, c);
    if Opens(c) {
      RunBegins(c);
    } else {
      WhichAreSingle(c);
      SingleNode(c);
      NodeMatches(Single(c));
      SingleIsPlain(c);
      SingleSpells(c);
      HasShape(FromInitial(c).value, [c]);
    }
  }

  lemma FirstCharacter(s: string, c: char)
    requires Onward(Initial, s, c)
    ensures s + [c] == [c] && Next(Initial, c) == FromInitial(c) && FromInitial(c).Some? && c != '\''
  {
    hide FromInitial;
  }

  lemma EqualGoesOn(n: Node)
    requires Sign(n) && !n.Dot? && !n.Colon?
    ensures Next(n, '=') == Some(Final(Equaled(n))) && Plainly(Equaled(n))
  {
  }

  predicate Calculates(n: Node) {
    n.Plus? || n.Minus? || n.Star? || n.Slash? || n.Percent? || n.Caret?
  }

  lemma CalculationSpells(n: Node, s: string)
    requires Calculates(n) && IsSymbol(Match(n), s)
    ensures IsSymbol(Equaled(n), s + ['='])
  {
    assert s + ['='] == [s[0], '='];
  }

  lemma ComparisonSpells(n: Node, s: string)
    requires Sign(n) && !Calculates(n) && !n.Dot? && !n.Colon? && IsSymbol(Match(n), s)
    ensures IsSymbol(Equaled(n), s + ['='])
  {
    assert |s| == 1 ==> s + ['='] == [s[0], '='];
    assert |s| == 2 ==> s + ['='] == [s[0], s[1], '='];
  }

  lemma EqualSpells(n: Node, s: string)
    requires Sign(n) && !n.Dot? && !n.Colon? && IsSymbol(Match(n), s)
    ensures IsSymbol(Equaled(n), s + ['='])
  {
    hide IsSymbol, Match, Equaled, Sign;
    if Calculates(n) {
      CalculationSpells(n, s);
    } else {
      ComparisonSpells(n, s);
    }
  }

  /** What else follows a sign, but the marks of comments and what follows a point. */
  predicate Doubles(n: Node, c: char) {
    match n
    case Minus => c == '>'
    case KetLeft => c == '<'
    case KetRight => c == '>'
    case Pipe => c == '|'
    case Colon => c == ':'
    case Ampersand => c == '&'
    case _ => false
  }

  lemma WhichDouble(n: Node, c: char)
    requires Sign(n) && !n.Slash? && !n.Dot? && c != '=' && Next(n, c).Some? && !Next(n, c).value.StarSlash?
    ensures Doubles(n, c)
  {
  }

  lemma DoubleGoesOn(n: Node, c: char)
    requires Doubles(n, c)
    ensures Next(n, c).Some?
    ensures var m := Next(n, c).value; Match(m) == Doubled(n) && (Sign(m) || (m.Final? && Plainly(m.token)))
  {
  }

  lemma DoubleSpells(n: Node, s: string, c: char)
    requires Doubles(n, c) && IsSymbol(Match(n), s)
    ensures IsSymbol(Doubled(n), s + [c])
  {
    assert |s| == 1 ==> s + [c] == [s[0], c];
  }

  lemma FromSign(n: Node, s: string, c: char)
    requires Onward(n, s, c) && Sign(n) && !n.Dot? && !(n.Slash? && c != '=')
    ensures Shape(Next(n, c).value, s + [c])
  {
    hide IsSymbol, Next, Shape, Sign, Match, Equaled, Doubled, Doubles;
    SignIsRead(n, s);
    if c == '=' {
      NotColon(n, s, c);
      EqualGoesOn(n);
      EqualSpells(n, s);
      FinalMatches(Equaled(n));
    } else {
      WhichDouble(n, c);
      DoubleGoesOn(n, c);
      DoubleSpells(n, s, c);
    }
    HasShape(Next(n, c).value, s + [c]);
  }

  lemma SignIsRead(n: Node, s: string)
    requires Shape(n, s) && Sign(n)
    ensures IsSymbol(Match(n), s)
  {
    hide Blanks, Digits, Word, Mantissa, Marked, Signed, Scaled, Quoted, LineRemark, BlockRemark, IsSymbol;
  }

  lemma FinalMatches(t: Ending)
    ensures Match(Final(t)) == t
  {
  }

  lemma NotColon(n: Node, s: string, c: char)
    requires Onward(n, s, c) && c == '='
    ensures !n.Colon?
  {
    hide Shape;
  }

  lemma BareSymbol(t: Token, s: string)
    requires IsSymbol(t, s) && (t.SLASH? || t.STAR? || t.DOT?)
    ensures s == if t.SLASH? then "/" else if t.STAR? then "*" else "."
  {
  }

  lemma FromSlash(s: string, c: char)
    requires Onward(Slash, s, c) && c != '='
    ensures Shape(Next(Slash, c).value, s + [c])
  {
    hide Blanks, Digits, Word, Mantissa, Marked, Signed, Scaled, Quoted, LineRemark, BlockRemark, IsSymbol;
    BareSymbol(SLASH, s);
    assert s + [c] == [s[0], c];
  }

  lemma FromRun(n: Node, s: string, c: char)
    requires Onward(n, s, c) && (n.Whitespace? || n.Identifier? || n.QuoteDouble? || n.CommentLine? || InBlock(n))
    ensures Shape(Next(n, c).value, s + [c])
  {
    hide Mantissa, Marked, Signed, Scaled, BlockRemark, IsSymbol;
  }

  lemma FromDigits(s: string, c: char)
    requires Onward(Number, s, c)
    ensures Shape(Next(Number, c).value, s + [c])
  {
    hide Blanks, Word, Marked, Signed, Scaled, Quoted, LineRemark, BlockRemark, IsSymbol;
    assert (s + [c])[..|s|] == s && (s + [c])[|s| + 1..] == [];
  }

  lemma FromPoint(s: string, c: char)
    requires Onward(Dot, s, c)
    ensures Shape(Next(Dot, c).value, s + [c])
  {
    hide Blanks, Word, Marked, Signed, Scaled, Quoted, LineRemark, BlockRemark, IsSymbol;
    BareSymbol(DOT, s);
    assert s + [c] == ['.', c];
    assert ['.', c][..0] == [] && ['.', c][1..] == [c];
  }

  lemma FromMantissa(s: string, c: char)
    requires Onward(Decimal0, s, c)
    ensures Shape(Next(Decimal0, c).value, s + [c])
  {
    hide Blanks, Word, Scaled, Signed, Quoted, LineRemark, BlockRemark, IsSymbol;
    assert (s + [c])[..|s|] == s;
    if IsDigit(c) {
      MantissaGrows(s, c);
    }
  }

  lemma MantissaGrows(s: string, c: char)
    requires Mantissa(s) && Digit(c)
    ensures Mantissa(s + [c])
  {
    var k :| 0 <= k < |s| && s[k] == '.' && Digits(s[..k]) && Digits(s[k + 1..]);
    assert (s + [c])[k] == '.' && (s + [c])[..k] == s[..k] && (s + [c])[k + 1..] == s[k + 1..] + [c];
  }

  lemma FromMark(n: Node, s: string, c: char)
    requires Onward(n, s, c) && (n.Decimal1? || n.Decimal2?)
    ensures Shape(Next(n, c).value, s + [c])
  {
    hide Blanks, Word, Mantissa, Quoted, LineRemark, BlockRemark, IsSymbol;
    assert (s + [c])[..|s|] == s && (s + [c])[|s|..] == [c];
  }

  lemma FromScaled(s: string, c: char)
    requires Onward(Decimal3, s, c)
    ensures Shape(Next(Decimal3, c).value, s + [c])
  {
    hide Blanks, Word, Mantissa, Marked, Signed, Quoted, LineRemark, BlockRemark, IsSymbol;
    var k :| 0 <= k < |s| && (Marked(s[..k]) || Signed(s[..k])) && Digits(s[k..]);
    assert (s + [c])[..k] == s[..k] && (s + [c])[k..] == s[k..] + [c];
  }

  // ---------- block comments ----------

  /** The character of a pair that was begun. */
  function Pending(n: Node): string {
    if n.CommentSlash? then "/" else if n.CommentStar? then "*" else ""
  }

  lemma PairCloses(n: Node, depth: nat, c: char, rest: string)
    requires (n.CommentSlash? || n.CommentStar?) && depth > 0
    ensures Closes(Pending(n) + [c] + rest, depth) ==
              Closes(rest, if n.CommentSlash? && c == '*' then depth + 1
                           else if n.CommentStar? && c == '/' then depth - 1 else depth)
  {
    var s := Pending(n) + [c] + rest;
    assert s[0] == Pending(n)[0] && s[1] == c && s[2..] == rest && s[..2] == [s[0], c];
  }

  lemma BlockStep(n: Node, depth: nat, c: char, rest: string)
    requires InBlock(n) && depth > 0
    ensures Next(n, c).Some?
    ensures var p := Settled(Next(n, c).value, depth);
            if InBlock(p.node) then
              p.depth > 0 && Closes(Pending(n) + [c] + rest, depth) == Closes(Pending(p.node) + rest, p.depth)
            else p == Place(Final(COMMENT), 0) && Closes(Pending(n) + [c] + rest, depth) == (rest == [])
  {
    var s := Pending(n) + [c] + rest;
    assert "" + rest == rest;
    if n.BlockComment? {
      assert s == [c] + rest && s[1..] == rest;
    } else {
      PairCloses(n, depth, c, rest);
    }
  }

  lemma BlockOpens(s: string)
    requires |s| >= 2 && s[..2] == "/*"
    ensures Read(s[..2]) == Some(Place(BlockComment, 1))
  {
    hide Read;
    assert s[..2] == ['/'] + ['*'];
    ReadFirst('/');
    ReadOne(['/'], '*');
  }

  /** Inside a block comment what is left closes it, or does not, as the whole does. */
  lemma {:induction false} BlockSplit(s: string, k: nat)
    requires 2 <= k <= |s| && s[..2] == "/*" && Read(s[..k]).Some?
    ensures var p := Read(s[..k]).value;
            if InBlock(p.node) then p.depth > 0 && Closes(s[2..], 1) == Closes(Pending(p.node) + s[k..], p.depth)
            else p == Place(Final(COMMENT), 0) && Closes(s[2..], 1) == (k == |s|)
    decreases k
  {
    hide Closes, Next;
    if k == 2 {
      BlockOpens(s);
      assert "" + s[2..] == s[2..];
    } else {
      assert s[..k][..k - 1] == s[..k - 1];
      BlockSplit(s, k - 1);
      var before := Read(s[..k - 1]).value;
      if InBlock(before.node) {
        BlockStep(before.node, before.depth, s[k - 1], s[k..]);
        assert Pending(before.node) + s[k - 1..] == Pending(before.node) + [s[k - 1]] + s[k..];
      } else {
        FinalStops(COMMENT, s[k - 1]);
      }
    }
  }

  lemma FinalStops(t: Ending, c: char)
    ensures Next(Final(t), c).None?
  {
  }

  /** What closes a block comment is read to its end. */
  lemma {:induction false} BlockReads(s: string, k: nat)
    requires 2 <= k <= |s| && BlockRemark(s)
    ensures Read(s[..k]).Some?
    decreases k
  {
    hide Closes, Next;
    if k == 2 {
      BlockOpens(s);
    } else {
      BlockReads(s, k - 1);
      BlockSplit(s, k - 1);
      assert s[..k][..k - 1] == s[..k - 1];
      var before := Read(s[..k - 1]).value;
      BlockStep(before.node, before.depth, s[k - 1], s[k..]);
    }
  }

  lemma NothingCloses(n: Node, depth: nat)
    requires depth > 0
    ensures !Closes(Pending(n) + "", depth)
  {
  }

  // ---------- what was read ----------

  lemma {:induction false} ReadHasShape(s: string)
    requires '\'' !in s && Read(s).Some?
    ensures Shape(Read(s).value.node, s)
    decreases |s|
  {
    hide Shape, Next, InBlock;
    if s == [] {
      ShapeOfNone();
    } else {
      var front, c := s[..|s| - 1], s[|s| - 1];
      assert s == front + [c] && c in s;
      ReadHasShape(front);
      ReadIsPlain(front);
      var before := Read(front).value;
      var next := Next(before.node, c).value;
      if next.SlashStar? {
        BlockGoesOn(before.node, front, c);
      } else if next.StarSlash? {
        BlockEnds(before, front, c);
      } else {
        ShapeStep(before.node, front, c);
      }
    }
  }

  lemma ShapeOfNone()
    ensures Shape(Initial, [])
  {
    hide Blanks, Digits, Word, Mantissa, Marked, Signed, Scaled, Quoted, LineRemark, BlockRemark, IsSymbol;
  }

  lemma ShapeStep(n: Node, s: string, c: char)
    requires Onward(n, s, c)
    ensures Shape(Next(n, c).value, s + [c])
  {
    NodeKinds(n, s, c);
    hide Shape, Next, InBlock, Numeric, Sign;
    if n.Initial? {
      FromNothing(s, c);
    } else if n.Slash? && c != '=' {
      FromSlash(s, c);
    } else if n.Dot? {
      FromPoint(s, c);
    } else if Sign(n) {
      FromSign(n, s, c);
    } else if n.Number? {
      FromDigits(s, c);
    } else if n.Decimal0? {
      FromMantissa(s, c);
    } else if n.Decimal1? || n.Decimal2? {
      FromMark(n, s, c);
    } else if n.Decimal3? {
      FromScaled(s, c);
    } else {
      FromRun(n, s, c);
    }
  }

  lemma NodeKinds(n: Node, s: string, c: char)
    requires Onward(n, s, c)
    ensures n.Initial? || Sign(n) || Numeric(n) || n.Whitespace? || n.Identifier? || n.QuoteDouble? || n.CommentLine?
            || InBlock(n)
  {
    hide Blanks, Digits, Word, Mantissa, Marked, Signed, Scaled, Quoted, LineRemark, BlockRemark, IsSymbol;
  }

  lemma BlockGoesOn(n: Node, s: string, c: char)
    requires Shape(n, s) && Next(n, c).Some? && Next(n, c).value.SlashStar?
    ensures Shape(BlockComment, s + [c])
  {
    hide Blanks, Digits, Word, Mantissa, Marked, Signed, Scaled, Quoted, LineRemark, BlockRemark, IsSymbol;
    if n.Slash? {
      BareSymbol(SLASH, s);
      assert s + [c] == [s[0], c];
    } else {
      assert (s + [c])[..2] == s[..2];
    }
  }

  lemma BlockEnds(before: Place, s: string, c: char)
    requires Shape(before.node, s) && Read(s) == Some(before) && (before.depth > 0 <==> InBlock(before.node))
    requires Next(before.node, c).Some? && Next(before.node, c).value.StarSlash?
    ensures Shape(Settled(StarSlash, before.depth).node, s + [c])
  {
    hide Blanks, Digits, Word, Mantissa, Marked, Signed, Scaled, Quoted, LineRemark, Closes, Read, IsSymbol;
    if before.node.Star? {
      BareSymbol(STAR, s);
      assert s + [c] == [s[0], c];
    } else {
      assert (s + [c])[..2] == s[..2];
      if before.depth == 1 {
        assert (s + [c])[..|s| + 1] == s + [c];
        ReadOne(s, c);
        BlockSplit(s + [c], |s| + 1);
      }
    }
  }

  // ---------- what is spelled is read ----------

  /** Whether characters spell a token, before the words are told apart. */
  predicate SpellsRaw(t: Token, s: string) {
    if t.IDENTIFIER? then Word(s) else SpellsOther(t, s)
  }

  /** The automaton stays at a node to the end. */
  lemma {:induction false} Stays(s: string, k: nat, n: Node)
    requires k <= |s| && Read(s[..k]) == Some(Place(n, 0)) && !n.SlashStar? && !n.StarSlash?
    requires forall j :: k <= j < |s| ==> Next(n, s[j]) == Some(n)
    ensures Read(s) == Some(Place(n, 0))
    decreases |s|
  {
    hide Next;
    if k == |s| {
      assert s[..k] == s;
    } else {
      var front, c := s[..|s| - 1], s[|s| - 1];
      assert front[..k] == s[..k] && s == front + [c];
      forall j | k <= j < |front| ensures Next(n, front[j]) == Some(n) {
        assert front[j] == s[j];
      }
      Stays(front, k, n);
      ReadOne(front, c);
    }
  }

  lemma ReadFirst(c: char)
    requires FromInitial(c).Some?
    ensures Read([c]) == Some(Settled(FromInitial(c).value, 0))
  {
    hide FromInitial;
    assert [c] == [] + [c];
    ReadOne([], c);
  }

  lemma BlanksRead(s: string)
    requires s != [] && Blanks(s)
    ensures Read(s) == Some(Place(Whitespace, 0))
  {
    hide Read;
    assert s[..1] == [s[0]];
    ReadFirst(s[0]);
    forall j | 1 <= j < |s| ensures Next(Whitespace, s[j]) == Some(Whitespace) {
      assert Blank(s[j]);
    }
    Stays(s, 1, Whitespace);
  }

  lemma WordReads(s: string)
    requires Word(s)
    ensures Read(s) == Some(Place(Identifier, 0))
  {
    hide Read;
    assert s[..1] == [s[0]];
    ReadFirst(s[0]);
    forall j | 1 <= j < |s| ensures Next(Identifier, s[j]) == Some(Identifier) {
      assert Letter(s[j]) || Digit(s[j]);
    }
    Stays(s, 1, Identifier);
  }

  lemma DigitsRead(s: string)
    requires s != [] && Digits(s)
    ensures Read(s) == Some(Place(Number, 0))
  {
    hide Read;
    assert s[..1] == [s[0]];
    ReadFirst(s[0]);
    forall j | 1 <= j < |s| ensures Next(Number, s[j]) == Some(Number) {
      assert Digit(s[j]);
    }
    Stays(s, 1, Number);
  }

  lemma QuotedReads(s: string)
    requires Quoted(s)
    ensures Read(s).Some? && Match(Read(s).value.node) == DATA
  {
    hide Read;
    var front := s[..|s| - 1];
    assert front[..1] == [s[0]];
    ReadFirst(s[0]);
    forall j | 1 <= j < |front| ensures Next(QuoteDouble, front[j]) == Some(QuoteDouble) {
      assert front[j] == s[1..|s| - 1][j - 1];
    }
    Stays(front, 1, QuoteDouble);
    ReadOne(front, '"');
    assert s == front + ['"'];
  }

  lemma LineReads(s: string)
    requires LineRemark(s)
    ensures Read(s).Some? && Match(Read(s).value.node) == COMMENT
  {
    hide Read;
    var front := s[..|s| - 1];
    assert front[..2] == ['/'] + ['/'];
    ReadFirst('/');
    ReadOne(['/'], '/');
    forall j | 2 <= j < |front| ensures Next(CommentLine, front[j]) == Some(CommentLine) {
      assert front[j] == s[2..|s| - 1][j - 2];
    }
    Stays(front, 2, CommentLine);
    ReadOne(front, '\n');
    assert s == front + ['\n'];
  }

  lemma BlockIsRead(s: string)
    requires BlockRemark(s)
    ensures Read(s).Some? && Match(Read(s).value.node) == COMMENT
  {
    hide Closes, Read;
    BlockReads(s, |s|);
    assert s[..|s|] == s && s[|s|..] == "";
    BlockSplit(s, |s|);
    var p := Read(s).value;
    if InBlock(p.node) {
      NothingCloses(p.node, p.depth);
    }
  }

  lemma LoneMarkReads(s: string)
    requires s == "*/"
    ensures Read(s).Some? && Match(Read(s).value.node) == COMMENT
  {
    hide Read;
    ReadFirst('*');
    ReadOne(['*'], '/');
    assert s == ['*'] + ['/'];
  }

  lemma MantissaReads(s: string)
    requires Mantissa(s)
    ensures Read(s) == Some(Place(Decimal0, 0))
  {
    hide Read;
    var k :| 0 <= k < |s| && s[k] == '.' && Digits(s[..k]) && Digits(s[k + 1..]);
    forall j | k < j < |s| ensures Next(Decimal0, s[j]) == Some(Decimal0) {
      assert s[j] == s[k + 1..][j - k - 1];
    }
    if k == 0 {
      ReadFirst('.');
      assert s[..2] == ['.'] + [s[1]] && s[1] == s[1..][0];
      ReadOne(['.'], s[1]);
      Stays(s, 2, Decimal0);
    } else {
      DigitsRead(s[..k]);
      ReadOne(s[..k], '.');
      assert s[..k + 1] == s[..k] + ['.'];
      Stays(s, k + 1, Decimal0);
    }
  }

  lemma MarkedReads(s: string)
    requires Marked(s)
    ensures Read(s) == Some(Place(Decimal1, 0))
  {
    hide Read, Mantissa;
    var front, c := s[..|s| - 1], s[|s| - 1];
    assert s == front + [c];
    MantissaReads(front);
    ReadOne(front, c);
  }

  lemma SignedReads(s: string)
    requires Signed(s)
    ensures Read(s) == Some(Place(Decimal2, 0))
  {
    hide Read, Marked;
    var front, c := s[..|s| - 1], s[|s| - 1];
    assert s == front + [c];
    MarkedReads(front);
    ReadOne(front, c);
  }

  lemma ScaledReads(s: string)
    requires Scaled(s)
    ensures Read(s) == Some(Place(Decimal3, 0))
  {
    hide Read, Marked, Signed;
    var k :| 0 <= k < |s| && (Marked(s[..k]) || Signed(s[..k])) && Digits(s[k..]);
    if Marked(s[..k]) {
      MarkedReads(s[..k]);
    } else {
      SignedReads(s[..k]);
    }
    assert s[..k + 1] == s[..k] + [s[k]] && s[k] == s[k..][0];
    ReadOne(s[..k], s[k]);
    forall j | k < j < |s| ensures Next(Decimal3, s[j]) == Some(Decimal3) {
      assert s[j] == s[k..][j - k];
    }
    Stays(s, k + 1, Decimal3);
  }

  // ---------- symbols are read ----------

  lemma SymbolSizes(t: Token, s: string)
    requires IsSymbol(t, s)
    ensures 1 <= |s| <= 3
  {
  }

  lemma OneIsSingle(t: Token, s: string)
    requires IsSymbol(t, s) && |s| == 1
    ensures IsSingle(s[0])
  {
  }

  lemma LoneIsOf(t: Token, s: string)
    requires IsSymbol(t, s) && |s| == 1 && IsLone(s[0])
    ensures Single(s[0]) == t
  {
  }

  lemma SignIsOf(t: Token, s: string)
    requires IsSymbol(t, s) && |s| == 1 && !IsLone(s[0])
    ensures Single(s[0]) == t
  {
  }

  lemma OneIsOf(t: Token, s: string)
    requires IsSymbol(t, s) && |s| == 1
    ensures Single(s[0]) == t
  {
    hide IsSymbol, Single, IsLone;
    if IsLone(s[0]) {
      LoneIsOf(t, s);
    } else {
      SignIsOf(t, s);
    }
  }

  /** The sign before an equals sign. */
  function Stem(t: Token): Node {
    match t
    case PLUS_EQUAL => Plus
    case MINUS_EQUAL => Minus
    case STAR_EQUAL => Star
    case SLASH_EQUAL => Slash
    case PERCENT_EQUAL => Percent
    case CARET_EQUAL => Caret
    case KET_LEFT_EQUAL => KetLeft
    case KET_LEFT_BIS_EQUAL => KetLeftBis
    case KET_RIGHT_EQUAL => KetRight
    case KET_RIGHT_BIS_EQUAL => KetRightBis
    case BANG_EQUAL => Bang
    case EQUAL_BIS => Equal
    case PIPE_EQUAL => Pipe
    case _ => Ampersand
  }

  predicate EndsEqual(t: Token) {
    t.PLUS_EQUAL? || t.MINUS_EQUAL? || t.STAR_EQUAL? || t.SLASH_EQUAL? || t.PERCENT_EQUAL? || t.CARET_EQUAL?
    || t.KET_LEFT_EQUAL? || t.KET_LEFT_BIS_EQUAL? || t.KET_RIGHT_EQUAL? || t.KET_RIGHT_BIS_EQUAL? || t.BANG_EQUAL?
    || t.EQUAL_BIS? || t.PIPE_EQUAL? || t.AMPERSAND_EQUAL?
  }

  /** Those of them that are computed with. */
  predicate Computes(t: Token) {
    t.PLUS_EQUAL? || t.MINUS_EQUAL? || t.STAR_EQUAL? || t.SLASH_EQUAL? || t.PERCENT_EQUAL? || t.CARET_EQUAL?
  }

  /** The sign before a character other than that. */
  function Twin(t: Token): Token {
    if t.MINUS_KET_RIGHT? then MINUS
    else if t.KET_LEFT_BIS? then KET_LEFT
    else if t.KET_RIGHT_BIS? then KET_RIGHT
    else if t.PIPE_BIS? then PIPE
    else if t.COLON_BIS? then COLON
    else AMPERSAND
  }

  /** The symbol without its last character. */
  function Short(t: Token): Token {
    if EndsEqual(t) then Match(Stem(t)) else Twin(t)
  }

  /** The last character of a symbol of several. */
  function Last(t: Token): char {
    match t
    case MINUS_KET_RIGHT => '>'
    case KET_LEFT_BIS => '<'
    case KET_RIGHT_BIS => '>'
    case PIPE_BIS => '|'
    case COLON_BIS => ':'
    case AMPERSAND_BIS => '&'
    case _ => '='
  }

  lemma SymbolIsOrdinary(t: Token, s: string)
    requires IsSymbol(t, s)
    ensures Ordinary(t)
  {
  }

  lemma LastIs(t: Token, s: string)
    requires IsSymbol(t, s) && |s| >= 2
    ensures s[|s| - 1] == Last(t)
  {
  }

  lemma FirstsSpell(t: Token, s: string)
    requires IsSymbol(t, s) && |s| >= 2 && Computes(t)
    ensures IsSymbol(Short(t), s[..|s| - 1])
  {
    assert |s| == 2 ==> s[..1] == [s[0]];
  }

  /** Those of the rest that begin with an angle bracket. */
  predicate Compares(t: Token) {
    t.KET_LEFT_EQUAL? || t.KET_LEFT_BIS_EQUAL? || t.KET_RIGHT_EQUAL? || t.KET_RIGHT_BIS_EQUAL?
  }

  lemma ComparedSpell(t: Token, s: string)
    requires IsSymbol(t, s) && Compares(t)
    ensures |s| >= 2 && IsSymbol(Short(t), s[..|s| - 1])
  {
    assert |s| == 2 ==> s[..1] == [s[0]];
    assert |s| == 3 ==> s[..2] == [s[0], s[1]];
  }

  lemma OthersSpellShort(t: Token, s: string)
    requires IsSymbol(t, s) && EndsEqual(t) && !Computes(t) && !Compares(t)
    ensures |s| >= 2 && IsSymbol(Short(t), s[..|s| - 1])
  {
    assert |s| == 2 ==> s[..1] == [s[0]];
  }

  lemma TwinsSpell(t: Token, s: string)
    requires IsSymbol(t, s) && |s| >= 2 && !EndsEqual(t)
    ensures IsSymbol(Short(t), s[..|s| - 1])
  {
    assert |s| == 2 ==> s[..1] == [s[0]];
  }

  lemma ShortSpells(t: Token, s: string)
    requires IsSymbol(t, s) && |s| >= 2
    ensures IsSymbol(Short(t), s[..|s| - 1])
  {
    hide IsSymbol, Short, EndsEqual, Computes, Compares;
    if Computes(t) {
      FirstsSpell(t, s);
    } else if Compares(t) {
      ComparedSpell(t, s);
    } else if EndsEqual(t) {
      OthersSpellShort(t, s);
    } else {
      TwinsSpell(t, s);
    }
  }

  predicate IsLong(t: Token) {
    t.PLUS_EQUAL? || t.MINUS_EQUAL? || t.MINUS_KET_RIGHT? || t.STAR_EQUAL? || t.SLASH_EQUAL? || t.PERCENT_EQUAL?
    || t.CARET_EQUAL? || t.KET_LEFT_EQUAL? || t.KET_LEFT_BIS? || t.KET_LEFT_BIS_EQUAL? || t.KET_RIGHT_EQUAL?
    || t.KET_RIGHT_BIS? || t.KET_RIGHT_BIS_EQUAL? || t.BANG_EQUAL? || t.EQUAL_BIS? || t.PIPE_EQUAL? || t.PIPE_BIS?
    || t.COLON_BIS? || t.AMPERSAND_EQUAL? || t.AMPERSAND_BIS?
  }

  lemma LongSymbols(t: Token, s: string)
    requires IsSymbol(t, s) && |s| >= 2
    ensures IsLong(t)
  {
  }

  lemma WhichEndEqual(t: Token)
    requires IsLong(t) && Last(t) == '='
    ensures EndsEqual(t)
  {
  }

  lemma ComputesIsEqualed(t: Token)
    requires Computes(t)
    ensures Equaled(Stem(t)) == t && Sign(Stem(t)) && !Stem(t).Dot? && !Stem(t).Colon?
  {
  }

  lemma OtherIsEqualed(t: Token)
    requires EndsEqual(t) && !Computes(t)
    ensures Equaled(Stem(t)) == t && Sign(Stem(t)) && !Stem(t).Dot? && !Stem(t).Colon?
  {
  }

  lemma StemIsEqualed(t: Token)
    requires EndsEqual(t)
    ensures Equaled(Stem(t)) == t && Sign(Stem(t)) && !Stem(t).Dot? && !Stem(t).Colon?
  {
    hide Stem, Equaled, Sign, EndsEqual;
    if Computes(t) {
      ComputesIsEqualed(t);
    } else {
      OtherIsEqualed(t);
    }
  }

  lemma EqualIsFinal(t: Token)
    requires EndsEqual(t)
    ensures Ordinary(t) && NodeOf(t) == Final(t)
  {
  }

  lemma SignNode(n: Node)
    requires Sign(n)
    ensures Ordinary(Match(n)) && NodeOf(Match(n)) == n
  {
  }

  lemma EqualLongGoesOn(t: Token)
    requires IsLong(t) && Last(t) == '='
    ensures Ordinary(t) && Ordinary(Short(t)) && Next(NodeOf(Short(t)), '=') == Some(NodeOf(t))
  {
    hide Ordinary, Next, NodeOf, Stem, Match, Sign, Equaled, IsLong, Last, EndsEqual;
    WhichEndEqual(t);
    StemIsEqualed(t);
    SignNode(Stem(t));
    EqualGoesOn(Stem(t));
    EqualIsFinal(t);
  }

  lemma OtherLong(t: Token)
    requires IsLong(t) && Last(t) != '='
    ensures t.MINUS_KET_RIGHT? || t.KET_LEFT_BIS? || t.KET_RIGHT_BIS? || t.PIPE_BIS? || t.COLON_BIS? || t.AMPERSAND_BIS?
    ensures Short(t) == Twin(t)
  {
    hide Match, Stem, Twin;
  }

  lemma KetsGoOn()
    ensures Next(Minus, '>') == Some(Final(MINUS_KET_RIGHT))
    ensures Next(KetLeft, '<') == Some(KetLeftBis) && Next(KetRight, '>') == Some(KetRightBis)
  {
  }

  lemma TwinsGoOn()
    ensures Next(Pipe, '|') == Some(Final(PIPE_BIS)) && Next(Ampersand, '&') == Some(Final(AMPERSAND_BIS))
    ensures Next(Colon, ':') == Some(Final(COLON_BIS))
  {
  }

  lemma OtherGoesOn(t: Token)
    requires t.MINUS_KET_RIGHT? || t.KET_LEFT_BIS? || t.KET_RIGHT_BIS?
             || t.PIPE_BIS? || t.COLON_BIS? || t.AMPERSAND_BIS?
    ensures Ordinary(t) && Ordinary(Twin(t)) && Next(NodeOf(Twin(t)), Last(t)) == Some(NodeOf(t))
  {
    hide Next;
    KetsGoOn();
    TwinsGoOn();
  }

  lemma LongGoesOn(t: Token)
    requires IsLong(t)
    ensures Ordinary(t) && Ordinary(Short(t)) && Next(NodeOf(Short(t)), Last(t)) == Some(NodeOf(t))
  {
    hide Ordinary, Short, Last, Next, NodeOf, IsLong, Twin;
    if Last(t) == '=' {
      EqualLongGoesOn(t);
    } else {
      OtherLong(t);
      OtherGoesOn(t);
    }
  }

  lemma {:induction false} SymbolReads(t: Token, s: string)
    requires IsSymbol(t, s) && Ordinary(t)
    ensures Read(s) == Some(Place(NodeOf(t), 0))
    decreases |s|
  {
    hide Read, FromInitial, IsSymbol, Single, IsSingle, Sign, Ordinary, NodeOf, Next, Last, Short;
    SymbolSizes(t, s);
    NodeMatches(t);
    NoMark(NodeOf(t));
    if |s| == 1 {
      OneIsSingle(t, s);
      OneIsOf(t, s);
      SingleNode(s[0]);
      assert s == [s[0]];
      ReadFirst(s[0]);
    } else {
      LastIs(t, s);
      LongSymbols(t, s);
      LongGoesOn(t);
      ShortSpells(t, s);
      SymbolReads(Short(t), s[..|s| - 1]);
      ReadOne(s[..|s| - 1], Last(t));
      assert s == s[..|s| - 1] + [Last(t)];
    }
  }

  lemma NoMark(n: Node)
    requires Sign(n) || n.Final?
    ensures Settled(n, 0) == Place(n, 0)
  {
  }

  // ---------- tokens and their spellings ----------

  /** What spells a token is read, and matches it. */
  lemma SpelledIsRead(t: Token, s: string)
    requires SpellsRaw(t, s)
    ensures Read(s).Some? && Match(Read(s).value.node) == t
  {
    hide Read, Blanks, Digits, Word, Mantissa, Scaled, Quoted, LineRemark, BlockRemark, IsSymbol, NodeOf, Sign;
    if t.WHITESPACE? {
      BlanksRead(s);
    } else if t.IDENTIFIER? {
      WordReads(s);
    } else if t.LIT_INTEGER? {
      DigitsRead(s);
    } else if t.DATA? {
      QuotedReads(s);
    } else if t.LIT_DECIMAL? {
      DecimalReads(s);
    } else if t.COMMENT? {
      CommentReads(s);
    } else {
      SymbolIsRead(t, s);
    }
  }

  lemma SymbolIsRead(t: Token, s: string)
    requires IsSymbol(t, s)
    ensures Read(s).Some? && Match(Read(s).value.node) == t
  {
    hide Read, IsSymbol, Match, NodeOf, Sign, Ordinary;
    SymbolIsOrdinary(t, s);
    SymbolReads(t, s);
    NodeMatches(t);
  }

  lemma DecimalReads(s: string)
    requires Mantissa(s) || Scaled(s)
    ensures Read(s).Some? && Match(Read(s).value.node) == LIT_DECIMAL
  {
    hide Read, Mantissa, Scaled;
    if Mantissa(s) {
      MantissaReads(s);
    } else {
      ScaledReads(s);
    }
  }

  lemma CommentReads(s: string)
    requires s == "*/" || LineRemark(s) || BlockRemark(s)
    ensures Read(s).Some? && Match(Read(s).value.node) == COMMENT
  {
    hide Read, LineRemark, BlockRemark, Match;
    if LineRemark(s) {
      LineReads(s);
    } else if BlockRemark(s) {
      BlockIsRead(s);
    } else {
      LoneMarkReads(s);
    }
  }

  lemma ShapeSpells(n: Node, s: string)
    requires Shape(n, s) && !Match(n).UNKNOWN?
    ensures SpellsRaw(Match(n), s)
  {
    hide Blanks, Digits, Word, Mantissa, Marked, Signed, Scaled, Quoted, LineRemark, BlockRemark, IsSymbol;
  }

  /** A token that is not unknown is the one that its characters spell. */
  lemma MunchSpells(data: string, begin: nat, token: Token, end: nat, t: Token)
    requires Munch(data, begin, token, end) && '\'' !in data && !t.UNKNOWN?
    ensures token == t <==> SpellsRaw(t, data[begin..end])
  {
    hide Read, Shape, SpellsRaw, Match, Next;
    var s := data[begin..end];
    if SpellsRaw(t, s) {
      SpelledIsRead(t, s);
    }
    if token == t {
      ReadHasShape(s);
      ShapeSpells(Read(s).value.node, s);
    }
  }

  /** No token is spelled by the characters of one and some that follow them. */
  lemma MunchIsLongest(data: string, begin: nat, token: Token, end: nat, t: Token, more: nat)
    requires Munch(data, begin, token, end) && !t.UNKNOWN? && end < more <= |data|
    ensures !SpellsRaw(t, data[begin..more])
  {
    hide Read, SpellsRaw, Match, Next;
    if SpellsRaw(t, data[begin..more]) {
      SpelledIsRead(t, data[begin..more]);
      ReadInPart(data, begin, end, more);
    }
  }

  // ---------- words ----------

  lemma KeywordSpelled(k: nat, s: string)
    requires k < |KEYWORDS|
    ensures Spells(Keyword(k), s) <==> s == KEYWORDS[k]
  {
    hide SpellsOther, IsKeyed, KEYWORDS, Keyword;
    KeywordBegins(k);
    NoKeywordElse(Keyword(k), s);
    KeywordKeyed(k, s);
  }

  lemma KeywordKeyed(k: nat, s: string)
    requires k < |KEYWORDS|
    ensures IsKeyed(Keyword(k), s) <==> s == KEYWORDS[k]
  {
  }

  lemma KeywordOf(t: Token) returns (k: nat)
    requires IsKeyword(t)
    ensures k < |KEYWORDS| && Keyword(k) == t
  {
    k := if t.IF? then 0 else if t.ELSE? then 1 else if t.LET? then 2 else if t.FUNC? then 3 else if t.CLASS? then 4
         else if t.WHILE? then 5 else if t.EXPORT? then 6 else if t.IMPORT? then 7 else if t.MODULE? then 8 else 9;
  }

  lemma ReservedWords(s: string)
    ensures IsReserved(s) <==> s in KEYWORDS
  {
  }

  lemma NothingSpelled(t: Token)
    requires !t.UNKNOWN?
    ensures !Spells(t, [])
  {
    hide IsSymbol, Digits, Blanks;
    if IsSymbol(t, []) {
      SymbolSizes(t, []);
    }
    NothingIsKeyed(t);
  }

  lemma NothingIsKeyed(t: Token)
    ensures !IsKeyed(t, [])
  {
  }

  /** Only identifiers become keywords, and nothing else becomes anything. */
  lemma KeyedKeeps(token: Token, word: string, t: Token)
    requires !t.IDENTIFIER? && !IsKeyword(t)
    ensures Keyed(token, word) == t <==> token == t
    ensures Keyed(token, word) == IDENTIFIER ==> token == IDENTIFIER
  {
    hide KEYWORDS, Keyword;
    if token.IDENTIFIER? && word in KEYWORDS {
      var k :| 0 <= k < |KEYWORDS| && KEYWORDS[k] == word;
      KeyedFacts(token, word, k);
      KeywordsAreShort(k);
    }
  }

  lemma OthersSpell(t: Token, s: string)
    requires !t.IDENTIFIER? && !IsKeyword(t)
    ensures Spells(t, s) <==> SpellsRaw(t, s)
  {
    hide SpellsOther;
  }

  /** The token as it was cut. */
  lemma RawIsSpelled(data: string, raw: seq<Token>, tokens: seq<Token>, offsets: seq<nat>, i: nat, t: Token)
    requires Lexed(data, raw, tokens, offsets) && '\'' !in data && data != [] && 0 < i < |tokens| - 1 && !t.UNKNOWN?
    ensures offsets[i] <= offsets[i - 1] <= |data| && tokens[i] == Keyed(raw[i], Slice(data, offsets, i))
    ensures raw[i] == t <==> SpellsRaw(t, Slice(data, offsets, i))
  {
    hide Falling, Pushed, Munch, SpellsRaw, Keyed;
    FallingAt(data, offsets, i);
    var n := |raw| - 1;
    MunchThere(data, raw[..n], offsets[..n], i);
    MunchSpells(data, |data| - offsets[i - 1], raw[i], |data| - offsets[i], t);
    assert tokens[i] == KeyedAt(data, raw, offsets, i);
  }

  /** Whatever the input, a token between the marks of its start and its end is what its characters spell. */
  lemma TokenIsSpelled(data: string, raw: seq<Token>, tokens: seq<Token>, offsets: seq<nat>, i: nat, t: Token)
    requires Lexed(data, raw, tokens, offsets) && '\'' !in data && 0 < i < |tokens| - 1 && !t.UNKNOWN?
    ensures offsets[i] <= offsets[i - 1] <= |data|
    ensures tokens[i] == t <==> Spells(t, Slice(data, offsets, i))
  {
    hide Cut, KeyedAt, Falling, Slice, Spells, SpellsRaw, Keyed, Keyword, IsReserved, IsAlpha;
    LexedFacts(data, raw, tokens, offsets, i, 0);
    var s := Slice(data, offsets, i);
    if data == [] {
      EmptyIsUnknown(data, raw, tokens, offsets, i);
      NothingSpelled(t);
    } else if IsKeyword(t) {
      var k := KeywordOf(t);
      LexedFacts(data, raw, tokens, offsets, i, k);
      KeywordSpelled(k, s);
    } else if t.IDENTIFIER? {
      RawIsSpelled(data, raw, tokens, offsets, i, IDENTIFIER);
      KeyedKeeps(raw[i], s, UNKNOWN);
      ReservedWords(s);
      WordsSpell(s);
    } else {
      RawIsSpelled(data, raw, tokens, offsets, i, t);
      KeyedKeeps(raw[i], s, t);
      OthersSpell(t, s);
    }
  }

  lemma SymbolIsPlain(t: Token, s: string)
    requires IsSymbol(t, s)
    ensures Plainly(t) && !t.IDENTIFIER?
  {
  }

  lemma KeyedIsKeyword(t: Token, s: string)
    requires IsKeyed(t, s)
    ensures IsKeyword(t) && !t.IDENTIFIER?
  {
  }

  lemma SameKeyword(t: Token, s: string, word: string)
    requires IsKeyed(t, s) && IsKeyed(t, word)
    ensures s == word
  {
  }

  lemma SingleDiffers(a: char, b: char)
    requires IsSingle(a) && IsSingle(b) && Single(a) == Single(b)
    ensures a == b && !IsLong(Single(a))
  {
  }

  lemma {:induction false} SameSymbol(t: Token, s: string, word: string)
    requires IsSymbol(t, s) && IsSymbol(t, word)
    ensures s == word
    decreases |s|
  {
    hide IsSymbol, IsSingle, Single, IsLong, Last, Short;
    SymbolSizes(t, s);
    SymbolSizes(t, word);
    if |s| == 1 {
      OneIsSingle(t, s);
      OneIsOf(t, s);
      SingleDiffers(s[0], s[0]);
    } else {
      LongSymbols(t, s);
    }
    if |word| == 1 {
      OneIsSingle(t, word);
      OneIsOf(t, word);
      SingleDiffers(word[0], word[0]);
    } else {
      LongSymbols(t, word);
    }
    if |s| == 1 {
      SingleDiffers(s[0], word[0]);
    } else {
      LastIs(t, s);
      LastIs(t, word);
      ShortSpells(t, s);
      ShortSpells(t, word);
      SameSymbol(Short(t), s[..|s| - 1], word[..|word| - 1]);
      assert s == s[..|s| - 1] + [s[|s| - 1]] && word == word[..|word| - 1] + [word[|word| - 1]];
    }
  }

  /** Each symbol and each keyword has one spelling. */
  lemma OneSpelling(t: Token, s: string, word: string)
    requires (t, word) in SYMBOLS || (t, word) in RESERVED
    ensures Spells(t, s) <==> s == word
  {
    hide IsKeyword, Ordinary, Plainly, SYMBOLS, RESERVED;
    if IsSymbol(t, word) {
      SymbolIsPlain(t, word);
      SymbolIsNoKeyword(t, word, s);
      if IsSymbol(t, s) {
        SameSymbol(t, s, word);
      }
      PlainSpelling(t, s);
    } else {
      KeyedIsKeyword(t, word);
      NoKeywordElse(t, s);
      if IsKeyed(t, s) {
        SameKeyword(t, s, word);
      }
    }
  }

  lemma SymbolIsNoKeyword(t: Token, word: string, s: string)
    requires IsSymbol(t, word)
    ensures !IsKeyed(t, s)
  {
    hide IsSymbol, IsKeyed;
    SymbolIsOrdinary(t, word);
    if IsKeyed(t, s) {
      KeyedIsKeyword(t, s);
    }
  }

  lemma PlainSpelling(t: Token, s: string)
    requires Plainly(t)
    ensures SpellsOther(t, s) <==> IsSymbol(t, s)
  {
    hide IsSymbol, Blanks, Digits, Mantissa, Scaled, Quoted, LineRemark, BlockRemark;
  }

  /** Whatever the input, a token is a given symbol or keyword if and only if its characters are its spelling. */
  lemma FixedSpelling(data: string, raw: seq<Token>, tokens: seq<Token>, offsets: seq<nat>, i: nat, t: Token,
                      word: string)
    requires Lexed(data, raw, tokens, offsets) && '\'' !in data && 0 < i < |tokens| - 1
    requires (t, word) in SYMBOLS || (t, word) in RESERVED
    ensures offsets[i] <= offsets[i - 1] <= |data|
    ensures tokens[i] == t <==> Slice(data, offsets, i) == word
  {
    hide Lexed, Spells, Slice, SYMBOLS, RESERVED;
    AsLong(data, raw, tokens, offsets);
    FixedIsKnown(t, word);
    TokenIsSpelled(data, raw, tokens, offsets, i, t);
    OneSpelling(t, Slice(data, offsets, i), word);
  }

  lemma FixedIsKnown(t: Token, word: string)
    requires (t, word) in SYMBOLS || (t, word) in RESERVED
    ensures !t.UNKNOWN?
  {
  }

  /** A token is unknown exactly when its characters spell none. */
  lemma UnknownIsUnspelled(data: string, raw: seq<Token>, tokens: seq<Token>, offsets: seq<nat>, i: nat)
    requires Lexed(data, raw, tokens, offsets) && '\'' !in data && 0 < i < |tokens| - 1
    ensures offsets[i] <= offsets[i - 1] <= |data|
    ensures tokens[i].UNKNOWN? <==> forall t: Token :: !t.UNKNOWN? ==> !Spells(t, Slice(data, offsets, i))
  {
    hide Lexed, Spells, Slice;
    AsLong(data, raw, tokens, offsets);
    TokenIsSpelled(data, raw, tokens, offsets, i, WHITESPACE);
    forall t: Token | !t.UNKNOWN? ensures tokens[i] == t <==> Spells(t, Slice(data, offsets, i)) {
      TokenIsSpelled(data, raw, tokens, offsets, i, t);
    }
  }

  lemma AsLong(data: string, raw: seq<Token>, tokens: seq<Token>, offsets: seq<nat>)
    requires Lexed(data, raw, tokens, offsets)
    ensures |tokens| == |offsets|
  {
  }

  lemma WordsSpell(s: string)
    ensures Spells(IDENTIFIER, s) <==> SpellsRaw(IDENTIFIER, s) && !IsReserved(s)
    ensures SpellsRaw(IDENTIFIER, s) ==> s != [] && IsAlpha(s[0])
  {
  }

  lemma EmptyIsUnknown(data: string, raw: seq<Token>, tokens: seq<Token>, offsets: seq<nat>, i: nat)
    requires Lexed(data, raw, tokens, offsets) && data == [] && 0 < i < |tokens| - 1
    ensures tokens[i] == UNKNOWN && offsets[i] == offsets[i - 1] == 0 && Slice(data, offsets, i) == []
  {
    assert tokens[i] == KeyedAt(data, raw, offsets, i);
  }

  /** It takes as many characters as it can: none is spelled by them and some that follow. */
  lemma TokenIsLongest(data: string, raw: seq<Token>, tokens: seq<Token>, offsets: seq<nat>, i: nat, t: Token,
                       more: nat)
    requires Lexed(data, raw, tokens, offsets) && '\'' !in data && 0 < i < |tokens| - 1 && !t.UNKNOWN?
    requires offsets[i] <= offsets[i - 1] <= |data| && |data| - offsets[i] < more <= |data|
    ensures !Spells(t, data[|data| - offsets[i - 1]..more])
  {
    hide Falling, Pushed, Munch, SpellsRaw, Keyed, Spells, IsKeyword, Slice;
    var n, s := |raw| - 1, data[|data| - offsets[i - 1]..more];
    MunchThere(data, raw[..n], offsets[..n], i);
    var begin, end := |data| - offsets[i - 1], |data| - offsets[i];
    if t.IDENTIFIER? || IsKeyword(t) {
      MunchIsLongest(data, begin, raw[i], end, IDENTIFIER, more);
      if Spells(t, s) {
        WordsAreRaw(t, s);
      }
    } else {
      MunchIsLongest(data, begin, raw[i], end, t, more);
      OthersSpell(t, s);
    }
  }

  lemma WordsAreRaw(t: Token, s: string)
    requires (t.IDENTIFIER? || IsKeyword(t)) && Spells(t, s)
    ensures SpellsRaw(IDENTIFIER, s)
  {
    hide SpellsOther, IsKeyed, Word, IsReserved;
    if IsKeyword(t) {
      NoKeywordElse(t, s);
      KeyedIsWord(t, s);
    }
  }

  lemma NoKeywordElse(t: Token, s: string)
    requires IsKeyword(t)
    ensures !SpellsOther(t, s)
  {
    hide Blanks, Digits, Mantissa, Scaled, Quoted, LineRemark, BlockRemark, IsSymbol;
    if IsSymbol(t, s) {
      SymbolIsOrdinary(t, s);
    }
  }

  lemma KeyedIsWord(t: Token, s: string)
    requires IsKeyed(t, s)
    ensures Word(s)
  {
  }
}

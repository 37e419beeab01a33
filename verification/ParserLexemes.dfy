/** The nodes that stand for single tokens, and the rules that write them. */
module ParserLexemes {
  import opened ParseTree
  import T = Tokens
  import opened Grammar
  import opened ParserMeaning

  /** The tokens a node of this kind can be made from, if it is made from one token. */
  function LexemesOf(kind: Kind): set<T.Token> {
    match kind
    case LIT_INTEGER => {T.LIT_INTEGER}
    case LIT_DECIMAL => {T.LIT_DECIMAL}
    case IDENTIFIER => {T.IDENTIFIER}
    case DCL_EXPORT => {T.EXPORT}
    case EXP_OPERATOR =>
      {T.DOT, T.STAR, T.SLASH, T.PERCENT, T.PLUS, T.MINUS, T.KET_LEFT, T.KET_RIGHT, T.KET_LEFT_EQUAL, T.KET_RIGHT_EQUAL,
       T.EQUAL, T.PLUS_EQUAL, T.MINUS_EQUAL, T.STAR_EQUAL, T.SLASH_EQUAL, T.PERCENT_EQUAL}
    case _ => {}
  }

  /** The token that many before the end of the input. */
  function TokenAt(tokens: seq<T.Token>, offset: nat): T.Token {
    if offset < |tokens| then tokens[|tokens| - 1 - offset] else T.UNKNOWN
  }

  // ---------- rules that take one token ----------

  /** A parser that takes one token of a set, and does nothing else. */
  predicate Leafy(p: Parser) {
    match p
    case Tok(_) => true
    case Fail => true
    case Else(a, b) => Leafy(a) && Leafy(b)
    case _ => false
  }

  function Leaves(p: Parser): set<T.Token> {
    match p
    case Tok(t) => {t}
    case Else(a, b) => Leaves(a) + Leaves(b)
    case _ => {}
  }

  /** A parser takes one of some tokens, and does nothing else. */
  predicate TakesOneOf(p: Parser, tokens: set<T.Token>) {
    Leafy(p) && Leaves(p) <= tokens
  }

  /** What is asked of the rules that write nodes for single tokens. */
  predicate LexemeRule(r: Rule) {
    WriterOf(r).Writes? && WriterOf(r).arity == ONE && TakesOneOf(Body(r), LexemesOf(WriterOf(r).kind))
  }

  lemma FewerTokens(p: Parser, some: set<T.Token>, all: set<T.Token>)
    requires TakesOneOf(p, some) && some <= all
    ensures TakesOneOf(p, all)
  {
  }

  lemma ProductsAreLexemes()
    ensures TakesOneOf(OpProductParser(), {T.STAR, T.SLASH, T.PERCENT})
  {
  }

  lemma ProductsLexemes(r: Rule)
    requires r.OpProduct?
    ensures LexemeRule(r)
  {
    ProductsAreLexemes();
    hide TakesOneOf;
    FewerTokens(OpProductParser(), {T.STAR, T.SLASH, T.PERCENT}, LexemesOf(WriterOf(r).kind));
  }

  lemma SumsAreLexemes()
    ensures TakesOneOf(OpSumParser(), {T.PLUS, T.MINUS})
  {
  }

  lemma SumsLexemes(r: Rule)
    requires r.OpSum?
    ensures LexemeRule(r)
  {
    SumsAreLexemes();
    hide TakesOneOf;
    FewerTokens(OpSumParser(), {T.PLUS, T.MINUS}, LexemesOf(WriterOf(r).kind));
  }

  lemma ComparisonsAreLexemes()
    ensures TakesOneOf(OpComparisonParser(), {T.KET_LEFT, T.KET_RIGHT, T.KET_LEFT_EQUAL, T.KET_RIGHT_EQUAL})
  {
  }

  lemma ComparisonsLexemes(r: Rule)
    requires r.OpComparison?
    ensures LexemeRule(r)
  {
    ComparisonsAreLexemes();
    hide TakesOneOf;
    FewerTokens(OpComparisonParser(), {T.KET_LEFT, T.KET_RIGHT, T.KET_LEFT_EQUAL, T.KET_RIGHT_EQUAL},
                LexemesOf(WriterOf(r).kind));
  }

  lemma AssignmentsAreLexemes()
    ensures TakesOneOf(OpAssignParser(),
                       {T.EQUAL, T.PLUS_EQUAL, T.MINUS_EQUAL, T.STAR_EQUAL, T.SLASH_EQUAL, T.PERCENT_EQUAL})
  {
  }

  lemma AssignmentsLexemes(r: Rule)
    requires r.OpAssign?
    ensures LexemeRule(r)
  {
    AssignmentsAreLexemes();
    hide TakesOneOf;
    FewerTokens(OpAssignParser(), {T.EQUAL, T.PLUS_EQUAL, T.MINUS_EQUAL, T.STAR_EQUAL, T.SLASH_EQUAL, T.PERCENT_EQUAL},
                LexemesOf(WriterOf(r).kind));
  }

  predicate WritesLexeme(r: Rule) {
    r.LitInteger? || r.LitDecimal? || r.Identifier? || r.OpPath? || r.RawExport?
  }

  lemma WhichWriteLexemes(r: Rule)
    requires WriterOf(r).Writes? && LexemesOf(WriterOf(r).kind) != {}
    ensures WritesLexeme(r) || r.OpProduct? || r.OpSum? || r.OpComparison? || r.OpAssign?
  {
  }

  lemma SingleLexemes(r: Rule)
    requires WritesLexeme(r)
    ensures LexemeRule(r)
  {
    var t := if r.LitInteger? then T.LIT_INTEGER else if r.LitDecimal? then T.LIT_DECIMAL
             else if r.Identifier? then T.IDENTIFIER else if r.OpPath? then T.DOT else T.EXPORT;
    FewerTokens(Tok(t), {t}, LexemesOf(WriterOf(r).kind));
    hide TakesOneOf;
    assert Body(r) == Tok(t);
  }

  /** The rules that write nodes for single tokens parse just these. */
  lemma LexemeRules(r: Rule)
    requires WriterOf(r).Writes? && LexemesOf(WriterOf(r).kind) != {}
    ensures LexemeRule(r)
  {
    WhichWriteLexemes(r);
    hide LexemeRule;
    if r.OpProduct? {
      ProductsLexemes(r);
    } else if r.OpSum? {
      SumsLexemes(r);
    } else if r.OpComparison? {
      ComparisonsLexemes(r);
    } else if r.OpAssign? {
      AssignmentsLexemes(r);
    } else {
      SingleLexemes(r);
    }
  }

  lemma {:induction false} LeafyTakes(tokens: seq<T.Token>, p: Parser, head: nat, rank: nat)
    requires Reader(tokens, head) && Guarded(p, rank) && rank <= TOP && Leafy(p)
    ensures Eval(tokens, p, head, rank).trees == []
    ensures Eval(tokens, p, head, rank).next.Some? ==> tokens[head] in Leaves(p)
    decreases p
  {
    match p
    case Tok(_) =>
    case Fail =>
    case Else(a, b) =>
      LeafyTakes(tokens, a, head, rank);
      LeafyTakes(tokens, b, head, rank);
  }
}

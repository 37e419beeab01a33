/** The children that each rule gives its node. */
module ParserKids {
  import opened ParseTree
  import T = Tokens
  import opened Grammar
  import opened ParserMeaning
  import opened ParserSteps

  // ---------- names with types ----------

  /** `name : type` leaves both, or at most the name when it fails, and then only if it is there. */
  lemma ClaimTrees(tokens: seq<T.Token>, head: nat)
    requires Reader(tokens, head)
    ensures var r := EvalRule(tokens, TypeClaim, head);
            && AllNames(r.trees) && |r.trees| <= 2
            && (r.next.Some? ==> |r.trees| == 2)
            && (r.next.None? && |r.trees| == 1 ==> tokens[head] == T.IDENTIFIER)
            && (r.next.None? ==> |r.trees| <= 1)
  {
    hide EvalRule, Eval, Guarded, Reader, Rank;
    WritesNone(tokens, TypeClaim, head);
    ClaimParts(tokens, head, Rank(TypeClaim));
  }

  lemma NameTrees(tokens: seq<T.Token>, head: nat, rank: nat)
    requires Reader(tokens, head) && Guarded(Call(Identifier), rank) && rank <= TOP
    ensures var r := Eval(tokens, Call(Identifier), head, rank);
            && |r.trees| == (if r.next.Some? then 1 else 0) && AllNames(r.trees)
            && (r.next.Some? ==> tokens[head] == T.IDENTIFIER)
  {
    hide EvalRule, Eval, Reader;
    EvalCall(tokens, Identifier, head, rank);
    OneTree(tokens, Identifier, head);
    RuleIsGuarded(Identifier);
    WritesOne(tokens, Identifier, head, ONE, IDENTIFIER, Body(Identifier), Rank(Identifier));
    EvalTok(tokens, T.IDENTIFIER, head, Rank(Identifier));
  }

  lemma NamesJoin(a: seq<Tree>, b: seq<Tree>)
    requires AllNames(a) && AllNames(b)
    ensures AllNames(a + b)
  {
  }

  lemma NoNames()
    ensures AllNames([])
  {
  }

  lemma ClaimParts(tokens: seq<T.Token>, head: nat, rank: nat)
    requires Reader(tokens, head) && Guarded(TypeClaimParser(), rank) && rank <= TOP
    ensures var r := Eval(tokens, TypeClaimParser(), head, rank);
            && AllNames(r.trees) && |r.trees| <= 2
            && (r.next.Some? ==> |r.trees| == 2)
            && (r.next.None? && |r.trees| == 1 ==> tokens[head] == T.IDENTIFIER)
            && (r.next.None? ==> |r.trees| <= 1)
  {
    hide EvalRule, Eval, Reader, Guarded;
    var name, colon := Call(Identifier), Tok(T.COLON);
    EvalThen(tokens, name, Seq2(colon, name), head, rank);
    NameTrees(tokens, head, rank);
    var a := Eval(tokens, name, head, rank);
    if a.next.Some? {
      EvalSeq2(tokens, colon, name, a.next.value, TOP);
      EvalTok(tokens, T.COLON, a.next.value, TOP);
      var b := Eval(tokens, colon, a.next.value, TOP);
      if b.next.Some? {
        NameTrees(tokens, b.next.value, TOP);
      }
    }
  }

  function MoreClaims(): Parser {
    Seq2(Tok(T.COMMA), Call(TypeClaim))
  }

  /** A comma and a claim, or at most the name when it fails, and then only behind a comma. */
  lemma MoreClaimTrees(tokens: seq<T.Token>, head: nat, rank: nat)
    requires Reader(tokens, head) && Guarded(MoreClaims(), rank) && rank <= TOP
    ensures var r := Eval(tokens, MoreClaims(), head, rank);
            && AllNames(r.trees)
            && (if r.next.Some? then |r.trees| == 2 else r.trees == [] || tokens[head] == T.COMMA)
  {
    hide EvalRule, Eval, Guarded, Consumes, Rank, AllNames, Ended;
    NoNames();
    EvalSeq2(tokens, Tok(T.COMMA), Call(TypeClaim), head, rank);
    EvalTok(tokens, T.COMMA, head, rank);
    var comma := Eval(tokens, Tok(T.COMMA), head, rank);
    if comma.next.Some? {
      EvalCall(tokens, TypeClaim, comma.next.value, if Consumes(Tok(T.COMMA)) then TOP else rank);
      ClaimTrees(tokens, comma.next.value);
      NamesJoin([], EvalRule(tokens, TypeClaim, comma.next.value).trees);
    }
  }

  /** Further claims come in pairs, unless the parse stopped before a comma. */
  lemma {:induction false} MoreClaimsTrees(tokens: seq<T.Token>, head: nat, rank: nat)
    requires Reader(tokens, head) && Guarded(MoreClaims(), rank) && Consumes(MoreClaims()) && rank <= TOP
    ensures var r := EvalRep(tokens, MoreClaims(), head, rank);
            AllNames(r.trees) && (|r.trees| % 2 == 0 || tokens[r.next.value] == T.COMMA)
    decreases |tokens| - head
  {
    hide Eval, EvalRep, Guarded, Consumes, AllNames, MoreClaims, Ended;
    NoNames();
    var p := MoreClaims();
    EvalTurn(tokens, p, head, rank);
    if !IsEoi(tokens, head) {
      MoreClaimTrees(tokens, head, rank);
      var a := Eval(tokens, p, head, rank);
      if a.next.Some? {
        MoreClaimsTrees(tokens, a.next.value, rank);
        NamesJoin(a.trees, EvalRep(tokens, p, a.next.value, rank).trees);
      }
    }
  }

  function Members(): Parser {
    Seq2(Call(TypeClaim), Tok(T.SEMI_COLON))
  }

  /** A claim and a semicolon, or the claim alone, or at most the name if it is there. */
  lemma MemberTrees(tokens: seq<T.Token>, head: nat, rank: nat)
    requires Reader(tokens, head) && Guarded(Members(), rank) && rank <= TOP
    ensures var r := Eval(tokens, Members(), head, rank);
            && AllNames(r.trees) && (r.next.Some? ==> |r.trees| == 2)
            && (|r.trees| % 2 == 0 || tokens[head] == T.IDENTIFIER)
  {
    hide EvalRule, Eval, Guarded, Consumes, Rank, AllNames, Ended;
    EvalSeq2(tokens, Call(TypeClaim), Tok(T.SEMI_COLON), head, rank);
    EvalCall(tokens, TypeClaim, head, rank);
    ClaimTrees(tokens, head);
    var claim := Eval(tokens, Call(TypeClaim), head, rank);
    if claim.next.Some? {
      EvalTok(tokens, T.SEMI_COLON, claim.next.value, if Consumes(Call(TypeClaim)) then TOP else rank);
      assert claim.trees + [] == claim.trees;
    }
  }

  /** Members come in pairs, unless the parse stopped before a name. */
  lemma {:induction false} MembersTrees(tokens: seq<T.Token>, head: nat, rank: nat)
    requires Reader(tokens, head) && Guarded(Members(), rank) && Consumes(Members()) && rank <= TOP
    ensures var r := EvalRep(tokens, Members(), head, rank);
            AllNames(r.trees) && (|r.trees| % 2 == 0 || tokens[r.next.value] == T.IDENTIFIER)
    decreases |tokens| - head
  {
    hide Eval, EvalRep, Guarded, Consumes, AllNames, Members, Ended;
    NoNames();
    var p := Members();
    EvalTurn(tokens, p, head, rank);
    if !IsEoi(tokens, head) {
      MemberTrees(tokens, head, rank);
      var a := Eval(tokens, p, head, rank);
      if a.next.Some? {
        MembersTrees(tokens, a.next.value, rank);
        NamesJoin(a.trees, EvalRep(tokens, p, a.next.value, rank).trees);
      }
    }
  }

  function SomeClaims(): Parser {
    Seq2(Call(TypeClaim), Rep(MoreClaims()))
  }

  lemma SomeClaimsTrees(tokens: seq<T.Token>, head: nat, rank: nat)
    requires Reader(tokens, head) && Guarded(SomeClaims(), rank) && rank <= TOP
    ensures var r := Eval(tokens, SomeClaims(), head, rank);
            && AllNames(r.trees)
            && (r.next.Some? ==> |r.trees| % 2 == 0 || tokens[r.next.value] == T.COMMA)
            && (r.next.None? ==> r.trees == [] || tokens[head] == T.IDENTIFIER)
  {
    hide EvalRule, Eval, EvalRep, Guarded, Consumes, Rank, AllNames, MoreClaims, Ended;
    var claim, more := Call(TypeClaim), Rep(MoreClaims());
    EvalSeq2(tokens, claim, more, head, rank);
    EvalCall(tokens, TypeClaim, head, rank);
    ClaimTrees(tokens, head);
    var a := Eval(tokens, claim, head, rank);
    if a.next.Some? {
      var rank' := if Consumes(claim) then TOP else rank;
      EvalRepetition(tokens, MoreClaims(), a.next.value, rank');
      MoreClaimsTrees(tokens, a.next.value, rank');
      NamesJoin(a.trees, EvalRep(tokens, MoreClaims(), a.next.value, rank').trees);
    }
  }

  function Claims(): Parser {
    Opt(SomeClaims())
  }

  lemma ClaimsTrees(tokens: seq<T.Token>, head: nat, rank: nat)
    requires Reader(tokens, head) && Guarded(Claims(), rank) && rank <= TOP
    ensures var r := Eval(tokens, Claims(), head, rank);
            && AllNames(r.trees) && r.next.Some?
            && (|r.trees| % 2 == 0 || tokens[r.next.value] == T.COMMA || tokens[r.next.value] == T.IDENTIFIER)
  {
    hide Eval, Guarded, AllNames, SomeClaims, Ended;
    EvalOpt(tokens, SomeClaims(), head, rank);
    SomeClaimsTrees(tokens, head, rank);
  }

  /** A list of arguments that was closed has a name and a type for each of them: a claim that failed half way left the
      parse at a token that does not close the list. */
  lemma ArgumentsTrees(tokens: seq<T.Token>, head: nat, rank: nat)
    requires Reader(tokens, head) && Guarded(FunArgumentsParser(), rank) && rank <= TOP
    ensures var r := Eval(tokens, FunArgumentsParser(), head, rank);
            r.next.Some? ==> |r.trees| % 2 == 0 && AllNames(r.trees)
  {
    hide Eval, Guarded, Claims, AllNames, Consumes, Ended, FunArgumentsParser, Seq2;
    NoNames();
    var open, close := Tok(T.PAR_LEFT), Tok(T.PAR_RIGHT);
    assert FunArgumentsParser() == Then(open, Seq2(Claims(), close)) by { ArgumentsParts(); }
    EvalThen(tokens, open, Seq2(Claims(), close), head, rank);
    EvalTok(tokens, T.PAR_LEFT, head, rank);
    var a := Eval(tokens, open, head, rank);
    if a.next.Some? {
      var rank' := if Consumes(open) then TOP else rank;
      EvalSeq2(tokens, Claims(), close, a.next.value, rank');
      ClaimsTrees(tokens, a.next.value, rank');
      var b := Eval(tokens, Claims(), a.next.value, rank');
      EvalTok(tokens, T.PAR_RIGHT, b.next.value, if Consumes(Claims()) then TOP else rank');
      NamesJoin(b.trees, []);
      NamesJoin([], b.trees + []);
    }
  }

  lemma ArgumentsParts()
    ensures FunArgumentsParser() == Then(Tok(T.PAR_LEFT), Seq2(Claims(), Tok(T.PAR_RIGHT)))
  {
  }

  lemma MembersListTrees(tokens: seq<T.Token>, head: nat, rank: nat)
    requires Reader(tokens, head) && Guarded(ClsMembersParser(), rank) && rank <= TOP
    ensures var r := Eval(tokens, ClsMembersParser(), head, rank);
            r.next.Some? ==> |r.trees| % 2 == 0 && AllNames(r.trees)
  {
    hide Eval, EvalRep, Guarded, Members, AllNames, Consumes, Ended, ClsMembersParser, Seq2;
    NoNames();
    var open, close, all := Tok(T.BRA_LEFT), Tok(T.BRA_RIGHT), Rep(Members());
    assert ClsMembersParser() == Then(open, Seq2(all, close)) by { MembersParts(); }
    EvalThen(tokens, open, Seq2(all, close), head, rank);
    EvalTok(tokens, T.BRA_LEFT, head, rank);
    var a := Eval(tokens, open, head, rank);
    if a.next.Some? {
      var rank' := if Consumes(open) then TOP else rank;
      EvalSeq2(tokens, all, close, a.next.value, rank');
      EvalRepetition(tokens, Members(), a.next.value, rank');
      MembersTrees(tokens, a.next.value, rank');
      var b := Eval(tokens, all, a.next.value, rank');
      EvalTok(tokens, T.BRA_RIGHT, b.next.value, if Consumes(all) then TOP else rank');
      NamesJoin(b.trees, []);
      NamesJoin([], b.trees + []);
    }
  }

  lemma MembersParts()
    ensures ClsMembersParser() == Then(Tok(T.BRA_LEFT), Seq2(Rep(Members()), Tok(T.BRA_RIGHT)))
  {
  }

  lemma DeclarationTrees(tokens: seq<T.Token>, head: nat, rank: nat)
    requires Reader(tokens, head) && Guarded(DclVariableParser(), rank) && rank <= TOP
    ensures var r := Eval(tokens, DclVariableParser(), head, rank);
            r.next.Some? ==> |r.trees| == 2 && AllNames(r.trees)
  {
    hide EvalRule, Eval, Guarded, Rank;
    EvalSeq2(tokens, Tok(T.LET), Call(TypeClaim), head, rank);
    EvalTok(tokens, T.LET, head, rank);
    var a := Eval(tokens, Tok(T.LET), head, rank);
    if a.next.Some? {
      EvalCall(tokens, TypeClaim, a.next.value, TOP);
      ClaimTrees(tokens, a.next.value);
    }
  }

  // ---------- expressions ----------

  /** An expression leaves one tree, or nothing. */
  lemma ExpressionTrees(tokens: seq<T.Token>, head: nat)
    requires Reader(tokens, head)
    ensures var r := EvalRule(tokens, Expression, head); |r.trees| == (if r.next.Some? then 1 else 0)
  {
    hide EvalRule, Eval, Guarded, Reader, Rank;
    WritesNone(tokens, Expression, head);
    var rank := Rank(Expression);
    EvalAlt2(tokens, Call(FunCall), Call(Assignment), head, rank);
    EvalCall(tokens, FunCall, head, rank);
    EvalCall(tokens, Assignment, head, rank);
    OneTree(tokens, FunCall, head);
    OneTree(tokens, Assignment, head);
  }

  lemma ReturnTrees(tokens: seq<T.Token>, head: nat, rank: nat)
    requires Reader(tokens, head) && Guarded(StmReturnParser(), rank) && rank <= TOP
    ensures var r := Eval(tokens, StmReturnParser(), head, rank); r.next.Some? ==> |r.trees| == 1
  {
    hide EvalRule, Eval, Guarded, Rank;
    EvalSeq2(tokens, Tok(T.RETURN), Call(Expression), head, rank);
    EvalTok(tokens, T.RETURN, head, rank);
    var a := Eval(tokens, Tok(T.RETURN), head, rank);
    if a.next.Some? {
      EvalCall(tokens, Expression, a.next.value, TOP);
      ExpressionTrees(tokens, a.next.value);
    }
  }
}

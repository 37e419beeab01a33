/** The lexer: a character automaton that cuts its input into tokens, and the recognition of keywords. */
module Lexer {
  import opened Tokens

  datatype Option<T> = None | Some(value: T)

  /** Tokens that no node stands for. */
  predicate Reserved(t: Token) {
    t.END_OF_INPUT? || t.START_OF_INPUT? || t.IF? || t.ELSE? || t.LET? || t.FUNC? || t.CLASS? || t.WHILE?
    || t.EXPORT? || t.IMPORT? || t.MODULE? || t.RETURN?
  }

  predicate Ordinary(t: Token) { !Reserved(t) && !t.UNKNOWN? && !t.IDENTIFIER? }

  /** The tokens of the nodes without transitions. */
  type Ending = t: Token | Ordinary(t) witness COMMENT

  /** The nodes of the automaton. `Final` stands for all the nodes without transitions. */
  datatype Node =
    | Initial | Whitespace | Identifier | QuoteDouble | Plus | Star | Slash | CommentLine | BlockComment
    | CommentSlash | CommentStar | Percent | Caret | Minus | KetLeft | KetLeftBis | KetRight | KetRightBis | Bang
    | Equal | Pipe | Colon | Ampersand | Dot | Number | Decimal0 | Decimal1 | Decimal2 | Decimal3
    | SlashStar | StarSlash | QuoteSimple | Final(token: Ending)

  /** A node and how many block comments are open. */
  datatype Place = Place(node: Node, depth: nat)

  // ---------- the transition table ----------

  predicate IsDigit(c: char) { '0' <= c <= '9' }

  predicate IsWhitespace(c: char) { c == ' ' || c == '\t' || c == '\r' || c == '\n' }

  predicate IsAlpha(c: char) { 'A' <= c <= 'Z' || 'a' <= c <= 'z' || c == '_' }

  predicate IsAlphaNum(c: char) { IsAlpha(c) || IsDigit(c) }

  /** The token of a node that has transitions, when none of them applies. */
  function Match(n: Node): Token {
    match n
    case Whitespace => WHITESPACE
    case Identifier => IDENTIFIER
    case Plus => PLUS
    case Star => STAR
    case Slash => SLASH
    case Percent => PERCENT
    case Caret => CARET
    case Minus => MINUS
    case KetLeft => KET_LEFT
    case KetLeftBis => KET_LEFT_BIS
    case KetRight => KET_RIGHT
    case KetRightBis => KET_RIGHT_BIS
    case Bang => BANG
    case Equal => EQUAL
    case Pipe => PIPE
    case Colon => COLON
    case Ampersand => AMPERSAND
    case Dot => DOT
    case Number => LIT_INTEGER
    case Decimal0 => LIT_DECIMAL
    case Decimal3 => LIT_DECIMAL
    case Final(t) => t
    case _ => UNKNOWN
  }

  function FromInitial(c: char): Option<Node> {
    if IsWhitespace(c) then Some(Whitespace)
    else if IsAlpha(c) then Some(Identifier)
    else if c == '(' then Some(Final(PAR_LEFT))
    else if c == ')' then Some(Final(PAR_RIGHT))
    else if c == ';' then Some(Final(SEMI_COLON))
    else if c == '.' then Some(Dot)
    else if c == ',' then Some(Final(COMMA))
    else if c == '=' then Some(Equal)
    else if c == ':' then Some(Colon)
    else if c == '{' then Some(Final(BRA_LEFT))
    else if c == '}' then Some(Final(BRA_RIGHT))
    else if c == '+' then Some(Plus)
    else if c == '-' then Some(Minus)
    else if c == '<' then Some(KetLeft)
    else if c == '>' then Some(KetRight)
    else if c == '*' then Some(Star)
    else if c == '/' then Some(Slash)
    else if c == '%' then Some(Percent)
    else if c == '!' then Some(Bang)
    else if c == '?' then Some(Final(QUESTION))
    else if c == '~' then Some(Final(TILDE))
    else if c == '^' then Some(Caret)
    else if c == '|' then Some(Pipe)
    else if c == '&' then Some(Ampersand)
    else if c == '[' then Some(Final(SQR_LEFT))
    else if c == ']' then Some(Final(SQR_RIGHT))
    else if IsDigit(c) then Some(Number)
    else if c == '"' then Some(QuoteDouble)
    else if c == '\'' then Some(QuoteSimple)
    else None
  }

  function OnEqual(c: char, t: Ending): Option<Node> {
    if c == '=' then Some(Final(t)) else None
  }

  /** The first transition that applies. */
  function Next(n: Node, c: char): Option<Node> {
    match n
    case Initial => FromInitial(c)
    case Whitespace => if IsWhitespace(c) then Some(Whitespace) else None
    case Identifier => if IsAlphaNum(c) then Some(Identifier) else None
    case QuoteDouble => Some(if c == '"' then Final(DATA) else QuoteDouble)
    case Plus => OnEqual(c, PLUS_EQUAL)
    case Star => if c == '/' then Some(StarSlash) else OnEqual(c, STAR_EQUAL)
    case Slash => if c == '/' then Some(CommentLine) else if c == '*' then Some(SlashStar) else OnEqual(c, SLASH_EQUAL)
    case CommentLine => Some(if c == '\n' then Final(COMMENT) else CommentLine)
    case BlockComment => Some(if c == '/' then CommentSlash else if c == '*' then CommentStar else BlockComment)
    case CommentSlash => Some(if c == '*' then SlashStar else BlockComment)
    case CommentStar => Some(if c == '/' then StarSlash else BlockComment)
    case Percent => OnEqual(c, PERCENT_EQUAL)
    case Caret => OnEqual(c, CARET_EQUAL)
    case Minus => if c == '>' then Some(Final(MINUS_KET_RIGHT)) else OnEqual(c, MINUS_EQUAL)
    case KetLeft => if c == '<' then Some(KetLeftBis) else OnEqual(c, KET_LEFT_EQUAL)
    case KetLeftBis => OnEqual(c, KET_LEFT_BIS_EQUAL)
    case KetRight => if c == '>' then Some(KetRightBis) else OnEqual(c, KET_RIGHT_EQUAL)
    case KetRightBis => OnEqual(c, KET_RIGHT_BIS_EQUAL)
    case Bang => OnEqual(c, BANG_EQUAL)
    case Equal => OnEqual(c, EQUAL_BIS)
    case Pipe => if c == '|' then Some(Final(PIPE_BIS)) else OnEqual(c, PIPE_EQUAL)
    case Colon => if c == ':' then Some(Final(COLON_BIS)) else None
    case Ampersand => if c == '&' then Some(Final(AMPERSAND_BIS)) else OnEqual(c, AMPERSAND_EQUAL)
    case Dot => if IsDigit(c) then Some(Decimal0) else None
    case Number => if IsDigit(c) then Some(Number) else if c == '.' then Some(Decimal0) else None
    case Decimal0 => if IsDigit(c) then Some(Decimal0) else if c == 'e' || c == 'E' then Some(Decimal1) else None
    case Decimal1 => if c == '+' || c == '-' then Some(Decimal2) else if IsDigit(c) then Some(Decimal3) else None
    case Decimal2 => if IsDigit(c) then Some(Decimal3) else None
    case Decimal3 => if IsDigit(c) then Some(Decimal3) else None
    case _ => None
  }

  /** Two nodes only count block comments and pass on. */
  function Settled(n: Node, depth: nat): Place {
    if n.SlashStar? then Place(BlockComment, depth + 1)
    else if n.StarSlash? then
      if depth > 1 then Place(BlockComment, depth - 1) else Place(Final(COMMENT), 0)
    else Place(n, depth)
  }

  /** Where the automaton is after reading `s` from its initial node, if it can read all of it. */
  function Read(s: string): Option<Place>
    decreases |s|
  {
    if s == [] then Some(Place(Initial, 0)) else
      var before := Read(s[..|s| - 1]);
      if before.None? then None else
        var next := Next(before.value.node, s[|s| - 1]);
        if next.None? then None else Some(Settled(next.value, before.value.depth))
  }

  lemma ReadOne(s: string, c: char)
    requires Read(s).Some? && Next(Read(s).value.node, c).Some?
    ensures Read(s + [c]) == Some(Settled(Next(Read(s).value.node, c).value, Read(s).value.depth))
  {
    assert (s + [c])[..|s|] == s;
  }

  // ---------- what is read ----------

  /** The nodes where the automaton stays on inputs without single quotes. */
  predicate Plain(n: Node) {
    !n.QuoteSimple? && !n.SlashStar? && !n.StarSlash?
  }

  lemma NextIsPlain(n: Node, c: char, depth: nat)
    requires c != '\'' && Next(n, c).Some?
    ensures Plain(Settled(Next(n, c).value, depth).node) && !Next(n, c).value.Initial? && !Next(n, c).value.QuoteSimple?
  {
  }

  lemma NextIdentifier(n: Node, c: char)
    requires Next(n, c).Some?
    ensures Next(n, c).value.Identifier? <==> (n.Initial? && IsAlpha(c)) || (n.Identifier? && IsAlphaNum(c))
    ensures n.Identifier? ==> Next(n, c).value.Identifier?
  {
  }

  predicate InBlock(n: Node) { n.BlockComment? || n.CommentSlash? || n.CommentStar? }

  /** Comments are open exactly inside block comments. */
  lemma NextInBlock(n: Node, c: char, depth: nat)
    requires Next(n, c).Some? && (InBlock(n) <==> depth > 0)
    ensures var p := Settled(Next(n, c).value, depth); p.depth > 0 <==> InBlock(p.node)
  {
  }

  /** A character that is a letter always goes on from the initial node; what can not go on is unknown there. */
  lemma Stops(n: Node, c: char)
    requires Next(n, c).None? && Plain(n)
    ensures n.Initial? || n.BlockComment? ==> Match(n).UNKNOWN?
    ensures n.Initial? ==> !IsAlpha(c)
    ensures n.Identifier? ==> !IsAlphaNum(c)
  {
  }

  lemma MatchIsPlain(n: Node)
    requires Plain(n)
    ensures !Reserved(Match(n)) && (Match(n).IDENTIFIER? <==> n.Identifier?)
    ensures n.Final? ==> !Match(n).UNKNOWN?
  {
  }

  /** Comments are open inside block comments only, and the automaton is at its identifier node exactly behind a letter
      followed by letters and digits. */
  lemma {:induction false} ReadIsPlain(s: string)
    requires '\'' !in s && Read(s).Some?
    ensures Plain(Read(s).value.node) && (Read(s).value.node.Initial? <==> s == [])
    ensures Read(s).value.depth > 0 <==> InBlock(Read(s).value.node)
    ensures Read(s).value.node.Identifier? <==>
              s != [] && IsAlpha(s[0]) && forall k :: 0 <= k < |s| ==> IsAlphaNum(s[k])
    decreases |s|
  {
    hide Next, IsAlpha, IsDigit;
    if s != [] {
      var front, c := s[..|s| - 1], s[|s| - 1];
      assert c in s;
      ReadIsPlain(front);
      var before := Read(front).value;
      NextIsPlain(before.node, c, before.depth);
      NextIdentifier(before.node, c);
      NextInBlock(before.node, c, before.depth);
      assert s == front + [c];
      assert front != [] ==> s[0] == front[0];
    }
  }

  /** What begins with a letter is an identifier as long as it is read. */
  lemma {:induction false} LetterBegins(s: string)
    requires '\'' !in s && Read(s).Some? && s != [] && IsAlpha(s[0])
    ensures Read(s).value.node.Identifier?
    decreases |s|
  {
    hide Next, IsAlpha, IsDigit;
    var front, c := s[..|s| - 1], s[|s| - 1];
    assert c in s;
    if front == [] {
      NextIdentifier(Initial, c);
    } else {
      LetterBegins(front);
      NextIdentifier(Read(front).value.node, c);
    }
  }

  // ---------- block comments ----------

  function Stars(k: nat): string {
    if k == 0 then [] else Stars(k - 1) + ['*']
  }

  /** Inside a block comment stars cancel in pairs. */
  lemma {:induction false} StarsPair(s: string, k: nat)
    requires Read(s).Some? && Read(s).value.node.BlockComment?
    ensures Read(s + Stars(k)) == Some(Place(if k % 2 == 0 then BlockComment else CommentStar, Read(s).value.depth))
    decreases k
  {
    hide Read;
    if k == 0 {
      assert s + Stars(0) == s;
    } else {
      StarsPair(s, k - 1);
      ReadOne(s + Stars(k - 1), '*');
      assert s + Stars(k) == s + Stars(k - 1) + ['*'];
    }
  }

  /** A run of stars and a slash ends a block comment exactly when the run is odd: the outermost one, or one of
      those nested in it, which goes on in the comment around. */
  lemma {:induction false} StarsCloseIff(s: string, k: nat)
    requires Read(s).Some? && Read(s).value.node.BlockComment? && Read(s).value.depth >= 1
    ensures Read(s + Stars(k) + "/").Some?
    ensures var depth, p := Read(s).value.depth, Read(s + Stars(k) + "/").value;
            && p.depth == (if k % 2 == 1 then depth - 1 else depth)
            && (p.node == Final(COMMENT) <==> p.depth == 0)
            && (k % 2 == 1 && depth > 1 ==> p.node.BlockComment?)
  {
    hide Read;
    StarsPair(s, k);
    ReadOne(s + Stars(k), '/');
  }

  // ---------- the cut ----------

  /** `token` is what the automaton makes of the input from `begin` up to `end`: it goes on as long as it can, and a
      character that it can not take at all belongs to an unknown token. */
  ghost predicate Munch(data: string, begin: int, token: Token, end: int) {
    && 0 <= begin < end <= |data|
    && if Read(data[begin..end]).Some? then
         var n := Read(data[begin..end]).value.node;
         token == Match(n) && (end < |data| ==> (n.Final? || !Match(n).UNKNOWN?) && Next(n, data[end]).None?)
       else
         var before := Read(data[begin..end - 1]);
         token.UNKNOWN? && before.Some? && Match(before.value.node).UNKNOWN? && !before.value.node.Final?
  }

  /** What can be read can be read in part. */
  lemma {:induction false} ReadInPart(data: string, begin: nat, mid: nat, end: nat)
    requires begin <= mid <= end <= |data| && Read(data[begin..end]).Some?
    ensures Read(data[begin..mid]).Some?
    ensures mid < end ==> Next(Read(data[begin..mid]).value.node, data[mid]).Some?
    decreases end - mid
  {
    hide Next;
    if mid < end {
      ReadInPart(data, begin, mid + 1, end);
      assert data[begin..mid + 1][..mid - begin] == data[begin..mid];
    }
  }

  /** From where a token begins follow its kind and its end. */
  lemma MunchIsDetermined(data: string, begin: int, a: Token, endA: int, b: Token, endB: int)
    requires Munch(data, begin, a, endA) && Munch(data, begin, b, endB)
    ensures a == b && endA == endB
  {
    hide Munch;
    if endA < endB {
      MunchWithin(data, begin, b, endB);
      ShorterStops(data, begin, a, endA, b, endB);
      assert false;
    } else if endB < endA {
      MunchWithin(data, begin, a, endA);
      ShorterStops(data, begin, b, endB, a, endA);
      assert false;
    } else {
      SameEnd(data, begin, a, b, endA);
    }
  }

  lemma SameEnd(data: string, begin: int, a: Token, b: Token, end: int)
    requires Munch(data, begin, a, end) && Munch(data, begin, b, end)
    ensures a == b
  {
    hide Next, Match, Read;
  }

  lemma ShorterStops(data: string, begin: int, a: Token, endA: int, b: Token, endB: int)
    requires Munch(data, begin, a, endA) && endA < endB <= |data|
    ensures !Munch(data, begin, b, endB)
  {
    hide Next, Match;
    if Munch(data, begin, b, endB) {
      var last: nat := if Read(data[begin..endB]).Some? then endB else endB - 1;
      ReadInPart(data, begin, endA, last);
    }
  }

  /** What was pushed so far: the start of the input, then tokens one behind the other. An offset counts from the end
      of the input to the end of its token. */
  ghost predicate Pushed(data: string, tokens: seq<Token>, offsets: seq<nat>) {
    && |tokens| == |offsets| > 0 && offsets[0] == |data| && tokens[0] == START_OF_INPUT
    && forall i {:trigger MunchAt(data, tokens, offsets, i)} :: 0 < i < |tokens| ==> MunchAt(data, tokens, offsets, i)
  }

  ghost predicate MunchAt(data: string, tokens: seq<Token>, offsets: seq<nat>, i: nat)
    requires 0 < i < |tokens| == |offsets|
  {
    Munch(data, |data| - offsets[i - 1], tokens[i], |data| - offsets[i])
  }

  /** Where the token being read begins. */
  function Begin(data: string, offsets: seq<nat>): int {
    if offsets == [] then 0 else |data| - offsets[|offsets| - 1]
  }

  /** The input determines what is pushed. */
  lemma {:induction false} PushedIsDetermined(data: string, tokens: seq<Token>, offsets: seq<nat>,
                                              tokens': seq<Token>, offsets': seq<nat>, n: nat)
    requires Pushed(data, tokens, offsets) && Pushed(data, tokens', offsets') && n <= |tokens| && n <= |tokens'|
    ensures tokens[..n] == tokens'[..n] && offsets[..n] == offsets'[..n]
    decreases n
  {
    hide Munch;
    if n > 1 {
      PushedIsDetermined(data, tokens, offsets, tokens', offsets', n - 1);
      assert offsets[n - 2] == offsets[..n - 1][n - 2] == offsets'[..n - 1][n - 2];
      assert MunchAt(data, tokens, offsets, n - 1) && MunchAt(data, tokens', offsets', n - 1);
      MunchIsDetermined(data, |data| - offsets[n - 2], tokens[n - 1], |data| - offsets[n - 1],
                        tokens'[n - 1], |data| - offsets'[n - 1]);
      assert tokens[..n] == tokens[..n - 1] + [tokens[n - 1]] && tokens'[..n] == tokens'[..n - 1] + [tokens'[n - 1]];
      assert offsets[..n] == offsets[..n - 1] + [offsets[n - 1]]
             && offsets'[..n] == offsets'[..n - 1] + [offsets'[n - 1]];
    }
  }

  lemma MunchWithin(data: string, begin: int, token: Token, end: int)
    requires Munch(data, begin, token, end)
    ensures 0 <= begin < end <= |data|
  {
  }

  lemma PushedMore(data: string, tokens: seq<Token>, offsets: seq<nat>, token: Token, head: nat)
    requires Pushed(data, tokens, offsets) && Munch(data, Begin(data, offsets), token, head)
    ensures head <= |data| && Pushed(data, tokens + [token], offsets + [|data| - head])
  {
    hide Munch;
    MunchWithin(data, Begin(data, offsets), token, head);
    var last: nat := |data| - head;
    var ts: seq<Token>, os: seq<nat> := tokens + [token], offsets + [last];
    forall i {:trigger MunchAt(data, ts, os, i)} | 0 < i < |ts| ensures MunchAt(data, ts, os, i) {
      if i < |tokens| {
        assert MunchAt(data, tokens, offsets, i);
      }
    }
  }

  function Slice(data: string, offsets: seq<nat>, i: nat): string
    requires 0 < i < |offsets| && offsets[i] <= offsets[i - 1] <= |data|
  {
    data[|data| - offsets[i - 1]..|data| - offsets[i]]
  }

  /** Each token ends strictly behind the one before it, and is an identifier exactly when it begins with a letter; an
      identifier is made of letters and digits, and ends where no further one follows. */
  lemma PushedFacts(data: string, tokens: seq<Token>, offsets: seq<nat>, i: nat)
    requires Pushed(data, tokens, offsets) && '\'' !in data && 0 < i < |tokens|
    ensures offsets[i] < offsets[i - 1] <= |data| && !Reserved(tokens[i])
    ensures tokens[i].IDENTIFIER? <==> IsAlpha(Slice(data, offsets, i)[0])
    ensures tokens[i].IDENTIFIER? ==> forall k :: 0 <= k < |Slice(data, offsets, i)| ==>
              IsAlphaNum(Slice(data, offsets, i)[k])
    ensures tokens[i].IDENTIFIER? && offsets[i] > 0 ==> !IsAlphaNum(data[|data| - offsets[i]])
  {
    hide Pushed, IsAlpha, IsDigit, Next, Match;
    assert MunchAt(data, tokens, offsets, i) by { MunchThere(data, tokens, offsets, i); }
    var a, b := |data| - offsets[i - 1], |data| - offsets[i];
    MunchWithin(data, a, tokens[i], b);
    MunchFacts(data, a, tokens[i], b);
  }

  lemma MunchThere(data: string, tokens: seq<Token>, offsets: seq<nat>, i: nat)
    requires Pushed(data, tokens, offsets) && 0 < i < |tokens|
    ensures |tokens| == |offsets| && MunchAt(data, tokens, offsets, i)
  {
  }

  lemma MunchFacts(data: string, begin: nat, token: Token, end: nat)
    requires Munch(data, begin, token, end) && '\'' !in data
    ensures !Reserved(token) && (token.IDENTIFIER? <==> IsAlpha(data[begin]))
    ensures token.IDENTIFIER? ==> (forall k :: begin <= k < end ==> IsAlphaNum(data[k]))
                                  && (end < |data| ==> !IsAlphaNum(data[end]))
  {
    hide IsAlpha, IsDigit, Next, Match;
    var s := data[begin..end];
    assert data[begin] == s[0];
    if Read(s).Some? {
      var n := Read(s).value.node;
      ReadIsPlain(s);
      MatchIsPlain(n);
      if IsAlpha(s[0]) {
        LetterBegins(s);
      }
      if end < |data| {
        Stops(n, data[end]);
      }
      assert n.Identifier? ==> forall k :: begin <= k < end ==> data[k] == s[k - begin];
    } else {
      NotALetter(data, begin, end);
    }
  }

  /** An unknown token does not begin with a letter. */
  lemma NotALetter(data: string, begin: nat, end: nat)
    requires begin < end <= |data| && '\'' !in data && Read(data[begin..end]).None?
    requires Read(data[begin..end - 1]).Some? && Match(Read(data[begin..end - 1]).value.node).UNKNOWN?
    ensures !IsAlpha(data[begin])
  {
    hide IsAlpha, Read, Match;
    assert end == begin + 1 ==> data[begin..end] == [data[begin]];
    if IsAlpha(data[begin]) {
      if end == begin + 1 {
        LetterIsRead(data[begin]);
      } else {
        var t := data[begin..end - 1];
        assert t[0] == data[begin];
        LetterIsKnown(t);
      }
    }
  }

  lemma LetterIsKnown(t: string)
    requires t != [] && '\'' !in t && Read(t).Some? && IsAlpha(t[0])
    ensures !Match(Read(t).value.node).UNKNOWN?
  {
    LetterBegins(t);
    hide Read;
  }

  lemma LetterIsRead(c: char)
    requires IsAlpha(c)
    ensures Read([c]).Some?
  {
    assert [c][..0] == [];
  }

  /** The offsets begin with the whole input and never rise. */
  ghost predicate Falling(data: string, offsets: seq<nat>) {
    && offsets != [] && offsets[0] == |data|
    && forall i, j :: 0 <= i < j < |offsets| ==> offsets[j] <= offsets[i]
  }

  /** The slices of the tokens, one after the other. */
  ghost function Joined(data: string, offsets: seq<nat>, n: nat): string
    requires Falling(data, offsets) && 0 < n <= |offsets|
    decreases n
  {
    if n == 1 then [] else Joined(data, offsets, n - 1) + Slice(data, offsets, n - 1)
  }

  /** They give back the input up to the end of the last one. */
  lemma {:induction false} SlicesJoin(data: string, offsets: seq<nat>, n: nat)
    requires Falling(data, offsets) && 0 < n <= |offsets|
    ensures Joined(data, offsets, n) == data[..|data| - offsets[n - 1]]
    decreases n
  {
    if n > 1 {
      SlicesJoin(data, offsets, n - 1);
      var a, b := |data| - offsets[n - 2], |data| - offsets[n - 1];
      assert data[..a] + data[a..b] == data[..b];
    }
  }

  // ---------- reading ----------

  /** `node` was reached from the beginning of a token, with `depth` still to be counted. */
  ghost predicate ReadTo(data: string, begin: int, node: Node, depth: nat, head: nat) {
    && 0 <= begin <= head <= |data| && !node.QuoteSimple?
    && Read(data[begin..head]) == Some(Settled(node, depth))
  }

  lemma ReadsOn(data: string, begin: int, node: Node, depth: nat, head: nat)
    requires ReadTo(data, begin, node, depth, head) && head < |data| && '\'' !in data
    requires !node.SlashStar? && !node.StarSlash? && Next(node, data[head]).Some?
    ensures ReadTo(data, begin, Next(node, data[head]).value, depth, head + 1) && !Next(node, data[head]).value.Initial?
  {
    hide Next;
    NextIsPlain(node, data[head], depth);
    assert data[begin..head + 1][..head - begin] == data[begin..head];
  }

  /** Where the token of a node ends when no transition applies: an unknown character is taken along. */
  function End(node: Node, head: nat): nat {
    if !node.Final? && Match(node).UNKNOWN? then head + 1 else head
  }

  lemma EndsHere(data: string, begin: int, node: Node, depth: nat, head: nat)
    requires ReadTo(data, begin, node, depth, head) && head < |data| && '\'' !in data
    requires !node.SlashStar? && !node.StarSlash? && Next(node, data[head]).None?
    ensures Munch(data, begin, Match(node), End(node, head)) && head <= End(node, head) <= |data| && depth == 0
    ensures node.Initial? || node.BlockComment? ==> End(node, head) > head
  {
    hide Next, Match;
    ReadIsPlain(data[begin..head]);
    Stops(node, data[head]);
    Unblocked(node, data[head]);
    assert data[begin..head + 1][..head - begin] == data[begin..head];
  }

  lemma Unblocked(n: Node, c: char)
    requires Next(n, c).None?
    ensures !InBlock(n)
  {
  }

  lemma EndsLast(data: string, begin: int, node: Node, depth: nat)
    requires ReadTo(data, begin, node, depth, |data|) && begin < |data|
    requires !node.SlashStar? && !node.StarSlash?
    ensures Munch(data, begin, Match(node), |data|)
  {
    hide Match;
  }

  lemma CommentEnds(data: string, begin: int, depth: nat, head: nat)
    requires ReadTo(data, begin, StarSlash, depth, head) && depth <= 1
    ensures Munch(data, begin, COMMENT, head)
  {
    NotAtStart(data, begin, StarSlash, depth, head);
    CommentMatches();
    hide Next, Match;
  }

  lemma CommentMatches()
    ensures Match(Final(COMMENT)) == COMMENT && forall c :: Next(Final(COMMENT), c).None?
  {
  }

  lemma NotAtStart(data: string, begin: int, node: Node, depth: nat, head: nat)
    requires ReadTo(data, begin, node, depth, head) && !node.Initial?
    ensures begin < head
  {
    ReadNothing(data, begin);
  }

  lemma ReadNothing(data: string, at: nat)
    requires at <= |data|
    ensures Read(data[at..at]) == Some(Place(Initial, 0))
  {
    assert data[at..at] == [];
  }

  // ---------- keywords ----------

  const KEYWORDS: seq<string> :=
    ["if", "else", "let", "func", "class", "while", "export", "import", "module", "return"]

  const MAX_KEYWORD_SIZE := 6

  /** The token at distance `i` behind IF. */
  function Keyword(i: nat): Token
    requires i < |KEYWORDS|
  {
    [IF, ELSE, LET, FUNC, CLASS, WHILE, EXPORT, IMPORT, MODULE, RETURN][i]
  }

  predicate IsKeyword(t: Token) {
    t.IF? || t.ELSE? || t.LET? || t.FUNC? || t.CLASS? || t.WHILE? || t.EXPORT? || t.IMPORT? || t.MODULE? || t.RETURN?
  }

  /** What becomes of a token spelled `word`. */
  ghost function Keyed(token: Token, word: string): Token {
    if token.IDENTIFIER? && exists i :: 0 <= i < |KEYWORDS| && KEYWORDS[i] == word then
      var i :| 0 <= i < |KEYWORDS| && KEYWORDS[i] == word;
      Keyword(i)
    else token
  }

  lemma KeywordsDiffer(i: nat, j: nat)
    requires i < |KEYWORDS| && j < |KEYWORDS| && KEYWORDS[i] == KEYWORDS[j]
    ensures i == j
  {
    assert KEYWORDS[i][0] == KEYWORDS[j][0] && KEYWORDS[i][1] == KEYWORDS[j][1] && |KEYWORDS[i]| == |KEYWORDS[j]|;
  }

  lemma KeywordsAreShort(i: nat)
    requires i < |KEYWORDS|
    ensures |KEYWORDS[i]| <= MAX_KEYWORD_SIZE && '\0' !in KEYWORDS[i] && IsKeyword(Keyword(i))
  {
  }

  lemma KeyedFacts(token: Token, word: string, i: nat)
    requires i < |KEYWORDS| && KEYWORDS[i] == word && token.IDENTIFIER?
    ensures Keyed(token, word) == Keyword(i)
  {
    hide KEYWORDS, Keyword;
    var j :| 0 <= j < |KEYWORDS| && KEYWORDS[j] == word && Keyed(token, word) == Keyword(j);
    KeywordsDiffer(i, j);
  }

  /** Token `i` after the keywords were matched. */
  ghost function KeyedAt(data: string, tokens: seq<Token>, offsets: seq<nat>, i: nat): Token
    requires Falling(data, offsets) && i < |tokens| == |offsets|
  {
    assert i > 0 ==> offsets[i] <= offsets[i - 1] <= offsets[0];
    if i == 0 then tokens[0] else Keyed(tokens[i], Slice(data, offsets, i))
  }

  /** The input is cut from its start to its end. */
  ghost predicate Cut(data: string, tokens: seq<Token>, offsets: seq<nat>) {
    if data == [] then tokens == [START_OF_INPUT, UNKNOWN] && offsets == [0, 0]
    else Pushed(data, tokens, offsets) && Begin(data, offsets) == |data|
  }

  /** The tokens and offsets of an input, with the tokens as they were before the keywords were matched. */
  ghost predicate Lexed(data: string, raw: seq<Token>, tokens: seq<Token>, offsets: seq<nat>) {
    && |raw| == |tokens| == |offsets| >= 3 && Falling(data, offsets)
    && Cut(data, raw[..|raw| - 1], offsets[..|raw| - 1])
    && raw[|raw| - 1] == END_OF_INPUT && offsets[|raw| - 1] == 0
    && forall i :: 0 <= i < |raw| ==> tokens[i] == KeyedAt(data, raw, offsets, i)
  }

  lemma {:induction false} PushedFalls(data: string, tokens: seq<Token>, offsets: seq<nat>, i: nat, j: nat)
    requires Pushed(data, tokens, offsets) && i <= j < |offsets|
    ensures offsets[j] <= offsets[i] && (i < j ==> offsets[j] < offsets[i])
    decreases j
  {
    hide Munch;
    if i < j {
      PushedFalls(data, tokens, offsets, i, j - 1);
      assert MunchAt(data, tokens, offsets, j);
      MunchWithin(data, |data| - offsets[j - 1], tokens[j], |data| - offsets[j]);
    }
  }

  /** Pushing the end of the input behind tokens that reach it. */
  lemma PushedFallsToEnd(data: string, tokens: seq<Token>, offsets: seq<nat>)
    requires Pushed(data, tokens, offsets) && Begin(data, offsets) == |data|
    ensures Falling(data, offsets + [0]) && offsets[|offsets| - 1] == 0
  {
    var os: seq<nat> := offsets + [0];
    forall i, j | 0 <= i < j < |os| ensures os[j] <= os[i] {
      if j < |offsets| {
        PushedFalls(data, tokens, offsets, i, j);
      }
    }
  }

  lemma TooLong(word: string)
    requires |word| > MAX_KEYWORD_SIZE
    ensures Keyed(IDENTIFIER, word) == IDENTIFIER
  {
    forall i | 0 <= i < |KEYWORDS| ensures KEYWORDS[i] != word {
      KeywordsAreShort(i);
    }
  }

  lemma FallingAt(data: string, offsets: seq<nat>, i: nat)
    requires Falling(data, offsets) && 0 < i < |offsets|
    ensures offsets[i] <= offsets[i - 1] <= offsets[0] == |data|
  {
  }

  /** Identifiers hold no end mark. */
  lemma NoEndMarks(data: string, tokens: seq<Token>, offsets: seq<nat>)
    requires Pushed(data, tokens, offsets) && '\'' !in data && Falling(data, offsets + [0])
    ensures forall i :: 0 < i < |tokens| + 1 && (tokens + [END_OF_INPUT])[i].IDENTIFIER? ==>
                          '\0' !in Slice(data, offsets + [0], i)
  {
    hide Pushed;
    var ts, os: seq<nat> := tokens + [END_OF_INPUT], offsets + [0];
    PushedSizes(data, tokens, offsets);
    forall i | 0 < i < |ts| && ts[i].IDENTIFIER? ensures '\0' !in Slice(data, os, i) {
      FallingAt(data, os, i);
      PushedFacts(data, tokens, offsets, i);
      assert Slice(data, os, i) == Slice(data, offsets, i);
    }
  }

  lemma PushedSizes(data: string, tokens: seq<Token>, offsets: seq<nat>)
    requires Pushed(data, tokens, offsets)
    ensures |tokens| == |offsets| > 0
  {
  }

  lemma CutFacts(data: string, tokens: seq<Token>, offsets: seq<nat>)
    requires Cut(data, tokens, offsets) && '\'' !in data
    ensures |tokens| == |offsets| >= 2 && Falling(data, offsets + [0])
    ensures forall i :: 0 < i < |tokens| + 1 && (tokens + [END_OF_INPUT])[i].IDENTIFIER? ==>
                          '\0' !in Slice(data, offsets + [0], i)
  {
    if data != [] {
      PushedSizes(data, tokens, offsets);
      PushedFallsToEnd(data, tokens, offsets);
      NoEndMarks(data, tokens, offsets);
    }
  }

  lemma PushedFirst(data: string)
    ensures Pushed(data, [START_OF_INPUT], [|data|])
  {
  }

  /** The slices of the tokens give back the input. */
  lemma LexedJoins(data: string, raw: seq<Token>, tokens: seq<Token>, offsets: seq<nat>)
    requires Lexed(data, raw, tokens, offsets)
    ensures Joined(data, offsets, |offsets|) == data
  {
    SlicesJoin(data, offsets, |offsets|);
  }

  /** Between the marks of the start and the end, a token is a keyword exactly when it is spelled like it; it is an
      identifier exactly when it begins with a letter and is not spelled like a keyword. */
  lemma LexedFacts(data: string, raw: seq<Token>, tokens: seq<Token>, offsets: seq<nat>, i: nat, k: nat)
    requires Lexed(data, raw, tokens, offsets) && '\'' !in data && 0 < i < |tokens| - 1 && k < |KEYWORDS|
    ensures offsets[i] <= offsets[i - 1] <= |data| && (data != [] ==> offsets[i] < offsets[i - 1])
    ensures !tokens[i].END_OF_INPUT? && !tokens[i].START_OF_INPUT?
    ensures tokens[i] == Keyword(k) <==> Slice(data, offsets, i) == KEYWORDS[k]
    ensures data != [] ==> (tokens[i].IDENTIFIER? <==>
                              IsAlpha(Slice(data, offsets, i)[0]) && Slice(data, offsets, i) !in KEYWORDS)
  {
    hide Falling, Pushed, IsAlpha, IsDigit;
    FallingAt(data, offsets, i);
    var word := Slice(data, offsets, i);
    if data == [] {
      KeyedOther(raw[i], word, k);
      KeywordBegins(k);
      assert word == [];
    } else {
      var n := |raw| - 1;
      PushedFacts(data, raw[..n], offsets[..n], i);
      assert word == Slice(data, offsets[..n], i);
      KeywordBegins(k);
      if raw[i].IDENTIFIER? {
        KeyedEither(word, k);
      } else {
        KeyedOther(raw[i], word, k);
        BeginsNoKeyword(word);
      }
    }
  }

  /** The input determines its tokens and their offsets. */
  lemma LexedIsDetermined(data: string, raw: seq<Token>, tokens: seq<Token>, offsets: seq<nat>,
                          raw': seq<Token>, tokens': seq<Token>, offsets': seq<nat>)
    requires Lexed(data, raw, tokens, offsets) && Lexed(data, raw', tokens', offsets')
    ensures tokens == tokens' && offsets == offsets'
  {
    RawIsDetermined(data, raw, tokens, offsets, raw', tokens', offsets');
    forall i | 0 <= i < |tokens| ensures tokens[i] == tokens'[i] {
      assert tokens[i] == KeyedAt(data, raw, offsets, i) == tokens'[i];
    }
  }

  lemma RawIsDetermined(data: string, raw: seq<Token>, tokens: seq<Token>, offsets: seq<nat>,
                        raw': seq<Token>, tokens': seq<Token>, offsets': seq<nat>)
    requires Lexed(data, raw, tokens, offsets) && Lexed(data, raw', tokens', offsets')
    ensures raw == raw' && offsets == offsets'
  {
    hide Pushed, Keyed;
    if data == [] {
      assert offsets == [0, 0, 0] == offsets';
    } else {
      SameLength(data, raw, tokens, offsets, raw', tokens', offsets');
      SameLength(data, raw', tokens', offsets', raw, tokens, offsets);
      var n := |raw| - 1;
      PushedIsDetermined(data, raw[..n], offsets[..n], raw'[..n], offsets'[..n], n);
      assert raw[..n] == raw[..n][..n] && raw'[..n] == raw'[..n][..n];
      assert offsets[..n] == offsets[..n][..n] && offsets'[..n] == offsets'[..n][..n];
      assert raw == raw[..n] + [raw[n]] && raw' == raw'[..n] + [raw'[n]];
      assert offsets == offsets[..n] + [offsets[n]] && offsets' == offsets'[..n] + [offsets'[n]];
    }
  }

  lemma SameLength(data: string, raw: seq<Token>, tokens: seq<Token>, offsets: seq<nat>,
                   raw': seq<Token>, tokens': seq<Token>, offsets': seq<nat>)
    requires Lexed(data, raw, tokens, offsets) && Lexed(data, raw', tokens', offsets') && data != []
    ensures |raw| <= |raw'|
  {
    hide Falling, Pushed, Keyed;
    var n := |raw'| - 1;
    if n < |raw| - 1 {
      var m := |raw| - 1;
      PushedIsDetermined(data, raw[..m], offsets[..m], raw'[..n], offsets'[..n], n);
      assert offsets[n - 1] == offsets[..m][..n][n - 1] == offsets'[..n][..n][n - 1] == 0;
      assert offsets[..m][n - 1] == 0;
      PushedFalls(data, raw[..m], offsets[..m], n - 1, m - 1);
    }
  }

  lemma KeywordBegins(k: nat)
    requires k < |KEYWORDS|
    ensures KEYWORDS[k] != [] && IsAlpha(KEYWORDS[k][0]) && IsKeyword(Keyword(k)) && !Keyword(k).IDENTIFIER?
  {
  }

  lemma BeginsNoKeyword(word: string)
    requires word != [] && !IsAlpha(word[0])
    ensures word !in KEYWORDS
  {
    forall k | 0 <= k < |KEYWORDS| ensures KEYWORDS[k] != word {
      KeywordBegins(k);
    }
  }

  lemma KeyedOther(token: Token, word: string, k: nat)
    requires !token.IDENTIFIER? && !Reserved(token) && k < |KEYWORDS|
    ensures Keyed(token, word) == token && token != Keyword(k)
  {
    KeywordBegins(k);
  }

  lemma KeyedEither(word: string, k: nat)
    requires k < |KEYWORDS|
    ensures Keyed(IDENTIFIER, word) == Keyword(k) <==> word == KEYWORDS[k]
    ensures Keyed(IDENTIFIER, word).IDENTIFIER? <==> word !in KEYWORDS
    ensures !Keyed(IDENTIFIER, word).END_OF_INPUT? && !Keyed(IDENTIFIER, word).START_OF_INPUT?
  {
    KeywordBegins(k);
    if word in KEYWORDS {
      var j :| 0 <= j < |KEYWORDS| && KEYWORDS[j] == word;
      KeyedFacts(IDENTIFIER, word, j);
      KeywordBegins(j);
      KeywordTokensDiffer(j, k);
    }
  }

  lemma KeywordTokensDiffer(j: nat, k: nat)
    requires j < |KEYWORDS| && k < |KEYWORDS|
    ensures Keyword(j) == Keyword(k) <==> j == k
    ensures KEYWORDS[j] == KEYWORDS[k] <==> j == k
  {
    if KEYWORDS[j] == KEYWORDS[k] {
      KeywordsDiffer(j, k);
    }
  }

  class State {
    const data: string
    var tokens: seq<Token>
    var offsets: seq<nat>
    var count: nat

    constructor (data: string)
      ensures this.data == data && tokens == [] && offsets == [] && count == 0
    {
      this.data := data;
      tokens, offsets, count := [], [], 0;
    }

    method Push(token: Token, offset: nat)
      modifies `tokens, `offsets
      ensures tokens == old(tokens) + [token] && offsets == old(offsets) + [offset]
    {
      tokens := tokens + [token];
      offsets := offsets + [offset];
    }

    /** Ends a token, and goes on from the initial node when there is more to read. */
    method PushAndGoOn(token: Token, head: nat)
      requires Pushed(data, tokens, offsets) && Munch(data, Begin(data, offsets), token, head) && '\'' !in data
      requires head < |data| ==> count == 0
      modifies this
      ensures Pushed(data, tokens, offsets) && Begin(data, offsets) == |data|
      decreases |data| - head, 0, 1
    {
      hide Pushed, Munch;
      PushedMore(data, tokens, offsets, token, head);
      Push(token, |data| - head);
      if head < |data| {
        assert data[head..head] == [];
        Goto(Initial, head);
      }
    }

    /** Goes on from a node until the input is used up. */
    method Goto(node: Node, head: nat)
      requires Pushed(data, tokens, offsets) && ReadTo(data, Begin(data, offsets), node, count, head) && '\'' !in data
      requires node.Initial? ==> head < |data|
      modifies this
      ensures Pushed(data, tokens, offsets) && Begin(data, offsets) == |data|
      decreases |data| - head, if node.Initial? || node.BlockComment? then 0 else 1, 0
    {
      hide Pushed, Munch, Next, Match, End, Read;
      ghost var begin := Begin(data, offsets);
      if node.SlashStar? {
        count := count + 1;
        Goto(BlockComment, head);
      } else if node.StarSlash? {
        count := if count > 0 then count - 1 else 0;
        if count > 0 {
          Goto(BlockComment, head);
        } else {
          CommentEnds(data, begin, old(count), head);
          PushAndGoOn(COMMENT, head);
        }
      } else if head == |data| {
        NotAtStart(data, begin, node, count, head);
        EndsLast(data, begin, node, count);
        PushedMore(data, tokens, offsets, Match(node), head);
        Push(Match(node), 0);
      } else {
        var next := Next(node, data[head]);
        if next.Some? {
          ReadsOn(data, begin, node, count, head);
          Goto(next.value, head + 1);
        } else {
          EndsHere(data, begin, node, count, head);
          PushAndGoOn(Match(node), End(node, head));
        }
      }
    }

    /** Whether the input spells `word` at `at`. The words are stored with an end mark behind them, and the input has
        none there, so that nothing behind the mark is looked at. */
    method Spells(at: nat, size: nat, word: string) returns (b: bool)
      requires at + size <= |data| && '\0' !in data[at..at + size] && '\0' !in word
      ensures b <==> data[at..at + size] == word
    {
      var stored := word + ['\0'];
      var j := 0;
      while j < size
        invariant 0 <= j <= size && j <= |word| && data[at..at + j] == word[..j]
      {
        assert data[at + j] == data[at..at + size][j];
        if data[at + j] != stored[j] {
          assert j < |word| ==> data[at..at + size][j] != word[j];
          return false;
        }
        assert data[at..at + j + 1] == data[at..at + j] + [data[at + j]];
        assert j < |word| && word[..j + 1] == word[..j] + [word[j]];
        j := j + 1;
      }
      b := stored[size] == '\0';
      assert size < |word| ==> stored[size] == word[size];
    }

    /** The keyword of token `i`, if it is spelled like one. */
    method MatchKeyword(i: nat) returns (token: Token)
      requires Falling(data, offsets) && 0 < i < |tokens| == |offsets|
      requires tokens[i].IDENTIFIER? ==> '\0' !in Slice(data, offsets, i)
      ensures token == KeyedAt(data, tokens, offsets, i)
    {
      hide Falling, KEYWORDS, Keyword;
      token := tokens[i];
      FallingAt(data, offsets, i);
      var offset, size := offsets[i - 1], offsets[i - 1] - offsets[i];
      ghost var word := Slice(data, offsets, i);
      if token.IDENTIFIER? && size <= MAX_KEYWORD_SIZE {
        var k := 0;
        while k < |KEYWORDS|
          invariant 0 <= k <= |KEYWORDS| && token == IDENTIFIER
          invariant forall m :: 0 <= m < k ==> KEYWORDS[m] != word
        {
          KeywordsAreShort(k);
          var b := Spells(offsets[0] - offset, size, KEYWORDS[k]);
          if b {
            KeyedFacts(token, word, k);
            return Keyword(k);
          }
          k := k + 1;
        }
      } else if token.IDENTIFIER? {
        TooLong(word);
      }
    }

    /** Turns the identifiers that spell a keyword into it. */
    method MatchKeywords()
      requires Falling(data, offsets) && |tokens| == |offsets|
      requires forall i :: 0 < i < |tokens| && tokens[i].IDENTIFIER? ==> '\0' !in Slice(data, offsets, i)
      modifies `tokens
      ensures |tokens| == |old(tokens)|
      ensures forall i :: 0 <= i < |tokens| ==> tokens[i] == KeyedAt(data, old(tokens), offsets, i)
    {
      hide Keyed;
      ghost var raw := tokens;
      var i := 1;
      while i < |tokens|
        invariant 1 <= i <= |tokens| == |raw|
        invariant forall k :: 0 <= k < i ==> tokens[k] == KeyedAt(data, raw, offsets, k)
        invariant tokens[i..] == raw[i..]
      {
        assert tokens[i] == tokens[i..][0] == raw[i..][0] == raw[i];
        var token := MatchKeyword(i);
        tokens := tokens[i := token];
        assert tokens[i + 1..] == raw[i..][1..];
        i := i + 1;
      }
    }

    /** Cuts the input; one without characters gets an unknown token. */
    method CutAll()
      requires tokens == [] && offsets == [] && count == 0 && '\'' !in data
      modifies this
      ensures Cut(data, tokens, offsets)
    {
      hide Pushed, Read, Next, Match;
      Push(START_OF_INPUT, |data|);
      assert tokens == [START_OF_INPUT] && offsets == [|data|];
      if data == [] {
        Push(UNKNOWN, 0);
      } else {
        PushedFirst(data);
        ReadNothing(data, 0);
        Goto(Initial, 0);
      }
    }

    /** Lexes the whole input. */
    method Lex() returns (ghost raw: seq<Token>)
      requires tokens == [] && offsets == [] && count == 0 && '\'' !in data
      modifies this
      ensures Lexed(data, raw, tokens, offsets) && count == 0
    {
      hide Cut, Keyed;
      CutAll();
      CutFacts(data, tokens, offsets);
      ghost var cut, at := tokens, offsets;
      Push(END_OF_INPUT, 0);
      raw := tokens;
      assert raw[..|raw| - 1] == cut && offsets[..|raw| - 1] == at;
      MatchKeywords();
      count := 0;
    }
  }
}

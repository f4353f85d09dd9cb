/** The recursive-descent parser as the engine runs it: a position moving over a token list, one
    method per grammar rule.  Every method is proved against the grammar functions of Syntax. */
module Parser {
  import opened Common
  import opened Syntax

  /** What the tokenizer hands over: the EOF token is there, last, and only there. */
  predicate Ended(tokens: seq<Token>) {
    && tokens != [] && tokens[|tokens| - 1] == Mark(EOF)
    && forall i :: 0 <= i < |tokens| - 1 ==> tokens[i] != Mark(EOF)
  }

  /** The state of a parse; an error stands for the raised `ExpressionError`. */
  class TokenParser {
    const tokens: seq<Token>
    var pos: nat

    /** The position is on a token: it never passes EOF. */
    predicate Valid()
      reads this
    {
      Ended(tokens) && pos < |tokens|
    }

    /** The tokens from the position to EOF, without it. */
    function Left(): seq<Token>
      requires Valid()
      reads this
    {
      tokens[pos..|tokens| - 1]
    }

    /** A method that stops with `r` has done what the grammar function says. */
    ghost predicate Did<T>(spec: Parse<T>, r: Result<T, SyntaxError>)
      reads this
    {
      && Valid()
      && match spec {
           case Yes(value, rest) => r == Ok(value) && Left() == rest
           case No(error) => r == Err(error)
         }
    }

    constructor (tokens: seq<Token>)
      requires Ended(tokens)
      ensures Valid() && this.tokens == tokens && pos == 0
    {
      this.tokens := tokens;
      pos := 0;
    }

    function Peek(): (k: Kind)
      requires Valid()
      reads this
      ensures k == Head(Left())
      ensures k == EOF <==> pos == |tokens| - 1
    {
      KindOf(tokens[pos])
    }

    method Next() returns (t: Token)
      requires Valid() && Peek() != EOF
      modifies `pos
      ensures Valid() && pos == old(pos) + 1
      ensures old(Left()) == [t] + Left()
    {
      t := tokens[pos];
      pos := pos + 1;
    }

    method Match(kind: Kind) returns (ok: bool)
      requires Valid() && kind != EOF
      modifies `pos
      ensures Valid()
      ensures ok <==> Head(old(Left())) == kind
      ensures ok ==> old(Left()) != [] && Left() == old(Left())[1..] && pos == old(pos) + 1
      ensures !ok ==> pos == old(pos)
    {
      ok := Peek() == kind;
      if ok {
        pos := pos + 1;
      }
    }

    method ParseTernary() returns (r: Result<Expr, SyntaxError>)
      requires Valid()
      modifies `pos
      ensures Did(ParseAt(0, old(Left())), r)
      decreases |tokens| - pos, 11
    {
      hide Syntax.ParseAt, Syntax.ChainLoop, Syntax.PostfixLoop, Syntax.PairsLoop, Syntax.ParseAtom, Syntax.ParseNot,
          Syntax.ParseSign, Syntax.ParsePower, Syntax.ParseComparison, Syntax.ParseItems, Syntax.ItemsLoop, Syntax.IsSuffix;
      TernaryIsLowest(Left());
      r := ParseOr();
      if r.Err? { return; }
      var orNode := r.value;
      var ok := Match(IF);
      if ok {
        r := ParseOr();
        if r.Err? { return; }
        var cond := r.value;
        ok := Match(ELSE);
        if !ok { return Err(MissingElse); }
        r := ParseTernary();
        if r.Err? { return; }
        return Ok(IfElse(cond, orNode, r.value));
      }
      ok := Match(QUESTION);
      if ok {
        r := ParseTernary();
        if r.Err? { return; }
        var ifTrue := r.value;
        ok := Match(COLON);
        if !ok { return Err(MissingColon); }
        r := ParseTernary();
        if r.Err? { return; }
        return Ok(Ternary(orNode, ifTrue, r.value));
      }
    }

    method ParseOr() returns (r: Result<Expr, SyntaxError>)
      requires Valid()
      modifies `pos
      ensures Did(ParseAt(1, old(Left())), r)
      decreases |tokens| - pos, 10
    {
      hide Syntax.ParseAt, Syntax.ParseTernary, Syntax.PostfixLoop, Syntax.PairsLoop, Syntax.ParseAtom, Syntax.ParseNot,
          Syntax.ParseSign, Syntax.ParsePower, Syntax.ParseComparison, Syntax.ParseItems, Syntax.ItemsLoop, Syntax.IsSuffix;
      ParseChain(1, Left());
      r := ParseAnd();
      if r.Err? { return; }
      var node := r.value;
      var more := Match(OR);
      while more
        invariant Valid() && old(pos) < pos
        invariant ParseAt(1, old(Left())) == if more then RightOperand(1, OR, node, Left()) else Yes(node, Left())
        decreases |tokens| - pos, more
      {
        r := ParseAnd();
        if r.Err? { return; }
        node := Binary(OR, node, r.value);
        more := Match(OR);
      }
      r := Ok(node);
    }

    method ParseAnd() returns (r: Result<Expr, SyntaxError>)
      requires Valid()
      modifies `pos
      ensures Did(ParseAt(2, old(Left())), r)
      decreases |tokens| - pos, 9
    {
      hide Syntax.ParseAt, Syntax.ParseTernary, Syntax.PostfixLoop, Syntax.PairsLoop, Syntax.ParseAtom, Syntax.ParseNot,
          Syntax.ParseSign, Syntax.ParsePower, Syntax.ParseComparison, Syntax.ParseItems, Syntax.ItemsLoop, Syntax.IsSuffix;
      ParseChain(2, Left());
      r := ParseNot();
      if r.Err? { return; }
      var node := r.value;
      var more := Match(AND);
      while more
        invariant Valid() && old(pos) < pos
        invariant ParseAt(2, old(Left())) == if more then RightOperand(2, AND, node, Left()) else Yes(node, Left())
        decreases |tokens| - pos, more
      {
        r := ParseNot();
        if r.Err? { return; }
        node := Binary(AND, node, r.value);
        more := Match(AND);
      }
      r := Ok(node);
    }

    method ParseNot() returns (r: Result<Expr, SyntaxError>)
      requires Valid()
      modifies `pos
      ensures Did(ParseAt(3, old(Left())), r)
      decreases |tokens| - pos, 8
    {
      hide Syntax.ParseTernary, Syntax.ChainLoop, Syntax.PostfixLoop, Syntax.PairsLoop, Syntax.ParseAtom, Syntax.ParseSign,
          Syntax.ParsePower, Syntax.ParseComparison, Syntax.ParseItems, Syntax.ItemsLoop, Syntax.IsSuffix;
      var ok := Match(NOT);
      if ok {
        r := ParseNot();
        if r.Err? { return; }
        return Ok(Unary(NOT, r.value));
      }
      r := ParseComparison();
    }

    method ParseComparison() returns (r: Result<Expr, SyntaxError>)
      requires Valid()
      modifies `pos
      ensures Did(ParseAt(4, old(Left())), r)
      decreases |tokens| - pos, 7
    {
      hide Syntax.ParseTernary, Syntax.ChainLoop, Syntax.PostfixLoop, Syntax.ParseAtom, Syntax.ParseNot, Syntax.ParseSign,
          Syntax.ParsePower, Syntax.ParseItems, Syntax.ItemsLoop, Syntax.IsSuffix;
      r := ParseAdditive();
      if r.Err? { return; }
      var node, pairs := r.value, [];
      while IsComparison(Peek())
        invariant Valid() && old(pos) < pos
        invariant ParseAt(5, old(Left())).Yes? && ParseAt(5, old(Left())).value == node
        invariant PairsLoop([], ParseAt(5, old(Left())).rest) == PairsLoop(pairs, Left())
        decreases |tokens| - pos
      {
        var op := Next();
        r := ParseAdditive();
        if r.Err? { return; }
        pairs := pairs + [Pair(op.kind, r.value)];
      }
      r := Ok(if pairs == [] then node else Compare(node, pairs));
    }

    method ParseAdditive() returns (r: Result<Expr, SyntaxError>)
      requires Valid()
      modifies `pos
      ensures Did(ParseAt(5, old(Left())), r)
      decreases |tokens| - pos, 6
    {
      hide Syntax.ParseAt, Syntax.ParseTernary, Syntax.PostfixLoop, Syntax.PairsLoop, Syntax.ParseAtom, Syntax.ParseNot,
          Syntax.ParseSign, Syntax.ParsePower, Syntax.ParseComparison, Syntax.ParseItems, Syntax.ItemsLoop, Syntax.IsSuffix;
      ParseChain(5, Left());
      r := ParseMult();
      if r.Err? { return; }
      var node := r.value;
      while Peek() == PLUS || Peek() == MINUS
        invariant Valid() && old(pos) < pos
        invariant ParseAt(5, old(Left())) == ChainLoop(5, node, Left())
        decreases |tokens| - pos
      {
        var op := Next();
        r := ParseMult();
        if r.Err? { return; }
        node := Binary(op.kind, node, r.value);
      }
      r := Ok(node);
    }

    method ParseMult() returns (r: Result<Expr, SyntaxError>)
      requires Valid()
      modifies `pos
      ensures Did(ParseAt(6, old(Left())), r)
      decreases |tokens| - pos, 5
    {
      hide Syntax.ParseAt, Syntax.ParseTernary, Syntax.PostfixLoop, Syntax.PairsLoop, Syntax.ParseAtom, Syntax.ParseNot,
          Syntax.ParseSign, Syntax.ParsePower, Syntax.ParseComparison, Syntax.ParseItems, Syntax.ItemsLoop, Syntax.IsSuffix;
      ParseChain(6, Left());
      r := ParseUnary();
      if r.Err? { return; }
      var node := r.value;
      while Peek() == STAR || Peek() == SLASH || Peek() == DSLASH || Peek() == PERCENT
        invariant Valid() && old(pos) < pos
        invariant ParseAt(6, old(Left())) == ChainLoop(6, node, Left())
        decreases |tokens| - pos
      {
        var op := Next();
        r := ParseUnary();
        if r.Err? { return; }
        node := Binary(op.kind, node, r.value);
      }
      r := Ok(node);
    }

    method ParseUnary() returns (r: Result<Expr, SyntaxError>)
      requires Valid()
      modifies `pos
      ensures Did(ParseAt(7, old(Left())), r)
      decreases |tokens| - pos, 4
    {
      hide Syntax.ParseTernary, Syntax.ChainLoop, Syntax.PostfixLoop, Syntax.PairsLoop, Syntax.ParseAtom, Syntax.ParseNot,
          Syntax.ParsePower, Syntax.ParseComparison, Syntax.ParseItems, Syntax.ItemsLoop, Syntax.IsSuffix;
      if Peek() == MINUS {
        var _ := Next();
        r := ParseUnary();
        if r.Err? { return; }
        return Ok(Unary(MINUS, r.value));
      }
      if Peek() == PLUS {
        var _ := Next();
        r := ParseUnary();
        if r.Err? { return; }
        return Ok(Unary(PLUS, r.value));
      }
      r := ParsePower();
    }

    method ParsePower() returns (r: Result<Expr, SyntaxError>)
      requires Valid()
      modifies `pos
      ensures Did(ParseAt(8, old(Left())), r)
      decreases |tokens| - pos, 3
    {
      hide Syntax.ParseTernary, Syntax.ChainLoop, Syntax.PostfixLoop, Syntax.PairsLoop, Syntax.ParseAtom, Syntax.ParseNot,
          Syntax.ParseSign, Syntax.ParseComparison, Syntax.ParseItems, Syntax.ItemsLoop, Syntax.IsSuffix;
      r := ParsePostfix();
      if r.Err? { return; }
      var node := r.value;
      var ok := Match(POW);
      if ok {
        r := ParseUnary();
        if r.Err? { return; }
        return Ok(Binary(POW, node, r.value));
      }
    }

    method ParsePostfix() returns (r: Result<Expr, SyntaxError>)
      requires Valid()
      modifies `pos
      ensures Did(ParseAt(9, old(Left())), r)
      decreases |tokens| - pos, 2
    {
      hide Syntax.ParseTernary, Syntax.ChainLoop, Syntax.PairsLoop, Syntax.ParseAtom, Syntax.ParseNot, Syntax.ParseSign,
          Syntax.ParsePower, Syntax.ParseComparison, Syntax.ParseItems, Syntax.ItemsLoop, Syntax.IsSuffix;
      r := ParseAtom();
      if r.Err? { return; }
      var node := r.value;
      while Peek() == LBRACK
        invariant Valid() && old(pos) < pos
        invariant ParseAt(9, old(Left())) == PostfixLoop(node, Left())
        decreases |tokens| - pos
      {
        var _ := Next();
        r := ParseTernary();
        if r.Err? { return; }
        var ok := Match(RBRACK);
        if !ok { return Err(MissingBracket); }
        node := Index(node, r.value);
      }
      r := Ok(node);
    }

    method ExpectClose(close: Kind, missing: SyntaxError, items: seq<Expr>) returns (r: Result<seq<Expr>, SyntaxError>)
      requires Valid() && close != EOF
      modifies `pos
      ensures Did(Closed(close, missing, items, old(Left())), r)
    {
      hide Syntax.ParseAt;
      var ok := Match(close);
      r := if ok then Ok(items) else Err(missing);
    }

    /** The loop over comma-separated expressions, shared by calls and list literals. */
    method ParseItemsUntil(close: Kind, missing: SyntaxError) returns (r: Result<seq<Expr>, SyntaxError>)
      requires Valid() && close != EOF && close != COMMA
      modifies `pos
      ensures Did(ParseItems(close, missing, old(Left())), r)
      decreases |tokens| - pos, 12
    {
      hide Syntax.ParseAt, Syntax.ParseTernary, Syntax.ChainLoop, Syntax.PostfixLoop, Syntax.PairsLoop, Syntax.ParseAtom,
          Syntax.ParseNot, Syntax.ParseSign, Syntax.ParsePower, Syntax.ParseComparison, Syntax.ParseItems,
          Syntax.ItemsLoop, Syntax.IsSuffix;
      ItemsStart(close, missing, Left());
      ghost var spec := ParseItems(close, missing, Left());
      var items := [];
      var empty := Match(close);
      if empty { return Ok([]); }
      var more := true;
      while more
        invariant Valid() && old(pos) <= pos
        invariant spec == if more then ItemsLoop(close, missing, items, Left()) else Closed(close, missing, items, Left())
        decreases |tokens| - pos, more
      {
        ItemsOnce(close, missing, items, Left());
        var item := ParseTernary();
        if item.Err? { return Err(item.error); }
        items := items + [item.value];
        more := Match(COMMA);
      }
      r := ExpectClose(close, missing, items);
    }

    method ParseAtom() returns (r: Result<Expr, SyntaxError>)
      requires Valid()
      modifies `pos
      ensures Did(ParseAt(10, old(Left())), r)
      decreases |tokens| - pos, 1
    {
      hide Syntax.ParseAt, Syntax.ParseTernary, Syntax.ChainLoop, Syntax.PostfixLoop, Syntax.PairsLoop, Syntax.ParseAtom,
          Syntax.ParseNot, Syntax.ParseSign, Syntax.ParsePower, Syntax.ParseComparison, Syntax.ParseItems,
          Syntax.ItemsLoop, Syntax.IsSuffix;
      AtomCases(Left());
      match tokens[pos] {
        case Value(lit) =>
          var _ := Next();
          return Ok(Lit(lit));
        case Var(ns, key) =>
          var _ := Next();
          if key == "" { return Err(EmptyName); }
          return Ok(VarRef(ns, key));
        case Name(id) =>
          var _ := Next();
          var ok := Match(LPAREN);
          if ok {
            var args := ParseItemsUntil(RPAREN, MissingParen);
            if args.Err? { return Err(args.error); }
            return Ok(Call(id, args.value));
          }
          return Err(UnknownIdentifier);
        case Mark(kind) =>
          if kind == LPAREN {
            var _ := Next();
            r := ParseTernary();
            if r.Err? { return; }
            var ok := Match(RPAREN);
            if !ok { return Err(MissingParen); }
            return;
          }
          if kind == LBRACK {
            var _ := Next();
            var items := ParseItemsUntil(RBRACK, MissingBracket);
            if items.Err? { return Err(items.error); }
            return Ok(List(items.value));
          }
          return Err(ExpressionExpected);
      }
    }

    /** The whole expression; on success the position is on EOF. */
    method Parse() returns (r: Result<Expr, SyntaxError>)
      requires Valid()
      modifies `pos
      ensures Did(ParseAll(old(Left())), r)
      ensures r.Ok? ==> pos == |tokens| - 1
    {
      hide Syntax.ParseAt, Syntax.ParseTernary, Syntax.ChainLoop, Syntax.PostfixLoop, Syntax.PairsLoop, Syntax.ParseAtom,
          Syntax.ParseNot, Syntax.ParseSign, Syntax.ParsePower, Syntax.ParseComparison, Syntax.ParseItems,
          Syntax.ItemsLoop, Syntax.IsSuffix;
      if Peek() == EOF { return Err(EmptyExpression); }
      r := ParseTernary();
      if r.Err? { return; }
      if Peek() != EOF { return Err(TrailingInput); }
    }
  }

  /** What remains of a chain once its operator has been matched. */
  ghost function RightOperand(level: nat, op: Kind, left: Expr, ts: seq<Token>): Parse<Expr>
    requires ChainOp(level, op)
  {
    match ParseAt(level + 1, ts)
    case No(e) => No(e)
    case Yes(right, rest) => ChainLoop(level, Binary(op, left, right), rest)
  }

  lemma TernaryIsLowest(ts: seq<Token>)
    ensures ParseAt(0, ts) == ParseTernary(ts)
  {
    hide Syntax.ParseTernary;
  }

  /** The first token decides which rule an atom follows. */
  ghost function AtomCase(ts: seq<Token>): Parse<Expr>
    requires ts != []
  {
    var left := ts[1..];
    match ts[0]
    case Value(lit) => Yes(Lit(lit), left)
    case Var(ns, key) => if key == "" then No(EmptyName) else Yes(VarRef(ns, key), left)
    case Name(id) =>
      if Head(left) != LPAREN then No(UnknownIdentifier)
      else (
        match ParseItems(RPAREN, MissingParen, left[1..])
        case No(e) => No(e)
        case Yes(args, rest) => Yes(Call(id, args), rest))
    case Mark(k) =>
      if k == LPAREN then
        match ParseAt(0, left)
        case No(e) => No(e)
        case Yes(inner, rest) => if Head(rest) != RPAREN then No(MissingParen) else Yes(inner, rest[1..])
      else if k == LBRACK then
        match ParseItems(RBRACK, MissingBracket, left)
        case No(e) => No(e)
        case Yes(items, rest) => Yes(List(items), rest)
      else No(ExpressionExpected)
  }

  lemma AtomCases(ts: seq<Token>)
    ensures ParseAt(10, ts) == if ts == [] then No(ExpressionExpected) else AtomCase(ts)
  {
    hide Syntax.ParseTernary, Syntax.ParseItems, Syntax.ParseNot, Syntax.ParseSign, Syntax.ParsePower;
    assert ParseAt(10, ts) == ParseAtom(ts);
    if |ts| > 1 { assert ts[1..][1..] == ts[2..]; }
  }
}

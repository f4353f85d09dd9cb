/** Tokens, expression trees, and the grammar of `_Parser` as total functions on the tokens left. */
module Syntax {
  import opened Common

  datatype Kind =
    | AND | OR | NOT | IF | ELSE
    | GT | GE | LT | LE | EQ | NE
    | PLUS | MINUS | STAR | SLASH | DSLASH | PERCENT | POW
    | LPAREN | RPAREN | LBRACK | RBRACK | COMMA | QUESTION | COLON
    | EOF
    | OTHER   // any token that is not a keyword or an operator

  /** Numbers with a point or an exponent keep their spelling; their float value is not modelled. */
  datatype Literal = Int(n: nat) | Dec(text: string) | Str(s: string) | Bool(b: bool) | NoneValue

  datatype Token = Value(lit: Literal) | Var(ns: string, key: string) | Name(id: string) | Mark(kind: Kind)

  datatype Pair = Pair(op: Kind, right: Expr)

  datatype Expr =
    | Lit(value: Literal)
    | VarRef(ns: string, key: string)
    | List(items: seq<Expr>)
    | Call(func: string, args: seq<Expr>)
    | Unary(op: Kind, operand: Expr)
    | Binary(op: Kind, left: Expr, right: Expr)
    | Compare(first: Expr, pairs: seq<Pair>)
    | Ternary(cond: Expr, ifTrue: Expr, ifFalse: Expr)
    | IfElse(cond: Expr, ifTrue: Expr, ifFalse: Expr)
    | Index(obj: Expr, index: Expr)

  datatype SyntaxError =
    | EmptyExpression | TrailingInput | MissingElse | MissingColon | MissingBracket | MissingParen
    | EmptyName | UnknownIdentifier | ExpressionExpected

  datatype Parse<T> = Yes(value: T, rest: seq<Token>) | No(error: SyntaxError)

  function KindOf(t: Token): Kind {
    if t.Mark? then t.kind else OTHER
  }

  /** Kind of the next token; the end of the list stands for the EOF token. */
  function Head(ts: seq<Token>): Kind {
    if ts == [] then EOF else KindOf(ts[0])
  }

  // Grammar levels: 0 ternary, 1 or, 2 and, 3 not, 4 comparison, 5 additive, 6 multiplicative,
  // 7 sign, 8 power, 9 postfix, 10 atom.

  predicate IsComparison(k: Kind) {
    k == GT || k == GE || k == LT || k == LE || k == EQ || k == NE
  }

  /** The left-associative binary operators of a level. */
  predicate ChainOp(level: nat, k: Kind) {
    || (level == 1 && k == OR)
    || (level == 2 && k == AND)
    || (level == 5 && (k == PLUS || k == MINUS))
    || (level == 6 && (k == STAR || k == SLASH || k == DSLASH || k == PERCENT))
  }

  predicate IsSuffix<T(==)>(rest: seq<T>, ts: seq<T>) {
    |rest| <= |ts| && rest == ts[|ts| - |rest|..]
  }

  /** What parsing leaves is a proper suffix of what it was given. */
  predicate Consumes<T>(r: Parse<T>, ts: seq<Token>) {
    r.Yes? ==> |r.rest| < |ts| && IsSuffix(r.rest, ts)
  }

  predicate Keeps<T>(r: Parse<T>, ts: seq<Token>) {
    r.Yes? ==> IsSuffix(r.rest, ts)
  }

  /** A tail of a tail, one token further on, is a tail. */
  lemma SuffixAfter<T>(a: seq<T>, b: seq<T>, c: seq<T>)
    requires c != [] && IsSuffix(b, c[1..]) && IsSuffix(a, b)
    ensures IsSuffix(a, c)
  {
  }

  lemma SuffixPast<T>(d: seq<T>, c: seq<T>, b: seq<T>, a: seq<T>)
    requires IsSuffix(b, a) && b != [] && IsSuffix(c, b[1..]) && c != [] && IsSuffix(d, c[1..])
    ensures IsSuffix(d, a)
  {
  }

  /** Parses one expression of the given level: total on every token list, and each success
      consumes at least one token and never looks past the end. */
  function ParseAt(level: nat, ts: seq<Token>): (r: Parse<Expr>)
    ensures Consumes(r, ts)
    decreases |ts|, if level <= 10 then 11 - level else 1, 1
  {
    if level == 0 then ParseTernary(ts)
    else if level == 3 then ParseNot(ts)
    else if level == 4 then ParseComparison(ts)
    else if level == 7 then ParseSign(ts)
    else if level == 8 then ParsePower(ts)
    else if level == 9 then
      match ParseAt(10, ts)
      case No(e) => No(e)
      case Yes(obj, rest) => PostfixLoop(obj, rest)
    else if level >= 10 then ParseAtom(ts)
    else
      match ParseAt(level + 1, ts)
      case No(e) => No(e)
      case Yes(left, rest) => ChainLoop(level, left, rest)
  }

  function ParseTernary(ts: seq<Token>): (r: Parse<Expr>)
    ensures Consumes(r, ts)
    decreases |ts|, 11, 0
  {
    match ParseAt(1, ts)
    case No(e) => No(e)
    case Yes(first, rest) =>
      if Head(rest) == IF then
        match ParseAt(1, rest[1..])
        case No(e) => No(e)
        case Yes(cond, rest2) =>
          if Head(rest2) != ELSE then No(MissingElse)
          else
            match ParseAt(0, rest2[1..])
            case No(e) => No(e)
            case Yes(other, rest3) => SuffixPast(rest3, rest2, rest, ts); Yes(IfElse(cond, first, other), rest3)
      else if Head(rest) == QUESTION then
        match ParseAt(0, rest[1..])
        case No(e) => No(e)
        case Yes(ifTrue, rest2) =>
          if Head(rest2) != COLON then No(MissingColon)
          else
            match ParseAt(0, rest2[1..])
            case No(e) => No(e)
            case Yes(ifFalse, rest3) => SuffixPast(rest3, rest2, rest, ts); Yes(Ternary(first, ifTrue, ifFalse), rest3)
      else Yes(first, rest)
  }

  function ChainLoop(level: nat, left: Expr, ts: seq<Token>): (r: Parse<Expr>)
    ensures Keeps(r, ts)
    decreases |ts|, 0, 0
  {
    if ts == [] || !ChainOp(level, Head(ts)) then Yes(left, ts)
    else
      match ParseAt(level + 1, ts[1..])
      case No(e) => No(e)
      case Yes(right, rest) =>
        var r := ChainLoop(level, Binary(Head(ts), left, right), rest);
        if r.Yes? then SuffixAfter(r.rest, rest, ts); r else r
  }

  function ParseNot(ts: seq<Token>): (r: Parse<Expr>)
    ensures Consumes(r, ts)
    decreases |ts|, 8, 0
  {
    if Head(ts) == NOT && ts != [] then
      match ParseAt(3, ts[1..])
      case No(e) => No(e)
      case Yes(operand, rest) => Yes(Unary(NOT, operand), rest)
    else ParseAt(4, ts)
  }

  function ParseComparison(ts: seq<Token>): (r: Parse<Expr>)
    ensures Consumes(r, ts)
    decreases |ts|, 7, 0
  {
    match ParseAt(5, ts)
    case No(e) => No(e)
    case Yes(first, rest) =>
      match PairsLoop([], rest)
      case No(e) => No(e)
      case Yes(pairs, rest2) => Yes(if pairs == [] then first else Compare(first, pairs), rest2)
  }

  function PairsLoop(pairs: seq<Pair>, ts: seq<Token>): (r: Parse<seq<Pair>>)
    ensures Keeps(r, ts)
    decreases |ts|, 0, 0
  {
    if ts == [] || !IsComparison(Head(ts)) then Yes(pairs, ts)
    else
      match ParseAt(5, ts[1..])
      case No(e) => No(e)
      case Yes(right, rest) =>
        var r := PairsLoop(pairs + [Pair(Head(ts), right)], rest);
        if r.Yes? then SuffixAfter(r.rest, rest, ts); r else r
  }

  function ParseSign(ts: seq<Token>): (r: Parse<Expr>)
    ensures Consumes(r, ts)
    decreases |ts|, 4, 0
  {
    if ts != [] && (Head(ts) == MINUS || Head(ts) == PLUS) then
      match ParseAt(7, ts[1..])
      case No(e) => No(e)
      case Yes(operand, rest) => Yes(Unary(Head(ts), operand), rest)
    else ParseAt(8, ts)
  }

  function ParsePower(ts: seq<Token>): (r: Parse<Expr>)
    ensures Consumes(r, ts)
    decreases |ts|, 3, 0
  {
    match ParseAt(9, ts)
    case No(e) => No(e)
    case Yes(base, rest) =>
      if rest == [] || Head(rest) != POW then Yes(base, rest)
      else
        match ParseAt(7, rest[1..])
        case No(e) => No(e)
        case Yes(exponent, rest2) => Yes(Binary(POW, base, exponent), rest2)
  }

  function PostfixLoop(obj: Expr, ts: seq<Token>): (r: Parse<Expr>)
    ensures Keeps(r, ts)
    decreases |ts|, 0, 0
  {
    if ts == [] || Head(ts) != LBRACK then Yes(obj, ts)
    else
      match ParseAt(0, ts[1..])
      case No(e) => No(e)
      case Yes(index, rest) =>
        if rest == [] || Head(rest) != RBRACK then No(MissingBracket)
        else
          var r := PostfixLoop(Index(obj, index), rest[1..]);
          if r.Yes? then SuffixAfter(r.rest, r.rest, rest); SuffixAfter(r.rest, rest, ts); r else r
  }

  /** Comma-separated expressions up to `close`; the list may be empty. */
  function ParseItems(close: Kind, missing: SyntaxError, ts: seq<Token>): (r: Parse<seq<Expr>>)
    ensures Keeps(r, ts)
    decreases |ts|, 11, 3
  {
    if ts != [] && Head(ts) == close then Yes([], ts[1..])
    else ItemsLoop(close, missing, [], ts)
  }

  function ItemsLoop(close: Kind, missing: SyntaxError, items: seq<Expr>, ts: seq<Token>): (r: Parse<seq<Expr>>)
    ensures Keeps(r, ts)
    decreases |ts|, 11, 2
  {
    match ParseAt(0, ts)
    case No(e) => No(e)
    case Yes(item, rest) =>
      if rest != [] && Head(rest) == COMMA then ItemsLoop(close, missing, items + [item], rest[1..])
      else if rest != [] && Head(rest) == close then Yes(items + [item], rest[1..])
      else No(missing)
  }

  function ParseAtom(ts: seq<Token>): (r: Parse<Expr>)
    ensures Consumes(r, ts)
    decreases |ts|, 1, 0
  {
    if ts == [] then No(ExpressionExpected)
    else
      match ts[0]
      case Value(lit) => Yes(Lit(lit), ts[1..])
      case Var(ns, key) => if key == "" then No(EmptyName) else Yes(VarRef(ns, key), ts[1..])
      case Name(id) =>
        if |ts| > 1 && Head(ts[1..]) == LPAREN then
          match ParseItems(RPAREN, MissingParen, ts[2..])
          case No(e) => No(e)
          case Yes(args, rest) => Yes(Call(id, args), rest)
        else No(UnknownIdentifier)
      case Mark(k) =>
        if k == LPAREN then
          match ParseAt(0, ts[1..])
          case No(e) => No(e)
          case Yes(inner, rest) => if rest == [] || Head(rest) != RPAREN then No(MissingParen) else Yes(inner, rest[1..])
        else if k == LBRACK then
          match ParseItems(RBRACK, MissingBracket, ts[1..])
          case No(e) => No(e)
          case Yes(items, rest) => Yes(List(items), rest)
        else No(ExpressionExpected)
  }

  /** `parse`: one whole expression and nothing after it. */
  function ParseAll(ts: seq<Token>): Parse<Expr> {
    if ts == [] then No(EmptyExpression)
    else
      match ParseAt(0, ts)
      case No(e) => No(e)
      case Yes(e, rest) => if rest == [] then Yes(e, rest) else No(TrailingInput)
  }

  /** The levels of left-associative operators share one shape. */
  lemma ParseChain(level: nat, ts: seq<Token>)
    requires level == 1 || level == 2 || level == 5 || level == 6
    ensures ParseAt(level, ts) ==
      match ParseAt(level + 1, ts)
      case No(e) => No(e)
      case Yes(left, rest) => ChainLoop(level, left, rest)
  {
    hide ChainLoop, ParseNot, ParseComparison, ParseSign, ParsePower, ParseTernary, PostfixLoop, ParseAtom;
  }

  /** What remains of a list once no comma follows. */
  ghost function Closed(close: Kind, missing: SyntaxError, items: seq<Expr>, ts: seq<Token>): Parse<seq<Expr>> {
    if ts != [] && Head(ts) == close then Yes(items, ts[1..]) else No(missing)
  }

  /** One turn of the loop over list items. */
  ghost function ItemStep(close: Kind, missing: SyntaxError, items: seq<Expr>, ts: seq<Token>): Parse<seq<Expr>> {
    match ParseAt(0, ts)
    case No(e) => No(e)
    case Yes(item, rest) =>
      if rest != [] && Head(rest) == COMMA then ItemsLoop(close, missing, items + [item], rest[1..])
      else Closed(close, missing, items + [item], rest)
  }

  lemma ItemsStart(close: Kind, missing: SyntaxError, ts: seq<Token>)
    requires close != EOF
    ensures ParseItems(close, missing, ts) == if Head(ts) == close then Yes([], ts[1..]) else ItemsLoop(close, missing, [], ts)
  {
    hide ItemsLoop;
  }

  lemma ItemsOnce(close: Kind, missing: SyntaxError, items: seq<Expr>, ts: seq<Token>)
    requires close != COMMA
    ensures ItemsLoop(close, missing, items, ts) == ItemStep(close, missing, items, ts)
  {
    hide ParseAt;
  }
}

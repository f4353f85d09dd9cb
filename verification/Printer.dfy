/** A printer with as few parentheses as the grammar allows, and the proof that it and the parser
    undo each other. */
module Printer {
  import opened Common
  import opened Syntax

  /** The grammar level a tree is built at. */
  function LevelOf(e: Expr): (level: nat)
    ensures level <= 10
  {
    match e
    case Ternary(_, _, _) => 0
    case IfElse(_, _, _) => 0
    case Binary(op, _, _) =>
      if op == OR then 1 else if op == AND then 2 else if op == PLUS || op == MINUS then 5 else if op == POW then 8 else 6
    case Unary(op, _) => if op == NOT then 3 else 7
    case Compare(_, _) => 4
    case Index(_, _) => 9
    case _ => 10
  }

  const BINARY_OPS := {OR, AND, PLUS, MINUS, STAR, SLASH, DSLASH, PERCENT, POW}

  const COMPARISONS := {GT, GE, LT, LE, EQ, NE}

  /** Trees the parser can produce. */
  predicate WellFormed(e: Expr) {
    match e
    case Lit(_) => true
    case VarRef(_, key) => key != ""
    case List(items) => AllWellFormed(items)
    case Call(_, args) => AllWellFormed(args)
    case Unary(op, x) => (op == NOT || op == MINUS || op == PLUS) && WellFormed(x)
    case Binary(op, l, r) => op in BINARY_OPS && WellFormed(l) && WellFormed(r)
    case Compare(first, pairs) => pairs != [] && WellFormed(first) && PairsWellFormed(pairs)
    case Ternary(c, t, f) => WellFormed(c) && WellFormed(t) && WellFormed(f)
    case IfElse(c, t, f) => WellFormed(c) && WellFormed(t) && WellFormed(f)
    case Index(obj, index) => WellFormed(obj) && WellFormed(index)
  }

  predicate AllWellFormed(es: seq<Expr>) {
    es != [] ==> WellFormed(es[0]) && AllWellFormed(es[1..])
  }

  predicate PairsWellFormed(pairs: seq<Pair>) {
    pairs != [] ==> PairWellFormed(pairs[0]) && PairsWellFormed(pairs[1..])
  }

  predicate PairWellFormed(p: Pair) {
    p.op in COMPARISONS && WellFormed(p.right)
  }

  /** `e` where a tree of level `level` is expected: parenthesised only if it binds too weakly. */
  function Print(e: Expr, level: nat): seq<Token>
    decreases e, 1
  {
    if LevelOf(e) < level then [Mark(LPAREN)] + Bare(e) + [Mark(RPAREN)] else Bare(e)
  }

  function Bare(e: Expr): seq<Token>
    decreases e, 0
  {
    match e
    case Lit(lit) => [Value(lit)]
    case VarRef(ns, key) => [Var(ns, key)]
    case List(items) => [Mark(LBRACK)] + PrintItems(items) + [Mark(RBRACK)]
    case Call(func, args) => [Name(func), Mark(LPAREN)] + PrintItems(args) + [Mark(RPAREN)]
    case Unary(op, x) => [Mark(op)] + Print(x, LevelOf(e))
    case Binary(op, l, r) =>
      if op == POW then Print(l, 9) + [Mark(POW)] + Print(r, 7)
      else Print(l, LevelOf(e)) + [Mark(op)] + Print(r, LevelOf(e) + 1)
    case Compare(first, pairs) => Print(first, 5) + PrintPairs(pairs)
    case Ternary(c, t, f) => Print(c, 1) + [Mark(QUESTION)] + Print(t, 0) + [Mark(COLON)] + Print(f, 0)
    case IfElse(c, t, f) => Print(t, 1) + [Mark(IF)] + Print(c, 1) + [Mark(ELSE)] + Print(f, 0)
    case Index(obj, index) => Print(obj, 9) + [Mark(LBRACK)] + Print(index, 0) + [Mark(RBRACK)]
  }

  function PrintItems(items: seq<Expr>): seq<Token> {
    if items == [] then []
    else if |items| == 1 then Print(items[0], 0)
    else Print(items[0], 0) + [Mark(COMMA)] + PrintItems(items[1..])
  }

  function PrintPairs(pairs: seq<Pair>): seq<Token> {
    if pairs == [] then [] else PrintPair(pairs[0]) + PrintPairs(pairs[1..])
  }

  function PrintPair(p: Pair): seq<Token>
    decreases p, 0
  {
    [Mark(p.op)] + Print(p.right, 5)
  }

  // ---------------------------------------------------------------- what may follow

  /** `k` does not continue an expression of level `level` or tighter. */
  predicate Stops(level: nat, k: Kind) {
    && (level <= 9 ==> k != LBRACK)
    && (level <= 8 ==> k != POW)
    && (level <= 6 ==> !ChainOp(6, k))
    && (level <= 5 ==> !ChainOp(5, k))
    && (level <= 4 ==> !IsComparison(k))
    && (level <= 2 ==> k != AND)
    && (level <= 1 ==> k != OR)
    && (level <= 0 ==> k != IF && k != QUESTION)
  }

  /** Prefix operators a level looks for first. */
  predicate Prefixed(level: nat, k: Kind) {
    (level == 3 && k == NOT) || (level == 7 && (k == MINUS || k == PLUS))
  }

  lemma ChainStops(level: nat, e: Expr, rest: seq<Token>)
    requires !ChainOp(level, Head(rest))
    ensures ChainLoop(level, e, rest) == Yes(e, rest)
  {
  }

  lemma DescendChain(level: nat, ts: seq<Token>, e: Expr, rest: seq<Token>)
    requires level == 1 || level == 2 || level == 5 || level == 6
    requires ParseAt(level + 1, ts) == Yes(e, rest) && Stops(level, Head(rest))
    ensures ParseAt(level, ts) == Yes(e, rest)
  {
  }

  lemma DescendTernary(ts: seq<Token>, e: Expr, rest: seq<Token>)
    requires ParseAt(1, ts) == Yes(e, rest) && Stops(0, Head(rest))
    ensures ParseAt(0, ts) == Yes(e, rest)
  {
    hide ChainLoop;
    assert ParseTernary(ts) == Yes(e, rest);
  }

  lemma DescendNot(ts: seq<Token>, e: Expr, rest: seq<Token>)
    requires ParseAt(4, ts) == Yes(e, rest) && Head(ts) != NOT
    ensures ParseAt(3, ts) == Yes(e, rest)
  {
    hide ParseComparison;
  }

  lemma DescendComparison(ts: seq<Token>, e: Expr, rest: seq<Token>)
    requires ParseAt(5, ts) == Yes(e, rest) && Stops(4, Head(rest))
    ensures ParseAt(4, ts) == Yes(e, rest)
  {
    hide ChainLoop;
    assert PairsLoop([], rest) == Yes([], rest);
    assert ParseComparison(ts) == Yes(e, rest);
  }

  lemma DescendSign(ts: seq<Token>, e: Expr, rest: seq<Token>)
    requires ParseAt(8, ts) == Yes(e, rest) && Head(ts) != MINUS && Head(ts) != PLUS
    ensures ParseAt(7, ts) == Yes(e, rest)
  {
    hide ParsePower;
  }

  lemma DescendPower(ts: seq<Token>, e: Expr, rest: seq<Token>)
    requires ParseAt(9, ts) == Yes(e, rest) && Stops(8, Head(rest))
    ensures ParseAt(8, ts) == Yes(e, rest)
  {
  }

  lemma DescendPostfix(ts: seq<Token>, e: Expr, rest: seq<Token>)
    requires ParseAt(10, ts) == Yes(e, rest) && Stops(9, Head(rest))
    ensures ParseAt(9, ts) == Yes(e, rest)
  {
  }

  /** A tree of one level up is a tree of this level when nothing continues it. */
  lemma DescendOne(level: nat, ts: seq<Token>, e: Expr, rest: seq<Token>)
    requires level < 10 && ParseAt(level + 1, ts) == Yes(e, rest)
    requires Stops(level, Head(rest)) && !Prefixed(level, Head(ts))
    ensures ParseAt(level, ts) == Yes(e, rest)
  {
    hide ParseAt, Stops;
    if level == 0 { DescendTernary(ts, e, rest); }
    else if level == 3 { DescendNot(ts, e, rest); }
    else if level == 4 { DescendComparison(ts, e, rest); }
    else if level == 7 { DescendSign(ts, e, rest); }
    else if level == 8 { DescendPower(ts, e, rest); }
    else if level == 9 { DescendPostfix(ts, e, rest); }
    else { DescendChain(level, ts, e, rest); }
  }

  lemma {:induction false} Descend(from: nat, to: nat, ts: seq<Token>, e: Expr, rest: seq<Token>)
    requires to <= from <= 10 && ParseAt(from, ts) == Yes(e, rest)
    requires Stops(to, Head(rest))
    requires forall level :: to <= level < from ==> !Prefixed(level, Head(ts))
    ensures ParseAt(to, ts) == Yes(e, rest)
    decreases from - to
  {
    hide ParseAt, Stops, Prefixed;
    if to < from {
      StopsAbove(to, from - 1, Head(rest));
      DescendOne(from - 1, ts, e, rest);
      Descend(from - 1, to, ts, e, rest);
    }
  }

  /** Parentheses may stand around any expression, needed or not: they change nothing. */
  lemma ParenthesesGroup(level: nat, ts: seq<Token>, e: Expr, rest: seq<Token>)
    requires level <= 10 && ParseAt(0, ts) == Yes(e, [Mark(RPAREN)] + rest) && Stops(level, Head(rest))
    ensures ParseAt(level, [Mark(LPAREN)] + ts) == Yes(e, rest)
  {
    hide Stops, ParseTernary;
    var all := [Mark(LPAREN)] + ts;
    assert all[1..] == ts && ([Mark(RPAREN)] + rest)[1..] == rest;
    assert ParseAtom(all) == Yes(e, rest);
    assert ParseAt(10, all) == Yes(e, rest);
    Descend(10, level, all, e, rest);
  }

  lemma StopsAbove(low: nat, high: nat, k: Kind)
    requires low <= high && Stops(low, k)
    ensures Stops(high, k)
  {
  }

  /** The first token of a printed tree is no prefix operator its level does not allow. */
  ghost predicate StartsWell(level: nat, ts: seq<Token>) {
    && ts != []
    && KindOf(ts[0]) != RPAREN && KindOf(ts[0]) != RBRACK
    && (level >= 4 ==> KindOf(ts[0]) != NOT)
    && (level >= 8 ==> KindOf(ts[0]) != MINUS && KindOf(ts[0]) != PLUS)
  }

  lemma StartsWellPrefix(level: nat, a: seq<Token>, b: seq<Token>)
    requires StartsWell(level, a)
    ensures StartsWell(level, a + b) && (a + b)[0] == a[0]
  {
  }

  lemma StartsWellBelow(low: nat, high: nat, ts: seq<Token>)
    requires low <= high && StartsWell(high, ts)
    ensures StartsWell(low, ts)
  {
  }

  lemma {:induction false} FirstToken(e: Expr)
    requires WellFormed(e)
    ensures StartsWell(LevelOf(e), Bare(e))
    decreases e, 0
  {
    hide StartsWell;
    match e {
      case Binary(op, l, r) =>
        var level := if op == POW then 9 else LevelOf(e);
        FirstPrinted(l, level);
        StartsWellBelow(LevelOf(e), level, Print(l, level));
        StartsWellPrefix(LevelOf(e), Print(l, level), [Mark(op)]);
        StartsWellPrefix(LevelOf(e), Print(l, level) + [Mark(op)], Print(r, if op == POW then 7 else LevelOf(e) + 1));
      case Compare(first, pairs) =>
        FirstPrinted(first, 5);
        StartsWellBelow(4, 5, Print(first, 5));
        StartsWellPrefix(4, Print(first, 5), PrintPairs(pairs));
      case Ternary(c, t, f) =>
        FirstPrinted(c, 1);
        StartsWellBelow(0, 1, Print(c, 1));
        StartsWellPrefix(0, Print(c, 1), [Mark(QUESTION)]);
        StartsWellPrefix(0, Print(c, 1) + [Mark(QUESTION)], Print(t, 0));
        StartsWellPrefix(0, Print(c, 1) + [Mark(QUESTION)] + Print(t, 0), [Mark(COLON)]);
        StartsWellPrefix(0, Print(c, 1) + [Mark(QUESTION)] + Print(t, 0) + [Mark(COLON)], Print(f, 0));
      case IfElse(c, t, f) =>
        FirstPrinted(t, 1);
        StartsWellBelow(0, 1, Print(t, 1));
        StartsWellPrefix(0, Print(t, 1), [Mark(IF)]);
        StartsWellPrefix(0, Print(t, 1) + [Mark(IF)], Print(c, 1));
        StartsWellPrefix(0, Print(t, 1) + [Mark(IF)] + Print(c, 1), [Mark(ELSE)]);
        StartsWellPrefix(0, Print(t, 1) + [Mark(IF)] + Print(c, 1) + [Mark(ELSE)], Print(f, 0));
      case Index(obj, index) =>
        FirstPrinted(obj, 9);
        StartsWellPrefix(9, Print(obj, 9), [Mark(LBRACK)]);
        StartsWellPrefix(9, Print(obj, 9) + [Mark(LBRACK)], Print(index, 0));
        StartsWellPrefix(9, Print(obj, 9) + [Mark(LBRACK)] + Print(index, 0), [Mark(RBRACK)]);
      case _ =>
        FirstLeaf(e);
    }
  }

  lemma FirstLeaf(e: Expr)
    requires WellFormed(e) && (e.Lit? || e.VarRef? || e.List? || e.Call? || e.Unary?)
    ensures StartsWell(LevelOf(e), Bare(e))
  {
  }

  lemma {:induction false} FirstPrinted(e: Expr, level: nat)
    requires WellFormed(e)
    ensures StartsWell(level, Print(e, level))
    decreases e, 1
  {
    if LevelOf(e) >= level {
      FirstToken(e);
    } else {
      assert Print(e, level)[0] == Mark(LPAREN);
    }
  }

  // ---------------------------------------------------------------- one construct at a time

  lemma ParseParens(ts: seq<Token>, e: Expr, rest: seq<Token>)
    requires ParseAt(0, ts) == Yes(e, [Mark(RPAREN)] + rest)
    ensures ParseAt(10, [Mark(LPAREN)] + ts) == Yes(e, rest)
  {
    hide ParseTernary;
    assert ([Mark(LPAREN)] + ts)[1..] == ts;
    assert ([Mark(RPAREN)] + rest)[1..] == rest;
    assert ParseAtom([Mark(LPAREN)] + ts) == Yes(e, rest);
  }

  lemma ParseListLiteral(ts: seq<Token>, items: seq<Expr>, rest: seq<Token>)
    requires ParseItems(RBRACK, MissingBracket, ts) == Yes(items, rest)
    ensures ParseAt(10, [Mark(LBRACK)] + ts) == Yes(List(items), rest)
  {
  }

  lemma ParseCall(func: string, ts: seq<Token>, args: seq<Expr>, rest: seq<Token>)
    requires ParseItems(RPAREN, MissingParen, ts) == Yes(args, rest)
    ensures ParseAt(10, [Name(func), Mark(LPAREN)] + ts) == Yes(Call(func, args), rest)
  {
  }

  lemma PostfixStep(obj: Expr, ts: seq<Token>, index: Expr, rest: seq<Token>)
    requires ParseAt(0, ts) == Yes(index, [Mark(RBRACK)] + rest)
    ensures PostfixLoop(obj, [Mark(LBRACK)] + ts) == PostfixLoop(Index(obj, index), rest)
  {
    hide ParseAt;
    var all, closed := [Mark(LBRACK)] + ts, [Mark(RBRACK)] + rest;
    assert all[1..] == ts && closed[1..] == rest;
  }

  lemma ParsePostfix(ts: seq<Token>, e: Expr, rest: seq<Token>)
    requires ParseAt(10, ts) == Yes(e, rest)
    ensures ParseAt(9, ts) == PostfixLoop(e, rest)
  {
    hide ParseAtom, PostfixLoop;
  }

  lemma ChainStep(level: nat, left: Expr, op: Kind, ts: seq<Token>, right: Expr, rest: seq<Token>)
    requires ChainOp(level, op) && ParseAt(level + 1, ts) == Yes(right, rest)
    ensures ChainLoop(level, left, [Mark(op)] + ts) == ChainLoop(level, Binary(op, left, right), rest)
  {
  }

  lemma ParseNegation(ts: seq<Token>, x: Expr, rest: seq<Token>)
    requires ParseAt(3, ts) == Yes(x, rest)
    ensures ParseAt(3, [Mark(NOT)] + ts) == Yes(Unary(NOT, x), rest)
  {
  }

  lemma ParseSigned(op: Kind, ts: seq<Token>, x: Expr, rest: seq<Token>)
    requires (op == MINUS || op == PLUS) && ParseAt(7, ts) == Yes(x, rest)
    ensures ParseAt(7, [Mark(op)] + ts) == Yes(Unary(op, x), rest)
  {
  }

  lemma ParsePowerOf(ts: seq<Token>, base: Expr, us: seq<Token>, exponent: Expr, rest: seq<Token>)
    requires ParseAt(9, ts) == Yes(base, [Mark(POW)] + us) && ParseAt(7, us) == Yes(exponent, rest)
    ensures ParseAt(8, ts) == Yes(Binary(POW, base, exponent), rest)
  {
  }

  lemma ParseConditional(ts: seq<Token>, c: Expr, us: seq<Token>, t: Expr, vs: seq<Token>, f: Expr, rest: seq<Token>)
    requires ParseAt(1, ts) == Yes(c, [Mark(QUESTION)] + us)
    requires ParseAt(0, us) == Yes(t, [Mark(COLON)] + vs)
    requires ParseAt(0, vs) == Yes(f, rest)
    ensures ParseAt(0, ts) == Yes(Ternary(c, t, f), rest)
  {
    hide ChainLoop;
    assert ([Mark(QUESTION)] + us)[1..] == us;
    assert ([Mark(COLON)] + vs)[1..] == vs;
    assert ParseTernary(ts) == Yes(Ternary(c, t, f), rest);
  }

  lemma ParseIfElse(ts: seq<Token>, t: Expr, us: seq<Token>, c: Expr, vs: seq<Token>, f: Expr, rest: seq<Token>)
    requires ParseAt(1, ts) == Yes(t, [Mark(IF)] + us)
    requires ParseAt(1, us) == Yes(c, [Mark(ELSE)] + vs)
    requires ParseAt(0, vs) == Yes(f, rest)
    ensures ParseAt(0, ts) == Yes(IfElse(c, t, f), rest)
  {
    hide ChainLoop;
    assert ([Mark(IF)] + us)[1..] == us;
    assert ([Mark(ELSE)] + vs)[1..] == vs;
    assert ParseTernary(ts) == Yes(IfElse(c, t, f), rest);
  }

  lemma PairsStep(pairs: seq<Pair>, op: Kind, ts: seq<Token>, right: Expr, rest: seq<Token>)
    requires IsComparison(op) && ParseAt(5, ts) == Yes(right, rest)
    ensures PairsLoop(pairs, [Mark(op)] + ts) == PairsLoop(pairs + [Pair(op, right)], rest)
  {
  }

  lemma PairsStop(pairs: seq<Pair>, rest: seq<Token>)
    requires !IsComparison(Head(rest))
    ensures PairsLoop(pairs, rest) == Yes(pairs, rest)
  {
  }

  lemma ParseCompared(ts: seq<Token>, first: Expr, us: seq<Token>, pairs: seq<Pair>, rest: seq<Token>)
    requires ParseAt(5, ts) == Yes(first, us) && PairsLoop([], us) == Yes(pairs, rest) && pairs != []
    ensures ParseAt(4, ts) == Yes(Compare(first, pairs), rest)
  {
    hide ChainLoop, PairsLoop;
    assert ParseComparison(ts) == Yes(Compare(first, pairs), rest);
  }

  lemma ItemsStep(close: Kind, missing: SyntaxError, items: seq<Expr>, ts: seq<Token>, item: Expr, us: seq<Token>)
    requires ParseAt(0, ts) == Yes(item, [Mark(COMMA)] + us)
    ensures ItemsLoop(close, missing, items, ts) == ItemsLoop(close, missing, items + [item], us)
  {
  }

  lemma ItemsEnd(close: Kind, missing: SyntaxError, items: seq<Expr>, ts: seq<Token>, item: Expr, us: seq<Token>)
    requires close != COMMA && ParseAt(0, ts) == Yes(item, [Mark(close)] + us)
    ensures ItemsLoop(close, missing, items, ts) == Yes(items + [item], us)
  {
  }

  lemma NoItems(close: Kind, missing: SyntaxError, rest: seq<Token>)
    ensures ParseItems(close, missing, [Mark(close)] + rest) == Yes([], rest)
  {
  }

  lemma SomeItems(close: Kind, missing: SyntaxError, ts: seq<Token>)
    requires ts != [] && Head(ts) != close
    ensures ParseItems(close, missing, ts) == ItemsLoop(close, missing, [], ts)
  {
  }

  lemma ParseLeaf(e: Expr, rest: seq<Token>)
    requires WellFormed(e) && (e.Lit? || e.VarRef?)
    ensures ParseAt(10, Bare(e) + rest) == Yes(e, rest)
  {
  }

  // ---------------------------------------------------------------- printed forms, re-associated

  lemma BareUnary(e: Expr, rest: seq<Token>)
    requires e.Unary?
    ensures Bare(e) + rest == [Mark(e.op)] + (Print(e.operand, LevelOf(e)) + rest)
  {
    hide Print;
  }

  lemma BareChain(e: Expr, rest: seq<Token>)
    requires e.Binary? && e.op != POW
    ensures Bare(e) + rest == Print(e.left, LevelOf(e)) + ([Mark(e.op)] + (Print(e.right, LevelOf(e) + 1) + rest))
  {
    hide Print;
  }

  lemma BarePower(e: Expr, rest: seq<Token>)
    requires e.Binary? && e.op == POW
    ensures Bare(e) + rest == Print(e.left, 9) + ([Mark(POW)] + (Print(e.right, 7) + rest))
  {
    hide Print;
  }

  lemma BareCompare(e: Expr, rest: seq<Token>)
    requires e.Compare?
    ensures Bare(e) + rest == Print(e.first, 5) + (PrintPairs(e.pairs) + rest)
  {
    hide Print, PrintPairs;
  }

  lemma BareTernary(e: Expr, rest: seq<Token>)
    requires e.Ternary?
    ensures Bare(e) + rest == Print(e.cond, 1) + ([Mark(QUESTION)] + (Print(e.ifTrue, 0) + ([Mark(COLON)] + (Print(e.ifFalse, 0) + rest))))
  {
    hide Print;
  }

  lemma BareIfElse(e: Expr, rest: seq<Token>)
    requires e.IfElse?
    ensures Bare(e) + rest == Print(e.ifTrue, 1) + ([Mark(IF)] + (Print(e.cond, 1) + ([Mark(ELSE)] + (Print(e.ifFalse, 0) + rest))))
  {
    hide Print;
  }

  lemma BareIndex(e: Expr, rest: seq<Token>)
    requires e.Index?
    ensures Bare(e) + rest == Print(e.obj, 9) + ([Mark(LBRACK)] + (Print(e.index, 0) + ([Mark(RBRACK)] + rest)))
  {
    hide Print;
  }

  lemma BareList(e: Expr, rest: seq<Token>)
    requires e.List?
    ensures Bare(e) + rest == [Mark(LBRACK)] + (PrintItems(e.items) + [Mark(RBRACK)] + rest)
  {
    hide PrintItems;
  }

  lemma BareCall(e: Expr, rest: seq<Token>)
    requires e.Call?
    ensures Bare(e) + rest == [Name(e.func), Mark(LPAREN)] + (PrintItems(e.args) + [Mark(RPAREN)] + rest)
  {
    hide PrintItems;
  }

  lemma PrintedPair(pairs: seq<Pair>, rest: seq<Token>)
    requires pairs != []
    ensures PrintPairs(pairs) + rest == [Mark(pairs[0].op)] + (Print(pairs[0].right, 5) + (PrintPairs(pairs[1..]) + rest))
  {
    hide Print;
  }

  lemma Reassociate(a: seq<Token>, b: seq<Token>, c: seq<Token>, d: seq<Token>, e: seq<Token>)
    ensures (a + b + c) + d + e == a + (b + (c + d + e))
    ensures a + d + e == a + (d + e)
  {
  }

  lemma PrintedItem(items: seq<Expr>, close: Kind, rest: seq<Token>)
    requires items != []
    ensures PrintItems(items) + [Mark(close)] + rest ==
      if |items| == 1 then Print(items[0], 0) + ([Mark(close)] + rest)
      else Print(items[0], 0) + ([Mark(COMMA)] + (PrintItems(items[1..]) + [Mark(close)] + rest))
  {
    hide Print;
    Reassociate(Print(items[0], 0), [Mark(COMMA)], PrintItems(items[1..]), [Mark(close)], rest);
  }

  // ---------------------------------------------------------------- round trip

  /** Parsing what was printed at a level gives the tree back, whatever follows it that does not
      continue an expression of that level. */
  lemma {:induction false} RoundTrip(e: Expr, level: nat, rest: seq<Token>)
    requires WellFormed(e) && level <= 10 && Stops(level, Head(rest))
    ensures ParseAt(level, Print(e, level) + rest) == Yes(e, rest)
    decreases e, if LevelOf(e) < level then 5 else 4
  {
    hide ParseAt, Bare, WellFormed, Stops, StartsWell, Prefixed;
    var ts := Print(e, level) + rest;
    FirstPrinted(e, level);
    StartsWellPrefix(level, Print(e, level), rest);
    if LevelOf(e) < level {
      ClosersStop([Mark(RPAREN)] + rest);
      RoundTrip(e, 0, [Mark(RPAREN)] + rest);
      ParseParens(Bare(e) + ([Mark(RPAREN)] + rest), e, rest);
      PrintedParens(e, level, rest);
      NoPrefixes(level, 10, ts);
      Descend(10, level, ts, e, rest);
    } else {
      StopsAbove(level, LevelOf(e), Head(rest));
      BareRoundTrip(e, rest);
      FirstToken(e);
      StartsWellPrefix(LevelOf(e), Bare(e), rest);
      NoPrefixes(level, LevelOf(e), ts);
      Descend(LevelOf(e), level, ts, e, rest);
    }
  }

  lemma PrintedParens(e: Expr, level: nat, rest: seq<Token>)
    requires LevelOf(e) < level
    ensures Print(e, level) + rest == [Mark(LPAREN)] + (Bare(e) + ([Mark(RPAREN)] + rest))
  {
    hide Bare;
  }

  lemma ClosersStop(ts: seq<Token>)
    requires ts != [] && ts[0].Mark? && ts[0].kind in {RPAREN, RBRACK, COMMA, COLON}
    ensures Stops(0, Head(ts))
  {
  }

  lemma NoPrefixes(low: nat, high: nat, ts: seq<Token>)
    requires StartsWell(high, ts) || (ts != [] && ts[0] == Mark(LPAREN))
    ensures forall level :: low <= level < high ==> !Prefixed(level, Head(ts))
  {
  }

  lemma {:induction false} BareRoundTrip(e: Expr, rest: seq<Token>)
    requires WellFormed(e) && Stops(LevelOf(e), Head(rest))
    ensures ParseAt(LevelOf(e), Bare(e) + rest) == Yes(e, rest)
    decreases e, 3
  {
    hide ParseAt, Stops, Print, Bare, ChainLoop, PostfixLoop, PairsLoop, ParseItems, PrintItems;
    match e {
      case Lit(_) => ParseLeaf(e, rest);
      case VarRef(_, _) => ParseLeaf(e, rest);
      case List(items) =>
        ItemsRoundTrip(RBRACK, MissingBracket, items, rest);
        ParseListLiteral(PrintItems(items) + [Mark(RBRACK)] + rest, items, rest);
        BareList(e, rest);
      case Call(func, args) =>
        ItemsRoundTrip(RPAREN, MissingParen, args, rest);
        ParseCall(func, PrintItems(args) + [Mark(RPAREN)] + rest, args, rest);
        BareCall(e, rest);
      case Unary(op, x) =>
        RoundTrip(x, LevelOf(e), rest);
        if op == NOT { ParseNegation(Print(x, 3) + rest, x, rest); } else { ParseSigned(op, Print(x, 7) + rest, x, rest); }
        BareUnary(e, rest);
      case Binary(op, l, r) =>
        if op == POW { PowerRoundTrip(e, rest); }
        else {
          StopsAbove(LevelOf(e), LevelOf(e) + 1, Head(rest));
          ChainRoundTrip(LevelOf(e), e, rest);
          StopsChain(LevelOf(e), rest);
          ChainStops(LevelOf(e), e, rest);
          PrintBare(e);
        }
      case Compare(first, pairs) => CompareRoundTrip(e, rest);
      case Ternary(_, _, _) => ConditionalRoundTrip(e, rest);
      case IfElse(_, _, _) => ConditionalRoundTrip(e, rest);
      case Index(obj, index) =>
        PostfixRoundTrip(e, rest);
        IndexStops(e, rest);
        PrintBare(e);
    }
  }

  lemma PrintBare(e: Expr)
    ensures Print(e, LevelOf(e)) == Bare(e)
  {
  }

  lemma StopsChain(level: nat, rest: seq<Token>)
    requires Stops(level, Head(rest))
    ensures !ChainOp(level, Head(rest))
  {
  }

  lemma IndexStops(e: Expr, rest: seq<Token>)
    requires Stops(9, Head(rest))
    ensures PostfixLoop(e, rest) == Yes(e, rest)
  {
  }

  lemma OpStops(level: nat, op: Kind)
    requires ChainOp(level, op)
    ensures Stops(level + 1, op)
  {
  }

  lemma PrintAtNext(e: Expr, level: nat)
    requires LevelOf(e) != level
    ensures Print(e, level) == Print(e, level + 1)
  {
  }

  /** A printed chain, followed by anything that stops its operands, parses to the loop's state. */
  lemma {:induction false} ChainRoundTrip(level: nat, e: Expr, rest: seq<Token>)
    requires level == 1 || level == 2 || level == 5 || level == 6
    requires WellFormed(e) && Stops(level + 1, Head(rest))
    ensures ParseAt(level, Print(e, level) + rest) == ChainLoop(level, e, rest)
    decreases e, if LevelOf(e) == level then 1 else 6
  {
    hide ParseAt, Stops, Print, Bare, ChainLoop;
    if LevelOf(e) == level {
      var op, l, r := e.op, e.left, e.right;
      var us := [Mark(op)] + (Print(r, level + 1) + rest);
      OpStops(level, op);
      ChainRoundTrip(level, l, us);
      RoundTrip(r, level + 1, rest);
      ChainStep(level, l, op, Print(r, level + 1) + rest, r, rest);
      PrintBare(e);
      BareChain(e, rest);
    } else {
      RoundTrip(e, level + 1, rest);
      PrintAtNext(e, level);
      ParseChain(level, Print(e, level) + rest);
    }
  }

  lemma {:induction false} PostfixRoundTrip(e: Expr, rest: seq<Token>)
    requires WellFormed(e)
    ensures ParseAt(9, Print(e, 9) + rest) == PostfixLoop(e, rest)
    decreases e, if LevelOf(e) == 9 then 1 else 6
  {
    hide ParseAt, Stops, Print, Bare, PostfixLoop;
    if LevelOf(e) == 9 {
      var us := [Mark(LBRACK)] + (Print(e.index, 0) + ([Mark(RBRACK)] + rest));
      PostfixRoundTrip(e.obj, us);
      ClosersStop([Mark(RBRACK)] + rest);
      RoundTrip(e.index, 0, [Mark(RBRACK)] + rest);
      PostfixStep(e.obj, Print(e.index, 0) + ([Mark(RBRACK)] + rest), e.index, rest);
      PrintBare(e);
      BareIndex(e, rest);
    } else {
      AnythingStopsAtoms(rest);
      RoundTrip(e, 10, rest);
      PrintAtNext(e, 9);
      ParsePostfix(Print(e, 9) + rest, e, rest);
    }
  }

  lemma AnythingStopsAtoms(rest: seq<Token>)
    ensures Stops(10, Head(rest))
  {
  }

  lemma PowerStops(rest: seq<Token>)
    requires Stops(8, Head(rest))
    ensures Stops(7, Head(rest)) && Stops(9, POW)
  {
  }

  lemma {:induction false} PowerRoundTrip(e: Expr, rest: seq<Token>)
    requires WellFormed(e) && e.Binary? && e.op == POW && Stops(8, Head(rest))
    ensures ParseAt(8, Bare(e) + rest) == Yes(e, rest)
    decreases e, 2
  {
    hide ParseAt, Stops, Print, Bare;
    PowerStops(rest);
    var us := Print(e.right, 7) + rest;
    RoundTrip(e.left, 9, [Mark(POW)] + us);
    RoundTrip(e.right, 7, rest);
    ParsePowerOf(Print(e.left, 9) + ([Mark(POW)] + us), e.left, us, e.right, rest);
    BarePower(e, rest);
  }

  lemma NoComparison(rest: seq<Token>)
    requires Stops(4, Head(rest))
    ensures !IsComparison(Head(rest)) && Stops(5, Head(rest))
  {
  }

  lemma PrintedPairsHead(pairs: seq<Pair>, rest: seq<Token>)
    requires PairsWellFormed(pairs) && Stops(4, Head(rest))
    ensures Stops(5, Head(PrintPairs(pairs) + rest))
  {
  }

  lemma {:induction false} PairsRoundTrip(done: seq<Pair>, pairs: seq<Pair>, rest: seq<Token>)
    requires PairsWellFormed(pairs) && Stops(4, Head(rest))
    ensures PairsLoop(done, PrintPairs(pairs) + rest) == Yes(done + pairs, rest)
    decreases pairs, 0
  {
    hide ParseAt, Stops, Print, PairsLoop, PairWellFormed, PrintPairs;
    if pairs == [] {
      NoPairs(rest);
      assert done + pairs == done;
      NoComparison(rest);
      PairsStop(done, rest);
    } else {
      var p := pairs[0];
      var us := PrintPairs(pairs[1..]) + rest;
      PrintedPairsHead(pairs[1..], rest);
      PairRoundTrip(p, us);
      PairsStep(done, p.op, Print(p.right, 5) + us, p.right, us);
      PairsRoundTrip(done + [p], pairs[1..], rest);
      PrintedPair(pairs, rest);
      assert Pair(p.op, p.right) == p;
      assert done + [p] + pairs[1..] == done + pairs;
    }
  }

  lemma NoPairs(rest: seq<Token>)
    ensures PrintPairs([]) + rest == rest
  {
  }

  lemma {:induction false} PairRoundTrip(p: Pair, us: seq<Token>)
    requires PairWellFormed(p) && Stops(5, Head(us))
    ensures IsComparison(p.op) && ParseAt(5, Print(p.right, 5) + us) == Yes(p.right, us)
    decreases p, 0
  {
    RoundTrip(p.right, 5, us);
  }

  lemma {:induction false} CompareRoundTrip(e: Expr, rest: seq<Token>)
    requires WellFormed(e) && e.Compare? && Stops(4, Head(rest))
    ensures ParseAt(4, Bare(e) + rest) == Yes(e, rest)
    decreases e, 2
  {
    hide ParseAt, Stops, Print, Bare, PairsLoop, PrintPairs, PairsWellFormed;
    var us := PrintPairs(e.pairs) + rest;
    PrintedPairsHead(e.pairs, rest);
    RoundTrip(e.first, 5, us);
    PairsRoundTrip([], e.pairs, rest);
    assert [] + e.pairs == e.pairs;
    ParseCompared(Print(e.first, 5) + us, e.first, us, e.pairs, rest);
    BareCompare(e, rest);
  }

  lemma TernaryStops()
    ensures Stops(1, QUESTION) && Stops(1, IF) && Stops(1, ELSE) && Stops(0, COLON)
  {
  }

  lemma {:induction false} ConditionalRoundTrip(e: Expr, rest: seq<Token>)
    requires WellFormed(e) && (e.Ternary? || e.IfElse?) && Stops(0, Head(rest))
    ensures ParseAt(0, Bare(e) + rest) == Yes(e, rest)
    decreases e, 2
  {
    hide ParseAt, Stops, Print, Bare;
    TernaryStops();
    var vs := Print(e.ifFalse, 0) + rest;
    RoundTrip(e.ifFalse, 0, rest);
    if e.Ternary? {
      var us := Print(e.ifTrue, 0) + ([Mark(COLON)] + vs);
      RoundTrip(e.cond, 1, [Mark(QUESTION)] + us);
      RoundTrip(e.ifTrue, 0, [Mark(COLON)] + vs);
      ParseConditional(Print(e.cond, 1) + ([Mark(QUESTION)] + us), e.cond, us, e.ifTrue, vs, e.ifFalse, rest);
      BareTernary(e, rest);
    } else {
      var us := Print(e.cond, 1) + ([Mark(ELSE)] + vs);
      RoundTrip(e.ifTrue, 1, [Mark(IF)] + us);
      RoundTrip(e.cond, 1, [Mark(ELSE)] + vs);
      ParseIfElse(Print(e.ifTrue, 1) + ([Mark(IF)] + us), e.ifTrue, us, e.cond, vs, e.ifFalse, rest);
      BareIfElse(e, rest);
    }
  }

  lemma {:induction false} ItemsRoundTrip(close: Kind, missing: SyntaxError, items: seq<Expr>, rest: seq<Token>)
    requires close == RPAREN || close == RBRACK
    requires AllWellFormed(items)
    ensures ParseItems(close, missing, PrintItems(items) + [Mark(close)] + rest) == Yes(items, rest)
    decreases items, 1
  {
    hide ParseAt, Print, ParseItems, ItemsLoop;
    if items == [] {
      NoItems(close, missing, rest);
      assert PrintItems(items) + [Mark(close)] + rest == [Mark(close)] + rest;
    } else {
      var ts := PrintItems(items) + [Mark(close)] + rest;
      FirstPrinted(items[0], 0);
      assert ts[0] == Print(items[0], 0)[0];
      SomeItems(close, missing, ts);
      ItemsLoopRoundTrip(close, missing, [], items, rest);
      assert [] + items == items;
    }
  }

  lemma {:induction false} ItemsLoopRoundTrip(close: Kind, missing: SyntaxError, done: seq<Expr>, items: seq<Expr>,
      rest: seq<Token>)
    requires close == RPAREN || close == RBRACK
    requires AllWellFormed(items) && items != []
    ensures ItemsLoop(close, missing, done, PrintItems(items) + [Mark(close)] + rest) == Yes(done + items, rest)
    decreases items, 0
  {
    hide ParseAt, Print, ItemsLoop, Stops, PrintItems, WellFormed;
    PrintedItem(items, close, rest);
    if |items| == 1 {
      var us := [Mark(close)] + rest;
      ClosersStop(us);
      RoundTrip(items[0], 0, us);
      ItemsEnd(close, missing, done, Print(items[0], 0) + us, items[0], rest);
      assert done + items == done + [items[0]];
    } else {
      var vs := PrintItems(items[1..]) + [Mark(close)] + rest;
      var us := [Mark(COMMA)] + vs;
      ClosersStop(us);
      RoundTrip(items[0], 0, us);
      ItemsStep(close, missing, done, Print(items[0], 0) + us, items[0], vs);
      ItemsLoopRoundTrip(close, missing, done + [items[0]], items[1..], rest);
      assert done + [items[0]] + items[1..] == done + items;
    }
  }

  /** Parsing the printed tokens of any well-formed tree gives the tree back. */
  lemma ParseInvertsPrint(e: Expr)
    requires WellFormed(e)
    ensures ParseAll(Print(e, 0)) == Yes(e, [])
  {
    assert Stops(0, EOF);
    RoundTrip(e, 0, []);
    assert Print(e, 0) + [] == Print(e, 0);
    FirstPrinted(e, 0);
  }
}

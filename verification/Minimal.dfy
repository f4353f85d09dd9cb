/** The parser only builds well-formed trees and drops nothing but parentheses, and the printer
    writes each tree with as few of them as any text that parses to it. */
module Minimal {
  import opened Common
  import opened Syntax
  import opened Printer

  predicate IsParen(t: Token) {
    t == Mark(LPAREN) || t == Mark(RPAREN)
  }

  /** The tokens that are not parentheses. */
  function Core(ts: seq<Token>): seq<Token> {
    if ts == [] then [] else (if IsParen(ts[0]) then [] else [ts[0]]) + Core(ts[1..])
  }

  /** `out` is `used` with parentheses moved or removed, and no longer. */
  ghost predicate Tighter(out: seq<Token>, used: seq<Token>) {
    |out| <= |used| && Core(out) == Core(used)
  }

  lemma {:induction false} CoreConcat(a: seq<Token>, b: seq<Token>)
    ensures Core(a + b) == Core(a) + Core(b)
  {
    hide IsParen, Core;
    assert Core([]) == [] by { NoCore(); }
    if a == [] {
      assert a + b == b;
    } else {
      CoreConcat(a[1..], b);
      CoreFront(a);
      CoreFront(a + b);
      assert (a + b)[1..] == a[1..] + b;
    }
  }

  lemma NoCore()
    ensures Core([]) == []
  {
  }

  lemma CoreFront(ts: seq<Token>)
    requires ts != []
    ensures Core(ts) == (if IsParen(ts[0]) then [] else [ts[0]]) + Core(ts[1..])
  {
    hide IsParen;
  }

  lemma Front(a: seq<Token>, x: seq<Token>, y: seq<Token>)
    requires Tighter(x, y)
    ensures Tighter(a + x, a + y)
  {
    CoreConcat(a, x);
    CoreConcat(a, y);
  }

  lemma Back(x: seq<Token>, y: seq<Token>, b: seq<Token>)
    requires Tighter(x, y)
    ensures Tighter(x + b, y + b)
  {
    CoreConcat(x, b);
    CoreConcat(y, b);
  }

  lemma Then(x: seq<Token>, y: seq<Token>, z: seq<Token>)
    requires Tighter(x, y) && Tighter(y, z)
    ensures Tighter(x, z)
  {
  }

  /** After `p` and the token `op`, what is tighter than the rest may take its place. */
  lemma Splice(p: seq<Token>, op: Token, x: seq<Token>, rest: seq<Token>, ts: seq<Token>)
    requires Tighter(p + rest, ts) && rest != [] && rest[0] == op && Tighter(x, rest[1..])
    ensures Tighter(p + ([op] + x), ts)
  {
    hide Tighter, Core;
    Front([op], x, rest[1..]);
    assert [op] + rest[1..] == rest;
    Front(p, [op] + x, rest);
    Then(p + ([op] + x), p + rest, ts);
  }

  lemma Lead(op: Token, x: seq<Token>, ts: seq<Token>)
    requires ts != [] && ts[0] == op && Tighter(x, ts[1..])
    ensures Tighter([op] + x, ts)
  {
  }

  /** A success is a well-formed tree whose printed form is tighter than what was consumed. */
  ghost predicate Fits(level: nat, r: Parse<Expr>, ts: seq<Token>) {
    r.Yes? ==> WellFormed(r.value) && Tighter(Print(r.value, level) + r.rest, ts)
  }

  lemma PrintShrinks(e: Expr, low: nat, high: nat)
    requires low <= high
    ensures Tighter(Print(e, low), Print(e, high))
  {
    hide Bare;
    var b := Bare(e);
    CoreConcat([Mark(LPAREN)], b);
    CoreConcat([Mark(LPAREN)] + b, [Mark(RPAREN)]);
    assert Core([Mark(LPAREN)]) == [] && Core([Mark(RPAREN)]) == [];
  }

  lemma FitsBelow(low: nat, high: nat, r: Parse<Expr>, ts: seq<Token>)
    requires low <= high && Fits(high, r, ts)
    ensures Fits(low, r, ts)
  {
    hide Print, WellFormed, Tighter;
    if r.Yes? {
      PrintShrinks(r.value, low, high);
      Back(Print(r.value, low), Print(r.value, high), r.rest);
      Then(Print(r.value, low) + r.rest, Print(r.value, high) + r.rest, ts);
    }
  }

  lemma PrintedBare(e: Expr)
    ensures Print(e, LevelOf(e)) == Bare(e)
  {
    hide Bare;
  }

  lemma {:induction false} FitsAt(level: nat, ts: seq<Token>)
    requires level <= 10
    ensures Fits(level, ParseAt(level, ts), ts)
    decreases |ts|, 11 - level, 1
  {
    hide Fits, ParseTernary, ParseNot, ParseComparison, ParseSign, ParsePower, ParseAtom, ChainLoop, PostfixLoop;
    if level == 0 { FitsTernary(ts); }
    else if level == 3 { FitsNot(ts); }
    else if level == 4 { FitsComparison(ts); }
    else if level == 7 { FitsSign(ts); }
    else if level == 8 { FitsPower(ts); }
    else if level == 10 { FitsAtom(ts); }
    else {
      FitsAt(level + 1, ts);
      var r := ParseAt(level + 1, ts);
      FitsBelow(level, level + 1, r, ts);
      if r.Yes? {
        FitsWellFormed(level, r, ts);
        if level == 9 { FitsPostfix(r.value, r.rest); } else { FitsChain(level, r.value, r.rest); }
        FitsAfter(level, r, if level == 9 then PostfixLoop(r.value, r.rest) else ChainLoop(level, r.value, r.rest), ts);
      }
    }
  }

  lemma FitsWellFormed(level: nat, r: Parse<Expr>, ts: seq<Token>)
    requires Fits(level, r, ts) && r.Yes?
    ensures WellFormed(r.value)
  {
  }

  lemma FitsAfter(level: nat, first: Parse<Expr>, r: Parse<Expr>, ts: seq<Token>)
    requires first.Yes? && Fits(level, first, ts) && Fits(level, r, Print(first.value, level) + first.rest)
    ensures Fits(level, r, ts)
  {
    hide Print, WellFormed;
  }

  lemma ChainForm(level: nat, op: Kind, l: Expr, r: Expr, rest: seq<Token>)
    requires ChainOp(level, op)
    ensures Print(Binary(op, l, r), level) + rest == Print(l, level) + ([Mark(op)] + (Print(r, level + 1) + rest))
    ensures WellFormed(l) && WellFormed(r) ==> WellFormed(Binary(op, l, r))
  {
    hide Print, Bare;
    var e := Binary(op, l, r);
    assert LevelOf(e) == level;
    PrintedBare(e);
    BareChain(e, rest);
  }

  lemma {:induction false} FitsChain(level: nat, left: Expr, ts: seq<Token>)
    requires WellFormed(left)
    ensures Fits(level, ChainLoop(level, left, ts), Print(left, level) + ts)
    decreases |ts|, 0, 0
  {
    hide Print, WellFormed, ParseAt, Core;
    if ts != [] && ChainOp(level, Head(ts)) {
      FitsAt(level + 1, ts[1..]);
      var r := ParseAt(level + 1, ts[1..]);
      if r.Yes? {
        var next := Binary(Head(ts), left, r.value);
        ChainForm(level, Head(ts), left, r.value, r.rest);
        Splice(Print(left, level), Mark(Head(ts)), Print(r.value, level + 1) + r.rest, ts, Print(left, level) + ts);
        FitsChain(level, next, r.rest);
      }
    }
  }

  lemma ConditionalForm(c: Expr, t: Expr, f: Expr, rest: seq<Token>)
    ensures Print(Ternary(c, t, f), 0) + rest ==
      Print(c, 1) + ([Mark(QUESTION)] + (Print(t, 0) + ([Mark(COLON)] + (Print(f, 0) + rest))))
    ensures Print(IfElse(c, t, f), 0) + rest ==
      Print(t, 1) + ([Mark(IF)] + (Print(c, 1) + ([Mark(ELSE)] + (Print(f, 0) + rest))))
    ensures WellFormed(c) && WellFormed(t) && WellFormed(f) ==> WellFormed(Ternary(c, t, f)) && WellFormed(IfElse(c, t, f))
  {
    hide Print, Bare;
    PrintedBare(Ternary(c, t, f));
    PrintedBare(IfElse(c, t, f));
    BareTernary(Ternary(c, t, f), rest);
    BareIfElse(IfElse(c, t, f), rest);
  }

  /** Three parts, separated by the tokens `op1` and `op2`, each tighter than what it was read from. */
  lemma SpliceTwice(x: seq<Token>, op1: Token, y: seq<Token>, op2: Token, z: seq<Token>,
      ts1: seq<Token>, ts2: seq<Token>, ts: seq<Token>)
    requires Tighter(x + ts1, ts) && ts1 != [] && ts1[0] == op1
    requires Tighter(y + ts2, ts1[1..]) && ts2 != [] && ts2[0] == op2
    requires Tighter(z, ts2[1..])
    ensures Tighter(x + ([op1] + (y + ([op2] + z))), ts)
  {
    hide Tighter;
    Splice(y, op2, z, ts2, ts1[1..]);
    Splice(x, op1, y + ([op2] + z), ts1, ts);
  }

  lemma {:induction false} FitsIfElse(first: Expr, ts1: seq<Token>, ts: seq<Token>)
    requires WellFormed(first) && Tighter(Print(first, 1) + ts1, ts) && |ts1| < |ts| && Head(ts1) == IF
    ensures var b := ParseAt(1, ts1[1..]); b.Yes? && Head(b.rest) == ELSE ==>
      var c := ParseAt(0, b.rest[1..]); c.Yes? ==>
        WellFormed(IfElse(b.value, first, c.value)) && Tighter(Print(IfElse(b.value, first, c.value), 0) + c.rest, ts)
    decreases |ts|, 10, 3
  {
    hide Print, WellFormed, ParseAt, Tighter, IsSuffix;
    FitsAt(1, ts1[1..]);
    var b := ParseAt(1, ts1[1..]);
    if b.Yes? && Head(b.rest) == ELSE {
      FitsAt(0, b.rest[1..]);
      var c := ParseAt(0, b.rest[1..]);
      if c.Yes? {
        ConditionalForm(b.value, first, c.value, c.rest);
        SpliceTwice(Print(first, 1), Mark(IF), Print(b.value, 1), Mark(ELSE), Print(c.value, 0) + c.rest, ts1, b.rest, ts);
      }
    }
  }

  lemma {:induction false} FitsQuestion(first: Expr, ts1: seq<Token>, ts: seq<Token>)
    requires WellFormed(first) && Tighter(Print(first, 1) + ts1, ts) && |ts1| < |ts| && Head(ts1) == QUESTION
    ensures var b := ParseAt(0, ts1[1..]); b.Yes? && Head(b.rest) == COLON ==>
      var c := ParseAt(0, b.rest[1..]); c.Yes? ==>
        WellFormed(Ternary(first, b.value, c.value)) && Tighter(Print(Ternary(first, b.value, c.value), 0) + c.rest, ts)
    decreases |ts|, 10, 3
  {
    hide Print, WellFormed, ParseAt, Tighter, IsSuffix;
    FitsAt(0, ts1[1..]);
    var b := ParseAt(0, ts1[1..]);
    if b.Yes? && Head(b.rest) == COLON {
      FitsAt(0, b.rest[1..]);
      var c := ParseAt(0, b.rest[1..]);
      if c.Yes? {
        ConditionalForm(first, b.value, c.value, c.rest);
        SpliceTwice(Print(first, 1), Mark(QUESTION), Print(b.value, 0), Mark(COLON), Print(c.value, 0) + c.rest, ts1, b.rest, ts);
      }
    }
  }

  lemma {:induction false} FitsTernary(ts: seq<Token>)
    ensures Fits(0, ParseTernary(ts), ts)
    decreases |ts|, 11, 0
  {
    hide Print, WellFormed, ParseAt, Tighter, IsSuffix;
    FitsAt(1, ts);
    var a := ParseAt(1, ts);
    FitsBelow(0, 1, a, ts);
    if a.Yes? {
      if Head(a.rest) == IF {
        FitsIfElse(a.value, a.rest, ts);
      } else if Head(a.rest) == QUESTION {
        FitsQuestion(a.value, a.rest, ts);
      }
    }
  }

  lemma UnaryForm(op: Kind, x: Expr, rest: seq<Token>)
    requires op == NOT || op == MINUS || op == PLUS
    ensures var level := if op == NOT then 3 else 7; Print(Unary(op, x), level) + rest == [Mark(op)] + (Print(x, level) + rest)
    ensures WellFormed(x) ==> WellFormed(Unary(op, x))
  {
  }

  lemma {:induction false} FitsNot(ts: seq<Token>)
    ensures Fits(3, ParseNot(ts), ts)
    decreases |ts|, 8, 0
  {
    hide Print, WellFormed, ParseAt, Tighter;
    if Head(ts) == NOT && ts != [] {
      FitsAt(3, ts[1..]);
      var r := ParseAt(3, ts[1..]);
      if r.Yes? {
        UnaryForm(NOT, r.value, r.rest);
        Lead(Mark(NOT), Print(r.value, 3) + r.rest, ts);
      }
    } else {
      FitsAt(4, ts);
      FitsBelow(3, 4, ParseAt(4, ts), ts);
    }
  }

  lemma {:induction false} FitsSign(ts: seq<Token>)
    ensures Fits(7, ParseSign(ts), ts)
    decreases |ts|, 4, 0
  {
    hide Print, WellFormed, ParseAt, Tighter;
    if ts != [] && (Head(ts) == MINUS || Head(ts) == PLUS) {
      FitsAt(7, ts[1..]);
      var r := ParseAt(7, ts[1..]);
      if r.Yes? {
        UnaryForm(Head(ts), r.value, r.rest);
        Lead(Mark(Head(ts)), Print(r.value, 7) + r.rest, ts);
      }
    } else {
      FitsAt(8, ts);
      FitsBelow(7, 8, ParseAt(8, ts), ts);
    }
  }

  lemma PowerForm(l: Expr, r: Expr, rest: seq<Token>)
    ensures Print(Binary(POW, l, r), 8) + rest == Print(l, 9) + ([Mark(POW)] + (Print(r, 7) + rest))
    ensures WellFormed(l) && WellFormed(r) ==> WellFormed(Binary(POW, l, r))
  {
    hide Print, Bare;
    PrintedBare(Binary(POW, l, r));
    BarePower(Binary(POW, l, r), rest);
  }

  lemma {:induction false} FitsPower(ts: seq<Token>)
    ensures Fits(8, ParsePower(ts), ts)
    decreases |ts|, 3, 0
  {
    hide Print, WellFormed, ParseAt, Tighter;
    FitsAt(9, ts);
    var a := ParseAt(9, ts);
    FitsBelow(8, 9, a, ts);
    if a.Yes? && a.rest != [] && Head(a.rest) == POW {
      FitsAt(7, a.rest[1..]);
      var b := ParseAt(7, a.rest[1..]);
      if b.Yes? {
        PowerForm(a.value, b.value, b.rest);
        Splice(Print(a.value, 9), Mark(POW), Print(b.value, 7) + b.rest, a.rest, ts);
      }
    }
  }

  lemma IndexForm(obj: Expr, index: Expr, rest: seq<Token>)
    ensures Print(Index(obj, index), 9) + rest == Print(obj, 9) + ([Mark(LBRACK)] + (Print(index, 0) + ([Mark(RBRACK)] + rest)))
    ensures WellFormed(obj) && WellFormed(index) ==> WellFormed(Index(obj, index))
  {
    hide Print, Bare;
    PrintedBare(Index(obj, index));
    BareIndex(obj, index);
    FourParts(Print(obj, 9), [Mark(LBRACK)], Print(index, 0), [Mark(RBRACK)], rest);
  }

  lemma BareIndex(obj: Expr, index: Expr)
    ensures Bare(Index(obj, index)) == Print(obj, 9) + [Mark(LBRACK)] + Print(index, 0) + [Mark(RBRACK)]
  {
    hide Print;
  }

  lemma FourParts(a: seq<Token>, b: seq<Token>, c: seq<Token>, d: seq<Token>, e: seq<Token>)
    ensures a + b + c + d + e == a + (b + (c + (d + e)))
  {
  }

  lemma {:induction false} FitsPostfix(obj: Expr, ts: seq<Token>)
    requires WellFormed(obj)
    ensures Fits(9, PostfixLoop(obj, ts), Print(obj, 9) + ts)
    decreases |ts|, 0, 0
  {
    hide Print, WellFormed, ParseAt, Core;
    if ts != [] && Head(ts) == LBRACK {
      FitsAt(0, ts[1..]);
      var r := ParseAt(0, ts[1..]);
      if r.Yes? && r.rest != [] && Head(r.rest) == RBRACK {
        IndexForm(obj, r.value, r.rest[1..]);
        assert [Mark(RBRACK)] + r.rest[1..] == r.rest;
        Splice(Print(obj, 9), Mark(LBRACK), Print(r.value, 0) + r.rest, ts, Print(obj, 9) + ts);
        FitsPostfix(Index(obj, r.value), r.rest[1..]);
      }
    }
  }

  lemma {:induction false} PairsSnoc(pairs: seq<Pair>, p: Pair, rest: seq<Token>)
    ensures PrintPairs(pairs + [p]) + rest == PrintPairs(pairs) + ([Mark(p.op)] + (Print(p.right, 5) + rest))
    ensures PairsWellFormed(pairs) && PairWellFormed(p) ==> PairsWellFormed(pairs + [p])
  {
    hide Print, PairWellFormed;
    if pairs == [] {
      assert pairs + [p] == [p] && [p][1..] == [];
      PrintedPair([p], rest);
      NoPairs(rest);
      NoPairs([Mark(p.op)] + (Print(p.right, 5) + rest));
    } else {
      PairsSnoc(pairs[1..], p, rest);
      assert (pairs + [p])[1..] == pairs[1..] + [p];
      PrintedPair(pairs + [p], rest);
      PrintedPair(pairs, [Mark(p.op)] + (Print(p.right, 5) + rest));
    }
  }

  ghost predicate PairsFit(r: Parse<seq<Pair>>, ts: seq<Token>) {
    r.Yes? ==> PairsWellFormed(r.value) && Tighter(PrintPairs(r.value) + r.rest, ts)
  }

  lemma {:induction false} FitsPairs(pairs: seq<Pair>, ts: seq<Token>)
    requires PairsWellFormed(pairs)
    ensures PairsFit(PairsLoop(pairs, ts), PrintPairs(pairs) + ts)
    decreases |ts|, 0, 0
  {
    hide Print, WellFormed, ParseAt, PrintPairs, PairsWellFormed, Core;
    if ts != [] && IsComparison(Head(ts)) {
      FitsAt(5, ts[1..]);
      var r := ParseAt(5, ts[1..]);
      if r.Yes? {
        var p := Pair(Head(ts), r.value);
        PairsSnoc(pairs, p, r.rest);
        Splice(PrintPairs(pairs), Mark(Head(ts)), Print(r.value, 5) + r.rest, ts, PrintPairs(pairs) + ts);
        FitsPairs(pairs + [p], r.rest);
      }
    }
  }

  lemma CompareForm(first: Expr, pairs: seq<Pair>, rest: seq<Token>)
    requires pairs != []
    ensures Print(Compare(first, pairs), 4) + rest == Print(first, 5) + (PrintPairs(pairs) + rest)
    ensures WellFormed(first) && PairsWellFormed(pairs) ==> WellFormed(Compare(first, pairs))
  {
    hide Print, Bare;
    PrintedBare(Compare(first, pairs));
    BareCompare(Compare(first, pairs), rest);
  }

  lemma {:induction false} FitsComparison(ts: seq<Token>)
    ensures Fits(4, ParseComparison(ts), ts)
    decreases |ts|, 7, 0
  {
    hide Print, WellFormed, ParseAt, PairsLoop, Tighter;
    FitsAt(5, ts);
    var a := ParseAt(5, ts);
    if a.Yes? {
      FitsPairs([], a.rest);
      NoPairs(a.rest);
      var b := PairsLoop([], a.rest);
      if b.Yes? {
        Front(Print(a.value, 5), PrintPairs(b.value) + b.rest, a.rest);
        Then(Print(a.value, 5) + (PrintPairs(b.value) + b.rest), Print(a.value, 5) + a.rest, ts);
        if b.value != [] {
          CompareForm(a.value, b.value, b.rest);
        } else {
          NoPairs(b.rest);
          PrintShrinks(a.value, 4, 5);
          Back(Print(a.value, 4), Print(a.value, 5), b.rest);
          Then(Print(a.value, 4) + b.rest, Print(a.value, 5) + b.rest, ts);
        }
      }
    }
  }

  /** A list of items, each followed by a comma. */
  function Separated(items: seq<Expr>): seq<Token> {
    if items == [] then []
    else Separated(items[..|items| - 1]) + (Print(items[|items| - 1], 0) + [Mark(COMMA)])
  }

  lemma {:induction false} SeparatedFront(items: seq<Expr>)
    requires items != []
    ensures Separated(items) == Print(items[0], 0) + [Mark(COMMA)] + Separated(items[1..])
  {
    hide Print;
    var n := |items| - 1;
    if n > 0 {
      SeparatedFront(items[..n]);
      assert items[..n][1..] == items[1..][..n - 1];
    }
  }

  lemma SeparatedSnoc(items: seq<Expr>, x: Expr, rest: seq<Token>)
    ensures Separated(items + [x]) + rest == Separated(items) + (Print(x, 0) + ([Mark(COMMA)] + rest))
  {
    hide Print, Separated;
    SeparatedLast(items, x);
    Regroup(Separated(items), Print(x, 0), [Mark(COMMA)], rest);
  }

  lemma SeparatedLast(items: seq<Expr>, x: Expr)
    ensures Separated(items + [x]) == Separated(items) + (Print(x, 0) + [Mark(COMMA)])
  {
    hide Print;
    assert (items + [x])[..|items|] == items;
  }

  lemma Regroup(a: seq<Token>, b: seq<Token>, c: seq<Token>, d: seq<Token>)
    ensures a + (b + c) + d == a + (b + (c + d))
  {
  }

  lemma {:induction false} ItemsForm(items: seq<Expr>, x: Expr, rest: seq<Token>)
    ensures PrintItems(items + [x]) + rest == Separated(items) + (Print(x, 0) + rest)
  {
    hide Print;
    if items == [] {
      assert items + [x] == [x];
      assert Separated(items) + (Print(x, 0) + rest) == Print(x, 0) + rest;
    } else {
      ItemsForm(items[1..], x, rest);
      SeparatedFront(items);
      assert (items + [x])[1..] == items[1..] + [x];
      SplitFront(Print(items[0], 0) + [Mark(COMMA)], PrintItems(items[1..] + [x]), rest, Separated(items[1..]), Print(x, 0) + rest);
    }
  }

  lemma SplitFront(a: seq<Token>, b: seq<Token>, c: seq<Token>, d: seq<Token>, e: seq<Token>)
    requires b + c == d + e
    ensures a + b + c == a + d + e
  {
    assert a + b + c == a + (b + c);
    assert a + d + e == a + (d + e);
  }

  lemma {:induction false} AllWellFormedSnoc(items: seq<Expr>, x: Expr)
    requires AllWellFormed(items) && WellFormed(x)
    ensures AllWellFormed(items + [x])
  {
    hide WellFormed;
    if items == [] {
      assert items + [x] == [x] && [x][1..] == [];
    } else {
      AllWellFormedSnoc(items[1..], x);
      assert (items + [x])[1..] == items[1..] + [x];
    }
  }

  /** A list that ended with `close` fits the tokens it was read from. */
  ghost predicate ItemsFit(close: Kind, r: Parse<seq<Expr>>, ts: seq<Token>) {
    r.Yes? ==> AllWellFormed(r.value) && Tighter(PrintItems(r.value) + ([Mark(close)] + r.rest), ts)
  }

  lemma ItemsFitThrough(close: Kind, items: seq<Expr>, x: Expr, rest: seq<Token>, ts: seq<Token>, r: Parse<seq<Expr>>)
    requires Tighter(Print(x, 0) + rest, ts) && rest != [] && rest[0] == Mark(COMMA)
    requires ItemsFit(close, r, Separated(items + [x]) + rest[1..])
    ensures ItemsFit(close, r, Separated(items) + ts)
  {
    hide Print, PrintItems, AllWellFormed, Separated, Tighter, ItemsFit;
    SeparatedSnoc(items, x, rest[1..]);
    assert [Mark(COMMA)] + rest[1..] == rest;
    Front(Separated(items), Print(x, 0) + rest, ts);
    ItemsFitThen(close, r, Separated(items) + (Print(x, 0) + rest), Separated(items) + ts);
  }

  lemma ItemsFitAtLast(close: Kind, items: seq<Expr>, x: Expr, rest: seq<Token>, ts: seq<Token>)
    requires AllWellFormed(items + [x])
    requires Tighter(Print(x, 0) + rest, ts) && rest != [] && rest[0] == Mark(close)
    ensures ItemsFit(close, Yes(items + [x], rest[1..]), Separated(items) + ts)
  {
    hide Print, PrintItems, AllWellFormed, Separated, Tighter;
    Front(Separated(items), Print(x, 0) + rest, ts);
    ItemsForm(items, x, rest);
    assert [Mark(close)] + rest[1..] == rest;
  }

  /** The item just read and, after a comma, the rest of the list fit. */
  ghost predicate NextItemsFit(close: Kind, missing: SyntaxError, items: seq<Expr>, r: Parse<Expr>) {
    r.Yes? && r.rest != [] && Head(r.rest) == COMMA ==>
      ItemsFit(close, ItemsLoop(close, missing, items + [r.value], r.rest[1..]), Separated(items + [r.value]) + r.rest[1..])
  }

  lemma ItemStepFits(close: Kind, missing: SyntaxError, items: seq<Expr>, ts: seq<Token>)
    requires AllWellFormed(items) && close != OTHER
    requires Fits(0, ParseAt(0, ts), ts) && NextItemsFit(close, missing, items, ParseAt(0, ts))
    ensures ItemsFit(close, ItemStep(close, missing, items, ts), Separated(items) + ts)
  {
    hide Print, PrintItems, WellFormed, ParseAt, AllWellFormed, Separated, Tighter, IsSuffix, ItemsLoop, ItemsFit;
    var r := ParseAt(0, ts);
    NothingToFit(close, missing, Separated(items) + ts);
    if r.Yes? {
      AllWellFormedSnoc(items, r.value);
      if r.rest != [] && Head(r.rest) == COMMA {
        ItemsFitThrough(close, items, r.value, r.rest, ts, ItemsLoop(close, missing, items + [r.value], r.rest[1..]));
      } else if r.rest != [] && Head(r.rest) == close {
        ItemsFitAtLast(close, items, r.value, r.rest, ts);
      }
    } else {
      NothingToFit(close, r.error, Separated(items) + ts);
    }
  }

  lemma {:induction false} FitsItemsLoop(close: Kind, missing: SyntaxError, items: seq<Expr>, ts: seq<Token>)
    requires AllWellFormed(items) && close != OTHER && close != COMMA
    ensures ItemsFit(close, ItemsLoop(close, missing, items, ts), Separated(items) + ts)
    decreases |ts|, 11, 2
  {
    hide Print, WellFormed, ParseAt, AllWellFormed, Separated, Tighter, IsSuffix, ItemsLoop, ItemsFit, ItemStep;
    FitsAt(0, ts);
    var r := ParseAt(0, ts);
    if r.Yes? && r.rest != [] && Head(r.rest) == COMMA {
      AllWellFormedSnoc(items, r.value);
      FitsItemsLoop(close, missing, items + [r.value], r.rest[1..]);
    }
    ItemStepFits(close, missing, items, ts);
    ItemsOnce(close, missing, items, ts);
  }

  lemma NothingToFit(close: Kind, error: SyntaxError, ts: seq<Token>)
    ensures ItemsFit(close, No(error), ts)
  {
  }

  lemma ItemsFitThen(close: Kind, r: Parse<seq<Expr>>, ts: seq<Token>, us: seq<Token>)
    requires ItemsFit(close, r, ts) && Tighter(ts, us)
    ensures ItemsFit(close, r, us)
  {
    hide PrintItems, AllWellFormed;
  }

  lemma {:induction false} FitsItems(close: Kind, missing: SyntaxError, ts: seq<Token>)
    requires close != OTHER && close != COMMA
    ensures ItemsFit(close, ParseItems(close, missing, ts), ts)
    decreases |ts|, 11, 3
  {
    hide Print, WellFormed, ItemsLoop, Core;
    if ts != [] && Head(ts) == close {
      assert PrintItems([]) + ([Mark(close)] + ts[1..]) == ts;
    } else {
      FitsItemsLoop(close, missing, [], ts);
      assert Separated([]) + ts == ts;
    }
  }

  lemma LeafForm(e: Expr, t: Token, ts: seq<Token>)
    requires (e.Lit? && t == Value(e.value)) || (e.VarRef? && t == Var(e.ns, e.key))
    requires ts != [] && ts[0] == t
    ensures Print(e, 10) + ts[1..] == ts
  {
  }

  lemma BracketForm(items: seq<Expr>, func: string, rest: seq<Token>)
    ensures Print(List(items), 10) + rest == [Mark(LBRACK)] + (PrintItems(items) + ([Mark(RBRACK)] + rest))
    ensures Print(Call(func, items), 10) + rest == [Name(func)] + ([Mark(LPAREN)] + (PrintItems(items) + ([Mark(RPAREN)] + rest)))
    ensures AllWellFormed(items) ==> WellFormed(List(items)) && WellFormed(Call(func, items))
  {
  }

  lemma ParensFit(e: Expr, rest: seq<Token>, ts: seq<Token>)
    requires ts != [] && ts[0] == Mark(LPAREN) && rest != [] && rest[0] == Mark(RPAREN)
    requires Tighter(Print(e, 0) + rest, ts[1..])
    ensures Tighter(Print(e, 10) + rest[1..], ts)
  {
    hide Print, Core;
    var p := Print(e, 0);
    Lead(Mark(LPAREN), p + rest, ts);
    assert [Mark(LPAREN)] + (p + rest) == ([Mark(LPAREN)] + p + [Mark(RPAREN)]) + rest[1..];
    ParensTighter(e);
    Back(Print(e, 10), [Mark(LPAREN)] + p + [Mark(RPAREN)], rest[1..]);
  }

  lemma ParensTighter(e: Expr)
    ensures Tighter(Print(e, 10), [Mark(LPAREN)] + Print(e, 0) + [Mark(RPAREN)])
  {
    hide Bare;
    PrintShrinks(e, 0, 10);
    CoreConcat([Mark(LPAREN)], Print(e, 0));
    CoreConcat([Mark(LPAREN)] + Print(e, 0), [Mark(RPAREN)]);
    assert Core([Mark(LPAREN)]) == [] && Core([Mark(RPAREN)]) == [];
  }

  lemma {:induction false} FitsAtom(ts: seq<Token>)
    ensures Fits(10, ParseAtom(ts), ts)
    decreases |ts|, 1, 0
  {
    hide Print, ParseAt, ParseItems, PrintItems, AllWellFormed, Core, Tighter;
    if ts != [] {
      Same(ts);
      match ts[0] {
        case Value(lit) => LeafForm(Lit(lit), ts[0], ts);
        case Var(ns, key) => LeafForm(VarRef(ns, key), ts[0], ts);
        case Name(id) =>
          if |ts| > 1 && Head(ts[1..]) == LPAREN {
            FitsItems(RPAREN, MissingParen, ts[2..]);
            var r := ParseItems(RPAREN, MissingParen, ts[2..]);
            if r.Yes? {
              BracketForm(r.value, id, r.rest);
              assert ts[1..][1..] == ts[2..];
              var inner := PrintItems(r.value) + ([Mark(RPAREN)] + r.rest);
              Lead(Mark(LPAREN), inner, ts[1..]);
              Lead(ts[0], [Mark(LPAREN)] + inner, ts);
            }
          }
        case Mark(k) =>
          if k == LPAREN {
            FitsAt(0, ts[1..]);
            var r := ParseAt(0, ts[1..]);
            if r.Yes? && r.rest != [] && Head(r.rest) == RPAREN { ParensFit(r.value, r.rest, ts); }
          } else if k == LBRACK {
            FitsItems(RBRACK, MissingBracket, ts[1..]);
            var r := ParseItems(RBRACK, MissingBracket, ts[1..]);
            if r.Yes? {
              BracketForm(r.value, "", r.rest);
              Lead(Mark(LBRACK), PrintItems(r.value) + ([Mark(RBRACK)] + r.rest), ts);
            }
          }
      }
    }
  }

  lemma Same(ts: seq<Token>)
    ensures Tighter(ts, ts)
  {
  }

  /** What the parser accepts is a well-formed tree; its printed form parses to the same tree, is
      the accepted token list apart from parentheses, and is no longer: among all the token lists
      that parse to a tree, the printed one is a shortest. */
  lemma PrintIsShortest(ts: seq<Token>, e: Expr)
    requires ParseAll(ts) == Yes(e, [])
    ensures WellFormed(e)
    ensures ParseAll(Print(e, 0)) == ParseAll(ts)
    ensures |Print(e, 0)| <= |ts| && Core(Print(e, 0)) == Core(ts)
  {
    hide ParseAt, Print, WellFormed, Core;
    FitsAt(0, ts);
    ParseInvertsPrint(e);
    assert Print(e, 0) + [] == Print(e, 0);
  }

  /** The trees the parser produces are exactly the well-formed ones. */
  lemma ParsedIffWellFormed(e: Expr)
    ensures (exists ts :: ParseAll(ts) == Yes(e, [])) <==> WellFormed(e)
  {
    hide ParseAll, Print, WellFormed;
    if WellFormed(e) { ParseInvertsPrint(e); }
    if ts :| ParseAll(ts) == Yes(e, []) { PrintIsShortest(ts, e); }
  }
}

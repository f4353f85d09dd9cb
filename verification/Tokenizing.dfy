/** The tokenizer reads nothing but spellings, so it is characterised by them: texts, tokens and errors. */
module Tokenizing {
  import opened Common
  import opened Syntax
  import opened Lexer
  import opened Numbers
  import opened Spelling

  // ---------------------------------------------------------------- and nothing else is

  lemma MatchedNumber(s: string)
    requires s != "" && MatchAt(s).0 == NUMBER
    ensures var raw, rest := s[..MatchAt(s).1], s[MatchAt(s).1..];
      && IsNumber(raw) && NoLongerNumber(raw, rest) && raw != "" && Matched(NUMBER, raw)
      && TokenOf(NUMBER, raw) == [Value(if Digits(raw) then Int(DecimalValue(raw)) else Dec(raw))]
  {
    hide MatchNumber, MatchString, MatchVar, MatchIdent, IsNumber, IsDecimal, Matched, TokenOf;
    var raw, rest := s[..MatchAt(s).1], s[MatchAt(s).1..];
    assert raw + rest == s;
    LongestNumber(s);
    MatchedText(s);
    if Digits(raw) { IntReads(raw); } else { DecReads(raw); }
  }

  lemma MatchedString(s: string)
    requires s != "" && MatchAt(s).0 == STRING
    ensures var raw := s[..MatchAt(s).1];
      Matched(STRING, raw) && TokenOf(STRING, raw) == [Value(Str(Unescape(raw[1..|raw| - 1])))]
      && IsString(raw, Unescape(raw[1..|raw| - 1]))
  {
    hide MatchNumber, MatchVar, MatchIdent, Body, UnitsText, Unescape;
    var n, quote := MatchAt(s).1, s[0];
    var raw := s[..n];
    assert MatchString(s) == n > 0;
    var us := UnitsOf(quote, s[1..]);
    UnitsMean(quote, us);
    var b := Body(quote, s[1..]).value;
    assert s[1..][b] == quote && n == b + 2;
    assert raw[1..|raw| - 1] == s[1..][..b];
    assert raw == [quote] + s[1..][..b] + [quote];
    assert QuotedAs(raw, Meaning(us), quote, us);
  }

  lemma MatchedWord(s: string)
    requires s != "" && MatchAt(s).0 == IDENT
    ensures var raw, rest := s[..MatchAt(s).1], s[MatchAt(s).1..];
      IsIdentifier(raw) && EndsWord(rest) && TokenOf(IDENT, raw) == [WordToken(raw)] && Spells(raw, WordToken(raw)) && Ends(raw, WordToken(raw), rest)
  {
    hide MatchNumber, MatchString, MatchVar, WordToken, Spells, Ends;
    var n := MatchAt(s).1;
    assert MatchIdent(s) == n > 0;
    forall i | 0 <= i < n ensures NamePart(s[i]) { WordChars(s[i]); }
    WordChars(s[0]);
    if n < |s| { WordChars(s[n]); }
    WordIsSpelled(s[..n], s[n..]);
  }

  lemma WordIsSpelled(w: string, rest: string)
    requires IsIdentifier(w) && EndsWord(rest)
    ensures Spells(w, WordToken(w)) && Ends(w, WordToken(w), rest)
  {
    hide IsIdentifier, EndsWord;
    KeywordTexts();
  }

  lemma KeywordTexts()
    ensures KindText(AND) == "and" && KindText(OR) == "or" && KindText(NOT) == "not" && KindText(IF) == "if" && KindText(ELSE) == "else"
  {
  }

  lemma MatchedVar(s: string)
    requires s != "" && MatchAt(s).0 == VAR
    ensures var raw, rest := s[..MatchAt(s).1], s[MatchAt(s).1..];
      && Matched(VAR, raw) && TokenOf(VAR, raw) == [VarToken(raw)] && VarToken(raw).Var?
      && Spells(raw, VarToken(raw)) && Ends(raw, VarToken(raw), rest)
  {
    hide MatchNumber, MatchString, MatchIdent, MatchBraced, MatchDotted, VarToken, Spells, Ends;
    MatchedText(s);
    var n := MatchAt(s).1;
    assert MatchVar(s) == n > 0;
    if MatchBraced(s) > 0 { MatchedBraced(s); } else { MatchedDotted(s); }
  }

  lemma MatchedBraced(s: string)
    requires s != "" && s[0] == '$' && MatchBraced(s) > 0
    ensures var raw, rest := s[..MatchBraced(s)], s[MatchBraced(s)..];
      MatchVar(raw) == |raw| > 0 && VarToken(raw).Var? && Spells(raw, VarToken(raw)) && Ends(raw, VarToken(raw), rest)
  {
    hide Run, Strip, NAMESPACES, SPACES, Spells, Ends, MatchVar, VarToken, MatchBraced;
    var ns, inner := PartsOfBraced(s);
    BracedReadsWhole(ns, inner);
    BracedIsSpelled(ns, inner, s[MatchBraced(s)..]);
  }

  lemma PartsOfBraced(s: string) returns (ns: string, inner: string)
    requires s != "" && s[0] == '$' && MatchBraced(s) > 0
    ensures ns in SPACES && NoBraces(inner) && s[..MatchBraced(s)] == Spelling.Braced(ns, inner)
  {
    hide NamespaceBefore, Run, Strip, NAMESPACES, SPACES;
    ns := NamespaceBefore('{', NAMESPACES, s[1..]);
    var k := |ns| + 2;
    inner := s[k..MatchBraced(s) - 1];
    assert ns + ['{'] == s[1..][..|ns| + 1];
    assert forall i :: 0 <= i < |inner| ==> inner[i] == s[k..][i];
    SameSpaces(ns);
  }

  lemma BracedReadsWhole(ns: string, inner: string)
    requires ns in SPACES && NoBraces(inner)
    ensures var raw := Spelling.Braced(ns, inner); MatchVar(raw) == |raw| > 0 && VarToken(raw) == Var(ns, Strip(inner))
  {
    hide Run, Strip, NAMESPACES, SPACES, MatchBraced, MatchDotted, NamespaceBefore;
    var raw := Spelling.Braced(ns, inner);
    BracedMatches(ns, inner, "");
    assert raw + "" == raw;
    BracedParts(ns, inner, "");
  }

  lemma BracedIsSpelled(ns: string, inner: string, rest: string)
    requires ns in SPACES && NoBraces(inner)
    ensures var raw := Spelling.Braced(ns, inner); Spells(raw, Var(ns, Strip(inner))) && Ends(raw, Var(ns, Strip(inner)), rest)
  {
    hide Strip, SPACES, NoBraces;
    var raw := Spelling.Braced(ns, inner);
    assert BracedAs(raw, ns, Strip(inner), inner);
    assert raw[|raw| - 1] == '}';
  }

  lemma MatchedDotted(s: string)
    requires s != "" && s[0] == '$' && MatchBraced(s) == 0 && MatchDotted(s) > 0
    ensures var raw, rest := s[..MatchDotted(s)], s[MatchDotted(s)..];
      MatchVar(raw) == |raw| > 0 && VarToken(raw).Var? && Spells(raw, VarToken(raw)) && Ends(raw, VarToken(raw), rest)
  {
    hide NamespaceBefore, Run, Strip, MatchIdent, MatchBraced, NAMESPACES, SPACES, Spells, IsIdentifier, EndsWord;
    var ns := NamespaceBefore('.', NAMESPACES[4..], s[1..]);
    var k, n := |ns| + 2, MatchDotted(s);
    var raw, id := s[..n], s[k..n];
    SameSpaces(ns);
    assert ns + ['.'] == s[1..][..|ns| + 1];
    IdentifierFront(s[k..]);
    assert id == s[k..][..n - k] && s[n..] == s[k..][n - k..];
    assert raw == Dotted(ns, id);
    DottedMatches(ns, id, "") by { assert EndsWord("") by { NothingContinues(); } }
    assert raw + "" == raw && raw[|ns| + 2..] == id;
    StripsIdentifier(id);
    assert Spells(raw, Var(ns, id)) by { DottedIsSpelled(raw, ns, id); }
  }

  lemma NothingContinues()
    ensures EndsWord("")
  {
  }

  lemma DottedIsSpelled(raw: string, ns: string, id: string)
    requires ns in SPACES && DottedAs(raw, ns, id)
    ensures Spells(raw, Var(ns, id))
  {
  }

  lemma StripsIdentifier(id: string)
    requires IsIdentifier(id)
    ensures Strip(id) == id
  {
    WordChars(id[0]);
    WordChars(id[|id| - 1]);
    StripsNothing(id);
  }

  lemma IdentifierFront(s: string)
    requires MatchIdent(s) > 0
    ensures IsIdentifier(s[..MatchIdent(s)]) && EndsWord(s[MatchIdent(s)..])
  {
    var n := MatchIdent(s);
    forall i | 0 <= i < n ensures NamePart(s[i]) { WordChars(s[i]); }
    WordChars(s[0]);
    if n < |s| { WordChars(s[n]); }
  }

  lemma MatchedOperator(s: string)
    requires s != "" && MatchAt(s).0 in {OP2, OP}
    ensures var raw, rest := s[..MatchAt(s).1], s[MatchAt(s).1..];
      var k := if MatchAt(s).0 == OP2 then Op2Kind(raw) else OpKind(raw[0]);
      Matched(MatchAt(s).0, raw) && Spells(raw, Mark(k)) && Ends(raw, Mark(k), rest)
  {
    hide MatchNumber, MatchString, MatchVar, MatchIdent, Op2Kind, OpKind, Ends, KEYWORDS, KindText;
    MatchedText(s);
    var n := MatchAt(s).1;
    var raw := s[..n];
    if MatchAt(s).0 == OP2 {
      Op2Append(raw, s[2..]);
      assert raw + s[2..] == s;
      Op2IsSpelled(raw);
      LongOperatorEnds(raw, s[n..]);
    } else {
      OpIsSpelled(raw);
      if |s| > 1 { TwoCharacters(s); }
      assert raw == [s[0]] && (|s| > 1 ==> s[1..][0] == s[1]);
      ShortOperatorEnds(raw, s[n..]);
    }
  }

  lemma Op2IsSpelled(raw: string)
    requires |raw| == 2 && Op2Kind(raw) != OTHER
    ensures Op2Kind(raw) != EOF && raw == KindText(Op2Kind(raw)) && IsOp2(Op2Kind(raw))
  {
    assert raw == [raw[0], raw[1]];
  }

  lemma OpIsSpelled(raw: string)
    requires |raw| == 1 && OpKind(raw[0]) != OTHER
    ensures OpKind(raw[0]) != EOF && raw == KindText(OpKind(raw[0])) && !IsWord(OpKind(raw[0]))
  {
    assert raw == [raw[0]];
  }

  lemma LongOperatorEnds(raw: string, rest: string)
    requires |raw| == 2 && Op2Kind(raw) != OTHER && raw == KindText(Op2Kind(raw)) && IsOp2(Op2Kind(raw))
    ensures Ends(raw, Mark(Op2Kind(raw)), rest)
  {
    hide Op2Kind, KindText;
    WordTexts(Op2Kind(raw));
  }

  lemma ShortOperatorEnds(raw: string, rest: string)
    requires |raw| == 1 && raw == KindText(OpKind(raw[0])) && !IsWord(OpKind(raw[0])) && EndsOperator(raw, rest)
    ensures Ends(raw, Mark(OpKind(raw[0])), rest)
  {
    hide OpKind, KindText;
    WordTexts(OpKind(raw[0]));
  }

  /** What the tokenizer takes at a position, white space apart, is a spelling of the token it makes of it,
      and ends where the text lets it end. */
  lemma MatchIsSpelled(s: string) returns (t: Token)
    requires s != "" && MatchAt(s).0 != WS && MatchAt(s).0 != BAD
    ensures var (group, n) := MatchAt(s);
      Matched(group, s[..n]) && TokenOf(group, s[..n]) == [t] && Spells(s[..n], t) && Ends(s[..n], t, s[n..])
  {
    hide MatchAt, Matched, Unescape, Spells, Ends, VarToken, WordToken, NumberToken, IsNumber, NoLongerNumber, DecimalValue;
    MatchedText(s);
    var (group, n) := MatchAt(s);
    var raw := s[..n];
    match group {
      case NUMBER =>
        MatchedNumber(s);
        t := Value(if Digits(raw) then Int(DecimalValue(raw)) else Dec(raw));
        NumberIsSpelled(raw, s[n..]);
      case STRING =>
        MatchedString(s);
        t := Value(Str(Unescape(raw[1..|raw| - 1])));
        StringIsSpelled(raw, s[n..]);
      case VAR =>
        MatchedVar(s);
        VarIsWhole(raw);
        t := VarToken(raw);
      case IDENT =>
        MatchedWord(s);
        t := WordToken(raw);
      case OP2 =>
        MatchedOperator(s);
        t := Mark(Op2Kind(raw));
      case OP =>
        MatchedOperator(s);
        t := Mark(OpKind(raw[0]));
    }
  }

  lemma VarIsWhole(raw: string)
    requires Matched(VAR, raw)
    ensures MatchVar(raw) == |raw| > 0
  {
    hide MatchVar;
  }

  lemma NumberIsSpelled(raw: string, rest: string)
    requires IsNumber(raw) && NoLongerNumber(raw, rest) && raw != ""
    ensures var t := Value(if Digits(raw) then Int(DecimalValue(raw)) else Dec(raw)); Spells(raw, t) && Ends(raw, t, rest)
  {
    hide IsNumber, NoLongerNumber;
  }

  lemma StringIsSpelled(raw: string, rest: string)
    requires |raw| >= 2
    requires IsString(raw, Unescape(raw[1..|raw| - 1]))
    ensures var t := Value(Str(Unescape(raw[1..|raw| - 1]))); Spells(raw, t) && Ends(raw, t, rest)
  {
    hide Unescape;
  }

  // ---------------------------------------------------------------- whole texts

  lemma SpacesRead(gap: string, s: string)
    requires Spaces(gap) && (s != "" ==> !IsSpace(s[0]))
    ensures Lex(gap + s) == After([], |gap|, Lex(s))
  {
    hide TokenOf, IsSpace, Lex;
    LexEnds(s);
    if gap == "" {
      assert gap + s == s;
    } else {
      RunAll(IsSpace, gap + s, |gap|);
      assert MatchAt(gap + s) == (WS, |gap|);
      assert (gap + s)[..|gap|] == gap && (gap + s)[|gap|..] == s;
      assert TokenOf(WS, gap) == [] by { BlankToken(gap); }
      LexStep(gap + s, WS, |gap|);
    }
  }

  lemma BlankToken(gap: string)
    requires gap != ""
    ensures TokenOf(WS, gap) == []
  {
  }

  lemma TokenThenRest(raw: string, t: Token, rest: string)
    requires Spells(raw, t) && Ends(raw, t, rest)
    ensures raw != "" && !IsSpace(raw[0]) && Lex(raw + rest) == After([t], |raw|, Lex(rest))
  {
    hide TokenOf, MatchAt, Matched, Lex, Spells, Ends;
    SpellingReads(raw, t, rest);
    assert (raw + rest)[..|raw|] == raw && (raw + rest)[|raw|..] == rest;
    LexStep(raw + rest, MatchAt(raw + rest).0, |raw|);
  }

  /** A text made of spellings of some tokens reads as those tokens, whatever white space is, or is not,
      between them. */
  lemma {:induction false} Reads(text: string, ts: seq<Token>, raws: seq<string>, gaps: seq<string>)
    requires Written(text, ts, raws, gaps)
    ensures Lex(text) == Ok(ts)
    decreases |ts|
  {
    hide Spells, Ends, Lex, IsSpace;
    if ts == [] {
      SpacesRead(gaps[0], "");
      LexEnds("");
      assert gaps[0] + "" == gaps[0];
    } else {
      var gap, raw := gaps[0], raws[0];
      var rest := text[|gap| + |raw|..];
      Reads(rest, ts[1..], raws[1..], gaps[1..]);
      TokenThenRest(raw, ts[0], rest);
      SpacesRead(gap, raw + rest);
      assert text == gap + (raw + rest);
      assert [ts[0]] + ts[1..] == ts;
      assert [] + ts == ts;
    }
  }

  lemma {:induction false} OnlyWritten(text: string, ts: seq<Token>) returns (raws: seq<string>, gaps: seq<string>)
    requires Lex(text) == Ok(ts)
    ensures Written(text, ts, raws, gaps)
    decreases |text|
  {
    hide Spells, Ends, Lex, MatchAt, Matched, TokenOf, IsSpace;
    LexEnds(text);
    if text == "" {
      raws, gaps := [], [""];
    } else {
      var (group, n) := MatchAt(text);
      MatchedText(text);
      LexStep(text, group, n);
      var rest := text[n..];
      if group == WS {
        BlankToken(text[..n]);
        assert forall more: seq<Token> :: [] + more == more;
        raws, gaps := OnlyWritten(rest, ts);
        SpaceTaken(text);
        gaps := [text[..n] + gaps[0]] + gaps[1..];
        MoreSpace(text, ts, raws, text[..n], gaps);
      } else {
        var t := MatchIsSpelled(text);
        assert Lex(rest).Ok? && ts == [t] + Lex(rest).value;
        var raws1, gaps1 := OnlyWritten(rest, ts[1..]);
        raws, gaps := [text[..n]] + raws1, [""] + gaps1;
        assert raws[1..] == raws1 && gaps[1..] == gaps1;
        assert WrittenFirst(text, t, text[..n], "") by { assert "" + text[..n] == text[..n]; }
      }
    }
  }

  lemma SpaceTaken(s: string)
    requires s != "" && MatchAt(s).0 == WS
    ensures Spaces(s[..MatchAt(s).1])
  {
    hide MatchNumber, MatchString, MatchVar, MatchIdent;
    assert MatchAt(s).1 == Run(IsSpace, s);
  }

  lemma MoreSpace(text: string, ts: seq<Token>, raws: seq<string>, gap: string, gaps: seq<string>)
    requires gap <= text && Spaces(gap) && gaps != [] && gap <= gaps[0]
    requires Written(text[|gap|..], ts, raws, [gaps[0][|gap|..]] + gaps[1..])
    ensures Written(text, ts, raws, gaps)
  {
    hide Spells, Ends, IsSpace;
    var inner := [gaps[0][|gap|..]] + gaps[1..];
    assert gaps[0] == gap + inner[0] && inner[1..] == gaps[1..];
    assert text == gap + text[|gap|..];
    if ts != [] {
      assert text[|gap|..][|inner[0]| + |raws[0]|..] == text[|gaps[0]| + |raws[0]|..];
    }
  }

  /** The tokenizer, in full: it reads a text as a list of tokens exactly if the text is made of spellings
      of them. */
  lemma TokenizesIff(text: string, ts: seq<Token>)
    ensures Lex(text) == Ok(ts) <==> Writes(text, ts)
  {
    hide Lex, Written;
    if Lex(text) == Ok(ts) { var raws, gaps := OnlyWritten(text, ts); }
    if raws, gaps :| Written(text, ts, raws, gaps) { Reads(text, ts, raws, gaps); }
  }

  // ---------------------------------------------------------------- a text for every token

  function Decimal(n: nat): string {
    var last := ('0' as int + n % 10) as char;
    if n < 10 then [last] else Decimal(n / 10) + [last]
  }

  /** Units for a value between single quotes: backslashes and single quotes are escaped. */
  function Escaping(x: string): (us: seq<Unit>)
    ensures SoundUnits('\'', us)
    ensures Meaning(us) == x
  {
    if x == "" then []
    else
      var u := if x[0] == '\\' || x[0] == '\'' then Escaped(x[0]) else Plain(x[0]);
      var rest := Escaping(x[1..]);
      assert ([u] + rest)[1..] == rest;
      [u] + rest
  }

  function TextOf(t: Token): string {
    match t
    case Value(Int(n)) => Decimal(n)
    case Value(Dec(text)) => text
    case Value(Str(x)) => Quoted('\'', Escaping(x))
    case Value(Bool(b)) => if b then "true" else "false"
    case Value(NoneValue) => "none"
    case Var(ns, key) => Braced(ns, key)
    case Name(id) => id
    case Mark(kind) => KindText(kind)
  }

  /** The tokens the tokenizer can produce, EOF apart. */
  predicate Spellable(t: Token) {
    match t
    case Value(Dec(text)) => IsNumber(text) && !Digits(text)
    case Value(_) => true
    case Var(ns, key) => ns in SPACES && NoBraces(key) && Trimmed(key)
    case Name(id) => IsName(id)
    case Mark(kind) => kind != EOF && kind != OTHER
  }

  lemma {:induction false} DecimalDigits(n: nat)
    ensures Decimal(n) != "" && Digits(Decimal(n)) && DecimalValue(Decimal(n)) == n
  {
    hide DecimalValue;
    DecimalRead(n);
    DigitsHaveAValue(Decimal(n));
  }

  lemma {:induction false} DecimalRead(n: nat)
    ensures Decimal(n) != "" && Digits(Decimal(n)) && DigitsValue(Decimal(n)) == n
  {
    var last := ('0' as int + n % 10) as char;
    assert IsDigit(last) && DigitValue(last) == n % 10;
    if n < 10 {
      assert DigitsValue([last]) == DigitsValue([last][..0]) * 10 + DigitValue(last);
    } else {
      DecimalRead(n / 10);
      assert (Decimal(n / 10) + [last])[..|Decimal(n / 10)|] == Decimal(n / 10);
    }
  }

  /** A token has a spelling exactly if it is one the tokenizer can produce; then its text is one. */
  lemma SpellableIff(t: Token)
    ensures Spellable(t) <==> exists raw :: Spells(raw, t)
    ensures Spellable(t) ==> Spells(TextOf(t), t)
  {
    hide Decimal, DecimalValue, IsNumber, Escaping, UnitsText, IsIdentifier, KindText, Strip;
    match t {
      case Value(Int(n)) => DecimalDigits(n);
      case Value(Str(x)) =>
        EscapingMeans(x);
        assert QuotedAs(TextOf(t), x, '\'', Escaping(x));
      case Value(Bool(b)) => assert Spells(TextOf(t), t);
      case Value(NoneValue) => assert Spells(TextOf(t), t);
      case Var(ns, key) =>
        if Spellable(t) { assert BracedAs(TextOf(t), ns, key, key); }
        if raw :| Spells(raw, t) { VarIsSpellable(raw, ns, key); }
      case _ =>
    }
    assert Spellable(t) ==> Spells(TextOf(t), t);
  }

  lemma EscapingMeans(x: string)
    ensures SoundUnits('\'', Escaping(x)) && Meaning(Escaping(x)) == x
  {
  }

  lemma VarIsSpellable(raw: string, ns: string, key: string)
    requires Spells(raw, Var(ns, key))
    ensures Spellable(Var(ns, key))
  {
    hide Strip, SPACES;
    if DottedAs(raw, ns, key) {
      StripsIdentifier(key);
      IdentifiersHaveNoBraces(key);
    } else {
      var inner :| BracedAs(raw, ns, key, inner);
      StripKeeps(inner);
      StripIsTrimmed(inner);
    }
  }

  lemma IdentifiersHaveNoBraces(w: string)
    requires IsIdentifier(w)
    ensures NoBraces(w)
  {
  }

  lemma StripKeeps(x: string)
    ensures forall c :: c in Strip(x) ==> c in x
  {
    LeftKeeps(x);
  }

  lemma {:induction false} LeftKeeps(x: string)
    ensures forall c :: c in TrimLeft(x) ==> c in x
  {
    if x != "" && IsSpace(x[0]) { LeftKeeps(x[1..]); }
  }

  /** The tokens' texts with one space between them. */
  function Spaced(ts: seq<Token>): string {
    if ts == [] then "" else TextOf(ts[0]) + if |ts| == 1 then "" else " " + Spaced(ts[1..])
  }

  predicate NumberChar(c: char) {
    '0' <= c <= '9' || c == '.' || c == 'e' || c == 'E' || c == '+' || c == '-'
  }

  lemma NumberChars(w: string, i: nat)
    requires IsNumber(w) && i < |w|
    ensures NumberChar(w[i])
  {
    var k :| 0 < k <= |w| && SplitAt(w, k);
    if i < k {
      assert w[i] == w[..k][i];
      MantissaChars(w[..k], i);
    } else {
      assert w[i] == w[k..][i - k];
      ExponentChars(w[k..], i - k);
    }
  }

  lemma MantissaChars(w: string, i: nat)
    requires IsMantissa(w) && i < |w|
    ensures NumberChar(w[i])
  {
    if !Digits(w) {
      var k :| 0 <= k < |w| && PointAt(w, k);
      if i < k { assert w[i] == w[..k][i]; }
      if i > k { assert w[i] == w[k + 1..][i - k - 1]; }
    }
  }

  lemma ExponentChars(w: string, i: nat)
    requires IsExponent(w) && i < |w|
    ensures NumberChar(w[i])
  {
    if i >= 1 { assert w[i] == w[1..][i - 1]; }
    if i >= 2 { assert w[i] == w[2..][i - 2]; }
  }

  lemma SpaceIsSpace()
    ensures IsSpace(' ')
  {
  }

  lemma SpaceIsOther(c: char)
    requires IsSpace(c)
    ensures !NamePart(c) && !NumberChar(c) && c != '=' && c != '/' && c != '*'
  {
  }

  /** White space, or the end of the text, ends any spelling. */
  lemma SpaceEnds(raw: string, t: Token, rest: string)
    requires rest != "" ==> IsSpace(rest[0])
    ensures Ends(raw, t, rest)
  {
    hide IsNumber, NamePart, NumberChar, KindText, KEYWORDS;
    if rest != "" {
      SpaceIsOther(rest[0]);
      forall n | |raw| < n <= |raw + rest| ensures !IsNumber((raw + rest)[..n]) {
        var w := (raw + rest)[..n];
        assert w[|raw|] == rest[0];
        if IsNumber(w) { NumberChars(w, |raw|); }
      }
      NotAnOperator(raw, rest[0]);
    }
  }

  lemma NotAnOperator(raw: string, c: char)
    requires c != '=' && c != '/' && c != '*'
    ensures raw + [c] !in [">=", "<=", "==", "!=", "//", "**"]
  {
    var w := raw + [c];
    assert w[|w| - 1] == c;
    assert ">="[1] == '=' && "<="[1] == '=' && "=="[1] == '=' && "!="[1] == '=' && "//"[1] == '/' && "**"[1] == '*';
  }

  lemma {:induction false} SpacedIsWritten(ts: seq<Token>) returns (raws: seq<string>, gaps: seq<string>)
    requires forall t :: t in ts ==> Spellable(t)
    ensures Written(Spaced(ts), ts, raws, gaps)
  {
    hide Spells, Ends, TextOf, Spellable, IsSpace;
    if ts == [] {
      raws, gaps := [], [""];
    } else {
      assert ts[0] in ts && forall t :: t in ts[1..] ==> t in ts;
      var raws1, gaps1 := SpacedIsWritten(ts[1..]);
      var raw, text := TextOf(ts[0]), Spaced(ts);
      SpellableIff(ts[0]);
      var rest := text[|raw|..];
      if |ts| == 1 {
        assert text == raw && rest == "";
        SpaceEnds(raw, ts[0], rest);
        raws, gaps := [raw], ["", ""];
      } else {
        assert rest == " " + Spaced(ts[1..]) && rest[0] == ' ';
        assert IsSpace(' ') by { SpaceIsSpace(); }
        SpaceEnds(raw, ts[0], rest);
        var after := [" " + gaps1[0]] + gaps1[1..];
        assert rest[|" "|..] == Spaced(ts[1..]) && [after[0][|" "|..]] + after[1..] == gaps1;
        MoreSpace(rest, ts[1..], raws1, " ", after);
        raws, gaps := [raw] + raws1, [""] + after;
        assert raws[1..] == raws1 && gaps[1..] == after;
      }
      assert "" + raw == raw && raw <= text;
    }
  }

  lemma {:induction false} WrittenSpellable(text: string, ts: seq<Token>, raws: seq<string>, gaps: seq<string>)
    requires Written(text, ts, raws, gaps)
    ensures forall t :: t in ts ==> Spellable(t)
    decreases |ts|
  {
    hide Spells, Ends, Spellable;
    if ts != [] {
      SpellableIff(ts[0]);
      WrittenSpellable(text[|gaps[0]| + |raws[0]|..], ts[1..], raws[1..], gaps[1..]);
      assert ts == [ts[0]] + ts[1..];
    }
  }

  /** Some text tokenizes to `ts` exactly when every token of it is spellable. */
  lemma LexableIffSpellable(ts: seq<Token>)
    ensures (exists text :: Lex(text) == Ok(ts)) <==> forall t :: t in ts ==> Spellable(t)
  {
    hide Spellable, Lex, Written, Spaced;
    if text :| Lex(text) == Ok(ts) {
      var raws, gaps := OnlyWritten(text, ts);
      WrittenSpellable(text, ts, raws, gaps);
    }
    if forall t :: t in ts ==> Spellable(t) {
      var raws, gaps := SpacedIsWritten(ts);
      Reads(Spaced(ts), ts, raws, gaps);
    }
  }

  lemma LexedSpellable(text: string)
    ensures var r := Lex(text); r.Ok? ==> forall t :: t in r.value ==> Spellable(t)
  {
    hide Spellable, Lex;
    if Lex(text).Ok? { LexableIffSpellable(Lex(text).value); }
  }

  /** No front of the text is a spelling that could be taken, and it starts with no white space. */
  ghost predicate StartsNothing(s: string) {
    s != "" && !IsSpace(s[0]) && forall n, t :: 0 <= n <= |s| ==> !(Spells(s[..n], t) && Ends(s[..n], t, s[n..]))
  }

  lemma BadIff(s: string)
    requires s != ""
    ensures MatchAt(s).0 == BAD <==> StartsNothing(s)
  {
    hide MatchAt, Spells, Ends, IsSpace;
    forall n, t | 0 <= n <= |s| && Spells(s[..n], t) && Ends(s[..n], t, s[n..]) ensures MatchAt(s).0 != BAD {
      SpellingReads(s[..n], t, s[n..]);
      assert s[..n] + s[n..] == s;
    }
    SpaceIffBlank(s);
    if MatchAt(s).0 != BAD && MatchAt(s).0 != WS { var t := MatchIsSpelled(s); }
  }

  lemma SpaceIffBlank(s: string)
    requires s != ""
    ensures MatchAt(s).0 == WS <==> IsSpace(s[0])
  {
    hide MatchNumber, MatchString, MatchVar, MatchIdent;
  }

  /** White space, or a spelling that could be taken. */
  ghost predicate Takes(s: string, n: nat) {
    0 < n <= |s| && (Spaces(s[..n]) || exists t :: Spells(s[..n], t) && Ends(s[..n], t, s[n..]))
  }

  /** The text can be read up to place `k`. */
  ghost predicate ReadTo(text: string, k: nat)
    decreases k
  {
    k == 0 || exists n :: 0 < n <= k && Takes(text, n) && ReadTo(text[n..], k - n)
  }

  /** White space at the front is passed over. */
  lemma SpacePassed(s: string)
    requires s != "" && IsSpace(s[0])
    ensures Lex(s) == After([], Run(IsSpace, s), Lex(s[Run(IsSpace, s)..]))
  {
    hide Lex, IsSpace, TokenOf, MatchAt, Matched, Run;
    SpaceRun(s, 1);
    MatchedText(s);
    LexStep(s, WS, Run(IsSpace, s));
    BlankToken(s[..Run(IsSpace, s)]);
  }

  lemma SpaceFirst(s: string, n: nat)
    requires 0 < n <= |s| && Spaces(s[..n])
    ensures Lex(s) == After([], n, Lex(s[n..]))
  {
    hide Lex, IsSpace, Run;
    assert forall i :: 0 <= i < n ==> s[i] == s[..n][i];
    SpaceRun(s, n);
    SpacePassed(s);
    var run := Run(IsSpace, s);
    if n < run {
      assert s[n..][0] == s[n] && s[n..][run - n..] == s[run..];
      RunRest(s, n);
      SpacePassed(s[n..]);
      var none: seq<Token> := [];
      AfterAfter(none, n, none, run - n, Lex(s[run..]));
      assert none + none == none;
    }
  }

  lemma SpaceRun(s: string, n: nat)
    requires 0 < n <= |s| && forall i :: 0 <= i < n ==> IsSpace(s[i])
    ensures MatchAt(s) == (WS, Run(IsSpace, s)) && Run(IsSpace, s) >= n
    ensures forall i :: 0 <= i < Run(IsSpace, s) ==> IsSpace(s[i])
  {
    hide MatchNumber, MatchString, MatchVar, MatchIdent;
  }

  lemma RunRest(s: string, n: nat)
    requires n <= Run(IsSpace, s)
    ensures Run(IsSpace, s[n..]) == Run(IsSpace, s) - n
  {
    hide IsSpace;
    RunAll(IsSpace, s[n..], Run(IsSpace, s) - n);
  }

  lemma TakenFirst(s: string, n: nat) returns (ts: seq<Token>)
    requires Takes(s, n)
    ensures Lex(s) == After(ts, n, Lex(s[n..]))
  {
    hide Lex, Spells, Ends, IsSpace;
    if Spaces(s[..n]) {
      SpaceFirst(s, n);
      ts := [];
    } else {
      var t :| Spells(s[..n], t) && Ends(s[..n], t, s[n..]);
      TokenThenRest(s[..n], t, s[n..]);
      assert s[..n] + s[n..] == s;
      ts := [t];
    }
  }

  lemma {:induction false} ReadThenBad(text: string, k: nat)
    requires k < |text| && ReadTo(text, k) && StartsNothing(text[k..])
    ensures Lex(text) == Err(k + 1)
    decreases k
  {
    hide Lex, Takes, StartsNothing;
    if k == 0 {
      assert text[0..] == text;
      BadIsAnError(text);
    } else {
      var n :| 0 < n <= k && Takes(text, n) && ReadTo(text[n..], k - n);
      var ts := TakenFirst(text, n);
      assert text[n..][k - n..] == text[k..];
      ReadThenBad(text[n..], k - n);
    }
  }

  lemma BadIsAnError(s: string)
    requires s != "" && StartsNothing(s)
    ensures Lex(s) == Err(1)
  {
    hide Lex, MatchAt, Matched, StartsNothing, TokenOf;
    BadIff(s);
    MatchedText(s);
    LexStep(s, BAD, MatchAt(s).1);
  }

  lemma {:induction false} ErrorIsBad(text: string)
    ensures var r := Lex(text); r.Err? ==> 1 <= r.error <= |text| && ReadTo(text, r.error - 1) && StartsNothing(text[r.error - 1..])
    decreases |text|
  {
    hide TokenOf, MatchAt, Matched, Lex, StartsNothing, Takes;
    LexEnds(text);
    if text != "" && Lex(text).Err? {
      BadIff(text);
      var (group, n) := MatchAt(text);
      MatchedText(text);
      LexStep(text, group, n);
      if group == BAD {
        assert text[0..] == text;
      } else {
        ErrorIsBad(text[n..]);
        var at := Lex(text[n..]).error;
        assert text[n..][at - 1..] == text[n + at - 1..];
        MatchTakes(text);
        assert ReadTo(text, n + at - 1) by { assert n + at - 1 - n == at - 1; }
      }
    }
  }

  lemma MatchTakes(s: string)
    requires s != "" && MatchAt(s).0 != BAD
    ensures Takes(s, MatchAt(s).1)
  {
    hide MatchAt, Spells, Ends, IsSpace;
    if MatchAt(s).0 == WS { SpaceTaken(s); } else { var t := MatchIsSpelled(s); }
  }

  /** The tokenizer fails at a place exactly if the text can be read up to it and nothing starts there. */
  lemma ErrorsIff(text: string, k: nat)
    ensures Lex(text) == Err(k + 1) <==> k < |text| && ReadTo(text, k) && StartsNothing(text[k..])
  {
    hide Lex, ReadTo, StartsNothing;
    ErrorIsBad(text);
    if k < |text| && ReadTo(text, k) && StartsNothing(text[k..]) { ReadThenBad(text, k); }
  }
}

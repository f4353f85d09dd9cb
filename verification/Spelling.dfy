/** How tokens are spelled, independently of the tokenizer, and the proof that it reads every spelling. */
module Spelling {
  import opened Common
  import opened Syntax
  import opened Lexer
  import opened Numbers

  // ---------------------------------------------------------------- words

  predicate NameStart(c: char) {
    'a' <= c <= 'z' || 'A' <= c <= 'Z' || c == '_'
  }

  predicate NamePart(c: char) {
    NameStart(c) || '0' <= c <= '9'
  }

  predicate IsIdentifier(w: string) {
    w != "" && NameStart(w[0]) && forall i :: 0 <= i < |w| ==> NamePart(w[i])
  }

  const TRUE_WORDS := ["true", "True", "TRUE"]
  const FALSE_WORDS := ["false", "False", "FALSE"]
  const NONE_WORDS := ["none", "None", "null"]
  const KEYWORDS := ["and", "or", "not", "if", "else"]

  /** An identifier that stands for itself. */
  predicate IsName(w: string) {
    IsIdentifier(w) && w !in TRUE_WORDS && w !in FALSE_WORDS && w !in NONE_WORDS && w !in KEYWORDS
  }

  function KindText(k: Kind): string {
    match k
    case AND => "and" case OR => "or" case NOT => "not" case IF => "if" case ELSE => "else"
    case GT => ">" case GE => ">=" case LT => "<" case LE => "<=" case EQ => "==" case NE => "!="
    case PLUS => "+" case MINUS => "-" case STAR => "*" case SLASH => "/" case DSLASH => "//"
    case PERCENT => "%" case POW => "**"
    case LPAREN => "(" case RPAREN => ")" case LBRACK => "[" case RBRACK => "]"
    case COMMA => "," case QUESTION => "?" case COLON => ":"
    case EOF => "" case OTHER => ""
  }

  // ---------------------------------------------------------------- integers and strings

  function Power10(n: nat): nat {
    if n == 0 then 1 else 10 * Power10(n - 1)
  }

  /** The number digits stand for, the first counting most. */
  function DecimalValue(w: string): nat
    requires Digits(w)
  {
    if w == "" then 0 else (w[0] as int - '0' as int) * Power10(|w| - 1) + DecimalValue(w[1..])
  }

  /** A piece of a string's text: a character that stands for itself, or a backslash and one more. */
  datatype Unit = Plain(c: char) | Escaped(c: char)

  predicate SoundUnit(quote: char, u: Unit) {
    match u
    case Plain(c) => c != '\\' && c != quote
    case Escaped(c) => c != '\n'
  }

  predicate SoundUnits(quote: char, us: seq<Unit>) {
    forall u :: u in us ==> SoundUnit(quote, u)
  }

  const ESCAPES: map<char, char> := map['n' := '\n', 't' := '\t', 'r' := '\r', '0' := '\0']

  function UnitsText(us: seq<Unit>): string {
    if us == [] then ""
    else (match us[0] case Plain(c) => [c] case Escaped(c) => ['\\', c]) + UnitsText(us[1..])
  }

  function UnitMeaning(u: Unit): char {
    match u
    case Plain(c) => c
    case Escaped(c) => if c in ESCAPES then ESCAPES[c] else c
  }

  function Meaning(us: seq<Unit>): (x: string)
    ensures |x| == |us|
  {
    if us == [] then "" else [UnitMeaning(us[0])] + Meaning(us[1..])
  }

  function Quoted(quote: char, us: seq<Unit>): string {
    [quote] + UnitsText(us) + [quote]
  }

  ghost predicate QuotedAs(raw: string, x: string, quote: char, us: seq<Unit>) {
    (quote == '\'' || quote == '"') && SoundUnits(quote, us) && raw == Quoted(quote, us) && x == Meaning(us)
  }

  /** `raw` is a string literal, in either kind of quotes, that means `x`. */
  ghost predicate IsString(raw: string, x: string) {
    exists quote, us :: QuotedAs(raw, x, quote, us)
  }

  // ---------------------------------------------------------------- variables

  const SPACES := ["var", "ctx", "env", "sys", "param", "local"]

  predicate NoBraces(s: string) {
    '{' !in s && '}' !in s
  }

  function Braced(ns: string, inner: string): string {
    "$" + ns + "{" + inner + "}"
  }

  function Dotted(ns: string, id: string): string {
    "$" + ns + "." + id
  }

  ghost predicate BracedAs(raw: string, ns: string, key: string, inner: string) {
    NoBraces(inner) && raw == Braced(ns, inner) && key == Strip(inner)
  }

  predicate DottedAs(raw: string, ns: string, key: string) {
    (ns == "param" || ns == "local") && IsIdentifier(key) && raw == Dotted(ns, key)
  }

  // ---------------------------------------------------------------- spellings

  /** `raw` is one way to write the token `t`. */
  ghost predicate Spells(raw: string, t: Token) {
    match t
    case Value(Int(n)) => raw != "" && Digits(raw) && n == DecimalValue(raw)
    case Value(Dec(text)) => raw == text && IsNumber(text) && !Digits(text)
    case Value(Str(x)) => IsString(raw, x)
    case Value(Bool(b)) => raw in if b then TRUE_WORDS else FALSE_WORDS
    case Value(NoneValue) => raw in NONE_WORDS
    case Var(ns, key) => ns in SPACES && (DottedAs(raw, ns, key) || exists inner :: BracedAs(raw, ns, key, inner))
    case Name(id) => raw == id && IsName(id)
    case Mark(kind) => kind != EOF && kind != OTHER && raw == KindText(kind)
  }

  /** No number at the front of the text is longer than `raw`. */
  predicate NoLongerNumber(raw: string, rest: string) {
    forall n :: |raw| < n <= |raw + rest| ==> !IsNumber((raw + rest)[..n])
  }

  predicate EndsWord(rest: string) {
    rest != "" ==> !NamePart(rest[0])
  }

  /** `rest` does not turn the operator into one of two characters. */
  predicate EndsOperator(raw: string, rest: string) {
    rest != "" && |raw| == 1 ==> raw + [rest[0]] !in [">=", "<=", "==", "!=", "//", "**"]
  }

  /** What follows `raw` does not belong to it. */
  predicate Ends(raw: string, t: Token, rest: string) {
    match t
    case Value(Int(_)) => NoLongerNumber(raw, rest)
    case Value(Dec(_)) => NoLongerNumber(raw, rest)
    case Value(Str(_)) => true
    case Value(_) => EndsWord(rest)
    case Var(ns, key) => raw != "" && raw[|raw| - 1] != '}' ==> EndsWord(rest)
    case Name(_) => EndsWord(rest)
    case Mark(kind) => if KindText(kind) in KEYWORDS then EndsWord(rest) else EndsOperator(raw, rest)
  }

  predicate Spaces(gap: string) {
    forall c :: c in gap ==> IsSpace(c)
  }

  /** `text` is made of spellings of `ts`, each as long as the text allows, with white space, or nothing,
      around and between them. */
  ghost predicate Written(text: string, ts: seq<Token>, raws: seq<string>, gaps: seq<string>)
    decreases |ts|
  {
    && |raws| == |ts| && |gaps| == |ts| + 1 && Spaces(gaps[0])
    && if ts == [] then text == gaps[0]
       else WrittenFirst(text, ts[0], raws[0], gaps[0]) && Written(text[|gaps[0]| + |raws[0]|..], ts[1..], raws[1..], gaps[1..])
  }

  ghost predicate WrittenFirst(text: string, t: Token, raw: string, gap: string) {
    gap + raw <= text && Spells(raw, t) && Ends(raw, t, text[|gap| + |raw|..])
  }

  ghost predicate Writes(text: string, ts: seq<Token>) {
    exists raws, gaps :: Written(text, ts, raws, gaps)
  }

  // ---------------------------------------------------------------- runs

  lemma {:induction false} RunAppend(p: char -> bool, a: string, rest: string)
    requires rest != "" ==> !p(rest[0])
    ensures Run(p, a + rest) == Run(p, a)
  {
    if a == "" {
      assert a + rest == rest;
    } else if p(a[0]) {
      RunAppend(p, a[1..], rest);
      assert (a + rest)[1..] == a[1..] + rest;
    }
  }

  lemma WordChars(c: char)
    ensures IsWordChar(c) <==> NamePart(c)
    ensures IsLetter(c) <==> NameStart(c)
    ensures NamePart(c) ==> !IsSpace(c)
  {
  }

  // ---------------------------------------------------------------- numbers read

  lemma NumberStart(w: string)
    requires IsNumber(w)
    ensures w != "" && (IsDigit(w[0]) || w[0] == '.')
  {
    var k :| 0 < k <= |w| && SplitAt(w, k);
    assert w[0] == w[..k][0];
    if !Digits(w[..k]) {
      var p :| 0 <= p < k && PointAt(w[..k], p);
      if p > 0 { assert w[..k][..p][0] == w[0]; }
    }
  }

  lemma DigitsAreANumber(w: string)
    requires w != "" && Digits(w)
    ensures IsNumber(w)
  {
    assert w[..|w|] == w;
    assert SplitAt(w, |w|);
  }

  lemma NumberReads(raw: string, rest: string)
    requires IsNumber(raw) && NoLongerNumber(raw, rest)
    ensures MatchAt(raw + rest) == (NUMBER, |raw|) && Matched(NUMBER, raw)
  {
    hide MatchNumber, MatchString, MatchVar, MatchIdent, IsNumber, IsDecimal;
    var s := raw + rest;
    assert s[..|raw|] == raw;
    assert raw[..|raw|] == raw;
    LongestNumber(s);
    LongestNumber(raw);
    NumberStart(raw);
    NumberSpelling(raw);
    assert s[0] == raw[0];
    assert !IsSpace(s[0]) by { DigitsAreNoSpace(s[0]); }
  }

  lemma DigitsAreNoSpace(c: char)
    ensures IsDigit(c) || c == '.' ==> !IsSpace(c)
  {
  }

  lemma {:induction false} DigitsHaveAValue(w: string)
    requires Digits(w)
    ensures DigitsValue(w) == DecimalValue(w)
  {
    if |w| == 1 {
      assert w[..0] == "" && w[1..] == "";
    } else if |w| > 1 {
      var front, last := w[..|w| - 1], w[|w| - 1];
      DigitsHaveAValue(front);
      DigitsHaveAValue(w[1..]);
      DigitsHaveAValue(front[1..]);
      assert w[1..][..|w| - 2] == front[1..];
      Regroup(w[0] as int - '0' as int, Power10(|w| - 2), DecimalValue(front[1..]), DigitValue(last));
    }
  }

  lemma Regroup(a: int, p: int, c: int, d: int)
    ensures (a * p + c) * 10 + d == a * (10 * p) + (c * 10 + d)
  {
  }

  /** Only numbers with a point or an exponent are no digit strings. */
  lemma DecimalOrDigits(w: string)
    requires IsNumber(w)
    ensures Digits(w) <==> !IsDecimal(w)
    ensures Digits(w) <==> forall c :: c in w ==> IsDigit(c)
  {
    hide IsNumber;
    LongestNumber(w);
    assert w[..|w|] == w;
    NumberStart(w);
    NumberSpelling(w);
    assert Digits(w) <==> forall c :: c in w ==> IsDigit(c);
  }

  lemma IntReads(raw: string)
    requires raw != "" && Digits(raw) && Matched(NUMBER, raw)
    ensures TokenOf(NUMBER, raw) == [Value(Int(DecimalValue(raw)))]
  {
    hide MatchNumber, IsNumber, DigitsValue, DecimalValue, IsDecimal;
    DigitsAreANumber(raw);
    DecimalOrDigits(raw);
    DigitsHaveAValue(raw);
  }

  // ---------------------------------------------------------------- strings read

  lemma UnitsStep(us: seq<Unit>)
    requires us != []
    ensures UnitsText(us) == (match us[0] case Plain(c) => [c] case Escaped(c) => ['\\', c]) + UnitsText(us[1..])
    ensures UnitsText(us)[if us[0].Plain? then 1 else 2..] == UnitsText(us[1..])
  {
  }

  lemma NoUnits()
    ensures UnitsText([]) == ""
  {
  }

  /** The closing quote of any text made of units is found. */
  lemma {:induction false} UnitsEnd(quote: char, us: seq<Unit>, rest: string)
    requires quote != '\\' && SoundUnits(quote, us)
    ensures Body(quote, UnitsText(us) + [quote] + rest) == Some(|UnitsText(us)|)
  {
    hide UnitsText;
    var t := UnitsText(us) + [quote] + rest;
    if us == [] {
      NoUnits();
      assert t == [quote] + rest;
    } else {
      UnitsStep(us);
      UnitsEnd(quote, us[1..], rest);
      assert us[0] in us;
      var k := if us[0].Plain? then 1 else 2;
      assert t[k..] == UnitsText(us[1..]) + [quote] + rest;
      assert t[0] == UnitsText(us)[0] && (k == 2 ==> t[1] == UnitsText(us)[1]);
    }
  }

  /** And its text unescapes to what the units mean. */
  lemma {:induction false} UnitsMean(quote: char, us: seq<Unit>)
    requires SoundUnits(quote, us)
    ensures Unescape(UnitsText(us)) == Meaning(us)
  {
    hide UnitsText;
    if us == [] {
      NoUnits();
    } else {
      UnitsStep(us);
      UnitsMean(quote, us[1..]);
      assert us[0] in us;
    }
  }

  /** Any string literal, in either kind of quotes and with any escapes, reads as its meaning. */
  lemma StringReads(quote: char, us: seq<Unit>, rest: string)
    requires quote == '\'' || quote == '"'
    requires SoundUnits(quote, us)
    ensures var a := Quoted(quote, us);
      && MatchAt(a + rest) == (STRING, |a|) && Matched(STRING, a)
      && TokenOf(STRING, a) == [Value(Str(Meaning(us)))]
  {
    hide Body, MatchVar, MatchIdent, UnitsText, Unescape;
    var a := Quoted(quote, us);
    UnitsEnd(quote, us, rest);
    UnitsMean(quote, us);
    assert (a + rest)[1..] == UnitsText(us) + [quote] + rest;
    assert a[1..|a| - 1] == UnitsText(us);
  }

  /** The text up to a closing quote is made of units. */
  lemma {:induction false} UnitsOf(quote: char, s: string) returns (us: seq<Unit>)
    requires quote != '\\' && Body(quote, s).Some?
    ensures SoundUnits(quote, us) && UnitsText(us) == s[..Body(quote, s).value]
    decreases |s|
  {
    if s[0] == quote {
      us := [];
    } else if s[0] == '\\' {
      var more := UnitsOf(quote, s[2..]);
      us := [Escaped(s[1])] + more;
      assert us[1..] == more;
      assert s[..Body(quote, s).value] == [s[0], s[1]] + s[2..][..Body(quote, s[2..]).value];
    } else {
      var more := UnitsOf(quote, s[1..]);
      us := [Plain(s[0])] + more;
      assert us[1..] == more;
      assert s[..Body(quote, s).value] == [s[0]] + s[1..][..Body(quote, s[1..]).value];
    }
  }

  // ---------------------------------------------------------------- words read

  lemma IdentifierMatches(w: string, rest: string)
    requires IsIdentifier(w) && EndsWord(rest)
    ensures MatchIdent(w + rest) == |w| && MatchIdent(w) == |w|
  {
    forall i | 0 <= i < |w| ensures IsWordChar(w[i]) { WordChars(w[i]); }
    WordChars(w[0]);
    RunAll(IsWordChar, w, |w|);
    if rest != "" { WordChars(rest[0]); }
    RunAppend(IsWordChar, w, rest);
  }

  lemma WordReads(w: string, rest: string)
    requires IsIdentifier(w) && EndsWord(rest)
    ensures MatchAt(w + rest) == (IDENT, |w|) && Matched(IDENT, w) && TokenOf(IDENT, w) == [WordToken(w)]
  {
    hide MatchNumber, MatchString, MatchVar, MatchIdent, WordToken;
    IdentifierMatches(w, rest);
    WordChars(w[0]);
    assert (w + rest)[0] == w[0];
    StartsNoOther(w + rest);
  }

  lemma StartsNoOther(s: string)
    requires s != "" && IsLetter(s[0])
    ensures Run(IsSpace, s) == 0 && MatchNumber(s) == 0 && MatchString(s) == 0 && MatchVar(s) == 0
  {
    hide Mantissa, Exponent, MatchBraced, MatchDotted;
    WordChars(s[0]);
  }

  /** What each word reads as: the literals in their three spellings, the keywords, and names. */
  lemma WordTokenIs(w: string)
    ensures w in TRUE_WORDS ==> WordToken(w) == Value(Bool(true))
    ensures w in FALSE_WORDS ==> WordToken(w) == Value(Bool(false))
    ensures w in NONE_WORDS ==> WordToken(w) == Value(NoneValue)
    ensures forall k :: KindText(k) == w && w in KEYWORDS ==> WordToken(w) == Mark(k)
    ensures IsName(w) ==> WordToken(w) == Name(w)
  {
  }

  lemma ReservedAreIdentifiers(w: string)
    requires w in TRUE_WORDS || w in FALSE_WORDS || w in NONE_WORDS || w in KEYWORDS
    ensures IsIdentifier(w)
  {
  }

  /** Which token any identifier reads as, before the end of the text or a character that does not
      continue it. */
  lemma IdentifierReads(w: string, rest: string) returns (t: Token)
    requires w != "" && NameStart(w[0]) && (forall i :: 0 <= i < |w| ==> NamePart(w[i]))
    requires rest != "" ==> !NamePart(rest[0])
    ensures Lex(w + rest) == After([t], |w|, Lex(rest))
    ensures t == Value(Bool(true)) <==> w == "true" || w == "True" || w == "TRUE"
    ensures t == Value(Bool(false)) <==> w == "false" || w == "False" || w == "FALSE"
    ensures t == Value(NoneValue) <==> w == "none" || w == "None" || w == "null"
    ensures t == Mark(AND) <==> w == "and"
    ensures t == Mark(OR) <==> w == "or"
    ensures t == Mark(NOT) <==> w == "not"
    ensures t == Mark(IF) <==> w == "if"
    ensures t == Mark(ELSE) <==> w == "else"
    ensures t == Name(w) <==> IsName(w)
  {
    hide Lex, MatchAt, Matched, TokenOf;
    WordReads(w, rest);
    t := WordToken(w);
    assert (w + rest)[..|w|] == w && (w + rest)[|w|..] == rest;
    LexStep(w + rest, IDENT, |w|);
  }

  // ---------------------------------------------------------------- variables read

  lemma {:induction false} NamespaceFound(mark: char, names: seq<string>, ns: string, s: string)
    requires ns in names && ns + [mark] <= s && !IsLetter(mark)
    requires forall w :: w in names ==> w != "" && AllLetters(w)
    ensures NamespaceBefore(mark, names, s) == ns
  {
    hide AllLetters, IsLetter;
    SameMark(mark, names[0], ns, s);
    if !(names[0] + [mark] <= s) {
      assert forall w :: w in names[1..] ==> w in names;
      NamespaceFound(mark, names[1..], ns, s);
    }
  }

  lemma SameMark(mark: char, a: string, b: string, s: string)
    requires AllLetters(a) && AllLetters(b) && b + [mark] <= s && !IsLetter(mark)
    ensures a + [mark] <= s ==> a == b
  {
    hide IsLetter;
    MarkPlace(mark, a, s);
    MarkPlace(mark, b, s);
    if a + [mark] <= s {
      assert |a| == |b|;
      assert a == s[..|a|];
    }
  }

  lemma SameSpaces(ns: string)
    ensures ns in SPACES <==> ns in NAMESPACES
    ensures ns == "param" || ns == "local" <==> ns in NAMESPACES[4..]
  {
    assert NAMESPACES[4..] == ["param", "local"];
  }

  lemma BracedParts(ns: string, inner: string, rest: string)
    ensures var a := Braced(ns, inner);
      && a + rest != "" && (a + rest)[1..] == ns + ['{'] + (inner + "}" + rest)
      && (a + rest)[|ns| + 2..] == inner + "}" + rest && a[|ns| + 2..|a| - 1] == inner
      && (a + rest)[|a| - 1] == '}' && |a| == |ns| + |inner| + 3
  {
  }

  lemma BracedMatches(ns: string, inner: string, rest: string)
    requires ns in SPACES && NoBraces(inner)
    ensures var a := Braced(ns, inner); MatchBraced(a + rest) == |a|
    ensures NamespaceBefore('{', NAMESPACES, (Braced(ns, inner) + rest)[1..]) == ns
  {
    hide NamespaceBefore, Run;
    BracedParts(ns, inner, rest);
    SameSpaces(ns);
    NamespaceLetters();
    NoLetters();
    NamespaceFound('{', NAMESPACES, ns, ns + ['{'] + (inner + "}" + rest));
    assert (inner + "}" + rest)[|inner|] == '}';
    RunAll(NotBrace, inner + "}" + rest, |inner|);
  }

  lemma BracedReads(ns: string, inner: string, rest: string)
    requires ns in SPACES && NoBraces(inner)
    ensures var a := Braced(ns, inner);
      MatchAt(a + rest) == (VAR, |a|) && Matched(VAR, a) && TokenOf(VAR, a) == [Var(ns, Strip(inner))]
  {
    hide NamespaceBefore, Run, MatchBraced, MatchDotted, MatchIdent, Strip, NAMESPACES, SPACES;
    var a := Braced(ns, inner);
    BracedMatches(ns, inner, rest);
    BracedMatches(ns, inner, "");
    assert a + "" == a;
    BracedParts(ns, inner, "");
    assert (a + rest)[0] == '$';
    DollarStarts(a + rest);
  }

  lemma StripsNothing(s: string)
    requires s != "" ==> !IsSpace(s[0]) && !IsSpace(s[|s| - 1])
    ensures Strip(s) == s
  {
  }

  /** The dotted form of a parameter or local, before anything that does not continue its name. */
  lemma DottedReads(ns: string, id: string, rest: string)
    requires (ns == "param" || ns == "local") && IsIdentifier(id) && EndsWord(rest)
    ensures var a := Dotted(ns, id);
      MatchAt(a + rest) == (VAR, |a|) && Matched(VAR, a) && TokenOf(VAR, a) == [Var(ns, id)]
  {
    hide NamespaceBefore, Run, MatchBraced, MatchIdent, Strip, IsSpace, NameStart, MatchNumber, MatchString;
    var a := Dotted(ns, id);
    DottedMatches(ns, id, rest);
    DottedMatches(ns, id, "");
    assert a + "" == a && a[|ns| + 2..] == id;
    assert (a + rest)[0] == '$' && a[0] == '$';
    WordChars(id[0]);
    WordChars(id[|id| - 1]);
    StripsNothing(id);
    DollarStarts(a + rest);
  }

  lemma DollarStarts(s: string)
    requires s != "" && s[0] == '$'
    ensures Run(IsSpace, s) == 0 && MatchNumber(s) == 0 && MatchString(s) == 0
  {
    hide Mantissa, Exponent;
  }

  lemma DottedMatches(ns: string, id: string, rest: string)
    requires (ns == "param" || ns == "local") && IsIdentifier(id) && EndsWord(rest)
    ensures var a := Dotted(ns, id);
      MatchBraced(a + rest) == 0 && MatchDotted(a + rest) == |a| && NamespaceBefore('.', NAMESPACES[4..], (a + rest)[1..]) == ns
  {
    hide NamespaceBefore, Run, IsLetter, NameStart, MatchIdent;
    var a := Dotted(ns, id);
    var s := a + rest;
    assert s[1..] == ns + ['.'] + (id + rest) && s[|ns| + 2..] == id + rest;
    NamespaceLetters();
    NoLetters();
    SameSpaces(ns);
    NamespaceFound('.', NAMESPACES[4..], ns, s[1..]);
    OneForm(s[1..]);
    IdentifierMatches(id, rest);
  }

  // ---------------------------------------------------------------- operators read

  predicate IsOp2(k: Kind) {
    k == GE || k == LE || k == EQ || k == NE || k == DSLASH || k == POW
  }

  predicate IsWord(k: Kind) {
    k == AND || k == OR || k == NOT || k == IF || k == ELSE
  }

  lemma WordTexts(k: Kind)
    ensures IsWord(k) <==> KindText(k) in KEYWORDS
    ensures IsWord(k) ==> IsIdentifier(KindText(k)) && WordToken(KindText(k)) == Mark(k)
  {
    hide IsIdentifier, WordToken;
    if IsWord(k) {
      ReservedAreIdentifiers(KindText(k));
      WordTokenIs(KindText(k));
    }
  }

  lemma Op2Texts(k: Kind)
    requires IsOp2(k)
    ensures |KindText(k)| == 2 && Op2Kind(KindText(k)) == k && !IsSpace(KindText(k)[0])
  {
  }

  lemma OpTexts(k: Kind)
    requires k != EOF && k != OTHER && !IsWord(k) && !IsOp2(k)
    ensures |KindText(k)| == 1 && OpKind(KindText(k)[0]) == k && !IsSpace(KindText(k)[0])
  {
  }

  lemma Op2Append(a: string, rest: string)
    requires |a| == 2
    ensures Op2Kind(a + rest) == Op2Kind(a)
  {
  }

  lemma MatchesOp2(a: string, rest: string)
    requires |a| == 2 && Op2Kind(a) != OTHER
    ensures MatchAt(a + rest) == (OP2, 2)
  {
    hide MatchNumber, MatchString, MatchVar, MatchIdent;
    Op2Append(a, rest);
    assert (a + rest)[0] == a[0];
    assert a[0] == '>' || a[0] == '<' || a[0] == '=' || a[0] == '!' || a[0] == '/' || a[0] == '*';
  }

  /** The two-character operators, as the alternative knows them. */
  lemma TwoCharacters(s: string)
    requires |s| >= 2
    ensures Op2Kind(s) != OTHER <==> [s[0]] + [s[1]] in [">=", "<=", "==", "!=", "//", "**"]
  {
    PairIs(s[0], s[1], ">=");
    PairIs(s[0], s[1], "<=");
    PairIs(s[0], s[1], "==");
    PairIs(s[0], s[1], "!=");
    PairIs(s[0], s[1], "//");
    PairIs(s[0], s[1], "**");
  }

  lemma PairIs(a: char, b: char, w: string)
    requires |w| == 2
    ensures [a] + [b] == w <==> a == w[0] && b == w[1]
  {
    assert w == [w[0]] + [w[1]];
  }

  lemma MatchesOp(c: char, rest: string)
    requires OpKind(c) != OTHER && EndsOperator([c], rest)
    ensures MatchAt([c] + rest) == (OP, 1)
  {
    hide MatchNumber, MatchString, MatchVar, MatchIdent, Op2Kind;
    var s := [c] + rest;
    assert s[0] == c && (|s| > 1 ==> s[1] == rest[0]);
    if |s| > 1 { TwoCharacters(s); } else { OneCharacter(s); }
    OperatorStarts(c);
  }

  lemma OneCharacter(s: string)
    requires |s| < 2
    ensures Op2Kind(s) == OTHER
  {
  }

  lemma OperatorStarts(c: char)
    requires OpKind(c) != OTHER
    ensures !IsSpace(c) && !IsLetter(c) && !IsDigit(c) && c != '.' && c != '$' && c != '\'' && c != '"'
  {
  }

  lemma MarkReads(k: Kind, rest: string)
    requires k != EOF && k != OTHER && Ends(KindText(k), Mark(k), rest)
    ensures var a := KindText(k); var m := MatchAt(a + rest);
      a != "" && !IsSpace(a[0]) && m.0 != BAD && m.1 == |a| && Matched(m.0, a) && TokenOf(m.0, a) == [Mark(k)]
  {
    hide MatchAt, MatchNumber, MatchString, MatchVar, MatchIdent, KindText, WordToken, OpKind, Op2Kind, VarToken,
        NumberToken, Unescape, IsIdentifier, KEYWORDS;
    var a := KindText(k);
    WordTexts(k);
    if IsWord(k) {
      WordReads(a, rest);
      WordStart(a);
    } else if IsOp2(k) {
      Op2Texts(k);
      MatchesOp2(a, rest);
    } else {
      OpTexts(k);
      assert a == [a[0]];
      MatchesOp(a[0], rest);
    }
  }

  lemma WordStart(w: string)
    requires IsIdentifier(w)
    ensures w != "" && !IsSpace(w[0])
  {
    WordChars(w[0]);
  }

  // ---------------------------------------------------------------- every spelling is read

  /** A spelling that ends where the text lets it end is taken whole, and read as its token. */
  lemma SpellingReads(raw: string, t: Token, rest: string)
    requires Spells(raw, t) && Ends(raw, t, rest)
    ensures raw != "" && !IsSpace(raw[0])
    ensures var m := MatchAt(raw + rest); m.0 != BAD && m.1 == |raw| && Matched(m.0, raw) && TokenOf(m.0, raw) == [t]
  {
    hide MatchAt, MatchNumber, MatchVar, IsDecimal, Unescape, UnitsText, MatchIdent, VarToken, KindText, WordToken,
        DigitsValue, DecimalValue, NoLongerNumber, IsNumber, IsIdentifier, TRUE_WORDS, FALSE_WORDS, NONE_WORDS, KEYWORDS, SPACES,
        MatchString, Matched, TokenOf, IsSpace;
    match t {
      case Value(Int(n)) =>
        DigitsAreANumber(raw);
        NumberStart(raw);
        DigitsAreNoSpace(raw[0]);
        NumberReads(raw, rest);
        IntReads(raw);
      case Value(Dec(text)) =>
        NumberStart(raw);
        DigitsAreNoSpace(raw[0]);
        NumberReads(raw, rest);
        DecReads(raw);
      case Value(Str(x)) =>
        var quote, us :| QuotedAs(raw, x, quote, us);
        StringReads(quote, us, rest);
        QuotesAreNoSpace(quote);
      case Value(Bool(b)) => ReservedReads(raw, rest);
      case Value(NoneValue) => ReservedReads(raw, rest);
      case Var(ns, key) => VarReads(raw, ns, key, rest);
      case Name(id) =>
        WordReads(raw, rest);
        WordTokenIs(raw);
        WordStart(raw);
      case Mark(k) => MarkReads(k, rest);
    }
  }

  lemma QuotesAreNoSpace(quote: char)
    ensures quote == '\'' || quote == '"' || quote == '$' ==> !IsSpace(quote)
  {
  }

  lemma DecReads(raw: string)
    requires IsNumber(raw) && !Digits(raw) && Matched(NUMBER, raw)
    ensures TokenOf(NUMBER, raw) == [Value(Dec(raw))]
  {
    hide MatchNumber, IsNumber, DigitsValue, IsDecimal;
    DecimalOrDigits(raw);
  }

  lemma ReservedReads(raw: string, rest: string)
    requires (raw in TRUE_WORDS || raw in FALSE_WORDS || raw in NONE_WORDS) && EndsWord(rest)
    ensures raw != "" && !IsSpace(raw[0]) && MatchAt(raw + rest) == (IDENT, |raw|) && Matched(IDENT, raw)
    ensures raw in TRUE_WORDS ==> TokenOf(IDENT, raw) == [Value(Bool(true))]
    ensures raw in FALSE_WORDS ==> TokenOf(IDENT, raw) == [Value(Bool(false))]
    ensures raw in NONE_WORDS ==> TokenOf(IDENT, raw) == [Value(NoneValue)]
  {
    hide MatchAt, Matched, TokenOf, WordToken, TRUE_WORDS, FALSE_WORDS, NONE_WORDS;
    ReservedAreIdentifiers(raw);
    WordReads(raw, rest);
    WordTokenIs(raw);
    WordStart(raw);
  }

  lemma VarReads(raw: string, ns: string, key: string, rest: string)
    requires Spells(raw, Var(ns, key)) && Ends(raw, Var(ns, key), rest)
    ensures raw != "" && !IsSpace(raw[0])
    ensures MatchAt(raw + rest) == (VAR, |raw|) && Matched(VAR, raw) && TokenOf(VAR, raw) == [Var(ns, key)]
  {
    hide MatchAt, MatchVar, VarToken, Matched, TokenOf, IsSpace, Strip, SPACES;
    QuotesAreNoSpace('$');
    if DottedAs(raw, ns, key) {
      LastIsPart(key);
      assert raw[|raw| - 1] == key[|key| - 1];
      DottedReads(ns, key, rest);
      assert raw[0] == '$';
    } else {
      var inner :| BracedAs(raw, ns, key, inner);
      BracedReads(ns, inner, rest);
      assert raw[0] == '$';
    }
  }

  lemma LastIsPart(w: string)
    requires IsIdentifier(w)
    ensures w[|w| - 1] != '}'
  {
  }
}

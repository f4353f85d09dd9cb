/** The tokenizer of the expression language: one ordered list of alternatives tried at a moving
    position, then a conversion of the matched text to a token. */
module Lexer {
  import opened Common
  import opened Syntax

  /** The alternatives of the token pattern, in order. */
  datatype Group = WS | NUMBER | STRING | VAR | IDENT | OP2 | OP | BAD

  predicate IsDigit(c: char) { '0' <= c <= '9' }

  predicate IsLetter(c: char) { 'a' <= c <= 'z' || 'A' <= c <= 'Z' || c == '_' }

  predicate IsWordChar(c: char) { IsLetter(c) || IsDigit(c) }

  predicate NotBrace(c: char) { c != '{' && c != '}' }

  /** Length of the longest prefix of characters of one class. */
  function Run(p: char -> bool, s: string): (n: nat)
    ensures n <= |s|
    ensures forall i :: 0 <= i < n ==> p(s[i])
    ensures n < |s| ==> !p(s[n])
  {
    if s == "" || !p(s[0]) then 0 else 1 + Run(p, s[1..])
  }

  lemma RunAll(p: char -> bool, a: string, n: nat)
    requires n <= |a| && (forall i :: 0 <= i < n ==> p(a[i])) && (n < |a| ==> !p(a[n]))
    ensures Run(p, a) == n
  {
  }

  // Each Match function gives the length of what an alternative matches at the front, or 0.

  function Exponent(s: string): (n: nat)
    ensures n <= |s|
  {
    if s == "" || (s[0] != 'e' && s[0] != 'E') then 0
    else
      var k := if |s| > 1 && (s[1] == '+' || s[1] == '-') then 2 else 1;
      var d := Run(IsDigit, s[k..]);
      if d == 0 then 0 else k + d
  }

  /** Digits with an optional point: `12`, `12.`, `12.5` or `.5`. */
  function Mantissa(s: string): (n: nat)
    ensures n <= |s|
  {
    var d := Run(IsDigit, s);
    if d > 0 then if d < |s| && s[d] == '.' then d + 1 + Run(IsDigit, s[d + 1..]) else d
    else if s != "" && s[0] == '.' && Run(IsDigit, s[1..]) > 0 then 1 + Run(IsDigit, s[1..])
    else 0
  }

  function MatchNumber(s: string): (n: nat)
    ensures n <= |s|
    ensures n > 0 ==> IsDigit(s[0]) || s[0] == '.'
  {
    var m := Mantissa(s);
    if m == 0 then 0 else m + Exponent(s[m..])
  }

  /** Length of a string's text up to its closing quote, if it has one; a backslash takes the next
      character with it, unless that is a line feed. */
  function Body(quote: char, s: string): (n: Option<nat>)
    ensures n.Some? ==> n.value < |s| && s[n.value] == quote
  {
    if s == "" then None
    else if s[0] == quote then Some(0)
    else if s[0] == '\\' then
      if |s| < 2 || s[1] == '\n' then None
      else
        match Body(quote, s[2..])
        case None => None
        case Some(n) => Some(n + 2)
    else
      match Body(quote, s[1..])
      case None => None
      case Some(n) => Some(n + 1)
  }

  function MatchString(s: string): (n: nat)
    ensures n <= |s| && n != 1
    ensures n > 0 ==> s[0] == '\'' || s[0] == '"'
  {
    if s == "" || (s[0] != '\'' && s[0] != '"') then 0
    else
      match Body(s[0], s[1..])
      case None => 0
      case Some(n) => n + 2
  }

  const NAMESPACES: seq<string> := ["var", "ctx", "env", "sys", "param", "local"]

  /** The namespace whose name and `mark` start the text, or "". */
  function NamespaceBefore(mark: char, names: seq<string>, s: string): (ns: string)
    ensures ns != "" ==> ns in names && ns + [mark] <= s
  {
    if names == [] then ""
    else if names[0] + [mark] <= s then names[0]
    else NamespaceBefore(mark, names[1..], s)
  }

  function MatchBraced(s: string): (n: nat)
    requires s != ""
    ensures n <= |s|
  {
    var ns := NamespaceBefore('{', NAMESPACES, s[1..]);
    if ns == "" then 0
    else
      var k := |ns| + 2;
      var m := Run(NotBrace, s[k..]);
      if k + m < |s| && s[k + m] == '}' then k + m + 1 else 0
  }

  function MatchDotted(s: string): (n: nat)
    requires s != ""
    ensures n <= |s|
  {
    var ns := NamespaceBefore('.', NAMESPACES[4..], s[1..]);
    if ns == "" then 0
    else
      var k := |ns| + 2;
      var m := MatchIdent(s[k..]);
      if m == 0 then 0 else k + m
  }

  function MatchVar(s: string): (n: nat)
    ensures n <= |s|
    ensures n > 0 ==> s[0] == '$'
  {
    if s == "" || s[0] != '$' then 0
    else if MatchBraced(s) > 0 then MatchBraced(s)
    else MatchDotted(s)
  }

  function MatchIdent(s: string): (n: nat)
    ensures n <= |s|
    ensures n > 0 ==> IsLetter(s[0]) && forall i :: 0 <= i < n ==> IsWordChar(s[i])
  {
    if s == "" || !IsLetter(s[0]) then 0 else Run(IsWordChar, s)
  }

  function Op2Kind(s: string): (k: Kind)
    ensures k != OTHER ==> |s| >= 2
    ensures k != EOF
  {
    if |s| < 2 then OTHER
    else
      var c := s[0];
      if s[1] == '=' then
        if c == '>' then GE else if c == '<' then LE else if c == '=' then EQ else if c == '!' then NE else OTHER
      else if c != s[1] then OTHER
      else if c == '/' then DSLASH else if c == '*' then POW else OTHER
  }

  function OpKind(c: char): (k: Kind)
    ensures k != EOF
  {
    match c
    case '+' => PLUS case '-' => MINUS case '*' => STAR case '/' => SLASH case '%' => PERCENT
    case '(' => LPAREN case ')' => RPAREN case '[' => LBRACK case ']' => RBRACK
    case ',' => COMMA case '?' => QUESTION case ':' => COLON case '<' => LT case '>' => GT
    case _ => OTHER
  }

  /** The first alternative that matches at the front, and how much it takes.  Some alternative
      always matches, and it takes at least one character. */
  function MatchAt(s: string): (m: (Group, nat))
    requires s != ""
    ensures 0 < m.1 <= |s|
  {
    if Run(IsSpace, s) > 0 then (WS, Run(IsSpace, s))
    else if MatchNumber(s) > 0 then (NUMBER, MatchNumber(s))
    else if MatchString(s) > 0 then (STRING, MatchString(s))
    else if MatchVar(s) > 0 then (VAR, MatchVar(s))
    else if MatchIdent(s) > 0 then (IDENT, MatchIdent(s))
    else if Op2Kind(s) != OTHER then (OP2, 2)
    else if OpKind(s[0]) != OTHER then (OP, 1)
    else (BAD, 1)
  }

  // ---------------------------------------------------------------- conversion

  function DigitValue(c: char): nat
    requires IsDigit(c)
  {
    c as int - '0' as int
  }

  function DigitsValue(s: string): nat
    requires forall c :: c in s ==> IsDigit(c)
  {
    if s == "" then 0 else DigitsValue(s[..|s| - 1]) * 10 + DigitValue(s[|s| - 1])
  }

  predicate IsDecimal(raw: string) {
    '.' in raw || 'e' in raw || 'E' in raw
  }

  function NumberToken(raw: string): Token
    requires IsDecimal(raw) || forall c :: c in raw ==> IsDigit(c)
  {
    Value(if IsDecimal(raw) then Dec(raw) else Int(DigitsValue(raw)))
  }

  function Unescaped(c: char): char {
    match c
    case 'n' => '\n' case 't' => '\t' case 'r' => '\r' case '0' => '\0'
    case _ => c
  }

  function Unescape(body: string): string {
    if body == "" then ""
    else if body[0] == '\\' && |body| > 1 then [Unescaped(body[1])] + Unescape(body[2..])
    else [body[0]] + Unescape(body[1..])
  }

  function VarToken(raw: string): Token
    requires MatchVar(raw) == |raw| > 0
  {
    if MatchBraced(raw) > 0 then
      var ns := NamespaceBefore('{', NAMESPACES, raw[1..]);
      Var(ns, Strip(raw[|ns| + 2..|raw| - 1]))
    else
      var ns := NamespaceBefore('.', NAMESPACES[4..], raw[1..]);
      Var(ns, Strip(raw[|ns| + 2..]))
  }

  function WordToken(raw: string): Token {
    if raw == "and" then Mark(AND) else if raw == "or" then Mark(OR) else if raw == "not" then Mark(NOT)
    else if raw == "if" then Mark(IF) else if raw == "else" then Mark(ELSE)
    else if raw in ["true", "True", "TRUE"] then Value(Bool(true))
    else if raw in ["false", "False", "FALSE"] then Value(Bool(false))
    else if raw in ["none", "None", "null"] then Value(NoneValue)
    else Name(raw)
  }

  /** A text an alternative took, as its conversion needs it. */
  predicate Matched(group: Group, raw: string) {
    && raw != ""
    && (group == NUMBER ==> MatchNumber(raw) == |raw| && (IsDecimal(raw) || forall c :: c in raw ==> IsDigit(c)))
    && (group == STRING ==> |raw| >= 2)
    && (group == VAR ==> MatchVar(raw) == |raw|)
    && (group == IDENT ==> MatchIdent(raw) == |raw|)
    && (group == OP2 ==> Op2Kind(raw) != OTHER)
    && (group == OP ==> OpKind(raw[0]) != OTHER)
  }

  /** What one match contributes: at most one token. */
  function TokenOf(group: Group, raw: string): seq<Token>
    requires Matched(group, raw)
  {
    match group
    case WS => []
    case NUMBER => [NumberToken(raw)]
    case STRING => [Value(Str(Unescape(raw[1..|raw| - 1])))]
    case VAR => [VarToken(raw)]
    case IDENT => [WordToken(raw)]
    case OP2 => [Mark(Op2Kind(raw))]
    case OP => [Mark(OpKind(raw[0]))]
    case BAD => []
  }

  // ---------------------------------------------------------------- what a match takes stands alone

  lemma {:induction false} RunCut(p: char -> bool, s: string, n: nat)
    requires Run(p, s) <= n <= |s|
    ensures Run(p, s[..n]) == Run(p, s)
  {
    if s != "" && p(s[0]) {
      RunCut(p, s[1..], n - 1);
      assert s[..n][1..] == s[1..][..n - 1];
    }
  }

  lemma RunCutAt(p: char -> bool, s: string, k: nat, n: nat)
    requires k <= n <= |s| && Run(p, s[k..]) <= n - k
    ensures Run(p, s[..n][k..]) == Run(p, s[k..])
  {
  }

  lemma ExponentCut(s: string, n: nat)
    requires Exponent(s) <= n <= |s| && (n > Exponent(s) ==> Exponent(s) > 0)
    ensures Exponent(s[..n]) == Exponent(s)
  {
    if Exponent(s) > 0 {
      var k := if |s| > 1 && (s[1] == '+' || s[1] == '-') then 2 else 1;
      RunCutAt(IsDigit, s, k, n);
    }
  }

  lemma MantissaCut(s: string, n: nat)
    requires Mantissa(s) <= n <= |s|
    ensures Mantissa(s) > 0 ==> Mantissa(s[..n]) == Mantissa(s)
  {
    var d := Run(IsDigit, s);
    if d > 0 {
      RunCut(IsDigit, s, n);
      if d < |s| && s[d] == '.' { RunCutAt(IsDigit, s, d + 1, n); }
    } else if s != "" && s[0] == '.' {
      if Run(IsDigit, s[1..]) > 0 {
        RunCut(IsDigit, s, n);
        RunCutAt(IsDigit, s, 1, n);
      }
    }
  }

  lemma NumberCut(s: string)
    requires MatchNumber(s) > 0
    ensures MatchNumber(s[..MatchNumber(s)]) == MatchNumber(s)
  {
    hide Mantissa, Exponent;
    var m, n := Mantissa(s), MatchNumber(s);
    MantissaCut(s, n);
    ExponentCut(s[m..], n - m);
    assert s[..n][m..] == s[m..][..n - m];
  }

  lemma NumberSpelling(s: string)
    requires MatchNumber(s) == |s| > 0
    ensures IsDecimal(s) || forall c :: c in s ==> IsDigit(c)
  {
  }

  lemma {:induction false} NamespaceCut(mark: char, names: seq<string>, s: string, n: nat)
    requires n <= |s| && |NamespaceBefore(mark, names, s)| < n
    ensures NamespaceBefore(mark, names, s) != "" ==> NamespaceBefore(mark, names, s[..n]) == NamespaceBefore(mark, names, s)
  {
    if names != [] {
      var w := names[0] + [mark];
      if w <= s {
        if names[0] != "" { assert w == s[..|w|] == s[..n][..|w|]; }
      } else {
        NamespaceCut(mark, names[1..], s, n);
      }
    }
  }

  lemma PrefixOfPrefix(w: string, s: string, n: nat)
    requires n <= |s|
    ensures w <= s[..n] ==> w <= s
  {
  }

  lemma {:induction false} NoNamespaceCut(mark: char, names: seq<string>, s: string, n: nat)
    requires n <= |s| && NamespaceBefore(mark, names, s) == "" && "" !in names
    ensures NamespaceBefore(mark, names, s[..n]) == ""
  {
    if names != [] {
      PrefixOfPrefix(names[0] + [mark], s, n);
      NoNamespaceCut(mark, names[1..], s, n);
    }
  }

  lemma NamespaceLetters()
    ensures forall ns :: ns in NAMESPACES ==> ns != "" && AllLetters(ns)
  {
  }

  /** The character after the leading letters tells the two variable forms apart. */
  lemma OneForm(s: string)
    requires NamespaceBefore('.', NAMESPACES[4..], s) != ""
    ensures NamespaceBefore('{', NAMESPACES, s) == ""
  {
    hide NamespaceBefore;
    NamespaceLetters();
    var a, b := NamespaceBefore('.', NAMESPACES[4..], s), NamespaceBefore('{', NAMESPACES, s);
    TwoMarks(a, b, s);
  }

  predicate AllLetters(w: string) {
    forall i :: 0 <= i < |w| ==> IsLetter(w[i])
  }

  lemma TwoMarks(a: string, b: string, s: string)
    requires AllLetters(a) && AllLetters(b)
    ensures !(a + ['.'] <= s && b + ['{'] <= s)
  {
    hide IsLetter;
    MarkPlace('.', a, s);
    MarkPlace('{', b, s);
    assert !IsLetter('.') && !IsLetter('{') by { NoLetters(); }
  }

  lemma NoLetters()
    ensures !IsLetter('.') && !IsLetter('{')
  {
  }

  lemma MarkPlace(mark: char, w: string, s: string)
    ensures w + [mark] <= s && AllLetters(w) ==>
      |w| < |s| && s[|w|] == mark && forall i :: 0 <= i < |w| ==> IsLetter(s[i])
  {
  }

  lemma BracedCut(s: string)
    requires s != "" && MatchBraced(s) > 0
    ensures MatchBraced(s[..MatchBraced(s)]) == MatchBraced(s)
  {
    hide NamespaceBefore, Run;
    var n := MatchBraced(s);
    var ns := NamespaceBefore('{', NAMESPACES, s[1..]);
    NamespaceCut('{', NAMESPACES, s[1..], n - 1);
    assert s[..n][1..] == s[1..][..n - 1];
    RunCutAt(NotBrace, s, |ns| + 2, n);
  }

  lemma DottedCut(s: string)
    requires s != "" && MatchDotted(s) > 0
    ensures MatchDotted(s[..MatchDotted(s)]) == MatchDotted(s)
  {
    hide NamespaceBefore, Run;
    var n := MatchDotted(s);
    var ns := NamespaceBefore('.', NAMESPACES[4..], s[1..]);
    NamespaceCut('.', NAMESPACES[4..], s[1..], n - 1);
    assert s[..n][1..] == s[1..][..n - 1];
    RunCutAt(IsWordChar, s, |ns| + 2, n);
  }

  lemma VarCut(s: string)
    requires MatchVar(s) > 0
    ensures MatchVar(s[..MatchVar(s)]) == MatchVar(s)
  {
    hide NamespaceBefore, Run, MatchIdent;
    if MatchBraced(s) > 0 {
      BracedCut(s);
    } else {
      DottedCut(s);
      OneForm(s[..MatchVar(s)][1..]);
    }
  }

  lemma IdentCut(s: string)
    requires MatchIdent(s) > 0
    ensures MatchIdent(s[..MatchIdent(s)]) == MatchIdent(s)
  {
  }

  lemma Op2Cut(s: string)
    requires |s| >= 2
    ensures Op2Kind(s[..2]) == Op2Kind(s)
  {
  }

  /** The matched text satisfies what its conversion needs. */
  lemma MatchedText(s: string)
    requires s != ""
    ensures Matched(MatchAt(s).0, s[..MatchAt(s).1])
  {
    hide MatchNumber, MatchString, MatchVar, MatchIdent, Run, IsDecimal;
    var m := MatchAt(s);
    if m.0 == NUMBER { NumberCut(s); NumberSpelling(s[..m.1]); }
    if m.0 == VAR { VarCut(s); }
    if m.0 == IDENT { IdentCut(s); }
    if m.0 == OP2 { Op2Cut(s); }
  }

  /** The tokens of a text without the final EOF, or the 1-based place of the first character that
      starts no token. */
  function Lex(s: string): Result<seq<Token>, nat>
    decreases |s|
  {
    if s == "" then Ok([])
    else
      var (group, n) := MatchAt(s);
      if group == BAD then Err(1)
      else
        MatchedText(s);
        match Lex(s[n..])
        case Ok(tokens) => Ok(TokenOf(group, s[..n]) + tokens)
        case Err(at) => Err(n + at)
  }

  method UnescapeString(raw: string) returns (out: string)
    requires |raw| >= 2
    ensures out == Unescape(raw[1..|raw| - 1])
  {
    hide Unescape, Unescaped;
    var body := raw[1..|raw| - 1];
    out := "";
    var i := 0;
    NothingToUnescape();
    assert body[0..] == body;
    while i < |body|
      invariant i <= |body|
      invariant out + Unescape(body[i..]) == Unescape(body)
    {
      var c := body[i];
      UnescapeStep(body, i);
      if c == '\\' && i + 1 < |body| {
        OneCharacterMore(out, Unescaped(body[i + 1]), Unescape(body[i + 2..]));
        out := out + [Unescaped(body[i + 1])];
        i := i + 2;
      } else {
        OneCharacterMore(out, c, Unescape(body[i + 1..]));
        out := out + [c];
        i := i + 1;
      }
    }
    assert body[i..] == "" && out + "" == out;
  }

  lemma OneCharacterMore(out: string, c: char, rest: string)
    ensures out + [c] + rest == out + ([c] + rest)
  {
  }

  lemma NothingToUnescape()
    ensures Unescape("") == ""
  {
  }

  lemma UnescapeStep(body: string, i: nat)
    requires i < |body|
    ensures Unescape(body[i..]) ==
      if body[i] == '\\' && i + 1 < |body| then [Unescaped(body[i + 1])] + Unescape(body[i + 2..])
      else [body[i]] + Unescape(body[i + 1..])
  {
  }

  /** `tokenize`: the tokens of the text and EOF, or an error naming a place in it. */
  method Tokenize(text: string) returns (r: Result<seq<Token>, nat>)
    ensures match Lex(text)
      case Ok(tokens) => r == Ok(tokens + [Mark(EOF)])
      case Err(at) => r == Err(at)
  {
    hide Lex, MatchAt, MatchVar, MatchNumber, IsDecimal, NumberToken, WordToken, VarToken, OpKind, Op2Kind, Unescape;
    var tokens, pos := [], 0;
    LexEnds(text);
    while pos < |text|
      invariant pos <= |text|
      invariant Lex(text) == After(tokens, pos, Lex(text[pos..]))
    {
      var left := text[pos..];
      var (group, n) := MatchAt(left);
      var raw := left[..n];
      MatchedText(left);
      LexStep(left, group, n);
      AfterAfter(tokens, pos, TokenOf(group, raw), n, Lex(left[n..]));
      assert left[n..] == text[pos + n..];
      pos := pos + n;
      match group {
        case WS =>
          assert tokens + [] == tokens;
        case NUMBER =>
          tokens := tokens + [NumberToken(raw)];
        case STRING =>
          var value := UnescapeString(raw);
          tokens := tokens + [Value(Str(value))];
        case VAR =>
          tokens := tokens + [VarToken(raw)];
        case IDENT =>
          tokens := tokens + [WordToken(raw)];
        case OP2 =>
          tokens := tokens + [Mark(Op2Kind(raw))];
        case OP =>
          tokens := tokens + [Mark(OpKind(raw[0]))];
        case BAD =>
          return Err(pos - |raw| + 1);
      }
    }
    assert text[pos..] == "" && tokens + [] == tokens;
    r := Ok(tokens + [Mark(EOF)]);
  }

  ghost function After(tokens: seq<Token>, pos: nat, r: Result<seq<Token>, nat>): Result<seq<Token>, nat> {
    match r
    case Ok(more) => Ok(tokens + more)
    case Err(at) => Err(pos + at)
  }

  lemma LexEnds(text: string)
    ensures text[0..] == text && Lex(text) == After([], 0, Lex(text)) && Lex("") == Ok([])
  {
    match Lex(text) {
      case Ok(more) => assert [] + more == more;
      case Err(_) =>
    }
  }

  lemma AfterAfter(a: seq<Token>, i: nat, b: seq<Token>, j: nat, r: Result<seq<Token>, nat>)
    ensures After(a, i, After(b, j, r)) == After(a + b, i + j, r)
  {
    match r {
      case Ok(more) => assert a + (b + more) == a + b + more;
      case Err(_) =>
    }
  }

  lemma LexStep(s: string, group: Group, n: nat)
    requires s != "" && MatchAt(s) == (group, n) && Matched(group, s[..n])
    ensures Lex(s) == if group == BAD then Err(1) else After(TokenOf(group, s[..n]), n, Lex(s[n..]))
  {
    hide MatchAt, TokenOf, Matched;
  }
}

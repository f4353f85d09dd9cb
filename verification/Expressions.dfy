/** From text to tree: tokenizer and parser together, and what printing gives back. */
module Expressions {
  import opened Common
  import opened Syntax
  import opened Lexer
  import opened Spelling
  import opened Tokenizing
  import opened Printer
  import opened Minimal
  import opened Parser

  datatype CompileError = BadCharacter(at: nat) | BadSyntax(error: SyntaxError)

  ghost function Compile(text: string): Result<Expr, CompileError> {
    match Lex(text)
    case Err(at) => Err(BadCharacter(at))
    case Ok(ts) =>
      match ParseAll(ts)
      case Yes(e, _) => Ok(e)
      case No(error) => Err(BadSyntax(error))
  }

  /** The tokenizer ends its list with the only EOF, so the parser may start on it. */
  lemma LexedEnds(text: string)
    ensures Lex(text).Ok? ==> Ended(Lex(text).value + [Mark(EOF)])
  {
    hide Lex, Spellable;
    LexedSpellable(text);
    assert !Spellable(Mark(EOF)) by { EofHasNoText(); }
  }

  lemma EofHasNoText()
    ensures !Spellable(Mark(EOF))
  {
  }

  /** Tokenize, then parse: what `evaluate_expression` does before it evaluates. */
  method CompileText(text: string) returns (r: Result<Expr, CompileError>)
    ensures r == Compile(text)
  {
    hide Lex, ParseAll;
    var tokens := Tokenize(text);
    if tokens.Err? { return Err(BadCharacter(tokens.error)); }
    LexedEnds(text);
    var parser := new TokenParser(tokens.value);
    assert parser.Left() == Lex(text).value;
    var tree := parser.Parse();
    r := match tree
      case Ok(e) => Ok(e)
      case Err(error) => Err(BadSyntax(error));
  }

  /** A tree all of whose leaves can be written. */
  ghost predicate Writable(e: Expr) {
    WellFormed(e) && forall t :: t in Print(e, 0) ==> Spellable(t)
  }

  /** Every well-formed tree comes back from any text that spells its tokens, in whatever way and with
      whatever white space. */
  lemma CompileInvertsWriting(e: Expr, text: string)
    requires WellFormed(e) && Writes(text, Print(e, 0))
    ensures Compile(text) == Ok(e)
  {
    hide Lex, ParseAll, Print, WellFormed, Writes;
    TokenizesIff(text, Print(e, 0));
    ParseInvertsPrint(e);
  }

  lemma {:induction false} CoreKeeps(ts: seq<Token>, t: Token)
    ensures t in Core(ts) <==> t in ts && !IsParen(t)
  {
    if ts != [] { CoreKeeps(ts[1..], t); }
  }

  /** Whatever compiles is writable, so writing a compiled tree and compiling it again changes
      nothing: an expression survives being stored as text. */
  lemma CompiledIsWritable(text: string, e: Expr)
    requires Compile(text) == Ok(e)
    ensures Writable(e)
  {
    hide Lex, ParseAt, Print, WellFormed, Spellable, Core;
    var ts := Lex(text).value;
    LexedSpellable(text);
    PrintIsShortest(ts, e);
    forall t | t in Print(e, 0)
      ensures Spellable(t)
    {
      CoreKeeps(Print(e, 0), t);
      CoreKeeps(ts, t);
      if IsParen(t) { ParensHaveText(t); }
    }
  }

  lemma ParensHaveText(t: Token)
    requires IsParen(t)
    ensures Spellable(t)
  {
  }

  /** The trees some text compiles to are exactly the writable ones. */
  lemma CompiledIffWritable(e: Expr)
    ensures (exists text :: Compile(text) == Ok(e)) <==> Writable(e)
  {
    hide Compile, Print, WellFormed, Spellable, Lex;
    if text :| Compile(text) == Ok(e) { CompiledIsWritable(text, e); }
    if Writable(e) {
      LexableIffSpellable(Print(e, 0));
      var text :| Lex(text) == Ok(Print(e, 0));
      TokenizesIff(text, Print(e, 0));
      CompileInvertsWriting(e, text);
    }
  }
}

/** The stages together: tokenize, parse, compile, run. */
module Pipeline {
  import opened Errors
  import opened Tokenizer
  import opened Parser
  import opened ParserProofs
  import opened Codegen
  import opened CodegenProofs
  import opened VirtualMachine
  import opened VirtualMachineProofs

  /** The source's symbol characters, one text per character. */
  function SymbolTexts(s: string): seq<string>
  {
    Texts(SymbolsUpTo(s, |s|))
  }

  /** A source parses exactly when its brackets are balanced; a fresh compiler
      then emits paired code with one instruction per symbol of the source, which
      reads back as those symbols in order. */
  lemma CompiledSource(s: string)
    ensures Program(TokensOf(s)).Ok? <==> Balanced(SymbolTexts(s))
    ensures Program(TokensOf(s)).Ok? ==>
      var code := Gen(Program(TokensOf(s)).value, 0);
      Symbols(code) == SymbolTexts(s) && Paired(code, 0)
  {
    var toks := TokensOf(s);
    TokenizedIsSymbols(s);
    TokenTexts(s, |s|);
    assert Values(toks) == SymbolTexts(s);
    ParseAcceptsBalanced(toks);
    if Program(toks).Ok? {
      GenSymbols(Program(toks).value, 0);
      GenPaired(Program(toks).value, 0);
    }
  }

  /** Running compiled code never sends `pc` anywhere but into the code or just
      past its end, and a run without a limit that ends within its fuel either
      finished or met a `READ`. */
  lemma RunCompiled(a: Ast, m: Machine, fuel: nat)
    requires m.pc <= |Gen(a, 0)| && m.ticks == -1
    ensures var o := Exec(Gen(a, 0), m, fuel);
      && o.final.pc <= |Gen(a, 0)|
      && (o.status == Finished || o.status == Failed(ReadNotSupported) || o.status == OutOfFuel)
  {
    GenPaired(a, 0);
    PairedRunStaysInRange(Gen(a, 0), m, fuel);
    RunUnbounded(Gen(a, 0), m, fuel);
    RunEnds(Gen(a, 0), m, fuel);
  }
}

/** What the compiler emits: one instruction per token, in program order, with
    every `ifjump` and `jump` paired around a properly nested loop body. */
module CodegenProofs {
  import opened Errors
  import opened Parser
  import opened ParserProofs
  import opened Codegen

  /** The symbol an instruction stands for (for the unit steps the compiler
      emits, the sign of the step tells the direction). */
  function OpSymbol(op: Instr): string
  {
    match op
    case Move(v) => if v > 0 then ">" else "<"
    case Add(v) => if v > 0 then "+" else "-"
    case Print => "."
    case Read => ","
    case IfJump(_) => "["
    case Jump(_) => "]"
  }

  /** The symbols a piece of code stands for, one per instruction. */
  function Symbols(c: seq<Instr>): (r: seq<string>)
    ensures |r| == |c| && forall j :: 0 <= j < |c| ==> r[j] == OpSymbol(c[j])
  {
    seq(|c|, j requires 0 <= j < |c| => OpSymbol(c[j]))
  }

  lemma SymbolsConcat(x: seq<Instr>, y: seq<Instr>)
    ensures Symbols(x + y) == Symbols(x) + Symbols(y)
  {
  }

  /** The number of nodes that are not loops. */
  function SimpleNodes(a: Ast): nat
  {
    match a
    case Null => 0
    case Node(k, body, next) => (if k == While then SimpleNodes(body) else 1) + SimpleNodes(next)
  }

  /** The code of a node is its own code followed by the code of the rest. */
  lemma GenNode(a: Ast, base: nat)
    requires a.Node?
    ensures Gen(a, base) == Head(a, base) + Gen(a.next, base + |Head(a, base)|)
  {
  }

  /** The code of a loop node. */
  lemma LoopHead(a: Ast, base: nat)
    requires a.Node? && a.kind == While
    ensures var b := Gen(a.body, base + 1);
      Head(a, base) == [IfJump(Some(base + |b| + 2))] + b + [Jump(base)]
  {
    assert Head(a, base) == LoopCode(a.body, base);
  }

  /** Reading the code back gives the program text: the compiler emits the node,
      then a loop's body and its closing `jump`, then the rest of the chain. */
  lemma {:induction false} GenSymbols(a: Ast, base: nat)
    decreases a
    ensures Symbols(Gen(a, base)) == Unparse(a)
  {
    match a
    case Null =>
    case Node(k, body, next) =>
      if k == While {
        GenSymbols(body, base + 1);
      }
      GenSymbols(next, base + |Head(a, base)|);
      NodeSymbols(a, base);
  }

  /** One node's step of `GenSymbols`, given what its body and the rest of the
      chain read back as. */
  lemma NodeSymbols(a: Ast, base: nat)
    requires a.Node?
    requires a.kind == While ==> Symbols(Gen(a.body, base + 1)) == Unparse(a.body)
    requires Symbols(Gen(a.next, base + |Head(a, base)|)) == Unparse(a.next)
    ensures Symbols(Gen(a, base)) == Unparse(a)
  {
    var here := Head(a, base);
    var u := if a.kind == While then ["["] + Unparse(a.body) + ["]"] else [KindSymbol(a.kind)];
    HeadSymbols(a, base);
    JoinSymbols(here, Gen(a.next, base + |here|), u, Unparse(a.next));
    GenNode(a, base);
  }

  /** Reading back two pieces of code one after the other. */
  lemma JoinSymbols(x: seq<Instr>, y: seq<Instr>, u: seq<string>, v: seq<string>)
    requires Symbols(x) == u && Symbols(y) == v
    ensures Symbols(x + y) == u + v
  {
    SymbolsConcat(x, y);
  }

  /** A node's own code reads back as the node's own text. */
  lemma HeadSymbols(a: Ast, base: nat)
    requires a.Node?
    requires a.kind == While ==> Symbols(Gen(a.body, base + 1)) == Unparse(a.body)
    ensures Symbols(Head(a, base)) == if a.kind == While then ["["] + Unparse(a.body) + ["]"] else [KindSymbol(a.kind)]
  {
    if a.kind == While {
      LoopHead(a, base);
      WrapSymbols(Gen(a.body, base + 1), base, Unparse(a.body));
    } else {
      SimpleSymbols(a.kind);
      assert Head(a, base) == [SimpleInstr(a.kind)];
    }
  }

  /** A loop's `ifjump` and `jump` read back as its brackets. */
  lemma WrapSymbols(b: seq<Instr>, h: nat, u: seq<string>)
    requires Symbols(b) == u
    ensures Symbols([IfJump(Some(h + |b| + 2))] + b + [Jump(h)]) == ["["] + u + ["]"]
  {
    SymbolsConcat([IfJump(Some(h + |b| + 2))], b);
    SymbolsConcat([IfJump(Some(h + |b| + 2))] + b, [Jump(h)]);
  }

  /** A simple node's instruction reads back as its symbol. */
  lemma SimpleSymbols(k: Kind)
    requires k != While
    ensures Symbols([SimpleInstr(k)]) == [KindSymbol(k)]
  {
    assert Symbols([SimpleInstr(k)])[0] == OpSymbol(SimpleInstr(k));
  }

  /** The code has one instruction per simple node and two per loop, which is one
      per token of the program. */
  lemma {:induction false} GenLength(a: Ast, base: nat)
    decreases a
    ensures |Gen(a, base)| == SimpleNodes(a) + 2 * Loops(a)
    ensures |Gen(a, base)| == |Unparse(a)|
  {
    GenSymbols(a, base);
    match a
    case Null =>
    case Node(k, body, next) =>
      var here := Head(a, base);
      if k == While {
        GenLength(body, base + 1);
      }
      GenLength(next, base + |here|);
  }

  /** The instruction at `j` of code `c` placed at index `base` is paired: an
      `ifjump` has been patched to just past a `jump` back to it, and the code
      between them is balanced; a `jump` goes back to an `ifjump` patched to just
      past it. */
  predicate PairedAt(c: seq<Instr>, base: nat, j: nat)
    requires j < |c|
  {
    match c[j]
    case IfJump(exit) =>
      && exit.Some? && base + j + 2 <= exit.value <= base + |c|
      && c[exit.value - 1 - base] == Jump(base + j)
      && Balanced(Symbols(c[j + 1..exit.value - 1 - base]))
    case Jump(start) =>
      base <= start < base + j && c[start - base] == IfJump(Some(base + j + 1))
    case _ => true
  }

  predicate Paired(c: seq<Instr>, base: nat)
  {
    forall j :: 0 <= j < |c| ==> PairedAt(c, base, j)
  }

  /** Pairing is kept when code is followed by more code placed after it. */
  lemma PairedConcat(c1: seq<Instr>, c2: seq<Instr>, base: nat)
    requires Paired(c1, base) && Paired(c2, base + |c1|)
    ensures Paired(c1 + c2, base)
  {
    forall j | 0 <= j < |c1 + c2|
      ensures PairedAt(c1 + c2, base, j)
    {
      if j < |c1| {
        ConcatLeftAt(c1, c2, base, j);
      } else {
        ConcatRightAt(c1, c2, base, j);
      }
    }
  }

  /** An instruction of the first part, seen in the whole. */
  lemma ConcatLeftAt(c1: seq<Instr>, c2: seq<Instr>, base: nat, j: nat)
    requires j < |c1| && PairedAt(c1, base, j)
    ensures PairedAt(c1 + c2, base, j)
  {
    var c := c1 + c2;
    assert c[j] == c1[j];
    match c1[j]
    case IfJump(exit) =>
      var e := exit.value - 1 - base;
      assert c[e] == c1[e];
      assert c[j + 1..e] == c1[j + 1..e];
    case Jump(start) =>
      assert c[start - base] == c1[start - base];
    case _ =>
  }

  /** An instruction of the second part, seen in the whole. */
  lemma ConcatRightAt(c1: seq<Instr>, c2: seq<Instr>, base: nat, j: nat)
    requires |c1| <= j < |c1| + |c2| && PairedAt(c2, base + |c1|, j - |c1|)
    ensures PairedAt(c1 + c2, base, j)
  {
    var c := c1 + c2;
    var j' := j - |c1|;
    assert c[j] == c2[j'];
    match c2[j']
    case IfJump(exit) =>
      var e := exit.value - 1 - (base + |c1|);
      assert c[e + |c1|] == c2[e];
      assert c[j + 1..e + |c1|] == c2[j' + 1..e];
    case Jump(start) =>
      assert c[start - base] == c2[start - (base + |c1|)];
    case _ =>
  }

  /** Pairing is kept when a body is wrapped in its loop's `ifjump` and `jump`. */
  lemma PairedWrap(w: seq<Instr>, b: seq<Instr>, h: nat)
    requires w == [IfJump(Some(h + |b| + 2))] + b + [Jump(h)]
    requires Paired(b, h + 1) && Balanced(Symbols(b))
    ensures Paired(w, h)
  {
    forall j | 0 <= j < |w|
      ensures PairedAt(w, h, j)
    {
      if j == 0 {
        assert w[1..|b| + 1] == b;
      } else if j <= |b| {
        WrappedAt(b, h, j);
      }
    }
  }

  /** An instruction of the body, seen in the wrapped loop. */
  lemma WrappedAt(b: seq<Instr>, h: nat, j: nat)
    requires Paired(b, h + 1) && 0 < j <= |b|
    ensures PairedAt([IfJump(Some(h + |b| + 2))] + b + [Jump(h)], h, j)
  {
    var w := [IfJump(Some(h + |b| + 2))] + b + [Jump(h)];
    assert w[j] == b[j - 1];
    assert PairedAt(b, h + 1, j - 1);
    match b[j - 1]
    case IfJump(exit) =>
      var e := exit.value - 1 - (h + 1);
      assert w[e + 1] == b[e];
      assert w[j + 1..e + 1] == b[j..e];
    case Jump(start) =>
      assert w[start - h] == b[start - (h + 1)];
    case _ =>
  }

  /** Every `ifjump` of the code the compiler emits is patched and paired with
      the `jump` that closes its loop, and loops are properly nested. */
  lemma {:induction false} GenPaired(a: Ast, base: nat)
    decreases a, 2
    ensures Paired(Gen(a, base), base)
  {
    match a
    case Null =>
    case Node(_, _, next) =>
      var here := Head(a, base);
      HeadPaired(a, base);
      GenPaired(next, base + |here|);
      GenNode(a, base);
      PairedConcat(here, Gen(next, base + |here|), base);
  }

  lemma {:induction false} HeadPaired(a: Ast, base: nat)
    requires a.Node?
    decreases a, 1
    ensures Paired(Head(a, base), base)
  {
    if a.kind == While {
      LoopPaired(a, base);
    } else {
      SimplePaired(a.kind, base);
      assert Head(a, base) == [SimpleInstr(a.kind)];
    }
  }

  lemma {:induction false} LoopPaired(a: Ast, base: nat)
    requires a.Node? && a.kind == While
    decreases a, 0
    ensures Paired(Head(a, base), base)
  {
    BodyPaired(a.body, base + 1);
    LoopWrap(a, base);
  }

  lemma LoopWrap(a: Ast, base: nat)
    requires a.Node? && a.kind == While
    requires Paired(Gen(a.body, base + 1), base + 1) && Balanced(Symbols(Gen(a.body, base + 1)))
    ensures Paired(Head(a, base), base)
  {
    LoopHead(a, base);
    PairedWrap(Head(a, base), Gen(a.body, base + 1), base);
  }

  /** A loop body's code is paired and stands for a balanced text. */
  lemma {:induction false} BodyPaired(body: Ast, base: nat)
    decreases body, 3
    ensures Paired(Gen(body, base), base) && Balanced(Symbols(Gen(body, base)))
  {
    GenPaired(body, base);
    GenSymbols(body, base);
    UnparseBalanced(body);
  }

  lemma SimplePaired(k: Kind, base: nat)
    requires k != While
    ensures Paired([SimpleInstr(k)], base)
  {
    assert PairedAt([SimpleInstr(k)], base, 0);
  }

  /** The code a compiler holds after any number of `compile` calls, each
      appending the code of one AST, stays paired. */
  lemma CompileKeepsPaired(before: seq<Instr>, a: Ast)
    requires Paired(before, 0)
    ensures Paired(before + Gen(a, |before|), 0)
  {
    GenPaired(a, |before|);
    PairedConcat(before, Gen(a, |before|), 0);
  }

  /** In paired code every jump lands inside the code or just past its end. */
  lemma PairedTargets(c: seq<Instr>)
    requires Paired(c, 0)
    ensures forall j :: 0 <= j < |c| && c[j].IfJump? ==> c[j].exit.Some? && c[j].exit.value <= |c|
    ensures forall j :: 0 <= j < |c| && c[j].Jump? ==> c[j].start < j
  {
    forall j | 0 <= j < |c|
      ensures c[j].IfJump? ==> c[j].exit.Some? && c[j].exit.value <= |c|
      ensures c[j].Jump? ==> c[j].start < j
    {
      assert PairedAt(c, 0, j);
    }
  }

  /** `[-]`: the `ifjump` at 0 is patched to 3, one past the `jump` back to 0. */
  lemma LoopExample()
    ensures Gen(Node(While, Node(Decrement, Null, Null), Null), 0) == [IfJump(Some(3)), Add(-1), Jump(0)]
  {
    var body := Node(Decrement, Null, Null);
    assert Gen(body, 1) == [Add(-1)] by {
      assert Head(body, 1) == [Add(-1)];
    }
    assert Head(Node(While, body, Null), 0) == LoopCode(body, 0);
  }

  /** Two `compile` calls on one compiler: both programs share the one array,
      which holds the first AST's code followed by the second's, and the whole
      stays paired. */
  method CompileTwice(a1: Ast, a2: Ast) returns (first: CompiledProgram, second: CompiledProgram)
    requires a1.Node? && a2.Node?
    ensures first.byteCode == second.byteCode
    ensures first.byteCode.ops == Gen(a1, 0) + Gen(a2, |Gen(a1, 0)|)
    ensures Paired(first.byteCode.ops, 0)
  {
    var compiler := new Compiler();
    var r1 := compiler.Compile(a1);
    var r2 := compiler.Compile(a2);
    first, second := r1.value, r2.value;
    GenPaired(a1, 0);
    CompileKeepsPaired(Gen(a1, 0), a2);
  }
}

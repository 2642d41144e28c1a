/** The compiler (compiler.js): flattens an AST into a list of instructions, in
    program order, emitting a loop as an `ifjump` placeholder, its body and a
    `jump` back, then patching the placeholder with the index just past the `jump`.

    The instruction list is one JavaScript array that the compiler keeps for its
    whole life and hands out by reference, so it is an object (`InstrArray`)
    shared by the compiler, every program it returns and every VM built from
    them. */
module Codegen {
  import opened Errors
  import opened Parser
  import opened ParserProofs

  /** One instruction object `{ op, value }` / `{ op, index }`:
      `'<>'` moves the pointer, `'+-'` adds to the current cell, `'PRINT'`,
      `'READ'`, `'ifjump'` (its `index` is `None` until patched) and `'jump'`. */
  datatype Instr =
    | Move(value: int)
    | Add(value: int)
    | Print
    | Read
    | IfJump(exit: Option<nat>)
    | Jump(start: nat)

  /** The array of instructions. */
  class InstrArray {
    var ops: seq<Instr>

    constructor ()
      ensures ops == []
    {
      ops := [];
    }
  }

  /** `CompiledProgram`: a reference to the compiler's array, not a copy. */
  class CompiledProgram {
    const byteCode: InstrArray

    constructor (byteCodeList: InstrArray)
      ensures byteCode == byteCodeList
    {
      byteCode := byteCodeList;
    }

    /** `byte_code()`: the very array the program was built on, not a copy. */
    function ByteCode(): (a: InstrArray)
      ensures a == byteCode
    {
      byteCode
    }
  }

  /** The instruction `_visitNonWhile` emits for a node of a simple kind. */
  function SimpleInstr(k: Kind): Instr
    requires k != While
  {
    match k
    case MoveRight => Move(1)
    case MoveLeft => Move(-1)
    case Increment => Add(1)
    case Decrement => Add(-1)
    case Output => Print
    case Input => Read
  }

  /** The code for the chain starting at `a` when its first instruction lands at
      index `base`: each node in turn, a loop as `LoopCode`. */
  function Gen(a: Ast, base: nat): seq<Instr>
    decreases a, 1
  {
    match a
    case Null => []
    case Node(_, _, next) =>
      var here := Head(a, base);
      here + Gen(next, base + |here|)
  }

  /** The code of the node `a` itself, without the rest of its chain. */
  function Head(a: Ast, base: nat): seq<Instr>
    requires a.Node?
    decreases a, 0
  {
    if a.kind == While then LoopCode(a.body, base) else [SimpleInstr(a.kind)]
  }

  /** The code for a loop whose `ifjump` lands at index `h`: the patched `ifjump`
      to just past the `jump`, the body, and the `jump` back to `h`. */
  function LoopCode(body: Ast, h: nat): seq<Instr>
    decreases body, 2
  {
    var b := Gen(body, h + 1);
    [IfJump(Some(h + |b| + 2))] + b + [Jump(h)]
  }

  /** `Compiler`. Its array is created once, by the constructor, and never reset. */
  class Compiler {
    const bytecode: InstrArray

    constructor ()
      ensures fresh(bytecode) && bytecode.ops == []
    {
      bytecode := new InstrArray();
    }

    /** `compile(ast)`: visits the AST, appending its code after whatever earlier
        calls left in the array, and returns a program sharing that array. The
        AST of an empty program is `null`, and `null.accept` throws. */
    method Compile(ast: Ast) returns (r: Result<CompiledProgram>)
      modifies bytecode
      ensures ast == Null ==> r == Err(NullAst) && bytecode.ops == old(bytecode.ops)
      ensures ast.Node? ==> && r.Ok? && fresh(r.value) && r.value.byteCode == bytecode
                            && bytecode.ops == old(bytecode.ops) + Gen(ast, |old(bytecode.ops)|)
    {
      if ast == Null {
        return Err(NullAst);
      }
      Visit(ast);
      var program := new CompiledProgram(bytecode);
      return Ok(program);
    }

    /** `visit(astNode)`: the node's own code, then the rest of its chain. */
    method Visit(node: Ast)
      requires node.Node?
      modifies bytecode
      decreases node, 1
      ensures bytecode.ops == old(bytecode.ops) + Gen(node, |old(bytecode.ops)|)
    {
      ghost var before := bytecode.ops;
      if node.kind == While {
        VisitWhile(node);
      } else {
        var err := VisitNonWhile(node);
      }
      ghost var here := Head(node, |before|);
      ghost var rest := Gen(node.next, |before| + |here|);
      assert Gen(node, |before|) == here + rest;
      assert bytecode.ops == before + here;
      if node.next != Null {
        Visit(node.next);
        assert bytecode.ops == before + here + rest;
      } else {
        assert rest == [];
      }
    }

    /** `_visitWhile(whileNode)`: pushes the placeholder, visits the body (if
        any), pushes the `jump` back and patches the placeholder. */
    method VisitWhile(node: Ast)
      requires node.Node? && node.kind == While
      modifies bytecode
      decreases node, 0
      ensures bytecode.ops == old(bytecode.ops) + LoopCode(node.body, |old(bytecode.ops)|)
    {
      ghost var before := bytecode.ops;
      var currentOpIndex := |bytecode.ops|;
      bytecode.ops := bytecode.ops + [IfJump(None)];
      if node.body != Null {
        Visit(node.body);
      }
      ghost var b := Gen(node.body, currentOpIndex + 1);
      assert bytecode.ops == before + [IfJump(None)] + b;
      bytecode.ops := bytecode.ops + [Jump(currentOpIndex)];
      bytecode.ops := bytecode.ops[currentOpIndex := IfJump(Some(|bytecode.ops|))];
      assert bytecode.ops == before + ([IfJump(Some(currentOpIndex + |b| + 2))] + b + [Jump(currentOpIndex)]);
    }

    /** `_visitNonWhile(astNode)`: pushes the one instruction of a simple node;
        a While node is refused. */
    method VisitNonWhile(node: Ast) returns (err: Option<Error>)
      requires node.Node?
      modifies bytecode
      ensures node.kind == While ==> err == Some(WhileOutsideVisitor) && bytecode.ops == old(bytecode.ops)
      ensures node.kind != While ==> err == None && bytecode.ops == old(bytecode.ops) + [SimpleInstr(node.kind)]
    {
      match node.kind
      case MoveRight =>
        bytecode.ops := bytecode.ops + [Move(1)];
        err := None;
      case MoveLeft =>
        bytecode.ops := bytecode.ops + [Move(-1)];
        err := None;
      case Increment =>
        bytecode.ops := bytecode.ops + [Add(1)];
        err := None;
      case Decrement =>
        bytecode.ops := bytecode.ops + [Add(-1)];
        err := None;
      case Output =>
        bytecode.ops := bytecode.ops + [Print];
        err := None;
      case Input =>
        bytecode.ops := bytecode.ops + [Read];
        err := None;
      case While =>
        err := Some(WhileOutsideVisitor);
    }
  }
}

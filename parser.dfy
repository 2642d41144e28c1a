/** The parser (parser.js): AST nodes, the token cursor `ListWalker`, and a
    recursive-descent parser that threads the cursor through
    `parse_statements`, `parse_single_statement` and `parse_while`.

    The source's nodes are objects linked through `_next` (sibling) and
    `statements` (loop body) that the parser sets right after creating each node
    and never touches again; nothing is shared, so the tree is modelled as a value
    and `setNext` as a field update of a fresh node. The token list, on the other
    hand, is an array the caller keeps and the cursor extends, so it is an object. */
module Parser {
  import opened Errors
  import opened Tokenizer

  /** The seven node names accepted by the `AstNode` constructor. */
  datatype Kind = MoveLeft | MoveRight | Increment | Decrement | Output | Input | While

  /** The name string a node of kind `k` carries (`_name`). The predicates
      `isMoveLeftNode()` ... `isWhileNode()` compare that name with one literal;
      since the names are distinct (NewNodeKindRoundTrip), each is the
      discriminator `kind == K`. */
  function KindName(k: Kind): string
  {
    match k
    case MoveLeft => "MoveLeft"
    case MoveRight => "MoveRight"
    case Increment => "Increment"
    case Decrement => "Decrement"
    case Output => "Output"
    case Input => "Input"
    case While => "While"
  }

  const ValidNames: seq<string> := ["MoveLeft", "MoveRight", "Increment", "Decrement", "Output", "Input", "While"]

  /** A possibly-null reference to a node. `next` is what `next()` returns
      (`_next || null`); `body` is a While node's `statements` and `Null` for every
      other kind, which never gets that property. */
  datatype Ast = Null | Node(kind: Kind, body: Ast, next: Ast)

  /** `new AstNode(name)`: validates the name against the seven kinds. */
  function NewNode(name: string): (r: Result<Ast>)
    ensures r.Ok? <==> name in ValidNames
    ensures r.Ok? ==> r.value.Node? && KindName(r.value.kind) == name && r.value.body == Null && r.value.next == Null
    ensures r.Err? ==> r.error == UnsupportedNodeName
  {
    if name == "MoveLeft" then Ok(Node(MoveLeft, Null, Null))
    else if name == "MoveRight" then Ok(Node(MoveRight, Null, Null))
    else if name == "Increment" then Ok(Node(Increment, Null, Null))
    else if name == "Decrement" then Ok(Node(Decrement, Null, Null))
    else if name == "Output" then Ok(Node(Output, Null, Null))
    else if name == "Input" then Ok(Node(Input, Null, Null))
    else if name == "While" then Ok(Node(While, Null, Null))
    else Err(UnsupportedNodeName)
  }

  /** Creating a node by a kind's own name always succeeds and yields that kind,
      and distinct kinds have distinct names. */
  lemma NewNodeKindRoundTrip(k: Kind, k': Kind)
    ensures NewNode(KindName(k)) == Ok(Node(k, Null, Null))
    ensures KindName(k) == KindName(k') ==> k == k'
  {
  }

  /** The end-of-program marker `new Token('EOP')`: no line or position. */
  const EndOfProgram := NewToken("EOP", None, None)

  /** The caller's JavaScript array of tokens. */
  class TokenList {
    var items: seq<Token>

    constructor (items: seq<Token>)
      ensures this.items == items
    {
      this.items := items;
    }
  }

  /** The cursor over a token list. It keeps a reference to the caller's list
      (not a copy) and appends the end marker to it. */
  class ListWalker {
    const tokens: TokenList
    var index: nat

    ghost predicate Valid()
      reads this, tokens
    {
      index <= |tokens.items|
    }

    /** The token at the cursor, or `None` (`null`) once the list is exhausted. */
    function Peek(): Option<Token>
      reads this, tokens
    {
      if index < |tokens.items| then Some(tokens.items[index]) else None
    }

    /** `new ListWalker(list)`: pushes exactly one end marker onto the caller's list. */
    constructor (list: TokenList)
      modifies list
      ensures tokens == list && index == 0
      ensures list.items == old(list.items) + [EndOfProgram]
      ensures Valid()
    {
      tokens := list;
      index := 0;
      new;
      list.items := list.items + [EndOfProgram];
    }

    /** `next_token()`: returns the token at the cursor and moves past it, or
        returns `null` and stays put once `index` reaches the length. */
    method NextToken() returns (t: Option<Token>)
      requires Valid()
      modifies this
      ensures Valid()
      ensures t == old(Peek())
      ensures index == if old(index) < |tokens.items| then old(index) + 1 else old(index)
    {
      if index < |tokens.items| {
        t := Some(tokens.items[index]);
        index := index + 1;
      } else {
        t := None;
      }
    }

    /** `look_ahead_token()`: what `next_token()` would return, without moving. */
    method LookAheadToken() returns (t: Option<Token>)
      requires Valid()
      ensures t == Peek()
    {
      if index < |tokens.items| {
        t := Some(tokens.items[index]);
      } else {
        t := None;
      }
    }
  }

  function Leaf(k: Kind): Ast
  {
    Node(k, Null, Null)
  }

  // The grammar as functions of the token list and the cursor position. Each
  // returns the node built and the cursor position afterwards, or the error thrown.

  /** `parse_statements` started at position `i`. */
  function StatementList(toks: seq<Token>, i: nat): (r: Result<(Ast, nat)>)
    decreases |toks| - i, 1
    ensures r.Ok? ==> i <= r.value.1 <= |toks|
  {
    if i >= |toks| then Err(NullLookahead)
    else if toks[i].value == "]" then Ok((Null, i))
    else
      match SingleStatement(toks, i)
      case Err(e) => Err(e)
      case Ok((statement, j)) =>
        if statement == Null then Ok((Null, j))
        else
          match StatementList(toks, j)
          case Err(e) => Err(e)
          case Ok((rest, k)) => Ok((statement.(next := rest), k))
  }

  /** `parse_single_statement` started at position `i`. */
  function SingleStatement(toks: seq<Token>, i: nat): (r: Result<(Ast, nat)>)
    decreases |toks| - i, 0
    ensures r.Ok? ==> i < r.value.1 <= |toks|
  {
    if i >= |toks| then Err(UnexpectedEnd)
    else
      var v := toks[i].value;
      if v == "EOP" then Ok((Null, i + 1))
      else if v == ">" then Ok((Leaf(MoveRight), i + 1))
      else if v == "<" then Ok((Leaf(MoveLeft), i + 1))
      else if v == "+" then Ok((Leaf(Increment), i + 1))
      else if v == "-" then Ok((Leaf(Decrement), i + 1))
      else if v == "." then Ok((Leaf(Output), i + 1))
      else if v == "," then Ok((Leaf(Input), i + 1))
      else if v == "[" then WhileStatement(toks, i + 1)
      else if v == "]" then Err(UnexpectedClose)
      else Err(UnknownToken)
  }

  /** `parse_while` started at position `i`, just past the `[`. */
  function WhileStatement(toks: seq<Token>, i: nat): (r: Result<(Ast, nat)>)
    decreases |toks| - i, 2
    ensures r.Ok? ==> i < r.value.1 <= |toks|
  {
    match StatementList(toks, i)
    case Err(e) => Err(e)
    case Ok((body, j)) =>
      if j < |toks| && toks[j].value == "]" then Ok((Node(While, body, Null), j + 1))
      else Err(ExpectedClose)
  }

  /** `parse(tokens_list)` on a list holding `toks`: the statement list over the
      list with its end marker, then "Missing [" if a token is left. */
  function Program(toks: seq<Token>): Result<Ast>
  {
    var all := toks + [EndOfProgram];
    match StatementList(all, 0)
    case Err(e) => Err(e)
    case Ok((ast, j)) => if j < |all| then Err(MissingOpen) else Ok(ast)
  }

  /** A method's result and the cursor after it agree with a grammar function's value. */
  ghost predicate Agrees(r: Result<Ast>, index: nat, spec: Result<(Ast, nat)>)
  {
    match spec
    case Err(e) => r == Err(e)
    case Ok((ast, j)) => r == Ok(ast) && index == j
  }

  /** `parse_statements(walker)`. */
  method ParseStatements(w: ListWalker) returns (r: Result<Ast>)
    requires w.Valid()
    modifies w
    decreases |w.tokens.items| - w.index, 1
    ensures w.Valid()
    ensures Agrees(r, w.index, StatementList(w.tokens.items, old(w.index)))
  {
    var look := w.LookAheadToken();
    if look.None? {
      return Err(NullLookahead);
    }
    if look.value.value == "]" {
      return Ok(Null);
    }
    var single := ParseSingleStatement(w);
    if single.Err? {
      return single;
    }
    var statement := single.value;
    if statement != Null {
      var rest := ParseStatements(w);
      if rest.Err? {
        return rest;
      }
      statement := statement.(next := rest.value);
    }
    return Ok(statement);
  }

  /** `parse_single_statement(walker)`. */
  method ParseSingleStatement(w: ListWalker) returns (r: Result<Ast>)
    requires w.Valid()
    modifies w
    decreases |w.tokens.items| - w.index, 0
    ensures w.Valid()
    ensures Agrees(r, w.index, SingleStatement(w.tokens.items, old(w.index)))
  {
    var token := w.NextToken();
    if token.None? {
      return Err(UnexpectedEnd);
    }
    var v := token.value.value;
    if v == "EOP" {
      r := Ok(Null);
    } else if v == ">" {
      r := Ok(Leaf(MoveRight));
    } else if v == "<" {
      r := Ok(Leaf(MoveLeft));
    } else if v == "+" {
      r := Ok(Leaf(Increment));
    } else if v == "-" {
      r := Ok(Leaf(Decrement));
    } else if v == "." {
      r := Ok(Leaf(Output));
    } else if v == "," {
      r := Ok(Leaf(Input));
    } else if v == "[" {
      r := ParseWhile(w);
    } else if v == "]" {
      r := Err(UnexpectedClose);
    } else {
      r := Err(UnknownToken);
    }
  }

  /** `parse_while(walker)`: the body, then a required `]`. */
  method ParseWhile(w: ListWalker) returns (r: Result<Ast>)
    requires w.Valid()
    modifies w
    decreases |w.tokens.items| - w.index, 2
    ensures w.Valid()
    ensures Agrees(r, w.index, WhileStatement(w.tokens.items, old(w.index)))
  {
    var body := ParseStatements(w);
    if body.Err? {
      return body;
    }
    var token := w.NextToken();
    if token.None? || token.value.value != "]" {
      return Err(ExpectedClose);
    }
    return Ok(Node(While, body.value, Null));
  }

  /** `parse(tokens_list)`. The caller's list keeps the end marker the cursor
      pushed onto it; the result is the grammar's. `parse_program` is the
      statement list itself. */
  method Parse(list: TokenList) returns (r: Result<Ast>)
    modifies list
    ensures list.items == old(list.items) + [EndOfProgram]
    ensures r == Program(old(list.items))
  {
    var walker := new ListWalker(list);
    r := ParseStatements(walker);
    if r.Err? {
      return;
    }
    var extra := walker.NextToken();
    if extra.Some? {
      r := Err(MissingOpen);
    }
  }
}

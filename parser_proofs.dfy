/** What the grammar of parser.js accepts, and what it builds. */
module ParserProofs {
  import opened Errors
  import opened Tokenizer
  import opened Parser

  // ---------------------------------------------------------------------------
  // Dead branches: for every token list, whatever its texts.

  /** The errors `StatementList` can return from a position inside a list whose
      last token is an end marker: neither the null-lookahead TypeError, nor
      "Unexpected end of program", nor "Unexpected ]". When it succeeds having
      stopped at a `]`, that `]` is still in the list. */
  lemma {:induction false} StatementListErrors(toks: seq<Token>, i: nat)
    requires |toks| > 0 && toks[|toks| - 1].value == "EOP"
    requires i < |toks|
    decreases |toks| - i, 1
    ensures var r := StatementList(toks, i);
      r.Err? ==> r.error == ExpectedClose || r.error == UnknownToken
  {
    if toks[i].value != "]" {
      SingleStatementErrors(toks, i);
      var single := SingleStatement(toks, i);
      if single.Ok? && single.value.0 != Null {
        StatementListErrors(toks, single.value.1);
      }
    }
  }

  /** A statement that is not the end marker ends before the last token. */
  lemma {:induction false} SingleStatementErrors(toks: seq<Token>, i: nat)
    requires |toks| > 0 && toks[|toks| - 1].value == "EOP"
    requires i < |toks| && toks[i].value != "]"
    decreases |toks| - i, 0
    ensures var r := SingleStatement(toks, i);
      && (r.Err? ==> r.error == ExpectedClose || r.error == UnknownToken)
      && (r.Ok? && r.value.0 != Null ==> r.value.1 < |toks|)
  {
    if toks[i].value == "[" {
      WhileStatementErrors(toks, i + 1);
    }
  }

  lemma {:induction false} WhileStatementErrors(toks: seq<Token>, i: nat)
    requires |toks| > 0 && toks[|toks| - 1].value == "EOP"
    requires 0 < i < |toks|
    decreases |toks| - i, 2
    ensures var r := WhileStatement(toks, i);
      && (r.Err? ==> r.error == ExpectedClose || r.error == UnknownToken)
      && (r.Ok? ==> r.value.1 < |toks|)
  {
    StatementListErrors(toks, i);
  }

  /** `parse` never throws "Unexpected ]", "Unexpected end of program" or the
      null-lookahead TypeError: an unmatched `]` ends the statement list early and
      is reported as "Missing [". */
  lemma ParseErrors(toks: seq<Token>)
    ensures var r := Program(toks);
      r.Err? ==> r.error in {ExpectedClose, UnknownToken, MissingOpen}
  {
    StatementListErrors(toks + [EndOfProgram], 0);
  }

  // ---------------------------------------------------------------------------
  // Token lists made of the eight symbols (what `tokenize` returns).

  predicate IsSymbolText(v: string)
  {
    |v| == 1 && IsSymbol(v[0])
  }

  predicate SymbolsOnly(toks: seq<Token>)
  {
    forall k :: 0 <= k < |toks| ==> IsSymbolText(toks[k].value)
  }

  function Values(toks: seq<Token>): (vals: seq<string>)
    ensures |vals| == |toks|
    ensures forall k :: 0 <= k < |toks| ==> vals[k] == toks[k].value
  {
    seq(|toks|, k requires 0 <= k < |toks| => toks[k].value)
  }

  /** The symbol a node of a simple kind came from (`[` for a loop head). */
  function KindSymbol(k: Kind): string
  {
    match k
    case MoveRight => ">"
    case MoveLeft => "<"
    case Increment => "+"
    case Decrement => "-"
    case Output => "."
    case Input => ","
    case While => "["
  }

  /** The token texts an AST stands for: each simple node its symbol, a loop
      `[`, its body and `]`, followed by the rest of the chain. */
  function Unparse(a: Ast): seq<string>
  {
    match a
    case Null => []
    case Node(k, body, next) =>
      (if k == While then ["["] + Unparse(body) + ["]"] else [KindSymbol(k)]) + Unparse(next)
  }

  /** Only loops have bodies. */
  predicate WellFormed(a: Ast)
  {
    match a
    case Null => true
    case Node(k, body, next) => (k != While ==> body == Null) && WellFormed(body) && WellFormed(next)
  }

  /** The number of loop nodes. */
  function Loops(a: Ast): nat
  {
    match a
    case Null => 0
    case Node(k, body, next) => (if k == While then 1 + Loops(body) else 0) + Loops(next)
  }

  /** Nesting depth: the number of `[` minus the number of `]`. */
  function Depth(s: seq<string>): int
  {
    (multiset(s)["["] as int) - multiset(s)["]"]
  }

  /** Every `[` is closed by a later `]` and every `]` closes an earlier `[`. */
  predicate Balanced(s: seq<string>)
  {
    Depth(s) == 0 && forall k :: 0 <= k <= |s| ==> Depth(s[..k]) >= 0
  }

  /** Where a bracket scan from `i`, with `d` brackets open, stops: at the first
      `]` that closes nothing, or at the end with some brackets still open. */
  datatype Scan = Closes(at: nat) | Ends(open: nat)

  function ScanFrom(vals: seq<string>, i: nat, d: nat): (r: Scan)
    requires i <= |vals|
    decreases |vals| - i
    ensures r.Closes? ==> i <= r.at < |vals| && vals[r.at] == "]"
  {
    if i == |vals| then Ends(d)
    else if vals[i] == "]" then (if d == 0 then Closes(i) else ScanFrom(vals, i + 1, d - 1))
    else if vals[i] == "[" then ScanFrom(vals, i + 1, d + 1)
    else ScanFrom(vals, i + 1, d)
  }

  /** Scanning with one more bracket open runs through the first unmatched `]`. */
  lemma {:induction false} ScanShift(vals: seq<string>, i: nat, d: nat)
    requires i <= |vals|
    decreases |vals| - i
    ensures ScanFrom(vals, i, d + 1) ==
      match ScanFrom(vals, i, 0)
      case Closes(k) => ScanFrom(vals, k + 1, d)
      case Ends(e) => Ends(e + d + 1)
  {
    if i < |vals| {
      BracketsDiffer();
      if vals[i] == "[" {
        ScanShift(vals, i + 1, d + 1);
        ScanShift(vals, i + 1, 0);
        if ScanFrom(vals, i + 1, 0).Closes? {
          ScanShift(vals, ScanFrom(vals, i + 1, 0).at + 1, d);
        }
      } else if vals[i] != "]" {
        ScanShift(vals, i + 1, d);
      }
    }
  }

  lemma DepthOne(v: string)
    ensures Depth([v]) == if v == "[" then 1 else if v == "]" then -1 else 0
  {
    assert multiset([v]) == multiset{v};
    BracketsDiffer();
  }

  lemma DepthCons(vals: seq<string>, i: nat, k: nat)
    requires i < k <= |vals|
    ensures Depth(vals[i..k]) == Depth([vals[i]]) + Depth(vals[i + 1..k])
  {
    assert vals[i..k] == [vals[i]] + vals[i + 1..k];
  }

  /** The scan runs to the end exactly when no prefix of `vals[i..]` closes more
      than `d` brackets, and then it ends with `d` plus the depth of `vals[i..]` open. */
  lemma {:induction false} ScanDepth(vals: seq<string>, i: nat, d: nat)
    requires i <= |vals|
    decreases |vals| - i
    ensures ScanFrom(vals, i, d).Ends? <==> forall k :: i <= k <= |vals| ==> d + Depth(vals[i..k]) >= 0
    ensures ScanFrom(vals, i, d).Ends? ==> ScanFrom(vals, i, d).open == d + Depth(vals[i..])
  {
    assert vals[i..i] == [];
    assert vals[i..] == vals[i..|vals|];
    if i < |vals| {
      BracketsDiffer();
      DepthOne(vals[i]);
      if vals[i] == "]" && d == 0 {
        assert vals[i..i + 1] == [vals[i]];
        assert d + Depth(vals[i..i + 1]) < 0;
      } else {
        var d': nat := if vals[i] == "]" then d - 1 else if vals[i] == "[" then d + 1 else d;
        ScanDepth(vals, i + 1, d');
        assert ScanFrom(vals, i, d) == ScanFrom(vals, i + 1, d');
        if ScanFrom(vals, i + 1, d').Ends? {
          forall k | i <= k <= |vals|
            ensures d + Depth(vals[i..k]) >= 0
          {
            if k > i {
              DepthCons(vals, i, k);
            }
          }
          DepthCons(vals, i, |vals|);
          assert vals[i + 1..] == vals[i + 1..|vals|];
        } else {
          var k :| i + 1 <= k <= |vals| && d' + Depth(vals[i + 1..k]) < 0;
          DepthCons(vals, i, k);
        }
      }
    }
  }

  lemma SymbolTextCases(v: string)
    requires IsSymbolText(v)
    ensures v == ">" || v == "<" || v == "+" || v == "-" || v == "." || v == "," || v == "[" || v == "]"
  {
    assert v == [v[0]];
  }

  /** `toks` is `n` symbol tokens, an end marker, and then anything but a `]`
      (nothing, for `parse`; a second end marker, for a list parsed twice). */
  ghost predicate SymbolPrefix(toks: seq<Token>, n: nat)
  {
    && n < |toks| && toks[n].value == "EOP" && SymbolsOnly(toks[..n])
    && (n + 1 == |toks| || toks[n + 1].value != "]")
  }

  /** What the statement list from position `i` does on such a list. */
  ghost predicate ListOutcome(toks: seq<Token>, n: nat, i: nat)
    requires i <= n < |toks|
  {
    var vals := Values(toks[..n]);
    var r := StatementList(toks, i);
    match ScanFrom(vals, i, 0)
    case Closes(k) =>
      r.Ok? && r.value.1 == k && Unparse(r.value.0) == vals[i..k] && WellFormed(r.value.0)
    case Ends(d) =>
      if d == 0 then r.Ok? && r.value.1 == n + 1 && Unparse(r.value.0) == vals[i..n] && WellFormed(r.value.0)
      else r == Err(ExpectedClose)
  }

  /** The statement list from position `i` of a symbol prefix of `n` tokens
      followed by an end marker: it stops at the first unmatched `]`, or consumes
      the end marker when every bracket is matched, or fails with
      "Expected ] not found" when a `[` is left open. What it builds is exactly the
      texts it went over. */
  lemma {:induction false} StatementListOutcome(toks: seq<Token>, n: nat, i: nat)
    requires SymbolPrefix(toks, n) && i <= n
    decreases n - i, 2
    ensures ListOutcome(toks, n, i)
  {
    var vals := Values(toks[..n]);
    if i < n {
      var v := toks[i].value;
      assert v == vals[i];
      assert IsSymbolText(toks[..n][i].value);
      SymbolTextCases(v);
      if v == "[" {
        LoopOutcome(toks, n, i);
      } else if v != "]" {
        SimpleOutcome(toks, n, i);
      }
    }
  }

  lemma {:induction false} SimpleOutcome(toks: seq<Token>, n: nat, i: nat)
    requires SymbolPrefix(toks, n) && i < n
    requires toks[i].value in {">", "<", "+", "-", ".", ","}
    decreases n - i, 1
    ensures ListOutcome(toks, n, i)
  {
    var vals := Values(toks[..n]);
    assert vals[i] == toks[i].value;
    var node := SimpleNode(toks, n, i);
    SimpleScan(vals, i);
    StatementListOutcome(toks, n, i + 1);
    ChainOutcome(toks, n, i, i + 1, node);
  }

  /** The node a simple symbol parses to. */
  lemma SimpleNode(toks: seq<Token>, n: nat, i: nat) returns (node: Ast)
    requires i < n < |toks| && toks[i].value in {">", "<", "+", "-", ".", ","}
    ensures toks[i].value != "]"
    ensures SingleStatement(toks, i) == Ok((node, i + 1)) && node.Node? && node.next == Null
    ensures Unparse(node) == Values(toks[..n])[i..i + 1] && WellFormed(node)
  {
    node := SingleStatement(toks, i).value.0;
    assert Values(toks[..n])[i..i + 1] == [toks[i].value];
  }

  /** The scan steps over a symbol that is not a bracket. */
  lemma SimpleScan(vals: seq<string>, i: nat)
    requires i < |vals| && vals[i] in {">", "<", "+", "-", ".", ","}
    ensures ScanFrom(vals, i, 0) == ScanFrom(vals, i + 1, 0)
  {
  }

  lemma {:induction false} LoopOutcome(toks: seq<Token>, n: nat, i: nat)
    requires SymbolPrefix(toks, n) && i < n
    requires toks[i].value == "["
    decreases n - i, 1
    ensures ListOutcome(toks, n, i)
  {
    var vals := Values(toks[..n]);
    assert vals[i] == "[";
    LoopScan(vals, i);
    StatementListOutcome(toks, n, i + 1);
    match ScanFrom(vals, i + 1, 0)
    case Closes(k) =>
      ClosedLoopOutcome(toks, n, i, k);
    case Ends(e) =>
      OpenLoopOutcome(toks, n, i, e);
  }

  lemma BracketsDiffer()
    ensures "[" != "]"
  {
    assert "["[0] != "]"[0];
  }

  /** The scan over a `[`: through the loop's body, then on after its `]`. */
  lemma LoopScan(vals: seq<string>, i: nat)
    requires i < |vals| && vals[i] == "["
    ensures ScanFrom(vals, i, 0) ==
      match ScanFrom(vals, i + 1, 0)
      case Closes(k) => ScanFrom(vals, k + 1, 0)
      case Ends(e) => Ends(e + 1)
  {
    BracketsDiffer();
    ScanShift(vals, i + 1, 0);
    assert ScanFrom(vals, i, 0) == ScanFrom(vals, i + 1, 1);
  }

  /** A loop whose body runs to the end of the list: its `]` is missing. */
  lemma OpenLoopOutcome(toks: seq<Token>, n: nat, i: nat, e: nat)
    requires SymbolPrefix(toks, n) && i < n
    requires toks[i].value == "["
    requires ScanFrom(Values(toks[..n]), i + 1, 0) == Ends(e)
    requires ScanFrom(Values(toks[..n]), i, 0) == Ends(e + 1)
    requires ListOutcome(toks, n, i + 1)
    ensures ListOutcome(toks, n, i)
  {
    assert WhileStatement(toks, i + 1) == Err(ExpectedClose);
    assert SingleStatement(toks, i) == Err(ExpectedClose);
  }

  /** A loop whose body stops at the `]` at `k`. */
  lemma {:induction false} ClosedLoopOutcome(toks: seq<Token>, n: nat, i: nat, k: nat)
    requires SymbolPrefix(toks, n) && i < n
    requires toks[i].value == "["
    requires ScanFrom(Values(toks[..n]), i + 1, 0) == Closes(k)
    requires ScanFrom(Values(toks[..n]), i, 0) == ScanFrom(Values(toks[..n]), k + 1, 0)
    requires ListOutcome(toks, n, i + 1)
    decreases n - i, 0
    ensures ListOutcome(toks, n, i)
  {
    var node := LoopNode(toks, n, i, k);
    StatementListOutcome(toks, n, k + 1);
    ChainOutcome(toks, n, i, k + 1, node);
  }

  /** The loop node parsed from the `[` at `i` to the `]` at `k`. */
  lemma LoopNode(toks: seq<Token>, n: nat, i: nat, k: nat) returns (node: Ast)
    requires i < n < |toks| && toks[i].value == "["
    requires ScanFrom(Values(toks[..n]), i + 1, 0) == Closes(k)
    requires ListOutcome(toks, n, i + 1)
    ensures i < k < n && toks[i].value != "]"
    ensures SingleStatement(toks, i) == Ok((node, k + 1)) && node.Node? && node.next == Null
    ensures Unparse(node) == Values(toks[..n])[i..k + 1] && WellFormed(node)
  {
    var body := LoopBody(toks, n, i, k);
    LoopClosesAt(toks, i, k, body);
    LoopText(Values(toks[..n]), i, k, body);
    BracketsDiffer();
    node := Node(While, body, Null);
  }

  /** The body of a loop whose statement list stops at the `]` at `k`. */
  lemma LoopBody(toks: seq<Token>, n: nat, i: nat, k: nat) returns (body: Ast)
    requires i < n < |toks| && toks[i].value == "["
    requires ScanFrom(Values(toks[..n]), i + 1, 0) == Closes(k)
    requires ListOutcome(toks, n, i + 1)
    ensures i < k < n && toks[k].value == "]"
    ensures Values(toks[..n])[i] == "[" && Values(toks[..n])[k] == "]"
    ensures StatementList(toks, i + 1) == Ok((body, k))
    ensures Unparse(body) == Values(toks[..n])[i + 1..k] && WellFormed(body)
  {
    body := StatementList(toks, i + 1).value.0;
    assert Values(toks[..n])[k] == toks[k].value;
  }

  /** `[` at `i` whose body ends at the `]` at `k`. */
  lemma LoopClosesAt(toks: seq<Token>, i: nat, k: nat, body: Ast)
    requires i < k < |toks| && toks[i].value == "[" && toks[k].value == "]"
    requires StatementList(toks, i + 1) == Ok((body, k))
    ensures SingleStatement(toks, i) == Ok((Node(While, body, Null), k + 1))
  {
    assert WhileStatement(toks, i + 1) == Ok((Node(While, body, Null), k + 1));
  }

  /** The loop from the `[` at `i` to the `]` at `k` stands for those texts. */
  lemma LoopText(vals: seq<string>, i: nat, k: nat, body: Ast)
    requires i < k < |vals| && vals[i] == "[" && vals[k] == "]"
    requires Unparse(body) == vals[i + 1..k] && WellFormed(body)
    ensures Unparse(Node(While, body, Null)) == vals[i..k + 1] && WellFormed(Node(While, body, Null))
  {
    assert vals[i..k + 1] == [vals[i]] + vals[i + 1..k] + [vals[k]];
  }

  /** One statement, from `i` up to `j`, followed by the statement list from `j`:
      its outcome from the list's. */
  lemma ChainOutcome(toks: seq<Token>, n: nat, i: nat, j: nat, node: Ast)
    requires i < j <= n < |toks| && toks[i].value != "]"
    requires SingleStatement(toks, i) == Ok((node, j)) && node.Node? && node.next == Null
    requires Unparse(node) == Values(toks[..n])[i..j] && WellFormed(node)
    requires ScanFrom(Values(toks[..n]), i, 0) == ScanFrom(Values(toks[..n]), j, 0)
    requires ListOutcome(toks, n, j)
    ensures ListOutcome(toks, n, i)
  {
    var vals := Values(toks[..n]);
    ListStep(toks, i, j, node);
    match ScanFrom(vals, j, 0) {
      case Closes(m) =>
        var rest := StatementList(toks, j).value.0;
        ChainText(vals, i, j, m, node, rest);
        ClosesOutcome(toks, n, i, node.(next := rest), m);
      case Ends(d) =>
        if d == 0 {
          var rest := StatementList(toks, j).value.0;
          ChainText(vals, i, j, n, node, rest);
          EndsOutcome(toks, n, i, node.(next := rest));
        }
    }
  }

  /** The statement list after a statement that is not the end marker. */
  lemma ListStep(toks: seq<Token>, i: nat, j: nat, node: Ast)
    requires i < |toks| && toks[i].value != "]"
    requires SingleStatement(toks, i) == Ok((node, j)) && node != Null
    ensures StatementList(toks, i) ==
      match StatementList(toks, j)
      case Err(e) => Err(e)
      case Ok((rest, m)) => Ok((node.(next := rest), m))
  {
  }

  /** A statement standing for `vals[i..j]` chained to a list standing for `vals[j..m]`. */
  lemma ChainText(vals: seq<string>, i: nat, j: nat, m: nat, node: Ast, rest: Ast)
    requires i <= j <= m <= |vals|
    requires node.Node? && node.next == Null
    requires Unparse(node) == vals[i..j] && WellFormed(node)
    requires Unparse(rest) == vals[j..m] && WellFormed(rest)
    ensures Unparse(node.(next := rest)) == vals[i..m] && WellFormed(node.(next := rest))
  {
    assert Unparse(node.(next := rest)) == Unparse(node) + Unparse(rest);
    assert vals[i..m] == vals[i..j] + vals[j..m];
  }

  /** `ListOutcome` from its parts, when the scan stops at a `]`. */
  lemma ClosesOutcome(toks: seq<Token>, n: nat, i: nat, a: Ast, m: nat)
    requires n < |toks| && i <= m <= n
    requires ScanFrom(Values(toks[..n]), i, 0) == Closes(m)
    requires StatementList(toks, i) == Ok((a, m))
    requires Unparse(a) == Values(toks[..n])[i..m] && WellFormed(a)
    ensures ListOutcome(toks, n, i)
  {
  }

  /** `ListOutcome` from its parts, when the scan runs to the end with nothing open. */
  lemma EndsOutcome(toks: seq<Token>, n: nat, i: nat, a: Ast)
    requires n < |toks| && i <= n
    requires ScanFrom(Values(toks[..n]), i, 0) == Ends(0)
    requires StatementList(toks, i) == Ok((a, n + 1))
    requires Unparse(a) == Values(toks[..n])[i..n] && WellFormed(a)
    ensures ListOutcome(toks, n, i)
  {
  }

  // ---------------------------------------------------------------------------
  // What `parse` accepts.

  /** Some prefix of `vals` closes a bracket that was never opened. */
  predicate Overcloses(vals: seq<string>)
  {
    exists k :: 0 <= k <= |vals| && Depth(vals[..k]) < 0
  }

  /** `parse` on the tokens of a source: it succeeds exactly when the brackets are
      balanced, and then the AST stands for every token in order (an empty program
      gives `null`); an unmatched `]` gives "Missing [", and otherwise an unclosed
      `[` gives "Expected ] not found". */
  lemma ParseAcceptsBalanced(toks: seq<Token>)
    requires SymbolsOnly(toks)
    ensures Program(toks).Ok? <==> Balanced(Values(toks))
    ensures Program(toks).Ok? ==> Unparse(Program(toks).value) == Values(toks) && WellFormed(Program(toks).value)
    ensures Program(toks).Err? ==> Program(toks).error == if Overcloses(Values(toks)) then MissingOpen else ExpectedClose
  {
    var all := toks + [EndOfProgram];
    var n := |toks|;
    assert all[..n] == toks;
    assert SymbolPrefix(all, n);
    StatementListOutcome(all, n, 0);
    var vals := Values(toks);
    ScanDepth(vals, 0, 0);
    assert vals[0..] == vals && vals[0..n] == vals;
    assert forall k :: 0 <= k <= |vals| ==> vals[0..k] == vals[..k];
    match ScanFrom(vals, 0, 0)
    case Closes(k) =>
      assert Program(toks) == Err(MissingOpen);
    case Ends(d) =>
      if d == 0 {
        assert StatementList(all, 0).value.1 == |all|;
      } else {
        assert StatementList(all, 0) == Err(ExpectedClose);
      }
  }

  /** `[` alone lacks its `]`; `]` alone stops the statement list at once and is
      left over, so it is reported as a missing `[`, not as an unexpected `]`. */
  lemma LoneBrackets()
    ensures Program([Token("[", 1, 1)]) == Err(ExpectedClose)
    ensures Program([Token("]", 1, 1)]) == Err(MissingOpen)
  {
    var open := [Token("[", 1, 1)] + [EndOfProgram];
    assert open[1].value == "EOP" && "EOP" != "]";
    assert SingleStatement(open, 1) == Ok((Null, 2));
    assert StatementList(open, 1) == Ok((Null, 2));
    assert SingleStatement(open, 0) == Err(ExpectedClose);
    var close := [Token("]", 1, 1)] + [EndOfProgram];
    assert StatementList(close, 0) == Ok((Null, 0));
  }

  /** A program with no symbols parses to `null`. */
  lemma EmptyProgram()
    ensures Program([]) == Ok(Null)
  {
    var all: seq<Token> := [] + [EndOfProgram];
    assert all[0].value == "EOP" && "EOP" != "]";
    assert SingleStatement(all, 0) == Ok((Null, 1));
    assert StatementList(all, 0) == Ok((Null, 1));
  }

  /** Parsing the same list a second time (the first parse left its end marker in
      it) fails: with "Missing [" where the first parse succeeded, with the first
      parse's error otherwise. */
  lemma ParseTwice(toks: seq<Token>)
    requires SymbolsOnly(toks)
    ensures Program(toks + [EndOfProgram]) == if Program(toks).Ok? then Err(MissingOpen) else Program(toks)
  {
    var once := toks + [EndOfProgram];
    var twice := once + [EndOfProgram];
    var n := |toks|;
    assert once[..n] == toks && twice[..n] == toks;
    assert SymbolPrefix(once, n);
    assert SymbolPrefix(twice, n);
    StatementListOutcome(once, n, 0);
    StatementListOutcome(twice, n, 0);
  }

  /** There is one loop node per `[`. */
  lemma {:induction false} LoopsCountBrackets(a: Ast)
    ensures Loops(a) == multiset(Unparse(a))["["]
  {
    match a
    case Null =>
    case Node(k, body, next) =>
      LoopsCountBrackets(body);
      LoopsCountBrackets(next);
      if k == While {
        BracketsDiffer();
      } else {
        assert KindSymbol(k) != "[" by { assert KindSymbol(k)[0] != "["[0]; }
      }
  }

  /** What `tokenize` returns is a list of symbol tokens. */
  lemma TokenizedIsSymbols(s: string)
    ensures SymbolsOnly(TokensOf(s))
  {
    TokensAreSymbols(s, |s|);
  }

  /** The texts of a source's tokens are its symbol characters, in order. */
  lemma {:induction false} TokenTexts(s: string, n: nat)
    requires n <= |s|
    ensures Values(TokensUpTo(s, n)) == Texts(SymbolsUpTo(s, n))
  {
    if n > 0 {
      TokenTexts(s, n - 1);
    }
  }

  /** Each character of `str` as a one-character text. */
  function Texts(str: string): (r: seq<string>)
    ensures |r| == |str| && forall k :: 0 <= k < |str| ==> r[k] == [str[k]]
  {
    seq(|str|, k requires 0 <= k < |str| => [str[k]])
  }

  /** The symbol characters among the first `n` characters of `s`. */
  function SymbolsUpTo(s: string, n: nat): string
    requires n <= |s|
  {
    if n == 0 then [] else SymbolsUpTo(s, n - 1) + (if IsSymbol(s[n - 1]) then [s[n - 1]] else [])
  }

  // ---------------------------------------------------------------------------
  // Every AST stands for a balanced text.

  lemma DepthConcat(x: seq<string>, y: seq<string>)
    ensures Depth(x + y) == Depth(x) + Depth(y)
  {
    assert multiset(x + y) == multiset(x) + multiset(y);
  }

  lemma BalancedConcat(x: seq<string>, y: seq<string>)
    requires Balanced(x) && Balanced(y)
    ensures Balanced(x + y)
  {
    DepthConcat(x, y);
    forall k | 0 <= k <= |x + y|
      ensures Depth((x + y)[..k]) >= 0
    {
      if k <= |x| {
        assert (x + y)[..k] == x[..k];
      } else {
        assert (x + y)[..k] == x + y[..k - |x|];
        DepthConcat(x, y[..k - |x|]);
        assert x[..|x|] == x;
      }
    }
  }

  lemma BalancedWrap(x: seq<string>)
    requires Balanced(x)
    ensures Balanced(["["] + x + ["]"])
  {
    var w := ["["] + x + ["]"];
    DepthOne("[");
    DepthOne("]");
    DepthConcat(["["], x);
    DepthConcat(["["] + x, ["]"]);
    forall k | 0 <= k <= |w|
      ensures Depth(w[..k]) >= 0
    {
      if k == 0 {
        assert w[..k] == [];
      } else if k <= |x| + 1 {
        assert w[..k] == ["["] + x[..k - 1];
        DepthConcat(["["], x[..k - 1]);
      } else {
        assert w[..k] == w;
      }
    }
  }

  /** What an AST stands for is balanced: the parser never builds a node it
      could not have parsed. */
  lemma {:induction false} UnparseBalanced(a: Ast)
    ensures Balanced(Unparse(a))
  {
    match a
    case Null =>
      assert multiset(Unparse(a)) == multiset{};
    case Node(k, body, next) =>
      UnparseBalanced(body);
      UnparseBalanced(next);
      if k == While {
        BalancedWrap(Unparse(body));
        BalancedConcat(["["] + Unparse(body) + ["]"], Unparse(next));
      } else {
        var v := KindSymbol(k);
        assert v != "[" && v != "]" by { assert v[0] != "["[0] && v[0] != "]"[0]; }
        DepthOne(v);
        assert Balanced([v]) by {
          assert forall j :: 0 <= j <= 1 ==> [v][..j] == [] || [v][..j] == [v];
        }
        BalancedConcat([v], Unparse(next));
      }
  }
}

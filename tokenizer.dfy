/** The tokenizer (tokenizer.js): a left-to-right scan that keeps the eight symbol
    characters of the language and records the line and column of each.

    The source string is a `seq<char>`; each `char` stands for one UTF-16 code unit
    of the JavaScript string. */
module Tokenizer {
  import opened Errors

  /** A token: its text, and the 1-based line and column it was found at
      (-1 when not given). The end-of-program marker is the token with text "EOP". */
  datatype Token = Token(value: string, line: int, position: int)
  {
    /** `equals(tok)`: `tok` is a Token at all (`Some`) and has the same text.
        `None` stands for any argument that is not a Token (`null`, a string, ...). */
    predicate Equals(tok: Option<Token>)
      ensures tok == Some(this) ==> Equals(tok)
      ensures tok.None? ==> !Equals(tok)
      ensures Equals(tok) <==> tok.Some? && tok.value.value == value
    {
      tok.Some? && tok.value.value == value
    }
  }

  /** The constructor stores `line || -1` and `position || -1`: a missing
      (`None`) or zero argument becomes -1, any other number is kept. */
  function NewToken(value: string, line: Option<int>, position: Option<int>): (t: Token)
    ensures t.value == value
    ensures line.Some? && line.value != 0 ==> t.line == line.value
    ensures line == None || line == Some(0) ==> t.line == -1
    ensures position.Some? && position.value != 0 ==> t.position == position.value
    ensures position == None || position == Some(0) ==> t.position == -1
  {
    Token(value, OrUnset(line), OrUnset(position))
  }

  /** JavaScript's `x || -1` on a number that may be absent. */
  function OrUnset(x: Option<int>): int
  {
    if x.Some? && x.value != 0 then x.value else -1
  }

  /** `equals` is an equivalence on tokens that looks at the text only. */
  lemma EqualsIsEquivalenceOnValue(a: Token, b: Token, c: Token)
    ensures a.Equals(Some(a))
    ensures a.Equals(Some(b)) <==> b.Equals(Some(a))
    ensures a.Equals(Some(b)) && b.Equals(Some(c)) ==> a.Equals(Some(c))
    ensures a.Equals(Some(b)) <==> a.value == b.value
    ensures !a.Equals(None)
    ensures a.Equals(Some(b)) <==> a.Equals(Some(b.(line := -1, position := -1)))
  {
  }

  /** The pattern `_valid_ones`: `>|<|\+|\-|\.|,|\[|\]`. */
  predicate IsSymbol(c: char)
  {
    c == '>' || c == '<' || c == '+' || c == '-' || c == '.' || c == ',' || c == '[' || c == ']'
  }

  /** The pattern `_white_space`: `.|\r|\n`. In a JavaScript regular expression `.`
      matches every code unit but the line terminators \n, \r, U+2028 and U+2029;
      the alternatives put \r and \n back, so only U+2028 and U+2029 fail it. */
  predicate IsSkippable(c: char)
  {
    c != '\U{2028}' && c != '\U{2029}'
  }

  /** The value of `line_count` when the scan reaches index `i`. */
  function Line(s: string, i: nat): (r: int)
    requires i <= |s|
    ensures r >= 1
  {
    if i == 0 then 1 else Line(s, i - 1) + (if s[i - 1] == '\n' then 1 else 0)
  }

  /** The value of `pos_count` when the scan reaches index `i`. */
  function Column(s: string, i: nat): (r: int)
    requires i <= |s|
    ensures 1 <= r <= i + 1
  {
    if i == 0 then 1 else if s[i - 1] == '\n' then 1 else Column(s, i - 1) + 1
  }

  /** The token made for the symbol at index `i`. */
  function TokenAt(s: string, i: nat): Token
    requires i < |s|
  {
    Token([s[i]], Line(s, i), Column(s, i))
  }

  /** The tokens made while scanning the first `n` characters. */
  function TokensUpTo(s: string, n: nat): seq<Token>
    requires n <= |s|
  {
    if n == 0 then []
    else TokensUpTo(s, n - 1) + (if IsSymbol(s[n - 1]) then [TokenAt(s, n - 1)] else [])
  }

  /** The token list of a whole source. */
  function TokensOf(s: string): seq<Token>
  {
    TokensUpTo(s, |s|)
  }

  /** The indices of the symbol characters among the first `n`, in order. */
  function SymbolIndices(s: string, n: nat): seq<nat>
    requires n <= |s|
  {
    if n == 0 then []
    else SymbolIndices(s, n - 1) + (if IsSymbol(s[n - 1]) then [n - 1] else [])
  }

  /** `tokenize(source)`: the scan of tokenizer.js. It throws SyntaxError exactly
      when some character is neither a symbol nor skippable; otherwise it returns
      the tokens of the symbols, in order, with their lines and columns. */
  method Tokenize(source: string) returns (r: Result<seq<Token>>)
    ensures r.Err? <==> exists i :: 0 <= i < |source| && !IsSymbol(source[i]) && !IsSkippable(source[i])
    ensures r.Err? ==> r.error == UnexpectedSymbol
    ensures r.Ok? ==> r.value == TokensOf(source)
  {
    var lineCount := 1;
    var posCount := 1;
    var tokenList: seq<Token> := [];
    for i := 0 to |source|
      invariant lineCount == Line(source, i)
      invariant posCount == Column(source, i)
      invariant tokenList == TokensUpTo(source, i)
      invariant forall j :: 0 <= j < i ==> IsSymbol(source[j]) || IsSkippable(source[j])
    {
      var symbol := source[i];
      if IsSymbol(symbol) {
        tokenList := tokenList + [NewToken([symbol], Some(lineCount), Some(posCount))];
      } else if !IsSkippable(symbol) {
        return Err(UnexpectedSymbol);
      }
      if symbol == '\n' {
        lineCount := lineCount + 1;
        posCount := 1;
      } else {
        posCount := posCount + 1;
      }
    }
    return Ok(tokenList);
  }

  /** A token's line is 1 plus the number of line feeds before it. */
  lemma {:induction false} LineCountsLineFeeds(s: string, i: nat)
    requires i <= |s|
    ensures Line(s, i) == 1 + multiset(s[..i])['\n']
  {
    if i > 0 {
      LineCountsLineFeeds(s, i - 1);
      assert s[..i] == s[..i - 1] + [s[i - 1]];
    }
  }

  /** A token's column is 1 plus the number of characters (skipped ones included)
      since the last line feed before it, or since the start of the source. */
  lemma {:induction false} ColumnCountsSinceLineFeed(s: string, i: nat)
    requires i <= |s|
    ensures var start := i + 1 - Column(s, i);
      && 0 <= start <= i
      && (forall j :: start <= j < i ==> s[j] != '\n')
      && (start == 0 || s[start - 1] == '\n')
  {
    if i > 0 && s[i - 1] != '\n' {
      ColumnCountsSinceLineFeed(s, i - 1);
    }
  }

  /** The tokens are exactly the symbol characters of the source, in source order:
      the k-th token is the one for the k-th symbol occurrence, every symbol
      occurrence has its token, and there is one token per symbol character. */
  lemma TokensAreSymbolOccurrences(s: string, n: nat)
    requires n <= |s|
    ensures var idx := SymbolIndices(s, n);
      && |TokensUpTo(s, n)| == |idx|
      && (forall k :: 0 <= k < |idx| ==> idx[k] < n && TokensUpTo(s, n)[k] == TokenAt(s, idx[k]))
      && (forall k, l :: 0 <= k < l < |idx| ==> idx[k] < idx[l])
      && (forall j :: 0 <= j < n ==> (IsSymbol(s[j]) <==> j in idx))
      && |idx| == |set j | 0 <= j < n && IsSymbol(s[j])|
  {
    TokensFollowIndices(s, n);
    IndicesAreOccurrences(s, n);
    IndicesCountSymbols(s, n);
  }

  lemma {:induction false} TokensFollowIndices(s: string, n: nat)
    requires n <= |s|
    ensures var idx := SymbolIndices(s, n);
      && |TokensUpTo(s, n)| == |idx|
      && (forall k :: 0 <= k < |idx| ==> idx[k] < n && TokensUpTo(s, n)[k] == TokenAt(s, idx[k]))
  {
    if n > 0 {
      TokensFollowIndices(s, n - 1);
    }
  }

  lemma {:induction false} IndicesAreOccurrences(s: string, n: nat)
    requires n <= |s|
    ensures var idx := SymbolIndices(s, n);
      && (forall k :: 0 <= k < |idx| ==> idx[k] < n)
      && (forall k, l :: 0 <= k < l < |idx| ==> idx[k] < idx[l])
      && (forall j :: 0 <= j < n ==> (IsSymbol(s[j]) <==> j in idx))
  {
    if n > 0 {
      IndicesAreOccurrences(s, n - 1);
    }
  }

  lemma {:induction false} IndicesCountSymbols(s: string, n: nat)
    requires n <= |s|
    ensures |SymbolIndices(s, n)| == |set j | 0 <= j < n && IsSymbol(s[j])|
  {
    if n > 0 {
      IndicesCountSymbols(s, n - 1);
      var before := set j | 0 <= j < n - 1 && IsSymbol(s[j]);
      var now := set j | 0 <= j < n && IsSymbol(s[j]);
      if IsSymbol(s[n - 1]) {
        assert now == before + {n - 1};
      } else {
        assert now == before;
      }
    }
  }

  /** Every token of a tokenized source is one of the eight one-character symbols. */
  lemma {:induction false} TokensAreSymbols(s: string, n: nat)
    requires n <= |s|
    ensures forall k :: 0 <= k < |TokensUpTo(s, n)| ==>
      |TokensUpTo(s, n)[k].value| == 1 && IsSymbol(TokensUpTo(s, n)[k].value[0])
  {
    if n > 0 {
      TokensAreSymbols(s, n - 1);
    }
  }
}

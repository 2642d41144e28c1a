/** The failure values of the pipeline.
    Every stage of the source signals an error by throwing a plain object with a
    `name` and a `message`; here such an object is an `Error` value and a stage that
    may throw returns a `Result`. */
module Errors {

  /** An absent value (JavaScript `null` or `undefined`) or a present one. */
  datatype Option<T> = None | Some(value: T)

  /** A thrown `{ name, message }` object. */
  datatype Error = Error(name: string, message: string)

  /** The value a stage returns, or the error it throws. */
  datatype Result<T> = Ok(value: T) | Err(error: Error)

  // Errors thrown by the tokenizer (tokenizer.js)
  const UnexpectedSymbol := Error("SyntaxError", "Unexpected symbol in input")

  // Errors thrown by the AST node constructor and the parser (parser.js)
  const UnsupportedNodeName := Error("Error", "Attempted to create ast node with unsupported name")
  const UnexpectedEnd := Error("ParsingError", "Unexpected end of program")
  const UnexpectedClose := Error("ParsingError", "Unexpected ]")
  const UnknownToken := Error("ParsingError", "Unknown token in input")
  const ExpectedClose := Error("ParsingError", "Expected ] not found")
  const MissingOpen := Error("ParsingError", "Missing [")

  /** `walker.look_ahead_token().value()` when the cursor is exhausted: the
      engine's own error for a property read on `null`. */
  const NullLookahead := Error("TypeError", "Cannot read properties of null (reading 'value')")

  // Error thrown by the compiler (compiler.js)
  const WhileOutsideVisitor := Error("RuntimeError", "While node must be processed via visitor")

  /** `ast.accept(this)` in `compile` when the AST is `null` (an empty program). */
  const NullAst := Error("TypeError", "Cannot read properties of null (reading 'accept')")

  // Errors thrown by the virtual machine (vm.js)
  const ReadNotSupported := Error("RuntimeError", "Not supported in this VM")
}

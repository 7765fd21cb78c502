/** The parser's error values (`ParseError`). Each carries the kind of the
    token it was raised at rather than its rendered text; positions are
    not part of this model. */
module Errors {
  import opened Tokens
  import opened Syntax

  datatype ParseError =
    | ExpectedTopLevelElement(found: TokenKind)
    | ExpectedModuleElement(found: TokenKind)
    | ExpectedToken(expected: TokenKind, found: TokenKind)
      /** `ExpectedToken("input, output, var, or const", …)` from `parse_field`. */
    | ExpectedFieldKeyword(found: TokenKind)
    | ExpectedIdentifier(found: TokenKind)
    | ExpectedFactor(found: TokenKind)
    | ExpectedType(found: TokenKind)
    | ExpectedBlock
    | UnknownAnnotation(found: TokenKind)
    | RedundantAnnotation(found: TokenKind)
    | MisplacedAnnotation(modifier: Modifier)
    | MisplacedElse
    | NumberOverflow(suffix: IntSuffix)
      /** The panic of `create_binary` on an operator it has no mapping for. */
    | UnimplementedOperator(operator: TokenKind)
      /** The `unreachable!()` of `parse_lit_bitvec` on text that does not
          read as two `usize` numbers. */
    | MalformedBitVec
}

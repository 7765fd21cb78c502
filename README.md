# llama-synth parser and SMT context, in Dafny

This project models two parts of llama-synth, a synthesis tool for UCLID5-style
modules.

**The parser.** `src/parser/parser.rs` is a recursive-descent parser. It reads
the lexer's tokens and builds the concrete syntax tree (CST) of modules. Those
modules hold inputs, outputs, variables and constants, types, `define`
macros, functions, procedures, theorems and lemmas, and the `init`, `next` and
`control` blocks. The model:

- `Parsing.Parser` is a class over the token sequence the lexer produces.
  Its fields are what `Parser` updates in place: the current token, the end of
  the token consumed last (`lcst_end`), `param_idx` and `parse_struct_lit`.
- Every `parse_*` function becomes a method of that class. Its contract states
  the error it reports on a wrong token and the shape of the node it builds.
  It also states three things true of every node:
  - the node's span runs from the first token it read to the end of the last
    token it consumed;
  - its id was drawn from the `NodeIdGenerator` during that parse;
  - it changes state only forward.
- The precedence climbing of `parse_binary` builds the tree that splits at the
  last operator of lowest precedence, and its contract places that tree in
  the tokens. The operators are operator tokens, in source order. Each
  operand fills the tokens between two operators, and an operand that is
  itself binary begins with `(` and ends with `)`. Parentheses are not
  matched to each other, so this alone does not fix every tree. Where the
  operands are literals or names, though, the tokens fix the tree: for
  any such chain the operators are the tokens between the atoms, and
  `a + b * c` is proved to read as `a + (b * c)`, and `a - b - c` as
  `(a - b) - c`.
- The annotation reader, the number parsing of literals and the way
  `parse_module_body` distributes elements over a module's lists are pure
  functions with lemmas about them.

**The context.** `src/context/mod.rs` is the symbol table of the SMT back end.
It maps each function symbol to its list of signatures (a multimap), keeps
defined bodies and the logic in use, and computes the sort of a term.
`SmtContext.Context` is a class with those three fields. Its table operations
are specified through `Insert`/`InsertAll` on a `map<string, seq<Sig>>`, and
the lemmas state what the built-in Boolean and integer operators are.
`GetSort` is proved equal to the recursive function `SortOf`, whose lemmas
say that the result is:

- the earliest matching signature of a declared name;
- `Int` for an undeclared name that reads as an `i64`;
- an error as soon as any argument has no sort.

Modules:

- `Wrappers`: Option and Result.
- `Tokens`: token kinds, spans, and the ordering the lexer guarantees.
- `Numerals`: digit strings, `from_str_radix`, `parse::<i64>` and bit
  vectors.
- `Syntax`: CST datatypes.
- `Errors`: `ParseError`.
- `Annotations`: `@inline` and `@synthesis`.
- `Precedence`: the operator table and the tree it yields.
- `NodeIds`: `NodeIdGenerator`.
- `Interning`: the interner, as much as the parser uses.
- `ListItems`: the elements of comma lists.
- `ModuleItems`: the module body.
- `Parsing`: the parser.
- `SmtContext`: the context.

## Model

| member | source | states |
|---|---|---|
| NodeIds.NodeIdGenerator.constructor | src/parser/parser.rs:1611-1615 | a fresh generator stands at 1 |
| NodeIds.NodeIdGenerator.Next | src/parser/parser.rs:1617-1622 | returns the current value and moves the counter one past it, so ids handed out are strictly increasing |
| NodeIds.NodeIdGenerator.FirstThreeIds | src/parser/parser.rs:1611-1622 | a fresh generator hands out 1, 2 and 3 |
| Interning.Interner.Intern | src/parser/parser.rs:1552 | the symbol names the string; a known string keeps its symbol and the table, a new one gets the next symbol; no string is ever interned twice |
| Interning.Interner.Str | src/parser/parser.rs:263 | the string of a symbol, and the symbol is the only one naming that string |
| Annotations.ModifierNamed | src/parser/parser.rs:263-272 | `inline` and `synthesis` are the only annotation names, and they denote Inline and Synthesis respectively |
| Annotations.ModifierName | src/parser/parser.rs:263-272 | the name of a modifier reads back as that modifier |
| Annotations.AnnotationsDistinct | src/parser/parser.rs:274-279 | the annotations read never repeat a modifier |
| Annotations.SpelledAnnotationsRead | src/parser/parser.rs:255-285 | tokens spelling `@name` for distinct modifiers are read back as exactly those entries |
| Annotations.ReadAnnotationsSpelled | src/parser/parser.rs:255-285 | whatever is read successfully is spelled out in the tokens as `@name` pairs, followed by a non-`@` token |
| Annotations.RestrictModifiers | src/parser/parser.rs:291-306 | succeeds iff every modifier is allowed; otherwise reports the first one that is not |
| Annotations.BanModifiers | src/parser/parser.rs:287-289 | succeeds iff there are no annotations; otherwise reports the first |
| Precedence.TokenPrecedence | src/parser/parser.rs:1207-1230 | the operator tokens and `:` have levels 1 to 10; every other token ends a binary expression |
| Precedence.OperatorPrecedence | src/parser/parser.rs:1207-1225 | the operator rows of the table, levels 1 to 9 |
| Precedence.TablesAgree | src/parser/parser.rs:1330-1377 | each operator `create_binary` builds was parsed at its table level, and `+=` is the only token with a level and no operator |
| Precedence.SplitIndexLowest | src/parser/parser.rs:1232-1241 | the split operator binds no tighter than any other and looser than every later one |
| Precedence.SplitIndexUnique | src/parser/parser.rs:1232-1241 | that position is the only one with this property |
| Precedence.Combine | src/parser/parser.rs:1238-1242 | joining a left tree and a tighter right tree at an operator gives the tree of the concatenated operands |
| Precedence.TighterOperatorNestsRight | src/parser/parser.rs:1202-1245 | `a o1 b o2 c` with `o2` tighter parses as `a o1 (b o2 c)` |
| Precedence.LooserOrEqualNestsLeft | src/parser/parser.rs:1202-1245 | `a o1 b o2 c` with `o1` at least as tight parses as `(a o1 b) o2 c` |
| Precedence.SameLevelAssociatesLeft | src/parser/parser.rs:1202-1245 | a chain of one level associates to the left |
| Numerals.StripUnderscores | src/parser/parser.rs:1458 | the filtered text contains no `_` and is no longer than the original |
| Numerals.StripAppend | src/parser/parser.rs:1458 | filtering distributes over concatenation |
| Numerals.UnderscoreIgnored | src/parser/parser.rs:1458 | an underscore anywhere does not change the filtered text |
| Numerals.StripIdentity | src/parser/parser.rs:1458 | text without underscores passes the filter unchanged |
| Numerals.DigitValue | src/parser/parser.rs:1459 | digits and letters of either case have values 0 to 35, and nothing else has a value |
| Numerals.ParseUnsigned | src/parser/parser.rs:1459 | a result is at most the bound, and it is the value of the digits after an optional `+`, all of them digits of the radix |
| Numerals.RenderRoundTrip | src/parser/parser.rs:1459 | a rendered number within the bound reads back as itself (the partner of `ParseUnsigned`) |
| Numerals.ValueOfRender | src/parser/parser.rs:1459 | the rendered digits denote the number |
| Numerals.TwentyNinesOverflow | src/parser/parser.rs:1459-1479 | twenty nines do not fit in `u64`, so such a literal is an overflow |
| Numerals.ParseI64 | src/context/mod.rs:96 | a result lies in the `i64` range |
| Numerals.SignedRoundTrip | src/context/mod.rs:96 | every `i64`, rendered in decimal with a leading `-` when negative, reads back as itself |
| Numerals.UnbitsOfBits | src/parser/parser.rs:1518-1522 | the first `w` bits of `v` denote `v` modulo 2 to the `w` |
| Numerals.BitsOf | src/parser/parser.rs:1518-1522 | the loop yields `w` bits, bit `i` being bit `i` of the value |
| Syntax.EmptyModule | src/parser/parser.rs:103-125 | a module as created: its id and name, every list empty and no blocks |
| ListItems.SymbolsOf | src/parser/parser.rs:739 | the variants' symbols, one per name in order |
| ModuleItems.AddItemLists | src/parser/parser.rs:144-240 | one element appends to the list of its kind only; a lemma goes to the theorems |
| ModuleItems.FoldAppends | src/parser/parser.rs:141-249 | the loop appends to a list exactly the elements that list collects |
| ModuleItems.FieldsKeepSourceOrder | src/parser/parser.rs:145-170 | inputs, outputs, variables and constants gain the fields of their kind in source order |
| ModuleItems.DeclsKeepSourceOrder | src/parser/parser.rs:172-219 | types, macros, functions, procedures and theorems gain their declarations in source order; theorems gain the lemmas too, and the lemma list stays empty |
| ModuleItems.ListsKeepSourceOrder | src/parser/parser.rs:141-249 | every list of a module in one statement |
| ModuleItems.LastBlockWins | src/parser/parser.rs:221-240 | of several `init`, `next` or `control` blocks the last one is kept |
| Parsing.ItemsOkGrows | src/parser/parser.rs:574-575 | an element read after the others, with an id above theirs, keeps the list's ids in [lo, hi) and rising from each element to the next, and the parameter numbering consecutive |
| Parsing.ItemsOkList | src/parser/parser.rs:563-585 | ids rising from each element to the next rise from every element to every later one, so the list's ids are distinct and in source order |
| Parsing.ListReadNames | src/parser/parser.rs:563-585 | a list read and closed stays so when more strings are interned afterwards |
| Parsing.ListAtGrows | src/parser/parser.rs:574-580 | an element read at the first token, or right after the comma that follows the last element, extends the list's positions, the comma flag now saying whether a comma follows it |
| Parsing.ListNamesEveryOther | src/parser/parser.rs:563-581 | in a list of names, name `i` is the identifier token `2i` places after the list's start, and the token after it is a comma exactly when another name follows or the list has a trailing comma |
| Parsing.OperatorsJoin | src/parser/parser.rs:1236-1241 | the operators of the joined expression are those of the left part, the new one and those of the right part, in token order |
| Parsing.PrecedenceJoin | src/parser/parser.rs:1232-1241 | after a join, every operator still binds tighter than the level of the call |
| Parsing.JoinOperands | src/parser/parser.rs:1236-1243 | one loop step of `parse_binary` keeps the tree, the operator and operand positions, and the precedence invariants |
| Parsing.UnitsJoin | src/parser/parser.rs:1236-1241 | operands before an operator token and operands after it together fill the tokens between the joined operators |
| Parsing.ThreeOperands | src/parser/parser.rs:1202-1245 | tokens `a o1 b o2 c`, literals or names around two binary operators, read as one binary expression up to a token with no level, give exactly the two operators, at the tokens between the atoms, and three operands |
| Parsing.AtomChain | src/parser/parser.rs:1202-1245 | literals or names joined by operators, read as one binary expression up to a token with no level: the operands are the atoms, one token each, and the operators are the tokens between them, so the tree is the one split at the last loosest of those operators |
| Parsing.AtomChainFrom | src/parser/parser.rs:1232-1241 | by induction over the operators: each is the token right after the atom before it |
| Parsing.ProductNestsInSum | src/parser/parser.rs:1202-1245 | `a + b * c` reads as `a + (b * c)` |
| Parsing.DifferenceAssociatesLeft | src/parser/parser.rs:1202-1245 | `a - b - c` reads as `(a - b) - c` |
| Parsing.PostfixStep | src/parser/parser.rs:1278-1327 | a suffix read right after the suffixes so far extends both the chain of forms around the factor and the suffix positions |
| Parsing.WrapOnce | src/parser/parser.rs:1279-1320 | wrapping once more adds that form to the chain around the factor |
| Parsing.PrimaryUnit | src/parser/parser.rs:1274-1328 | a primary read from a factor is an operand that `parse_binary` places between operators: binary only when parenthesised, and a literal or name with more tokens after it is followed by a postfix token |
| Parsing.ElementsGrow | src/parser/parser.rs:141-249 | an element read where the elements so far end extends their positions |
| Parsing.ItemForKeyword | src/parser/parser.rs:144-240 | the element each arm produces is exactly an element whose keyword was read, a function marked for synthesis iff annotated so |
| Parsing.VariantsEveryOther | src/parser/parser.rs:732-739 | the symbols of a list of names closed by a `}` are variants read at every other token from the list's start, each interning its identifier, with commas between; the `}` comes right after the last variant or after the comma following it, and at the start when there is none |
| Parsing.LiteralValue | src/parser/parser.rs:1458-1459 | a literal's value fits in `u64` |
| Parsing.StepCount | src/parser/parser.rs:926-950 | a step count is read iff the token is an integer literal that fits in `u64`; otherwise the error is reported |
| Parsing.BitVecNumbers | src/parser/parser.rs:1510-1517 | value and width, when both read, fit in 64 bits |
| Parsing.ClausesJoin | src/parser/parser.rs:401-421 | the clauses of two rounds have their ids in the union of the ranges |
| Parsing.EnumSpanLengthAsWritten | src/parser/parser.rs:728-741 | the span length computed as written for `enum` without variants is never positive, and is negative exactly when space separates `enum` from `;` |
| Parsing.EnumWithoutVariantsUnderflows | src/parser/parser.rs:728-741 | `type T = enum ;` gives length -1 |
| Parsing.Parser.constructor | src/parser/parser.rs:31-53 | nothing read, a placeholder `End` token with an invalid span, `lcst_end` 0, `param_idx` 0, struct literals allowed |
| Parsing.Parser.SpanFrom | src/parser/parser.rs:1600-1602 | the span from `start` to the end of the token consumed last |
| Parsing.Parser.Init | src/parser/parser.rs:72-76 | after the first read, the first token is current and nothing counts as consumed |
| Parsing.Parser.AdvanceToken | src/parser/parser.rs:1585-1598 | returns the old token, makes the next one current and records the end of the old one; past the end the lexer repeats `End` |
| Parsing.Parser.ExpectToken | src/parser/parser.rs:1572-1583 | consumes the token iff it has the kind; otherwise reports expected and found and consumes nothing |
| Parsing.Parser.ExpectIdent | src/parser/parser.rs:1546-1566 | consumes a token; succeeds iff it is an identifier, whose name is interned, spans the token and takes the next id |
| Parsing.Parser.ParseIdent | src/parser/parser.rs:1397-1408 | an identifier expression with the name's id, span and symbol; otherwise the identifier error |
| Parsing.Parser.ParseLitInt | src/parser/parser.rs:1452-1484 | succeeds iff the digits without underscores fit in `u64`, with that value, base, suffix and span; otherwise an overflow error naming the suffix |
| Parsing.Parser.ParseLitFloat | src/parser/parser.rs:1486-1502 | a float literal holding the token's text and span |
| Parsing.Parser.ParseLitBitVec | src/parser/parser.rs:1504-1531 | succeeds iff value and width read as numbers; then the vector has `w` bits, the low bits of the value |
| Parsing.Parser.ParseBoolLiteral | src/parser/parser.rs:1533-1544 | `true` or `false` with the token's span |
| Parsing.Parser.ParseAtom | src/parser/parser.rs:1379-1395 | a literal or identifier of the shape its token calls for; any other token is not a factor |
| Parsing.Parser.ParseFactor | src/parser/parser.rs:1379-1395 | a factor of the shape its first token calls for, spanning the tokens read; a literal or name is that one token and a parenthesised factor ends at `)`; a token that starts no factor is reported |
| Parsing.Parser.ParseParenFactor | src/parser/parser.rs:1381 | the `(` arm: a factor read from `(` that ends at the `)` consumed last |
| Parsing.Parser.ParseBlockFactor | src/parser/parser.rs:1382 | the `{` arm: a block read from `{`, spanning the tokens read |
| Parsing.Parser.ParseIfFactor | src/parser/parser.rs:1383 | the `if` arm: an if-expression read from `if`, spanning the tokens read |
| Parsing.Parser.ParseAtomFactor | src/parser/parser.rs:1384-1393 | the remaining arms: a literal or name that is the one token read, and any other token reported as no factor |
| Parsing.Parser.ParseCommaList | src/parser/parser.rs:555-586 | elements of the asked kind with increasing ids, parameters numbered on from `param_idx`, and the closing token consumed; element 0 starts at the first token and each later one right after the comma that follows the one before; the token after each element but the last is a comma, and after the last a comma exactly when the list has a trailing comma; the closer comes right after the last element or that comma; the empty list exactly when the closer comes first, and then only the closer is consumed; otherwise the error at a missing comma, the end of input, or the element that failed, which starts the list or follows a comma |
| Parsing.Parser.ParseListItems | src/parser/parser.rs:563-581 | the loop stops at `stop` or the end of input with the elements in source order: increasing ids, element `i` read from the tokens recorded for it, separated by single commas, the last followed by a comma exactly when one was read after it; a failing element starts the list or follows a comma; a missing comma between elements is the comma error |
| Parsing.Parser.ParseListTurn | src/parser/parser.rs:566-578 | one iteration: without a comma after the previous element, the comma error at the current token and nothing consumed; otherwise the list so far with one more element appended, read from the current token, keeping the list's positional state |
| Parsing.Parser.CloseList | src/parser/parser.rs:583-585 | the closer after the elements is consumed and the list returned unchanged with its positions; at the end of input instead, the expected-closer error with nothing consumed |
| Parsing.Parser.ParseListNext | src/parser/parser.rs:574-578 | the element read after a comma (or as the first) extends the list's positional state: it starts at the current token and the comma flag records whether a comma follows it |
| Parsing.Parser.ParseListEntry | src/parser/parser.rs:574-580 | one element of the asked kind with a fresh id, read from the current token, then a comma consumed iff one follows; the element ends two tokens before the cursor, or three after a comma |
| Parsing.Parser.ParseElement | src/parser/parser.rs:546-549 | the element closure: counted kinds bump `param_idx` first and a parameter takes the number it had before the bump; the element is read from the current token |
| Parsing.Parser.ParseParamElement | src/parser/parser.rs:546-549 | the parameter arm: `param_idx` bumped, then a parameter numbered by its old value and read from the current token |
| Parsing.Parser.ParseNameElement | src/parser/parser.rs:646 | the name arm: an identifier read from the current token |
| Parsing.Parser.ParseProcedureParam | src/parser/parser.rs:588-606 | `name: type`, numbered by `param_idx`, spanning what it read, with the name's text; otherwise the identifier error |
| Parsing.Parser.ParseTypeIdent | src/parser/parser.rs:668-717 | a tuple iff the type starts with `(`, a plain name without parameters for an identifier; any other token is not a type |
| Parsing.Parser.ParseBasicType | src/parser/parser.rs:671-692 | a named type interning the identifier consumed last; for an identifier, that one token and no parameters; after `[`, the parameters as the comma list from the token after `[` up to the `]` right before the name, each parameter a type read at its position |
| Parsing.Parser.ParseTypeParams | src/parser/parser.rs:677-680 | `[` consumed, then the types of the comma list up to the `]` consumed last, each placed at its position |
| Parsing.Parser.ParseTupleType | src/parser/parser.rs:694-710 | a tuple type spanning from `(` to the `)` consumed last, its subtypes the comma list between them, each placed at its position |
| Parsing.Parser.ParseExpression | src/parser/parser.rs:1179-1181 | an expression read with struct literals allowed; `{` starts a block and `if` an if-expression |
| Parsing.Parser.ParseExpressionNoStructLit | src/parser/parser.rs:1183-1185 | the same with struct literals off |
| Parsing.Parser.ParseExpressionStructLit | src/parser/parser.rs:1187-1200 | `parse_struct_lit` is set for the expression and restored afterwards |
| Parsing.Parser.SetStructLit | src/parser/parser.rs:1188-1189 | sets the flag and returns its old value |
| Parsing.Parser.ParseBinary | src/parser/parser.rs:1202-1245 | the tree of operands `units` and operators `ops` that splits at the last loosest operator; the operators are the operator tokens at `opAt`, in source order, after the first token read; operand `i` fills the tokens between operators `i - 1` and `i` (the first from the first token, the last to the token consumed last), and is binary only when it begins with `(` and ends with `)`; every operator binds tighter than the level given, and the token it stops at does not |
| Parsing.Parser.ParseBinaryRest | src/parser/parser.rs:1206-1244 | the loop of `parse_binary` from the operand read at the first token: the same tree, operator positions and operand positions, up to a token of no higher level |
| Parsing.Parser.ParseBinaryStep | src/parser/parser.rs:1236-1243 | the operator token at the cursor and its right operand join the left part: the tree, its operator positions and its operand positions extend over the tokens read, and the bounds on the levels still hold |
| Parsing.Parser.CreateBinary | src/parser/parser.rs:1330-1377 | the binary node of the token's operator with both operands and the next id; `+=` is an error |
| Parsing.Parser.ParseOperand | src/parser/parser.rs:1236-1241 | consumes the operator, reads the right operand at the operator's level, its operators and operands placed in the tokens after the operator, and joins it to the left part with the operator of that token |
| Parsing.Parser.ParseUnary | src/parser/parser.rs:1247-1272 | `+`, `-` or `!` before a factor gives that unary node; a second prefix operator is not a factor; the result is an operand placed from the first token read to the last, binary only when parenthesised |
| Parsing.Parser.ParsePrimaryUnit | src/parser/parser.rs:1270 | without a prefix operator, a primary, placed as an operand from the first token read to the last |
| Parsing.Parser.ParseOperandOf | src/parser/parser.rs:1260-1268 | the unary node of the given operator around the primary that follows, spanning from the operator; otherwise the factor error |
| Parsing.Parser.ParsePrimary | src/parser/parser.rs:1274-1328 | a factor read from the first token, then the postfix forms in the order of their tokens: member access for `.`, call for `(`, indexing for `[`, each suffix starting right after the previous one, the result unwrapping to the factor along those forms, outermost last; it stops at the first token that is not postfix, and with no suffix the result is the factor |
| Parsing.Parser.ParsePostfixes | src/parser/parser.rs:1278-1327 | the loop after the factor: the chain of suffixes, ending in an operand read from the factor's first token |
| Parsing.Parser.ParsePostfixChain | src/parser/parser.rs:1278-1327 | each turn reads one suffix at the current token and wraps the expression so far in it; the suffixes lie in order after the factor and stop at a token that is not postfix |
| Parsing.Parser.ParsePostfixTurn | src/parser/parser.rs:1278-1327 | one turn: the suffix at the current token wraps the expression so far, extending the chain around the factor and the suffix positions |
| Parsing.Parser.ParsePostfix | src/parser/parser.rs:1279-1326 | one `.`, `(` or `[` suffix: its form is that of the token, it is read from that token to the token consumed last, and it wraps the expression so far once |
| Parsing.Parser.ParseMember | src/parser/parser.rs:1280-1292 | `.factor` gives a member access on the expression |
| Parsing.Parser.ParseApplication | src/parser/parser.rs:1294-1321 | `(args)` gives a call of the expression and `[args]` an indexing of it, the arguments being the comma list after the opener up to the matching closer consumed last, each placed at its position |
| Parsing.Parser.ParseArguments | src/parser/parser.rs:1295-1297 | the opener consumed, then the expressions of the comma list up to `stop`, consumed last, each placed at its position, with ids drawn during the call |
| Parsing.Parser.ParseParentheses | src/parser/parser.rs:1410-1450 | `(` is required; the first expression lies within the tokens after it up to `firstEnd`; when no comma follows, the result is that expression and the `)` right after it is consumed last (`(e)` is `e`); when a comma follows, a tuple spanning from `(` whose element `i` was read from the tokens recorded for it, element 0 being the first expression, each later one right after the comma that ends the one before, the `)` right after the last element or after its trailing comma (`(e,)` is a one-element tuple) |
| Parsing.Parser.ParseParenthesized | src/parser/parser.rs:1414-1449 | the same, from the token after `(` |
| Parsing.Parser.ParseTupleRest | src/parser/parser.rs:1416-1444 | the tuple after its first comma: the given first element, then the elements in source order, each read right after a comma, with one element iff `)` follows the first comma; the `)` comes right after the last element or after a trailing comma, and is consumed last |
| Parsing.Parser.ParseTupleTurn | src/parser/parser.rs:1421-1436 | a comma, then either `)`, which closes the tuple with no element (a trailing comma), or an element appended after the comma, after which a `)` closes it; a missing comma is the comma error |
| Parsing.Parser.ParseTupleNext | src/parser/parser.rs:1429-1436 | the element read after a comma extends the tuple's positions, and the tuple is closed exactly when `)` follows it |
| Parsing.Parser.ParseBlock | src/parser/parser.rs:1069-1088 | `{ statements }` as a block spanning from `{` to the `}` consumed last; statement `i` starts at the token recorded for it, the first right after `{`, each before the next and the last before the `}`; each starts with a token that is not `}`, and that token fixes the statement's kind; no statements exactly when `}` follows `{`; a failing statement starts where the ones before it end; at the end of input, the missing-`}` error; without `{`, the `{` error |
| Parsing.Parser.ParseStatements | src/parser/parser.rs:1074-1077 | the loop reads statements one after another from the current token, and stops at `}` or at the end of input; a failure is reported at the token of the statement that failed |
| Parsing.StatementsGrow | src/parser/parser.rs:1074-1077 | a statement read where the statements so far end extends their positions |
| Parsing.StatementsEmpty | src/parser/parser.rs:1074-1079 | statements read up to a `}` are none exactly when the `}` is the first token |
| Parsing.Parser.ParseIf | src/parser/parser.rs:1131-1161 | an if-expression with a block, and an `else` branch that is an `if` or a block |
| Parsing.Parser.ParseBranches | src/parser/parser.rs:1137-1149 | the then-block and the optional else part |
| Parsing.Parser.ParseElse | src/parser/parser.rs:1139-1149 | nothing without `else`, else an `if` iff `if` follows, otherwise a block |
| Parsing.Parser.ParseStatement | src/parser/parser.rs:1090-1129 | the statement its keyword calls for; `else` alone is misplaced; anything else is `expression;` |
| Parsing.Parser.ParseKeywordStmt | src/parser/parser.rs:1092-1102 | the statements a keyword opens, each spanning from the keyword |
| Parsing.Parser.ParseAssertion | src/parser/parser.rs:846-876 | `assert e;` and `assume e;`, with the expression's id drawn first |
| Parsing.Parser.ParseIfStmt | src/parser/parser.rs:1107-1115 | an `if` expression as a statement with the expression's span |
| Parsing.Parser.ParseExprStmt | src/parser/parser.rs:1116-1127 | `expression;` spanning from the expression's start |
| Parsing.Parser.ParseSteps | src/parser/parser.rs:921-1007 | `induction(n);` and `simulate(n);`: the step count the literal denotes, or the error of a missing `(`, or a non-literal or over-large count |
| Parsing.Parser.ParseStepCount | src/parser/parser.rs:924-954 | the `(n);` part |
| Parsing.Parser.ParseClause | src/parser/parser.rs:814-844 | `requires e;` and `ensures e;` |
| Parsing.Parser.ParseHavoc | src/parser/parser.rs:904-919 | `havoc name;` with the name's id and text |
| Parsing.Parser.ParseCall | src/parser/parser.rs:1009-1036 | `call (rets) = f(args);`: return names' ids come before the call's, argument ids after; without `(` there are no return names |
| Parsing.Parser.ParseCallRets | src/parser/parser.rs:1011-1019 | no return names without `(`; otherwise the names of the comma list after `(` up to its `)`, each placed at its position, then `=` consumed last |
| Parsing.Parser.ParseNames | src/parser/parser.rs:1012-1014 | the opener consumed, then the identifiers of the comma list up to `stop`, consumed last, each placed at its position |
| Parsing.Parser.ParseCallArgs | src/parser/parser.rs:1022-1025 | `(` is required; the arguments are the comma list after it up to its `)`, each placed at its position, then `;` consumed last |
| Parsing.Parser.ParseVar | src/parser/parser.rs:878-902 | a variable statement, reassignable unless `const`, with a type iff a colon follows the name |
| Parsing.Parser.ParseVarTail | src/parser/parser.rs:887-890 | type, initialiser and `;` after the name |
| Parsing.Parser.ParseOptionalType | src/parser/parser.rs:1038-1046 | a type iff a colon comes first, otherwise nothing consumed |
| Parsing.Parser.ParseVarAssignment | src/parser/parser.rs:1048-1057 | an initialiser iff `=` comes first, otherwise nothing consumed |
| Parsing.Parser.ParseWhile | src/parser/parser.rs:1163-1177 | `while cond block`, the body a block statement |
| Parsing.Parser.ParseWhileRest | src/parser/parser.rs:1166-1176 | the condition, then a block statement as the body, whose id comes after the condition's; the statement's id comes last |
| Parsing.Parser.ParseBlockStmt | src/parser/parser.rs:1059-1067 | a block as a statement with the block's span |
| Parsing.Parser.ParseAnnotations | src/parser/parser.rs:255-285 | exactly `ReadAnnotations` on the tokens, two tokens consumed per annotation, stopping at a non-`@` token |
| Parsing.Parser.ParseField | src/parser/parser.rs:308-349 | `input`/`output`/`var`/`const name: type [= e];` with the name's text; any other keyword is reported |
| Parsing.Parser.ParseFieldTail | src/parser/parser.rs:328-338 | the `: type`, optional initialiser and `;` |
| Parsing.Parser.ParseProperty | src/parser/parser.rs:351-389 | `theorem` or `lemma name : e;`, the expression's id before the declaration's |
| Parsing.Parser.ParsePropertyBody | src/parser/parser.rs:356-359 | the `: e;` part |
| Parsing.Parser.ParseProcedureParams | src/parser/parser.rs:542-553 | `(` is required; the parameters are the comma list after it up to the `)` consumed last, each placed at its position, numbered 0, 1, … with increasing ids; none exactly when `)` follows `(` |
| Parsing.Parser.ParseParamList | src/parser/parser.rs:544-550 | `param_idx` reset, then the parameters of the comma list up to `)`, each placed at its position and numbered from 0, `param_idx` ending at their count |
| Parsing.Parser.ParseProcedureReturns | src/parser/parser.rs:619-634 | nothing and nothing consumed without `returns`; otherwise `(` is required, and the parameters are the comma list after it up to the `)` consumed last, numbered from 0, none exactly when `)` follows `(` |
| Parsing.Parser.ParseProcedureModifies | src/parser/parser.rs:636-650 | nothing and nothing consumed without `modifies`; otherwise the names of the comma list after `modifies` up to the `;` consumed last, each placed at its position and counted in `param_idx` from 0, none exactly when `;` follows `modifies` |
| Parsing.Parser.ParseModifiedNames | src/parser/parser.rs:641-647 | `param_idx` reset, then the names of the comma list up to `;`, each placed at its position, `param_idx` ending at their count |
| Parsing.Parser.ParseProcedureBlock | src/parser/parser.rs:652-666 | `;` is no body; a block is the body |
| Parsing.Parser.ParseTransition | src/parser/parser.rs:482-540 | `init`, `next`, `control` with a block; `kw;` is the missing-block error |
| Parsing.Parser.ParseHead | src/parser/parser.rs:393-394 | a name and the parameter list numbered from 0 |
| Parsing.Parser.ParseTypedHead | src/parser/parser.rs:443-445 | the name, with its text and the first id drawn, the parameters numbered from 0 and the optional return type; otherwise the identifier error |
| Parsing.Parser.ParseFunction | src/parser/parser.rs:440-458 | a function declaration, to be synthesised iff annotated `@synthesis` |
| Parsing.Parser.ParseDefine | src/parser/parser.rs:460-480 | `define name(params) [: type] = e;` |
| Parsing.Parser.ParseDefineBody | src/parser/parser.rs:466-468 | the `= e;` part |
| Parsing.Parser.ParseProcedure | src/parser/parser.rs:390-438 | a procedure whose parameters are numbered in order and whose clause and body ids come before its own |
| Parsing.Parser.ParseProcedureTail | src/parser/parser.rs:401-423 | the clauses and then the block, all ids drawn after the call starts |
| Parsing.Parser.ParseProcedureClauses | src/parser/parser.rs:401-421 | the clause loop runs until no clause keyword is current, collecting every round; nothing is consumed when none is current at first; a list for the keyword that opens the first round gains its entry: a `requires` or `ensures` clause, or the parameters or names of a `returns` or `modifies` list that is not empty |
| Parsing.Parser.ParseClauseRound | src/parser/parser.rs:402-420 | one round of the clause loop: at most one `requires` and one `ensures` clause; the keyword it starts at gives its list an entry (for `returns` and `modifies` unless the list is empty); a round opened by `requires` or `ensures` has no returns or modifies, one opened by `ensures` no requires, and one opened by `modifies` no returns |
| Parsing.Parser.ParseSignatureClauses | src/parser/parser.rs:402-410 | nothing consumed without `returns` or `modifies`; with `returns`, its parameters are the comma list inside the parentheses after it, none exactly when `)` follows `(`; then, with `modifies` at the token reached, its names are the comma list up to the `;` consumed last, none exactly when `;` follows `modifies` |
| Parsing.Parser.ParseContractClauses | src/parser/parser.rs:412-420 | nothing consumed without `requires` or `ensures`; a `requires` clause exactly when `requires` is current, which ends at a `;`; then an `ensures` clause exactly when `ensures` is the token reached, and otherwise nothing more consumed |
| Parsing.Parser.ParseTypeDecl | src/parser/parser.rs:719-812 | `name = enum …;` or `name = type;`, taking the name's id; an enum iff `enum` follows `=` |
| Parsing.Parser.ParseEnumRest | src/parser/parser.rs:728-751 | an enum with the variants between braces, or none without `{`; with braces its span runs from `{` to `}` as in the source, variant `i` interns the identifier `2i + 1` tokens after the `{`, commas separate the variants, and the `}` comes right after the last one or its trailing comma; without them it is the span of `enum` |
| Parsing.Parser.ParseEnumVariants | src/parser/parser.rs:732-737 | with `{` current, the variant names up to the `}`, which is consumed last: variant `i` interns the identifier `2i + 1` tokens after the `{`, a comma separates each from the next, and the `}` comes right after the last one or the comma after it, right after `{` when there is none; without `{`, no variants and nothing consumed |
| Parsing.Parser.Parse | src/parser/parser.rs:59-70 | on success, the input was read to the end and the modules have increasing ids; on failure the tree is unchanged |
| Parsing.Parser.ParseTopLevelElement | src/parser/parser.rs:78-98 | a module without annotations; other tokens are reported |
| Parsing.Parser.ParseModule | src/parser/parser.rs:100-132 | `module name` and its body; the module's id comes after its name's, and the module is the empty module with the body's elements added in order; with a `{` after the name, element `i` is read from `starts[i]` up to where the next begins, the last ending right before the `}` consumed last |
| Parsing.Parser.ParseModuleHead | src/parser/parser.rs:101-104 | `module name`, two ids drawn |
| Parsing.Parser.ParseModuleBody | src/parser/parser.rs:134-253 | nothing without `{`; otherwise the elements in source order, the first right after `{`, each read from its start up to where the next begins, the last ending right before the `}`, which is consumed; each is an element of the kind of the keyword after its annotations, and that keyword allows them; the module is the given one with them added in turn |
| Parsing.Parser.ParseNextElement | src/parser/parser.rs:141-247 | the element read where the previous ones end extends their positions |
| Parsing.Parser.ParseModuleElement | src/parser/parser.rs:141-247 | the annotations `ReadAnnotations` gives, then an element of the kind of the keyword after them, which allows those annotations, read up to the token consumed last; annotation errors and other tokens are reported |
| Parsing.Parser.ParseItem | src/parser/parser.rs:144-240 | the element the keyword starts |
| Parsing.Parser.ParseFieldItem | src/parser/parser.rs:145-170 | input, output, var and const fields |
| Parsing.Parser.ParseSpecItem | src/parser/parser.rs:207-240 | theorems, lemmas and transition blocks |
| Parsing.Parser.ParseDeclItem | src/parser/parser.rs:172-205 | types, macros, functions and procedures |
| SmtContext.Insert | src/context/mod.rs:40 | the name's signature list gains the signature at its end; other names are unchanged; the name becomes a key |
| SmtContext.InsertAllLookup | src/context/mod.rs:107-144 | after a run of inserts a name has its old signatures followed by the run's, in order |
| SmtContext.InsertAllKeys | src/context/mod.rs:107-144 | the keys afterwards are the old ones and the inserted names |
| SmtContext.InsertAllAppend | src/context/mod.rs:120-144 | two runs of inserts are the insert of their concatenation |
| SmtContext.Params | src/context/mod.rs:111 | each name paired with the sort |
| SmtContext.OverloadSigs | src/context/mod.rs:110-112 | one signature per parameter list, in order |
| SmtContext.SigsForOverloads | src/context/mod.rs:110-112 | the inner loop gives its operator those signatures and other names none |
| SmtContext.SigsForFamily | src/context/mod.rs:109-114 | a nested loop over distinct operators gives each of them the overloads |
| SmtContext.FamilyNames | src/context/mod.rs:109-114 | the names a nested loop declares are its operators |
| SmtContext.SigsForUnique | src/context/mod.rs:115-117 | a name that occurs once has exactly its own signature |
| SmtContext.BooleanLookup | src/context/mod.rs:107-118 | what `add_booleans` gives each name |
| SmtContext.BooleanOperatorSigs | src/context/mod.rs:109-114 | `and`, `or` and `=` gain Boolean signatures of two, three and four parameters |
| SmtContext.BooleanConnectiveSigs | src/context/mod.rs:115-117 | `not`, `=>` and `ite` gain one signature each |
| SmtContext.BooleanNames | src/context/mod.rs:107-118 | `add_booleans` declares these six names and no other |
| SmtContext.IntegerLookup | src/context/mod.rs:120-144 | what `add_integers` gives each name |
| SmtContext.IntegerGroups | src/context/mod.rs:122-143 | the operator groups of `add_integers` are disjoint |
| SmtContext.IntegerArithmeticSigs | src/context/mod.rs:136-142 | `+`, `*`, `-` take two to four integers, and `-` is also unary |
| SmtContext.IntegerIteSigs | src/context/mod.rs:143 | `ite` gains the integer branch signature after its Boolean one |
| SmtContext.IntegerEqualitySigs | src/context/mod.rs:122-127 | integer `=` with two to four parameters follows the Boolean ones |
| SmtContext.IntegerComparisonSigs | src/context/mod.rs:129-134 | `<`, `<=`, `>`, `>=` are binary on integers |
| SmtContext.ParamSorts | src/context/mod.rs:81 | the parameter sorts in order |
| SmtContext.FirstMatchIndex | src/context/mod.rs:80-94 | a sort found is the return sort of the earliest signature accepting the argument sorts |
| SmtContext.FirstMatchEarliest | src/context/mod.rs:80-94 | the earliest accepting signature is the one chosen |
| SmtContext.FirstMatchNone | src/context/mod.rs:80-94 | no sort iff no signature accepts the argument sorts |
| SmtContext.ArgSortsOk | src/context/mod.rs:71-76 | the argument sorts resolve iff every argument has a sort, and they are those sorts in order; otherwise the ill-sorted error |
| SmtContext.ArgumentFailurePropagates | src/context/mod.rs:71-76 | one argument without a sort makes the term fail |
| SmtContext.DeclaredSort | src/context/mod.rs:78-95 | a declared name takes the return sort of its earliest signature that accepts the argument sorts |
| SmtContext.DeclaredWithoutMatch | src/context/mod.rs:78-95 | a declared name no signature of which accepts the sorts has no sort |
| SmtContext.UndeclaredSort | src/context/mod.rs:96-102 | an undeclared name is `Int` iff it reads as an `i64`, and has no sort otherwise |
| SmtContext.NumeralIsInt | src/context/mod.rs:96-102 | an undeclared decimal numeral in the `i64` range is an `Int` |
| SmtContext.Context.constructor | src/context/mod.rs:21-29 | the Booleans' table, no bodies, no logic |
| SmtContext.Context.GetDecl | src/context/mod.rs:31-34 | signatures iff the name is declared, non-empty and in declaration order |
| SmtContext.Context.AddDecl | src/context/mod.rs:36-41 | a new name with its one signature; nothing else changes |
| SmtContext.Context.GetBody | src/context/mod.rs:43-45 | the body iff one was added, and then the name is declared |
| SmtContext.Context.AddBody | src/context/mod.rs:47-51 | the body is recorded for a name with exactly one signature |
| SmtContext.Context.SetLogic | src/context/mod.rs:53-64 | the `lia` and `uf` flags are or-ed in, and `lia` adds the integer operators |
| SmtContext.Context.GetSort | src/context/mod.rs:70-105 | the loops compute exactly `SortOf` |
| SmtContext.Context.AddOverloads | src/context/mod.rs:110-113 | the inner loop inserts one signature per parameter list |
| SmtContext.Context.AddFamily | src/context/mod.rs:109-114 | the nested loop inserts the family |
| SmtContext.Context.InsertSig | src/context/mod.rs:112 | one insert, keeping the invariant |
| SmtContext.Context.AddBooleans | src/context/mod.rs:107-118 | inserts the Boolean entries |
| SmtContext.Context.AddIntegers | src/context/mod.rs:120-144 | inserts the integer entries |

## Left out

- The lexer and `Reader`: the parser is given the lexer's successful output as a token sequence ending in `End`. Lexical errors, which `advance_token` would propagate, are not modelled.
- Line and column positions, and the `pos` fields of nodes and errors. Spans are kept as byte ranges.
- Error messages: errors carry token kinds, not the tokens' rendered names.
- The interner beyond `intern` and `str`.
- `parse_lit_float`'s `f64` value: a float literal keeps its text and no float is computed. Its `unreachable!` is not modelled, and the literal's suffix is dropped.
- The `unreachable!` of `parse_lit_bitvec` is the error `MalformedBitVec`. The `+=` panic of `create_binary` is the error `UnimplementedOperator`.
- `in_class_or_module`: it is set and never read.
- `get_logic`: it is a plain read of the `logic` field.
- The `expect` panic of `get_sort` on an argument without a sort is the error `IllSortedArgument`.
- The panic of `set_logic` on quantifiers, the two asserts of `add_decl` and the assert and `unwrap` of `add_body` are preconditions.
- `Term`, `Sort` and `Logic` are minimal stand-ins: `term.rs`, `context/sort.rs` and `context/logic.rs` are not part of this model. `Logic::new` is taken to clear all three flags.
- `MultiMap` and `HashMap` are Dafny maps.
- Debug logging.
- `src/context/input.rs` and `src/main.rs`.
- The `RefCell` of `NodeIdGenerator`, and any use of one generator from several parsers.
- `ModifierEntry` keeps the span of the token after each annotation's name, which is what the source records.
- Positions and ids of commas.
- Distinctness of ids is stated per node and per list, not for whole trees.
- Parsing.Parser.ParseBinary: parentheses are not matched. An operand that is itself binary is placed only by a `(` at its first token and a `)` at its last, which need not belong together: for `( a ) + ( b ) * c` the contract also admits `(a + b) * c`. An operand that is a prefix-operator expression or a postfix chain is placed only by its first and last tokens. The tree is fixed by the tokens for chains of literals and names (`Parsing.AtomChain`).
- Parsing.Parser.ParseBinaryRest: the same gap as `ParseBinary`, for the operands it places.
- Parsing.Parser.ParseBinaryStep: the same gap, for the right operand it joins.
- Parsing.Parser.ParseOperand: the same gap, for the right operand it reads.
- `SmtContext.Context.constructor`: states the table as `InsertAll` of the Boolean entries. What that table holds is stated by lemmas over an arbitrary starting table, not as a literal map.
- `SmtContext.UndeclaredSort`: the verifier proves it from the definition of `SortOf` alone.

## Findings

| source | as written | input that shows it | evidently intended | confidence | as-written member | corrected member |
|---|---|---|---|---|---|---|
| src/parser/parser.rs:728-741 | the span of an `enum` type starts at the token after `enum` and ends at the end of the token consumed last; without a variant list the last token consumed is `enum` itself, so `lcst_end - start` underflows in `u32` | `type T = enum ;` (length 13 - 14 = -1) | without a variant list the span is that of `enum` itself; a braced enum keeps the source's span from `{` to `}` | not executed | Parsing.EnumSpanLengthAsWritten | Parsing.Parser.ParseEnumRest |

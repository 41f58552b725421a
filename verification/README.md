# Bolt compiler front end, modelled in Dafny

This project models the front end of `boltc`, the compiler of the Bolt
language, written in Swift. It covers four parts:

- **Lexer.** Source text becomes tokens. Every token carries the line and
  column where it starts.
- **Parsers.** Tokens become syntax. The parsers cover types, parameters,
  parenthesised groups, calls, code blocks, functions, constants,
  variables, compiler directives, and string and boolean literals. They
  share a scanner, a set of token-matching extensions and a scoped symbol
  table.
- **Syntax tree.** The tree holds module nodes and a visit stack, and it
  can be walked and traversed.
- **Semantic analysis.** The driver and the rules for identifiers,
  parameters, functions, constants, calls and binary operations.

Each Swift type becomes a datatype, and each operation becomes a pure
function. Mutation becomes a returned new state. Every failure becomes a
value of `Results.Outcome`:

- `Ok(value)` is a normal return.
- `Fail(error)` is a thrown Swift error. It carries the state as it stood
  at the throw, because Swift does not roll back mutations made before a
  throw. So "the token was consumed before the error" and "the scope was
  left open" can be stated about the result.
- `Abort` is a trap: a `fatalError`, a failed `removeFirst`, or an array
  index past the end.

The source has two representations of syntax, and both are modelled:

- `Nodes.Node` stands for the class hierarchy. The type, parameter, call,
  code-block, function and variable parsers build it, and the call rule
  checks it.
- `Expressions.Expression` stands for the expression enumeration. The
  group, constant, directive, string and boolean parsers build it, and the
  other semantic rules check it.

Parsing that depends on code outside the modelled files is a parameter:

- The parsers a code block or a call argument dispatches to are a
  `Dispatch` function. It returns `None` when no parser's test holds.
- The character classes of the lexer and Swift's `Double` parser are the
  `Lexer.CharClasses` value.

## Model

| member | source | states |
|---|---|---|
| Types.Resolved | Compiler/Sources/boltc/Bolt/Type.swift:53-58 | Resolution never yields `String`, and a type is changed by it exactly when it is `String`. |
| Types.ResolvedFacts | Compiler/Sources/boltc/Bolt/Type.swift:35-58 | Resolution is idempotent. `String` resolves to `Int8*` and is spelled `Int8*`. |
| Types.BaseNamed | Compiler/Sources/boltc/Bolt/Type.swift:73-84 | A name denotes a base type exactly when it is one of `None`, `Int8`, `Int` or `String`. |
| Types.Resolve | Compiler/Sources/boltc/Bolt/Type.swift:64-97 | An empty token list traps. A first token that is not an identifier fails with `badType("?")`, and an unknown base name fails with that name. The list is accepted exactly when it is a base name followed only by stars. |
| Types.Nest | Compiler/Sources/boltc/Bolt/Type.swift:86-94 | The nesting loop accepts exactly an all-star tail, adding one pointer level per star. Any other token fails with `badType("?")`. |
| Types.ResolveStars | Compiler/Sources/boltc/Bolt/Type.swift:64-97 | A base name followed by `k` stars reads as that base under `k` pointer levels. |
| Types.ResolveTypeTokens | Compiler/Sources/boltc/Bolt/Type.swift:64-97 | Round trip: every type is read back from the tokens that spell it. |
| Types.TextOfTypeTokens | Compiler/Sources/boltc/Bolt/Type.swift:35-43 | A type without `String` is spelled as the concatenated text of its type tokens, so a pointer is its pointee's text followed by `*`. |
| Keywords.Named | Compiler/Sources/boltc/Bolt/Keyword.swift:28-37 | The keyword spelled `s` is found exactly when `s` is some keyword's text, so it inverts `text`. |
| Keywords.Description | Compiler/Sources/boltc/Bolt/Keyword.swift:39-41 | The diagnostic form is the keyword's spelling inside angle brackets. |
| Keywords.AllCasesComplete | Compiler/Sources/boltc/Bolt/Keyword.swift:21-24 | There are exactly six keywords, each listed once. |
| Keywords.TextInjective | Compiler/Sources/boltc/Bolt/Keyword.swift:28-37 | Distinct keywords have distinct spellings. |
| Tokens.Spelling | Compiler/Sources/boltc/CompilerCore/Lexer/Token.swift:50-71 | The source text a token stands for has exactly the token's `length`. A string literal includes its quotes; a number or identifier is its text. |
| Tokens.LengthIgnoresMark | Compiler/Sources/boltc/CompilerCore/Lexer/Token.swift:50-71 | A token's length does not depend on its mark. |
| Tokens.MatchesTemplate | Compiler/Sources/boltc/CompilerCore/Parser/ParserScannerExtensions.swift:24-32 | Matching a keyword or symbol template means having that keyword or symbol, whatever the marks. |
| Scanners.Init | Compiler/Sources/boltc/Foundation/Scanner.swift:26-29 | A new scanner is at the start of its input. |
| Scanners.Peek | Compiler/Sources/boltc/Foundation/Scanner.swift:34-39 | Looking `n` ahead gives an element exactly when `index + n` is inside the input, and that element is the one at `index + n`. |
| Scanners.PeekCollection | Compiler/Sources/boltc/Foundation/Scanner.swift:43-48 | The next `n` elements are given exactly when that many remain. Each agrees with `peek`. |
| Scanners.Advance | Compiler/Sources/boltc/Foundation/Scanner.swift:52-59 | Advancing succeeds exactly when an element is available and `n` more fit. It returns the element `peek` saw and moves the index by `n`. |
| Scanners.AdvanceShiftsPeek | Compiler/Sources/boltc/Foundation/Scanner.swift:34-59 | After advancing by `n`, looking `k` ahead sees what was `n + k` ahead. |
| SymbolTables.Empty | Compiler/Sources/boltc/CompilerCore/SymbolTable/SymbolTable.swift:23 | A new table has one empty scope, and nothing is found in it. |
| SymbolTables.FindIn | Compiler/Sources/boltc/CompilerCore/SymbolTable/SymbolTable.swift:49-51 | A lookup finds nothing exactly when no symbol has that name. Otherwise it gives the first symbol of that name in the scope. |
| SymbolTables.Enter | Compiler/Sources/boltc/CompilerCore/SymbolTable/SymbolTable.swift:38-42 | Entering pushes a copy of the innermost scope, so every lookup is unchanged. It traps on an empty stack. |
| SymbolTables.Leave | Compiler/Sources/boltc/CompilerCore/SymbolTable/SymbolTable.swift:44-47 | Leaving pops the innermost scope, and leaves an empty stack unchanged. |
| SymbolTables.Define | Compiler/Sources/boltc/CompilerCore/SymbolTable/SymbolTable.swift:53-61 | A definition succeeds exactly when a scope exists and the name is not visible. The name is then bound to the node, while outer scopes and all other names are unchanged. |
| SymbolTables.AddRootSymbols | Compiler/Sources/boltc/CompilerCore/AST/AST.swift:74-77 | An imported module's symbols are placed ahead of the root scope's own symbols. Inner scopes are unchanged. |
| SymbolTables.LeaveUndoesEnter | Compiler/Sources/boltc/CompilerCore/SymbolTable/SymbolTable.swift:38-47 | Leaving right after entering restores the table exactly. |
| SymbolTables.DefineInScopeThenLeave | Compiler/Sources/boltc/CompilerCore/SymbolTable/SymbolTable.swift:38-61 | A name defined in an inner scope is gone once that scope is left. |
| SymbolTables.NoShadowing | Compiler/Sources/boltc/CompilerCore/SymbolTable/SymbolTable.swift:38-61 | A name visible outside a scope cannot be defined again inside it. |
| SymbolTables.LeaveLastScope | Compiler/Sources/boltc/CompilerCore/SymbolTable/SymbolTable.swift:25-47 | Leaving the last scope is allowed. After that, every enter and every define traps. |
| Lexer.LinesCounted | Compiler/Sources/boltc/CompilerCore/Lexer/Lexer.swift:41-54 | After handling a text, the line is the number of line feeds in it. |
| Lexer.ColumnsCounted | Compiler/Sources/boltc/CompilerCore/Lexer/Lexer.swift:41-54 | A text without line feeds stays on the first line, one column per character. |
| Lexer.PositionCounts | Compiler/Sources/boltc/CompilerCore/Lexer/Lexer.swift:41-54 | After a text, the line counts its line feeds and the column counts the characters after the last line feed. |
| Lexer.AfterLineFeed | Compiler/Sources/boltc/CompilerCore/Lexer/Lexer.swift:41-54 | From the start of a line, a text without line feeds moves one column per character. |
| Lexer.Init | Compiler/Sources/boltc/CompilerCore/Lexer/Lexer.swift:31-34 | A new lexer is at index 0 of its source, and its position is that of index 0. |
| Lexer.Advance | Compiler/Sources/boltc/CompilerCore/Lexer/Lexer.swift:78-84 | Too few characters left is `unexpectedEndOfSource`. Otherwise it returns the character at the old index, and the position is that of the new index. |
| Lexer.Run | Compiler/Sources/boltc/CompilerCore/Lexer/Lexer.swift:150-154 | Every character of the run satisfies the predicate, and the character after it does not. |
| Lexer.ConsumeWhile | Compiler/Sources/boltc/CompilerCore/Lexer/Lexer.swift:150-154 | The longest run satisfying the predicate is consumed, and its text is returned. |
| Lexer.ParseInt | Compiler/Sources/boltc/CompilerCore/Lexer/Lexer.swift:177 | Swift's `Int(String)`: an optional `+` or `-`, then one or more decimal digits. Such a string gives its signed value when that fits in 64 bits, and no number when it does not. Any other character, or a sign alone, gives no number. |
| Lexer.Decimal | Compiler/Sources/boltc/CompilerCore/Lexer/Lexer.swift:177 | The decimal spelling of a natural number is a non-empty digit string. |
| Lexer.DecimalValue | Compiler/Sources/boltc/CompilerCore/Lexer/Lexer.swift:177 | A natural number's decimal spelling has that number as its value. |
| Lexer.ParseDecimal | Compiler/Sources/boltc/CompilerCore/Lexer/Lexer.swift:177 | Round trip: every non-negative `Int` is read back from its spelling. |
| Lexer.ConsumeComment | Compiler/Sources/boltc/CompilerCore/Lexer/Lexer.swift:155-160 | The comment runs to the next newline character, which is consumed. Running out of input first is `unexpectedEndOfSource`. |
| Lexer.ConsumeString | Compiler/Sources/boltc/CompilerCore/Lexer/Lexer.swift:162-169 | The text up to the closing quote is read, and the quote is consumed. A missing closing quote is `unexpectedEndOfSource`. |
| Lexer.ConsumeNumber | Compiler/Sources/boltc/CompilerCore/Lexer/Lexer.swift:171-186 | The longest run of number characters and points is read as an `Int` if possible, else as a `Double`. Otherwise it fails with `invalidNumericToken` at the mark. |
| Lexer.ConsumeIdentifier | Compiler/Sources/boltc/CompilerCore/Lexer/Lexer.swift:188-195 | The identifier is the longest run of identifier characters, at the given mark. |
| Lexer.Iteration | Compiler/Sources/boltc/CompilerCore/Lexer/Lexer.swift:120-139 | One pass skips space, then reads a comment, a string, a number or an identifier. A token is spelled by the input at its start. Space running to the end of the input is `unexpectedEndOfSource`. Any other character is `unexpectedCharacterEncountered` at its own mark. |
| Lexer.ReadToken | Compiler/Sources/boltc/CompilerCore/Lexer/Lexer.swift:124-139 | The branches are tried in the order comment, string, number, identifier, with the error cases of `Lexer.Iteration`. |
| Lexer.ReadWord | Compiler/Sources/boltc/CompilerCore/Lexer/Lexer.swift:131-139 | A number, an identifier, or an unexpected character reported at its mark. |
| Lexer.ReadNumber | Compiler/Sources/boltc/CompilerCore/Lexer/Lexer.swift:131-133 | A number token read here is spelled by the input where it starts, and the scanner ends right after it. |
| Lexer.ReadIdentifier | Compiler/Sources/boltc/CompilerCore/Lexer/Lexer.swift:134-136 | An identifier is always read. It is spelled by the input where it starts, and the scanner ends right after it. |
| Lexer.ReadComment | Compiler/Sources/boltc/CompilerCore/Lexer/Lexer.swift:125-127 | A comment yields no token and moves the scanner on. |
| Lexer.ReadString | Compiler/Sources/boltc/CompilerCore/Lexer/Lexer.swift:128-130 | A string token is spelled, quotes included, by the input where its opening quote stands. |
| Lexer.Scan | Compiler/Sources/boltc/CompilerCore/Lexer/Lexer.swift:120-140 | The loop never traps. On success, every token collected is placed in the input, in order and without overlap. |
| Lexer.PerformAnalysis | Compiler/Sources/boltc/CompilerCore/Lexer/Lexer.swift:115-143 | Empty source gives no tokens. Every token produced is a string, number or identifier with a line-and-column mark. |
| Lexer.AnalysisPlacesTokens | Compiler/Sources/boltc/CompilerCore/Lexer/Lexer.swift:115-143 | Each token of a successful analysis is spelled by the source at its start and carries that start's line and column. Tokens follow one another without overlapping. |
| Lexer.TrailingSpaceFails | Compiler/Sources/boltc/CompilerCore/Lexer/Lexer.swift:120-139 | When only space remains, the loop body fails with `unexpectedEndOfSource`. |
| Lexer.ScanCorrected | Compiler/Sources/boltc/CompilerCore/Lexer/Lexer.swift:120-140 | The loop with the end of the input checked after the space. It keeps every guarantee of `Lexer.Scan`, and when only space remains it ends with the tokens collected so far. |
| Lexer.PerformAnalysisCorrected | Compiler/Sources/boltc/CompilerCore/Lexer/Lexer.swift:115-143 | Source made only of space gives no tokens. Every token is lexical and marked. |
| Lexer.CorrectionOnlyAtEnd | Compiler/Sources/boltc/CompilerCore/Lexer/Lexer.swift:120-140 | Where the two loops differ, the loop as written failed with `unexpectedEndOfSource`. Where the loop as written succeeds, they agree. |
| Lexer.TrailingLineFeed | Compiler/Sources/boltc/CompilerCore/Lexer/Lexer.swift:120-139 | `x` followed by a line feed fails as written. Corrected, it gives the identifier `x` at line 0, column 0. |
| ParserCore.Test | Compiler/Sources/boltc/CompilerCore/Parser/ParserScannerExtensions.swift:24-32 | `test` holds exactly when enough tokens remain and each matches the expected one in turn. |
| ParserCore.Location | Compiler/Sources/boltc/CompilerCore/Parser/ParserScannerExtensions.swift:56-66 | The location is the next token's mark. At the end it is the last token's mark, and for empty input it is unknown. |
| ParserCore.CurrentToken | Compiler/Sources/boltc/CompilerCore/Parser/ParserScannerExtensions.swift:68-73 | The current token is the one at the index, if there is one. |
| ParserCore.Next | Compiler/Sources/boltc/Foundation/Scanner.swift:52-59 | Taking `n` tokens succeeds exactly when a token is available and `n` more fit. It returns the current token and moves `n` places. |
| ParserCore.Consume | Compiler/Sources/boltc/CompilerCore/Parser/ParserScannerExtensions.swift:35-54 | On success, the expected tokens are matched and consumed in order. Once at least one token is consumed, running out of tokens ends with the partial match and no error. With no token available at the start it fails with `expected` the first token. A mismatch at position `j` fails after the mismatching token is consumed. |
| ParserCore.ConsumeAgreesWithTest | Compiler/Sources/boltc/CompilerCore/Parser/ParserScannerExtensions.swift:24-54 | `consume` succeeds exactly when `test` holds for the same tokens. |
| ParserCore.MatchesSymmetric | Compiler/Sources/boltc/CompilerCore/Parser/ParserScannerExtensions.swift:24-32 | Token matching does not depend on which side is the template. |
| ParserCore.ConsumeAll | Compiler/Sources/boltc/CompilerCore/Parser/ParserScannerExtensions.swift:35-54 | When the next tokens all match the expected ones, `consume` succeeds and returns as many tokens as were expected. |
| ParserCore.Unexpected | Compiler/Sources/boltc/CompilerCore/Parser/ParserScannerExtensions.swift:68-73 | An unexpected token is consumed and reported at its own mark. At the end of the stream it traps. |
| ParserCore.ConsumeSymbol | Compiler/Sources/boltc/CompilerCore/Parser/ParserScannerExtensions.swift:35-54 | An expected symbol that is next is consumed and returned, and nothing else changes. |
| ParserCore.ConsumeOne | Compiler/Sources/boltc/CompilerCore/Parser/ParserScannerExtensions.swift:35-54 | A symbol that is next is consumed. At the end of the stream it fails with `expected` at the current state. A wrong token is consumed, and the error is located after it. |
| Nodes.NewFunction | Compiler/Sources/boltc/CompilerCore/AST/FunctionNode.swift:28-37 | A new function node has no body, and its value type is its return type's. |
| Nodes.NewIdentifier | Compiler/Sources/boltc/CompilerCore/AST/IdentifierNode.swift:27-35 | An identifier node's value type is its reference's, or `None` when unbound. |
| Nodes.NewModule | Compiler/Sources/boltc/CompilerCore/AST/AST.swift:157-162 | A new module node has its name, no children, and value type `None`. |
| Nodes.AddChild | Compiler/Sources/boltc/CompilerCore/AST/AST.swift:111-114 | Adding a child appends it. The node's own fields and value type do not change. |
| Nodes.AliasValueType | Compiler/Sources/boltc/CompilerCore/AST/IdentifierNode.swift:33-35 | However many identifiers stand between a use and the node they finally refer to, the use has that node's value type. |
| Ast.Init | Compiler/Sources/boltc/CompilerCore/AST/AST.swift:35-41 | A new tree has one empty main module, which is also the only node being visited. Its symbol table is empty. |
| Ast.Visit | Compiler/Sources/boltc/CompilerCore/AST/AST.swift:55-57 | The node becomes the current visitation point on top of the stack. |
| Ast.Leave | Compiler/Sources/boltc/CompilerCore/AST/AST.swift:59-64 | As written, leaving succeeds exactly when one node is being visited, and it pops it. |
| Ast.LeaveVisited | Compiler/Sources/boltc/CompilerCore/AST/AST.swift:59-64 | As its message describes, leaving succeeds exactly when more than the main module is being visited, and it pops the top. |
| Ast.LeaveAfterVisitIsFatal | Compiler/Sources/boltc/CompilerCore/AST/AST.swift:55-64 | Right after the tree is created, visiting a node and then leaving traps. |
| Ast.LeaveVisitedUndoesVisit | Compiler/Sources/boltc/CompilerCore/AST/AST.swift:55-64 | With the corrected guard, leaving undoes visiting exactly, and the main module can never be left. |
| Ast.Add | Compiler/Sources/boltc/CompilerCore/AST/AST.swift:66-72 | A module goes to the module list. Any other node becomes the last child of the current visitation point. |
| Ast.WriteBack | Compiler/Sources/boltc/CompilerCore/AST/AST.swift:66-72 | A change to the visited module is also made to the listed module of the same name, as they are one object. |
| Ast.AddToMainModule | Compiler/Sources/boltc/CompilerCore/AST/AST.swift:35-72 | After creation, an added node is the main module's last child, both on the visit stack and in the module list. |
| Ast.AddModules | Compiler/Sources/boltc/CompilerCore/AST/AST.swift:74-84 | Names stay unique, and every incoming name is present afterwards. Existing modules are kept, and the symbols join the root scope. |
| Ast.InsertModules | Compiler/Sources/boltc/CompilerCore/AST/AST.swift:78-83 | The insertion loop keeps names unique and keeps every module already present. |
| Ast.InsertAbsent | Compiler/Sources/boltc/CompilerCore/AST/AST.swift:79-82 | Inserting a module whose name is absent keeps names unique and keeps the old modules. Every incoming name is present afterwards. |
| Ast.HasModuleNamedKept | Compiler/Sources/boltc/CompilerCore/AST/AST.swift:78-83 | Inserting modules never removes a name. |
| Ast.InsertModule | Compiler/Sources/boltc/CompilerCore/AST/AST.swift:81 | The module lands at exactly the given index, and the other modules keep their order. |
| Ast.AddPresentModules | Compiler/Sources/boltc/CompilerCore/AST/AST.swift:74-84 | Adding modules that are all present changes only the root scope. |
| Ast.InsertionPastTheEnd | Compiler/Sources/boltc/CompilerCore/AST/AST.swift:78-83 | The insertion index is the incoming index, not the count inserted so far. So re-adding the main module twice ahead of a new module traps, while re-adding it once ahead of a new module succeeds. |
| Ast.Walk | Compiler/Sources/boltc/CompilerCore/AST/AST.swift:145-150 | The walk starts at the node itself. |
| Ast.WalkVisitsTree | Compiler/Sources/boltc/CompilerCore/AST/AST.swift:145-150 | A node is walked exactly when it is the root or lies below it. |
| Ast.WalkTree | Compiler/Sources/boltc/CompilerCore/AST/AST.swift:49-53 | The tree's walk is the module walks, one after the other. |
| Ast.WalkAllContains | Compiler/Sources/boltc/CompilerCore/AST/AST.swift:49-53 | Every module is in the walk of the tree. |
| Ast.Traverse | Compiler/Sources/boltc/CompilerCore/AST/AST.swift:131-143 | Traversal keeps the node's own kind and location. |
| Ast.TraverseReplaces | Compiler/Sources/boltc/CompilerCore/AST/AST.swift:131-143 | The new children are, position by position, the traversals of the nodes the body returned for the old children, in order, so there are exactly as many as the body returned. |
| Ast.TraverseKeep | Compiler/Sources/boltc/CompilerCore/AST/AST.swift:131-143 | Traversing with a body that returns each node unchanged rebuilds the tree exactly. |
| Ast.TraverseDrop | Compiler/Sources/boltc/CompilerCore/AST/AST.swift:131-143 | A body that returns nothing removes every child. |
| Ast.TraverseTree | Compiler/Sources/boltc/CompilerCore/AST/AST.swift:43-47 | Each listed module is replaced in place by its traversal. A visited module becomes the traversed listed module of its name, as they are one object; other visited nodes, the stack's length and the symbol table are unchanged. |
| Ast.Refresh | Compiler/Sources/boltc/CompilerCore/AST/AST.swift:35-47 | A visited module whose name is listed is that listed module. Any other visited node is kept as it is. |
| Ast.VisitedMainModuleTraversed | Compiler/Sources/boltc/CompilerCore/AST/AST.swift:35-47 | The main module, visited since creation, is after a traversal still the listed main module, now traversed. |
| Ast.DroppedChildrenStayDropped | Compiler/Sources/boltc/CompilerCore/AST/AST.swift:35-72 | After a traversal that drops every child, a node added next is the main module's only child, on the stack and in the list alike. |
| Expressions.Location | Compiler/Sources/boltc/CompilerCore/AST/Expressions.swift:59-77 | A definition is located at its declaration, and every other expression at its own location. |
| Expressions.LocationOfDefinitions | Compiler/Sources/boltc/CompilerCore/AST/Expressions.swift:65 | However deeply definitions are nested, the location is the innermost declaration's. |
| TypeParser.TypeTest | Compiler/Sources/boltc/CompilerCore/Parser/TypeParser.swift:44-54 | The test holds exactly when an identifier or `*` is next. |
| TypeParser.Greedy | Compiler/Sources/boltc/CompilerCore/Parser/TypeParser.swift:28-39 | The loop takes the longest run of tokens that still resolves as a type. |
| TypeParser.ParseType | Compiler/Sources/boltc/CompilerCore/Parser/TypeParser.swift:24-42 | The parser never throws. It traps exactly when no base name is next. Otherwise it resolves the tokens taken into a type node, and no star follows them. |
| TypeParser.ParseTypeReadsBaseAndStars | Compiler/Sources/boltc/CompilerCore/Parser/TypeParser.swift:24-42 | The tokens read are the base name and the whole run of stars after it. |
| TypeParser.ParseTypeSpelled | Compiler/Sources/boltc/CompilerCore/Parser/TypeParser.swift:24-42 | Round trip: tokens that resolve to `T`, followed by anything but a star, read back as `T`, consuming exactly those tokens. |
| TypeParser.ParseTypeExpr | Compiler/Sources/boltc/CompilerCore/Parser/TypeParser.swift:24-42 | It never throws, and it traps exactly when `TypeParser.ParseType` does. Otherwise it reads the same tokens and gives the same type. |
| TypeParser.StopsBeforeRightAngle | Compiler/Sources/boltc/CompilerCore/Parser/TypeParser.swift:28-39 | `Int * * >` reads as `Int**` and stops at the `>`. |
| TypeParser.UnknownBaseTraps | Compiler/Sources/boltc/CompilerCore/Parser/TypeParser.swift:24-42 | An unknown base name such as `Foo` traps. |
| LiteralParsers.StringTest | Compiler/Sources/boltc/CompilerCore/Parser/StringParser.swift:23-27 | The test holds exactly when a string literal is next. |
| LiteralParsers.ParseString | Compiler/Sources/boltc/CompilerCore/Parser/StringParser.swift:29-38 | It succeeds exactly when a string literal is next, giving a string expression at its mark and consuming it. Anything else is reported as unexpected. |
| LiteralParsers.BoolTest | Compiler/Sources/boltc/CompilerCore/Parser/BoolParser.swift:23-26 | The test holds exactly when `true` or `false` is next. |
| LiteralParsers.ParseBool | Compiler/Sources/boltc/CompilerCore/Parser/BoolParser.swift:28-40 | It succeeds exactly when `true` or `false` is next, giving the matching boolean at the keyword's mark. Anything else is reported as unexpected. |
| LiteralParsers.LiteralsReadBack | Compiler/Sources/boltc/CompilerCore/Parser/BoolParser.swift:28-40 | Round trip: every string and every boolean is read back from its token. |
| ParameterParser.ParseParameter | Compiler/Sources/boltc/CompilerCore/Parser/ParameterParser.swift:23-32 | At the end it traps. A non-identifier is consumed and fails with `expectedIdentifier`. A missing colon fails with `expected` colon after the name. On success the parameter has the name, its mark and the resolved type. |
| ParameterParser.ParseParameterSpelled | Compiler/Sources/boltc/CompilerCore/Parser/ParameterParser.swift:23-32 | Round trip: `name : T` reads back as exactly the parameter node `name`, at the name's mark, with a type node for `T`, consuming exactly those tokens. |
| ParameterParser.MissingColonAtEnd | Compiler/Sources/boltc/CompilerCore/Parser/ParameterParser.swift:28 | A name at the very end of the stream fails where the colon should be. |
| GroupParser.GroupTest | Compiler/Sources/boltc/CompilerCore/Parser/GroupParser.swift:23-27 | The test holds exactly when `(` is next. |
| GroupParser.ParseGroup | Compiler/Sources/boltc/CompilerCore/Parser/GroupParser.swift:35-74 | At the end of the stream it traps. A group read is located at its `(` and ends with `)`. |
| GroupParser.GroupLoop | Compiler/Sources/boltc/CompilerCore/Parser/GroupParser.swift:47-68 | A `)` closes the group with the items read so far. At the end of the stream it traps. Items already read are kept. |
| GroupParser.EmptyGroup | Compiler/Sources/boltc/CompilerCore/Parser/GroupParser.swift:47-51 | `()` is the empty group, located at the `(`. |
| GroupParser.GroupOfStrings | Compiler/Sources/boltc/CompilerCore/Parser/GroupParser.swift:35-74 | Round trip: a parenthesised, comma-separated list of strings, with or without a trailing comma, reads back as the group of those strings. |
| GroupParser.GroupErrors | Compiler/Sources/boltc/CompilerCore/Parser/GroupParser.swift:57-67 | `("a" "b")` fails with `b` reported as an unexpected token, after it is consumed. `("a"` at the end of the stream traps. |
| CallParser.CallTest | Compiler/Sources/boltc/CompilerCore/Parser/CallParser.swift:22-28 | The test holds exactly when an identifier is followed by `(`. |
| CallParser.ParseCall | Compiler/Sources/boltc/CompilerCore/Parser/CallParser.swift:30-69 | It traps unless an identifier is next. On success the callee is bound through the symbol table, `(` follows the name, and the call ends with `)`. |
| CallParser.ArgumentLoop | Compiler/Sources/boltc/CompilerCore/Parser/CallParser.swift:43-64 | At `)` or at the end of the stream, the call is closed. A token that no parser accepts fails with the no-parser error. A call read keeps the earlier arguments and ends with `)`. |
| CallParser.CallPrefix | Compiler/Sources/boltc/CompilerCore/Parser/CallParser.swift:30-69 | After the identifier and `(`, the argument loop runs with the callee bound through the symbol table. |
| CallParser.TrailingComma | Compiler/Sources/boltc/CompilerCore/Parser/CallParser.swift:43-64 | An argument followed by `,` and `)` closes the call with that argument last. |
| CallParser.MissingComma | Compiler/Sources/boltc/CompilerCore/Parser/CallParser.swift:60-63 | A token where `,` belongs is consumed, and `)` is reported as expected at the token after it. |
| CodeBlockParser.CodeBlockTest | Compiler/Sources/boltc/CompilerCore/Parser/CodeBlockParser.swift:23-29 | The test holds exactly when `{` is next. |
| CodeBlockParser.ParseCodeBlock | Compiler/Sources/boltc/CompilerCore/Parser/CodeBlockParser.swift:31-59 | A missing `{` fails with `expected` `{`, after consuming the wrong token. With no scope it traps. A block read starts at `{` and ends with `}`. |
| CodeBlockParser.BlockLoop | Compiler/Sources/boltc/CompilerCore/Parser/CodeBlockParser.swift:38-53 | A statement that no parser accepts fails with the no-parser error. `}` or the end of the stream finishes the block. Statements already read are kept. |
| CodeBlockParser.Finish | Compiler/Sources/boltc/CompilerCore/Parser/CodeBlockParser.swift:55-58 | At `}` the block is built after the scope is left. At the end of the stream it fails with `expected` `}`, also after leaving the scope. |
| CodeBlockParser.CodeBlockRestoresTable | Compiler/Sources/boltc/CompilerCore/Parser/CodeBlockParser.swift:31-59 | When dispatched parsers leave the table's depth as they found it, a block read successfully leaves the table exactly as it found it. |
| CodeBlockParser.NoParserLeavesScopeOpen | Compiler/Sources/boltc/CompilerCore/Parser/CodeBlockParser.swift:49-52 | A statement no parser accepts fails with the block's scope still entered, one deeper than before. |
| CodeBlockParser.EndOfStreamInBlock | Compiler/Sources/boltc/CompilerCore/Parser/CodeBlockParser.swift:38-56 | `{` as the last token fails with `expected` `}` at the `{`, and the table is as it was. |
| FunctionParser.FunctionTest | Compiler/Sources/boltc/CompilerCore/Parser/FunctionParser.swift:22-28 | The test holds exactly when `func` is followed by `<`. |
| FunctionParser.ParseFunction | Compiler/Sources/boltc/CompilerCore/Parser/FunctionParser.swift:30-89 | On success the test held and the name is among the tokens read. The function has at most one child, a code block. Without a body, the table is the old one with the function defined. |
| FunctionParser.ParseSignature | Compiler/Sources/boltc/CompilerCore/Parser/FunctionParser.swift:30-72 | On success the test held and at least six tokens are read. The return type is a type node, and the name is an identifier among the tokens read. |
| FunctionParser.ParseParameterList | Compiler/Sources/boltc/CompilerCore/Parser/FunctionParser.swift:53-68 | On success every item is a parameter node, and at least one token is read. |
| FunctionParser.ParameterLoop | Compiler/Sources/boltc/CompilerCore/Parser/FunctionParser.swift:55-67 | At the end of the stream or at `)` the loop stops with the parameters read so far. Otherwise, on success, it keeps them as a prefix, adds only parameter nodes and moves forward. |
| FunctionParser.ParameterTurn | Compiler/Sources/boltc/CompilerCore/Parser/FunctionParser.swift:56-58 | With a token available, the loop stops exactly when that token is `)`. |
| FunctionParser.ParameterRead | Compiler/Sources/boltc/CompilerCore/Parser/FunctionParser.swift:60-66 | A parameter read is appended, with the earlier ones kept, and at least one token is consumed. |
| FunctionParser.ParameterListSpelled | Compiler/Sources/boltc/CompilerCore/Parser/FunctionParser.swift:53-68 | Round trip: `( n1 : T1 , ... , nk : Tk )` reads back as the parameters `n1` to `nk`, in order, each with its name's mark and its type, consuming exactly those tokens. |
| FunctionParser.ParameterLoopSpelled | Compiler/Sources/boltc/CompilerCore/Parser/FunctionParser.swift:55-67 | A non-empty written list followed by `)` is read up to the `)`, its parameters appended in order after those already read. |
| FunctionParser.ParametersBound | Compiler/Sources/boltc/CompilerCore/Parser/FunctionParser.swift:72-85 | Once the parameters are defined, each parameter name finds that parameter. |
| FunctionParser.FunctionDefinedOnce | Compiler/Sources/boltc/CompilerCore/Parser/FunctionParser.swift:71-85 | On success, the table afterwards is exactly the old one with the function returned defined under its name. With a body, that is the node that received the body, as the table holds the same object. |
| FunctionParser.Completed | Compiler/Sources/boltc/CompilerCore/Parser/FunctionParser.swift:72-83 | Attaching the body changes only the innermost scope: the name's entry, when it holds the declared node, now holds the completed node, and every other name finds what it found before. |
| FunctionParser.DefineThenComplete | Compiler/Sources/boltc/CompilerCore/Parser/FunctionParser.swift:71-83 | Defining the declaration and then attaching its body is the same as defining the completed function. |
| FunctionParser.WithBodyBalanced | Compiler/Sources/boltc/CompilerCore/Parser/FunctionParser.swift:75-85 | A body read successfully leaves the table exactly as it found it. |
| FunctionParser.SignatureSpelled | Compiler/Sources/boltc/CompilerCore/Parser/FunctionParser.swift:30-72 | Round trip: `func < T > name ( )` reads back as a declaration of `name` returning `T`. |
| FunctionParser.HeadSpelled | Compiler/Sources/boltc/CompilerCore/Parser/FunctionParser.swift:32-43 | Round trip: `func < T >` reads back as the type `T`, consuming exactly those tokens. |
| FunctionParser.EmptyParameterList | Compiler/Sources/boltc/CompilerCore/Parser/FunctionParser.swift:53-68 | `()` gives no parameters. |
| FunctionParser.NonIdentifierName | Compiler/Sources/boltc/CompilerCore/Parser/FunctionParser.swift:46-50 | `func<Int> (` fails with `(` reported as an unexpected token, after it is consumed. |
| FunctionParser.DeclarationWithoutBody | Compiler/Sources/boltc/CompilerCore/Parser/FunctionParser.swift:71-89 | A signature not followed by `{` gives the bodiless function, defined in the table under its name. |
| FunctionParser.MainDeclaration | Compiler/Sources/boltc/CompilerCore/Parser/FunctionParser.swift:30-89 | `func<Int> main()` reads as the bodiless function `main` returning `Int`, defined in the table. |
| ConstantParser.ConstantTest | Compiler/Sources/boltc/CompilerCore/Parser/ConstantParser.swift:23-28 | The test holds exactly when `let` is followed by `<`. |
| ConstantParser.ParseConstant | Compiler/Sources/boltc/CompilerCore/Parser/ConstantParser.swift:30-57 | Fewer than three tokens traps. Otherwise the first two tokens are skipped unchecked, and the constant is located at the first of them. |
| ConstantParser.Declaration | Compiler/Sources/boltc/CompilerCore/Parser/ConstantParser.swift:37-56 | On success it gives a constant declaration of a type node at the `let`. Failures are `expected` `>` or `expected` identifier. |
| ConstantParser.NameOf | Compiler/Sources/boltc/CompilerCore/Parser/ConstantParser.swift:45-49 | It succeeds exactly when an identifier is next. Anything else fails with `expected` identifier, and nothing is consumed. |
| ConstantParser.ConstantSpelled | Compiler/Sources/boltc/CompilerCore/Parser/ConstantParser.swift:30-57 | Round trip: `let < T > name` reads back as the constant `name` of type `T` at the `let`, consuming exactly those tokens. |
| ConstantParser.DeclarationTokens | Compiler/Sources/boltc/CompilerCore/Parser/ConstantParser.swift:37-56 | A declaration read consists of the type's tokens, `>` and the name, which is the last token consumed. |
| ConstantParser.PrologueUnchecked | Compiler/Sources/boltc/CompilerCore/Parser/ConstantParser.swift:34 | `func < Int > x` is read as a constant, just as `let < Int > x` is. |
| ConstantParser.MissingName | Compiler/Sources/boltc/CompilerCore/Parser/ConstantParser.swift:45-49 | `let < Int > 5` fails with `expected` identifier at the literal's mark, and the literal is not consumed. |
| VariableParser.VariableTest | Compiler/Sources/boltc/CompilerCore/Parser/VariableParser.swift:22-28 | The test holds exactly when `let` is followed by `<`. |
| VariableParser.ParseVariable | Compiler/Sources/boltc/CompilerCore/Parser/VariableParser.swift:30-72 | On success, a variable of the declared type node has no children. Any initial value has the declared type's value type. |
| VariableParser.InitialValue | Compiler/Sources/boltc/CompilerCore/Parser/VariableParser.swift:52-71 | Without `=`, there is no value and nothing is consumed. With `=`, having no parser traps. A value of another type traps, and one of the declared type is taken. |
| VariableParser.NonIdentifierAfterHead | Compiler/Sources/boltc/CompilerCore/Parser/VariableParser.swift:46-49 | A name that is not an identifier is consumed and reported as the bare unexpected token. |
| VariableParser.EndAfterHead | Compiler/Sources/boltc/CompilerCore/Parser/VariableParser.swift:46-49 | The stream ending right after `>` traps. |
| VariableParser.WithoutValue | Compiler/Sources/boltc/CompilerCore/Parser/VariableParser.swift:68-71 | A variable without a value ends with its name, and no `=` follows it. |
| VariableParser.ValueFromIdentifier | Compiler/Sources/boltc/CompilerCore/Parser/VariableParser.swift:52-67 | The value `= y` is bound through the table. It is taken exactly when its type is the declared type; otherwise it traps. |
| DirectiveParser.DirectiveTest | Compiler/Sources/boltc/CompilerCore/Parser/DirectiveParser.swift:23-29 | The test holds exactly when `@`, `pragma` and `(` are next. |
| DirectiveParser.ParseDirective | Compiler/Sources/boltc/CompilerCore/Parser/DirectiveParser.swift:31-72 | It succeeds exactly on a well-formed directive in the `linker` namespace, giving a linker flag at the `@` after seven tokens. A well-formed directive with another namespace fails with `unknownCompilerNamespace`. |
| DirectiveParser.NamespaceNotIdentifier | Compiler/Sources/boltc/CompilerCore/Parser/DirectiveParser.swift:38-42 | A namespace that is not an identifier is consumed and reported at its own mark. |
| DirectiveParser.MissingCommaNamesNextToken | Compiler/Sources/boltc/CompilerCore/Parser/DirectiveParser.swift:45-55 | A token where the comma belongs is consumed silently, and the error names the token after it. |
| DirectiveParser.MissingCommaAtEnd | Compiler/Sources/boltc/CompilerCore/Parser/DirectiveParser.swift:45-55 | With nothing after a wrong comma, the second `advance` traps. |
| DirectiveParser.LinkerPragma | Compiler/Sources/boltc/CompilerCore/Parser/DirectiveParser.swift:64-71 | `@pragma(linker, "-lc")` gives the linker flag `-lc` at the `@`. |
| Sema.DefineSymbol | Compiler/Sources/boltc/CompilerCore/Sema/FunctionSema.swift:64-73 | It traps exactly when there is no scope. It succeeds exactly when the name is absent, or only declared and now defined. Otherwise it fails with a redefinition. On success the name is bound and nothing else changes. |
| Sema.Analyse | Compiler/Sources/boltc/CompilerCore/Sema/Sema.swift:42-52 | Analysing an expression gives back exactly that expression. |
| Sema.AnalyseAll | Compiler/Sources/boltc/CompilerCore/Sema/Sema.swift:34-40 | Analysing a list gives back exactly that list. |
| Sema.PerformAnalysis | Compiler/Sources/boltc/CompilerCore/Sema/Sema.swift:30-32 | The tree's expressions are left exactly as they were. |
| Sema.DeclareDefineRedefine | Compiler/Sources/boltc/CompilerCore/Sema/FunctionSema.swift:49-73 | A name may be declared, then defined once. A further definition or declaration is refused. |
| Sema.DeclareTwice | Compiler/Sources/boltc/CompilerCore/Sema/FunctionSema.swift:64-73 | A declaration cannot be repeated. |
| IdentifierSema.Perform | Compiler/Sources/boltc/CompilerCore/Sema/IdentifierSema.swift:23-38 | A non-identifier fails with `expectedUnboundIdentifier`. An identifier succeeds exactly when its name is found, and it is bound to the found expression at its own location. An unknown name fails with `unknownIdentifier`. The table is unchanged. |
| IdentifierSema.ParameterThenIdentifier | Compiler/Sources/boltc/CompilerCore/Sema/IdentifierSema.swift:32-37 | After a parameter is accepted, its name binds to that parameter, with the parameter's type. |
| IdentifierSema.IdentifierBeforeDeclaration | Compiler/Sources/boltc/CompilerCore/Sema/IdentifierSema.swift:32-35 | Before any declaration, the name is unknown. |
| ParameterSema.Perform | Compiler/Sources/boltc/CompilerCore/Sema/ParameterSema.swift:23-43 | It succeeds exactly on a parameter of storage type whose name is not visible. The name is then bound to the parameter, and other names are unchanged. A non-storage type fails with `illegalStorageType`, with the table unchanged. |
| FunctionSema.Perform | Compiler/Sources/boltc/CompilerCore/Sema/FunctionSema.swift:23-37 | A declaration, or a definition of one, goes to the function check. Anything else fails with `expectedFunctionDeclarationDefinition`. |
| FunctionSema.OnFunction | Compiler/Sources/boltc/CompilerCore/Sema/FunctionSema.swift:39-74 | It succeeds exactly when the table admits the name. The table then differs only in that name. A body comes back wrapped in a new block. A refusal is a redefinition with the table unchanged. |
| FunctionSema.DeclareThenDefine | Compiler/Sources/boltc/CompilerCore/Sema/FunctionSema.swift:39-74 | A function may be declared and then defined, and a second definition is refused. |
| FunctionSema.BlockBodyNested | Compiler/Sources/boltc/CompilerCore/Sema/FunctionSema.swift:49-63 | A block body comes back as a block holding that block. |
| ConstantSema.Perform | Compiler/Sources/boltc/CompilerCore/Sema/ConstantSema.swift:23-37 | A declaration, or a definition of one, goes to the constant check. Anything else fails with `expectedConstantDeclarationDefinition`. |
| ConstantSema.OnConstant | Compiler/Sources/boltc/CompilerCore/Sema/ConstantSema.swift:39-73 | It succeeds exactly when any value passes both type checks and the table admits the name. A non-storage type is reported at the type, and a mismatch at the value. |
| ConstantSema.NoneDeclarationAccepted | Compiler/Sources/boltc/CompilerCore/Sema/ConstantSema.swift:66-72 | A declaration without a value is not type-checked, so even a constant of type `None` is declared. |
| ConstantSema.NoneDefinitionRefused | Compiler/Sources/boltc/CompilerCore/Sema/ConstantSema.swift:51-54 | The same constant with a value is refused at its type. |
| ConstantSema.StringTakesInt8Pointer | Compiler/Sources/boltc/CompilerCore/Sema/ConstantSema.swift:56-59 | A `String` constant accepts an `Int8*` value, because representations are compared. |
| ConstantSema.IntRefusesString | Compiler/Sources/boltc/CompilerCore/Sema/ConstantSema.swift:56-59 | An `Int` constant refuses a string literal, and the refusal is reported at the literal. |
| CallSema.Target | Compiler/Sources/boltc/CompilerCore/Sema/CallSema.swift:24-26 | The callee's target, when there is one, is a function node. |
| CallSema.FirstMismatch | Compiler/Sources/boltc/CompilerCore/Sema/CallSema.swift:33-38 | There is no mismatch exactly when all types agree. Otherwise it gives the first offset whose types differ. |
| CallSema.Perform | Compiler/Sources/boltc/CompilerCore/Sema/CallSema.swift:23-41 | A call passes exactly when its callee is a function whose parameters agree in number and type with the arguments. A call that passes comes back unchanged. Otherwise the error is, in this order: not a function, the count, or the first mismatching offset with both types. |
| CallSema.MismatchAtOffsetZero | Compiler/Sources/boltc/CompilerCore/Sema/CallSema.swift:33-38 | An `Int8` argument to an `Int` parameter is reported at offset 0 with both types. |
| CallSema.ArityFirst | Compiler/Sources/boltc/CompilerCore/Sema/CallSema.swift:28-31 | A wrong count is reported whatever the argument types. |
| CallSema.CalleeNotFunction | Compiler/Sources/boltc/CompilerCore/Sema/CallSema.swift:24-26 | An unbound callee, or one that is not a function, is refused. |
| BinaryOperationSema.Fold | Compiler/Sources/boltc/CompilerCore/Sema/BinaryOperationSema.swift:28-30 | The sum of two integer literals is folded into a literal at the operation's location. It traps exactly when the sum overflows 64 bits. |
| BinaryOperationSema.CheckOperands | Compiler/Sources/boltc/CompilerCore/Sema/BinaryOperationSema.swift:35-50 | It passes exactly when both operands have one storage type. Otherwise it reports the left operand's storage, the right operand's storage, or the mismatch, in that order. |
| BinaryOperationSema.Perform | Compiler/Sources/boltc/CompilerCore/Sema/BinaryOperationSema.swift:23-54 | As written, every storage-type error names the left operand's type. |
| BinaryOperationSema.PerformCorrected | Compiler/Sources/boltc/CompilerCore/Sema/BinaryOperationSema.swift:23-54 | As intended, a storage-type error always names a type that cannot be stored. |
| BinaryOperationSema.RightOperandReportedAsLeftType | Compiler/Sources/boltc/CompilerCore/Sema/BinaryOperationSema.swift:40-43 | `1 + x` with `x` unbound is refused as an illegal `Int`, a storable type. The correction reports `None`. |
| BinaryOperationSema.CorrectionIsLocal | Compiler/Sources/boltc/CompilerCore/Sema/BinaryOperationSema.swift:35-43 | The two versions differ exactly on a valid left operand with an invalid right one. |
| BinaryOperationSema.FoldExamples | Compiler/Sources/boltc/CompilerCore/Sema/BinaryOperationSema.swift:28-30 | `1 + 2` folds to `3`, and adding one to the largest `Int` traps. |
| BinaryOperationSema.StringPlusInt8Pointer | Compiler/Sources/boltc/CompilerCore/Sema/BinaryOperationSema.swift:45-48 | Operand types are compared as written, so a string plus an `Int8*` is a mismatch. |

## Left out

- Code generation, the import parser, the build system, file handling,
  the `Parser.swift` driver and `Foundation/AST.swift` are not part of
  this model.
- Diagnostic description strings, the file of a `Mark`, and the `Double`
  value of a float token are left out. Marks keep only the line and the
  column, and float tokens keep only their text.
- Object identity and the owner and parent pointers of nodes are left
  out. Nodes are values. Where the modelled operations rely on sharing, it
  is restated: `Ast.WriteBack` (a change to the visited module is a change
  to the listed one), `Ast.Refresh` inside `Ast.TraverseTree` (a traversal
  of the listed modules reaches the visited ones) and
  `FunctionParser.Completed` (the function in the table is the one that
  receives the body). The cases below are not restated.
- Ast.Add: a non-module node added under a visited node that is not a
  module is appended to the visit stack's copy only. In the source that
  node may also sit in a module's children, which would change too.
- Ast.Traverse: the body is a total function that returns no node taller
  than the one it was given (`NonGrowing`). The source also accepts bodies
  that grow the tree and still finish, and bodies that throw (`rethrows`).
  A body that always wraps its node makes the source loop forever, which
  has no counterpart here. A node the body returns twice is one object in
  the source and is traversed twice in place; here the two copies are
  traversed once each. The body's call on the node itself is discarded in
  the source and is not modelled.
- Nodes.ValueType: the type, parameter, variable, call and code-block node
  classes are defined outside the modelled files. Their value types are
  taken to be: a type node its type, a parameter or variable its type
  node's, a call its callee's, and `None` for a code block.
- Nodes.NewCall: the call node class is defined outside the modelled files.
  It is taken to hold the callee and a mark, with the arguments as its
  children and location `.unknown`.
- Tokens.Matches: `Token.matches(_:weakIdentifier:)` is defined outside the
  modelled files. It is taken to compare kinds only for literals, the text
  of identifiers unless the match is weak, and the keyword or symbol
  otherwise, never the marks.
- Lexer.Handle: the source steps through Swift `Character`s, which are
  extended grapheme clusters. The model steps through Unicode scalars. So
  `\r\n` is two steps here, and the `\n` starts a new line, where Swift
  sees one character that is not a line feed. A base letter with combining
  marks is one column in Swift and several here. Grapheme segmentation is
  not modelled.
- Lexer.LinesCounted: counts line-feed scalars. A `\r\n` break, which Swift
  does not count as a line, is counted here (see `Lexer.Handle`).
- Lexer.ColumnsCounted: one column per scalar, not per grapheme cluster
  (see `Lexer.Handle`).
- Lexer.PositionCounts: line and column are computed over scalars, not
  grapheme clusters, so text with `\r\n` or combining marks gets a
  different position (see `Lexer.Handle`).
- Lexer.AfterLineFeed: one column per scalar, not per grapheme cluster
  (see `Lexer.Handle`).
- Lexer.AnalysisPlacesTokens: marks are the scalar-based positions, so a
  token after a `\r\n` or a combining mark has a line or column that
  differs from the source's (see `Lexer.Handle`).
- `CharacterSet.numberSet`, `CharacterSet.identifierSet` and Swift's
  `Double(String)` are not part of this model. They are the
  `Lexer.CharClasses` parameter. The comment and string delimiters are
  fixed at `//` and `"`.
- The lists of scoped parsers and return parsers are not part of this
  model. They are the `Dispatch` parameter, constrained only where a
  property needs it.
- The identifier parser is not part of this model. `CallParser.ParseIdentifier`
  takes it to read one identifier and bind it through the symbol table.
- `TypeParser.parse(scanner:owner:)`, the expression form of the type
  parser, is not part of this model. `TypeParser.ParseTypeExpr` takes it to
  read the same tokens as the node form.
- `Expression.type` is not part of this model. `Expressions.ExprType`
  reconstructs it from how the semantic rules use it. String and integer
  literals have `String` and `Int`. A declaration has its declared or
  return type, and a definition its declaration's. A bound identifier has
  its target's type, and a call its callee's. A block or group has its
  last item's type, a return its value's, and a binary operation its left
  operand's. Everything else, booleans included, has `None`.
- `isValidStorageType` is not part of this model. It is taken to be
  "anything but `None`".
- The semantic symbol table is not part of this model. It is taken to be
  the parser's scope stack, holding the expression, a declaration flag and
  a location. A definition is refused when the name is visible, except
  that a declaration may be defined once.
- `SymbolTable.add(rootSymbols:)` is not part of this model.
  `SymbolTables.AddRootSymbols` takes it to place the incoming symbols
  ahead of the root scope's own symbols.
- The semantic driver has error paths for tree shapes it cannot meet.
  Those paths are not modelled.
- `VariableParser.ParseVariable`: a value of a mismatching type, and `=`
  with no parser, are both `fatalError` in the source. Both are modelled
  as a trap, with no message.

Three facts about the Swift declarations shape the model:

- `Token.swift` has no case for symbols (`<`, `>`, `(`, `*` and so on),
  but every parser matches them. The model adds a symbol case. The lexer
  never produces symbols or keywords: a symbol character is an unexpected
  character (`Lexer.PerformAnalysis`).
- `Expressions.swift` lacks cases that the parsers and semantic rules
  build and match: booleans, groups, constant declarations, linker flags,
  bound identifiers and binary operations. The model adds them to
  `Expressions.Expression`.
- `Sema.analyse(expression:)` applies no rule. It only rebuilds blocks, so
  semantic analysis as driven leaves the tree unchanged
  (`Sema.PerformAnalysis`).

## Findings

| source | as written | input that shows it | evidently intended | confidence | as-written member | corrected member |
|---|---|---|---|---|---|---|
| Compiler/Sources/boltc/CompilerCore/Sema/BinaryOperationSema.swift:40-43 | A right operand that is not a storage type is reported with the left operand's type. | `1 + x`, with `x` unbound, is reported as an illegal storage type `Int`. | Report the right operand's own type, `None`. | not executed | BinaryOperationSema.RightOperandReportedAsLeftType | BinaryOperationSema.PerformCorrected |
| Compiler/Sources/boltc/CompilerCore/AST/AST.swift:59-64 | `leave()` is allowed only when exactly one node is being visited, so it pops the main module and traps on any visited node. | `visit(n)` followed by `leave()` on a new tree traps. | Trap only when leaving would pop the main module, as the message says. | not executed | Ast.LeaveAfterVisitIsFatal | Ast.LeaveVisitedUndoesVisit |
| Compiler/Sources/boltc/CompilerCore/Lexer/Lexer.swift:120-139 | After skipping whitespace, the loop tries to read a token even when no character is left, and `advance()` throws `unexpectedEndOfSource`. | The source `x` followed by a line feed fails to lex. | Stop the loop when only space remains. | not executed | Lexer.TrailingLineFeed | Lexer.CorrectionOnlyAtEnd |

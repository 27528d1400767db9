# TastyFresh front end, in Dafny

TastyFresh transpiles its own language (`.tasty` files) to C++: each source
file becomes a `.cpp` file and a header. This project models the core of
that pipeline and proves properties of the model:

- the shared text cursor (`Parser`): whitespace and comment skipping, names,
  operators, string literals with escapes, and the type grammar (modules
  `Scan`, `TypeScan`, `Cursor`);
- the declaration parsers for modules, classes, abstract refurbishes,
  attributes and attribute classes, includes, imports, assumes, injections
  and module attributes, with the `DeclarationResult` error helpers
  (`Declarations`, `ModuleDeclarations`, `ClassDeclarations` and the other
  `*Declarations` modules);
- the statement parsers for `while`, `loop`, `do`/`while`, `if`/`else`,
  the counted `for` loops, `return` and injections (`*Parsers`);
- the expression tokeniser and its reducer, which folds prefix, suffix,
  infix, ternary, call and index pieces by operator priority, chains
  comparisons and rewrites static extension calls (`ExpressionParsers`,
  `ExpressionPieces`, `Expressions`);
- the value and variable types, function styles, and the contexts that
  track names, headers, classes and static extensions;
- the emitter: header declaration lists, the placement of variables,
  includes, imports and injections in the C++ source, and the header with
  its include guard (`Transpilers`, `SourceFiles`, `MainOutput`).

Imperative Rust code (the cursor, the contexts, the expression parser, the
line buffers) is modelled as Dafny classes and methods whose `ensures`
clauses tie the new state to a pure specification function; the lemmas
state the properties of those functions. Code that only computes is
modelled as functions.

Where the code and its documentation differ, the model follows the code:
- the documentation describes a precedence-climbing parser that stops at
  the first error; the code tokenises an expression into pieces and folds
  the highest-priority piece first, and its declaration loop reports a
  failed declaration and carries on;
- the documentation lists `incto` and `decto` loops; the code's `for`
  recogniser does not accept them (see Findings);
- `parse_escape_char` tests for a digit before it matches the escape
  letter, so `\0` needs two more digits and the `'0'` arm of the match is
  never reached; the model keeps that behaviour.

## Model

| member | source | states |
|---|---|---|
| ValueTypes.NumberToCpp | src/expression/value_type.rs:67-83 | every number type has a non-empty C++ spelling |
| ValueTypes.SignedCounterpart | src/expression/value_type.rs:67-83 | each unsigned type is paired with a signed one |
| ValueTypes.UnsignedSpelling | src/expression/value_type.rs:67-83 | an unsigned type is spelled "unsigned " followed by the spelling of its signed counterpart |
| ValueTypes.NumberFromCpp | src/expression/value_type.rs:67-83 | reading a spelling back only ever yields a type spelled that way |
| ValueTypes.NumberSpellingRoundTrip | src/expression/value_type.rs:67-83 | reading back the spelling of any number type gives that type |
| ValueTypes.NumberToCppInjective | src/expression/value_type.rs:67-83 | two number types with the same spelling are the same type |
| ValueTypes.StringToCpp | src/expression/value_type.rs:93-99 | both character-array kinds give "const char*" and only the class kind gives "std::string" |
| ValueTypes.NewValueType | src/expression/value_type.rs:31-47 | "null" is Null, "true"/"false" are Boolean, all-digit text is an Int number, anything else a class with an empty name; never Unknown or String |
| ValueTypes.EmptyLiteralIsNumber | src/expression/value_type.rs:34-40 | the empty literal classifies as an Int number (the digit test holds vacuously) |
| VariableTypes.PrimitiveSpellings | src/expression/variable_type.rs:34-78 | inferred, void and bool types are "auto", "void", "bool"; numbers and strings use their value-type spellings |
| VariableTypes.ParamsFollowName | src/expression/variable_type.rs:34-78 | a parameterised type is its name chain followed by the arguments in angle brackets |
| VariableTypes.QualifiedSpelling | src/expression/variable_type.rs:34-78 | a two-name chain is joined by "::" |
| VariableTypes.NewVarStyle | src/expression/variable_type.rs:94-106 | a keyword outside the style list reads as Unknown; any other reads as the style whose name it is |
| VariableTypes.VarStyleName | src/expression/variable_type.rs:112-124 | only Unknown has the empty name; every other name is one of the style keywords |
| VariableTypes.VarStyleRoundTrip | src/expression/variable_type.rs:94-124 | reading a style's own name gives the style back |
| VariableTypes.NewVarProps | src/expression/variable_type.rs:158-170 | a keyword outside the property list reads as Unknown; any other reads as the property whose name it is |
| VariableTypes.VarPropsName | src/expression/variable_type.rs:176-188 | only Unknown has the empty name; every other name is one of the property keywords |
| VariableTypes.VarPropsRoundTrip | src/expression/variable_type.rs:158-188 | reading a property's own name gives the property back |
| Scan.ForEnd | src/declaration_parser/parser.rs:105-111 | the cursor stays put; out of space becomes set exactly when it was set or the index is at or past the end |
| Scan.Inc | src/declaration_parser/parser.rs:61-64 | the index moves by one on the same line; out of space is set exactly when the new index is at or past the end (or it already was) |
| Scan.CheckAheadAsWritten | src/declaration_parser/parser.rs:75-78 | slicing the content from the index fails exactly when the index is past the end; otherwise the answer is whether the text there starts with the checked text |
| Scan.NothingAheadPastEnd | src/declaration_parser/parser.rs:75-78 | at or past the end no non-empty text is ahead |
| Scan.AheadFits | src/declaration_parser/parser.rs:75-78 | text found ahead lies within the content and equals the content at that position |
| Scan.UntilChar | src/declaration_parser/parser.rs:309-320 | `parse_until` stays put (and reports no scan) exactly when the current character already is the sought one; otherwise it only moves forward on the same line |
| Scan.UntilCharFindsNext | src/declaration_parser/parser.rs:309-320 | from a different character, the scan stops at the next occurrence of the sought character, or at the end with out of space set, skipping no occurrence |
| Scan.UntilCharFound | src/declaration_parser/parser.rs:309-320 | the scan ends in space exactly when the character occurs in the rest of the content, and then at its first occurrence |
| Scan.LineComment | src/declaration_parser/parser.rs:225-229 | a `//` comment is skipped past its newline, counting one line; the index may end one past the end of the content |
| Scan.BlockLoop | src/declaration_parser/parser.rs:231-236 | the block-comment loop moves forward on the same line and stops on a '/' or at the end |
| Scan.BlockComment | src/declaration_parser/parser.rs:230-239 | a `/*` comment is skipped on the same line count, ending at most two past the end |
| Scan.Comments | src/declaration_parser/parser.rs:224-241 | a comment is skipped exactly when one starts at the index; otherwise nothing moves |
| Scan.WsLoop | src/declaration_parser/parser.rs:207-219 | the whitespace loop only moves forward and never loses a line |
| Scan.WsLoopAtEnd | src/declaration_parser/parser.rs:208-214 | out of space at the end, the loop does nothing |
| Scan.WsLoopSpace | src/declaration_parser/parser.rs:208-214 | a blank character is stepped over, a newline counting one line, and the loop goes on from there |
| Scan.Whitespace | src/declaration_parser/parser.rs:199-222 | `parse_whitespace` reports false exactly at the end or when neither a blank nor a comment is at the index, and then only updates out of space; when true it has moved forward |
| Scan.WsLoopStopsAtContent | src/declaration_parser/parser.rs:207-219 | the loop ends out of space or on a character that is neither blank nor the start of a comment |
| Scan.WhitespaceStopsAtContent | src/declaration_parser/parser.rs:199-222 | after skipped whitespace the cursor is out of space or on content |
| Scan.WsLoopCountsNewlines | src/declaration_parser/parser.rs:207-214 | over a run of blanks with no comment after it, the loop ends at the run's end with the line advanced by the newlines in the run |
| Scan.TrailingLineCommentOverruns | src/declaration_parser/parser.rs:225-229 | a `//` comment with no newline after it leaves the index one past the end, where the next `check_ahead` slices out of range |
| Scan.TrailingLineCommentWitness | src/declaration_parser/parser.rs:75-78 | on the text "//" the whitespace loop reaches `check_ahead` at index 3 of a 2-character text |
| Scan.TrailingLineCommentCorrected | src/declaration_parser/parser.rs:199-241 | with the slice treated as empty past the end, "//" is skipped to index 3, line 1, out of space |
| Scan.BlockLoopRunsOut | src/declaration_parser/parser.rs:231-236 | with no '/' after the opening, the block-comment loop runs to the end of the text |
| Scan.TrailingBlockCommentOverruns | src/declaration_parser/parser.rs:230-239 | a block comment with no '/' after its opening leaves the index past the end, where the next `check_ahead` slices out of range |
| Scan.TrailingBlockCommentWitness | src/declaration_parser/parser.rs:75-78 | on the text "/*" the whitespace loop reaches `check_ahead` at index 3, and on "/**" at index 4, past the end of the text |
| Scan.TrailingBlockCommentCorrected | src/declaration_parser/parser.rs:199-241 | with the slice treated as empty past the end, "/*" is skipped to index 3, line 0, out of space |
| Scan.UnclosedStringEndsLoop | src/declaration_parser/parser.rs:339-344 | after a string literal that runs to the end, the step finds the end flag and the loop ends without a target, so no slice is taken past the end |
| Scan.AsciiName | src/declaration_parser/parser.rs:258-272 | the name read is exactly the text the cursor moves over, on the same line; an empty name leaves only out of space updated |
| Scan.KeywordIsRead | src/declaration_parser/parser.rs:258-272 | a keyword starting at the index is read as a non-empty name |
| Scan.AsciiNameIsLongestIdentifier | src/declaration_parser/parser.rs:258-272 | the name is empty exactly when the first character cannot start one, and otherwise is the longest identifier run at the index |
| Scan.OpRun | src/declaration_parser/parser.rs:283-295 | the operator run read is exactly the text moved over |
| Scan.OpName | src/declaration_parser/parser.rs:279-298 | `parse_ascii_op_name` only moves forward on the same line |
| Scan.OpNameIsLongestRun | src/declaration_parser/parser.rs:279-298 | away from a '(' the name is the longest run of operator characters at the index |
| Scan.NextX | src/declaration_parser/parser.rs:497-513 | success moves exactly `x` characters, all of them digits (hex digits for the hex variant), and stays within the content |
| Scan.Escape | src/declaration_parser/parser.rs:476-495 | an accepted escape starts with a backslash and ends within the content, in space |
| Scan.StringPrefix | src/declaration_parser/parser.rs:441-474 | an accepted prefix ends on the opening quote (or the '(' of a raw string), and raw exactly when the prefix starts with 'R' |
| Scan.StringBody | src/declaration_parser/parser.rs:399-434 | a closed body ends on its closing quote in space; an unclosed one ends at most one past the end |
| Scan.StringLit | src/declaration_parser/parser.rs:387-434 | an accepted string literal starts with a quote or a prefix letter and ends on its closing quote |
| Scan.PlainBodyEndsAtQuote | src/declaration_parser/parser.rs:410-431 | without backslashes, a plain body ends at the first quote, or out of space at the end |
| Scan.PlainStringEndsAtQuote | src/declaration_parser/parser.rs:387-434 | a plain quoted literal without backslashes ends at its first closing quote, or fails out of space at the end |
| Scan.ExprStep | src/declaration_parser/parser.rs:339-357 | each step of `parse_until_at_expr` makes progress and never loses a line |
| Scan.ExprLoop | src/declaration_parser/parser.rs:337-360 | the loop ends on one of the two target characters at bracket depth zero or below, or out of space; see ExprLoopReachesTarget and ExprLoopSkipsString for which one |
| Scan.UntilAtExpr | src/declaration_parser/parser.rs:331-363 | it stays put exactly when a target character is current; a result character is always the current one and one of the two targets |
| Scan.PlainStep | src/declaration_parser/parser.rs:337-347 | from a character that is no blank, comment start, bracket or string opener, one pass of the loop moves exactly one position and does not stop |
| Scan.ExprLoopReachesTarget | src/declaration_parser/parser.rs:331-360 | the scan stops on a target no later than the first target character that only plain characters separate from the cursor |
| Scan.ExprLoopSkipsString | src/declaration_parser/parser.rs:337-341 | a string literal at the cursor is passed whole: the scan ends beyond its closing quote, so no target inside it stops the scan |
| Scan.UntilAtExprReachesTarget | src/declaration_parser/parser.rs:322-363 | parse_until_at_expr finds a target no later than the first one that only plain characters separate from the cursor |
| Cursor.Parser.constructor | src/declaration_parser/parser.rs:38-47 | a new parser holds the given content with the cursor at index 0 on line 0 and out of space cleared |
| Cursor.Parser.Reset | src/declaration_parser/parser.rs:50-54 | the cursor moves to the given index and line and out of space is cleared |
| Cursor.Parser.MoveTo | src/declaration_parser/parser.rs:792-800 | the cursor is restored to a saved position, as parse_type_and_style does when the first word is not a style |
| Cursor.Parser.Increment | src/declaration_parser/parser.rs:61-64 | the cursor advances as Scan.Inc says and the answer is whether it reached the end |
| Cursor.Parser.CheckAheadAndMove | src/declaration_parser/parser.rs:90-98 | the cursor moves past the checked text exactly when that text is ahead, and stays otherwise; line and out of space are unchanged |
| Cursor.Parser.CheckForEnd | src/declaration_parser/parser.rs:105-111 | out of space is updated as Scan.ForEnd says and the answer is whether the index is at or past the end |
| Cursor.Parser.CheckForNumber | src/declaration_parser/parser.rs:373-380 | a number starts here exactly when the current character is a digit and the reported offset is positive; no offset is reported otherwise |
| Cursor.Parser.ParseUntil | src/declaration_parser/parser.rs:309-320 | the cursor lands where Scan.UntilChar puts it, on the searched character or at the end |
| Cursor.Parser.CheckAndParseComments | src/declaration_parser/parser.rs:224-241 | a comment at the cursor is skipped as Scan.Comments says, with the answer whether one was found |
| Cursor.Parser.ParseWhitespace | src/declaration_parser/parser.rs:199-222 | blanks, newlines and comments are skipped as Scan.Whitespace says, lines counted |
| Cursor.Parser.SkipBlank | src/declaration_parser/parser.rs:200-220 | one run of the whitespace loop ends where Scan.WsLoop says |
| Cursor.Parser.SkipSpaces | src/declaration_parser/parser.rs:200-210 | the cursor stops on the first character that is not a blank, never moving back, and the rest of the whitespace loop is unaffected |
| Cursor.Parser.ParseWhitespaceAndCheckSpace | src/declaration_parser/parser.rs:248-251 | whitespace is skipped as Scan.Whitespace says and the answer is whether the content ran out |
| Cursor.Parser.ParseAsciiCharName | src/declaration_parser/parser.rs:258-272 | the name read and the new cursor are those of Scan.AsciiName |
| Cursor.Parser.ParseAsciiOpName | src/declaration_parser/parser.rs:279-298 | the operator text read and the new cursor are those of Scan.OpName |
| Cursor.Parser.ParseOpRun | src/declaration_parser/parser.rs:283-296 | the run of operator characters read is that of Scan.OpRun |
| Cursor.Parser.ParseUntilAtExpr | src/declaration_parser/parser.rs:331-363 | the cursor stops where Scan.UntilAtExpr says and reports which target it found |
| Cursor.Parser.CheckForString | src/declaration_parser/parser.rs:387-392 | the cursor does not move; the answer is whether a string literal can be read here |
| Cursor.Parser.ParseString | src/declaration_parser/parser.rs:399-434 | a string literal is read as Scan.StringLit says, with the answer whether it was well formed |
| Cursor.Parser.ParseStringPrefix | src/declaration_parser/parser.rs:441-474 | the literal prefix and its raw flag are read as Scan.StringPrefix says |
| Cursor.Parser.ParseEscapeChar | src/declaration_parser/parser.rs:476-495 | an escape sequence is read as Scan.Escape says, with the answer whether it was valid |
| Cursor.Parser.NextXChars | src/declaration_parser/parser.rs:497-513 | the next characters are checked and passed as Scan.NextX says, for decimal or hexadecimal digits |
| Cursor.Parser.ParseType | src/declaration_parser/parser.rs:542-779 | the type read, the cursor and the error flags are those of TypeScan.PType |
| Cursor.Parser.ParseTupleElements | src/declaration_parser/parser.rs:552-576 | the tuple element loop ends as TypeScan.TupleLoop says |
| Cursor.Parser.ParseTypeWords | src/declaration_parser/parser.rs:579-716 | the specifier and name loop ends as TypeScan.NameLoop says |
| Cursor.Parser.ParseTypeChain | src/declaration_parser/parser.rs:703-713 | the qualified name chain is read as TypeScan.ChainLoop says |
| Cursor.Parser.ParseTypeParams | src/declaration_parser/parser.rs:719-776 | what follows a type name is read as TypeScan.AfterName says |
| Cursor.Parser.ParseParamList | src/declaration_parser/parser.rs:741-768 | the type parameter list loop ends as TypeScan.ParamLoop says |
| Cursor.Parser.ParseTypeAndStyle | src/declaration_parser/parser.rs:791-816 | the style, type and optional mark read are those of TypeScan.PTypeStyle |
| TypeScan.PType | src/declaration_parser/parser.rs:542-779 | reading a type never moves the cursor back, leaves it within the content, only ever sets error flags, and yields a type the grammar can produce |
| TypeScan.TupleLoop | src/declaration_parser/parser.rs:552-576 | the tuple loop never moves back and yields either a tuple or an inferred type |
| TypeScan.NameLoop | src/declaration_parser/parser.rs:579-716 | the specifier and name loop never moves back and only ever sets error flags |
| TypeScan.Primitive | src/declaration_parser/parser.rs:629-695 | exactly the eight primitive names are recognised; without long or sign specifiers a primitive raises no conflict |
| Cursor.Parser.ParseChainSeparator | src/declaration_parser/parser.rs:701-708 | the whitespace and separator between two names are read as ChainLoop says: either the chain ends there or a name follows, and the cursor moves forward past a separator |
| TypeScan.ChainLoop | src/declaration_parser/parser.rs:703-713 | the qualified name loop never moves back and only ever sets error flags |
| TypeScan.AfterName | src/declaration_parser/parser.rs:719-779 | reading what follows a name never moves back and only ever sets error flags |
| TypeScan.ParamLoop | src/declaration_parser/parser.rs:741-768 | a type parameter list yields either an inferred type or the named type with parameters, keeping the name chain |
| TypeScan.PTypeStyle | src/declaration_parser/parser.rs:791-816 | reading a style and type never moves back and only ever sets error flags |
| TypeScan.WordStartsNameLoop | src/declaration_parser/parser.rs:544-583 | a type that starts with a word is read by the specifier and name loop |
| TypeScan.IntIsInt | src/declaration_parser/parser.rs:649-659 | the word int reads as the signed int number type, just past the word |
| TypeScan.UnsignedIntIsUInt | src/declaration_parser/parser.rs:587-594 | unsigned followed by int reads as the unsigned int number type |
| TypeScan.SignsConflict | src/declaration_parser/parser.rs:587-602 | two sign specifiers in a row give an inferred type and the conflicting specifiers error |
| TypeScan.EmptyParensAreVoid | src/declaration_parser/parser.rs:552-557 | an empty pair of parentheses reads as void, just past the closing parenthesis |
| TypeScan.NoParamsIsUndeclared | src/declaration_parser/parser.rs:719-779 | a name not followed by a type parameter list reads as an undeclared type carrying the name chain |
| TypeScan.NonKeywordStartsChain | src/declaration_parser/parser.rs:697-705 | a word that is not a keyword starts a qualified name chain |
| TypeScan.ChainName | src/declaration_parser/parser.rs:703-706 | reading the name after a separator never moves back and only ever sets error flags |
| TypeScan.ChainMore | src/declaration_parser/parser.rs:701-706 | after a scope or dot separator the chain goes on with the name that follows it |
| TypeScan.ChainEnds | src/declaration_parser/parser.rs:705-713 | the name chain ends at the first word not followed by a scope or dot |
| TypeScan.PlainNameIsUndeclared | src/declaration_parser/parser.rs:697-779 | a lone non-keyword name reads as the undeclared type with that single name |
| Declarations.DeclResult.MapOk | src/declaration_parser/declaration.rs:87-90 | passing a result on keeps its outcome: an error stays the same error, a parsed value stays parsed |
| Declarations.ErrorIsNotOk | src/declaration_parser/declaration.rs:93-102 | a result is an error exactly when it is not parsed, and the end and symbol errors are errors |
| Declarations.ErrorSpans | src/declaration_parser/declaration.rs:19-25 | the end error is titled Unexpected End and covers the one character before the index; the symbol error is titled Unexpected Symbol and covers one character |
| Declarations.IncrementParser | src/declaration_parser/declaration.rs:27-33 | the parser advances by one and the end error is returned exactly when it ran out of content |
| Declarations.SkipWhitespace | src/declaration_parser/declaration.rs:35-41 | whitespace is skipped and the end error is returned exactly when the content ran out |
| Declarations.RequireWhitespace | src/declaration_parser/declaration.rs:43-51 | whitespace is skipped; when there was none the Expected Space error points at the previous character, otherwise the end error is returned exactly when the content ran out |
| Declarations.RequireAscii | src/declaration_parser/declaration.rs:63-71 | a name is read; an empty name gives the caller's error over the previous character, otherwise the end error exactly when the content ran out |
| Declarations.ParseAscii | src/declaration_parser/declaration.rs:53-61 | a name is read; an empty name gives Expected Identifier over the previous character, otherwise the end error exactly when the content ran out |
| Declarations.RequireNextChar | src/declaration_parser/declaration.rs:73-83 | the current character is reported; when it is the expected one the parser moves past it, otherwise the error names the expected character |
| Declarations.UntilCharOrFail | src/declaration_parser/declaration.rs:207-214 | the parser stops on the searched character, with the end error exactly when there is none |
| Declarations.ExprUntilOrFail | src/declaration_parser/declaration.rs:216-234 | the parser stops on the first of the two characters outside nested expressions, reports which, and gives the end error when neither comes |
| Declarations.TypeOrFail | src/declaration_parser/declaration.rs:236-252 | a type is read; a specifier conflict, then an unexpected character, then running out of content are reported in that order of priority |
| Declarations.TypeAndStyleOrFail | src/declaration_parser/declaration.rs:254-270 | a style and type are read, with the same error priority as a type alone |
| Declarations.KeywordIsName | src/declaration_parser/parser.rs:258-272 | an identifier standing alone at the cursor is read whole as the name, the cursor just past it |
| Declarations.KeywordThenSpace | src/declaration_parser/parser.rs:258-272 | a keyword followed by a blank is read as that name and the blank counts as required whitespace |
| Declarations.KeywordPath | src/declaration_parser/import_declaration.rs:38-59 | parsing a keyword and path never moves the cursor back, and moves it forward whenever a word was read |
| Declarations.PathAfter | src/declaration_parser/import_declaration.rs:48-51 | parsing the whitespace and path never moves the cursor back |
| Declarations.PathFrom | src/declaration_parser/import_declaration.rs:50-53 | reading the path up to the semicolon never moves the cursor back |
| Declarations.ParsePath | src/declaration_parser/import_declaration.rs:48-53 | the parser reads the whitespace and the path as PathAfter says |
| Declarations.ParsePathFrom | src/declaration_parser/import_declaration.rs:50-53 | the parser reads the text up to the next semicolon as PathFrom says |
| Declarations.KeywordPathMeaning | src/declaration_parser/import_declaration.rs:38-59 | the parse succeeds exactly when the word read is the keyword, whitespace follows, and a semicolon comes later; the path is then everything between the whitespace and the first semicolon |
| Declarations.KeywordPathRecognised | src/declaration_parser/import_declaration.rs:38-59 | when the text starts with the keyword and a blank, the parse succeeds exactly when a semicolon comes after the whitespace, and the path is everything up to the first one |
| Declarations.KeywordPathWrongKeyword | src/declaration_parser/import_declaration.rs:42-46 | another word in place of the keyword gives Unexpected Keyword over exactly that word |
| FunctionTypes.NewFunStyle | src/expression/function_type.rs:25-36 | a word names a style exactly when it is one of the seven style keywords, and the style is spelled as that word |
| FunctionTypes.FunStyleName | src/expression/function_type.rs:42-53 | only the unknown style has an empty spelling; every other spelling is a style keyword |
| FunctionTypes.FunStyleRoundTrip | src/expression/function_type.rs:25-53 | reading back the spelling of any known style gives that style |
| FunctionTypes.ScopeRestrictionsDisjoint | src/expression/function_type.rs:76-109 | no style is both class-only and module-only; a class-only style is exportable in a class and not in a module; only inline and static are exportable in both |
| Contexts.RequiredHeader | src/context_management/context.rs:34-40 | a type needs a system header exactly when it is a function or a tuple type |
| Contexts.Context.constructor | src/context_management/context.rs:21-28 | a new context has no headers, line alignment off, a typing context holding the global data and one empty scope, and a module context holding one empty scope |
| Contexts.Context.AddHeader | src/context_management/context.rs:30-32 | the header is recorded in the context's header list, which keeps distinct paths |
| Contexts.Context.RegisterType | src/context_management/context.rs:34-40 | a function type adds the functional system header, a tuple type adds the tuple system header, and any other type leaves the headers unchanged |
| Contexts.Context.RegisterModuleAttribute | src/context_management/context.rs:42-46 | line alignment is switched on by the TastyAlign attribute and never switched off |
| HeaderContexts.WithHeaderKeepsDistinct | src/context_management/header_context.rs:21-29 | adding a header keeps paths distinct, records the path, keeps earlier headers in order, is idempotent, and grows the list exactly when the path was new |
| HeaderContexts.HeaderContext.constructor | src/context_management/header_context.rs:15-19 | a new header context is empty |
| HeaderContexts.HeaderContext.AddHeader | src/context_management/header_context.rs:21-29 | the header is appended unless its path is already listed |
| HeaderContexts.HeaderContext.Contains | src/context_management/header_context.rs:31-38 | the answer is whether some listed header has the path |
| HeaderContexts.HeaderContext.IsEmpty | src/context_management/header_context.rs:44-46 | the context is empty exactly when no header is listed |
| TypingContexts.GlobalData | src/context_management/typing_context.rs:55-59 | the global data holds exactly one entry, the empty std namespace |
| TypingContexts.LookupInnermost | src/context_management/typing_context.rs:44-53 | a name is found exactly when some scope binds it, and the value found is that of the innermost such scope |
| TypingContexts.LookupStacked | src/context_management/typing_context.rs:38-53 | looking a name up in stacked scopes tries the upper scopes first and falls back to the lower ones |
| TypingContexts.Bound | src/context_management/typing_context.rs:69-75 | binding a name changes only the innermost scope |
| TypingContexts.BoundLookup | src/context_management/typing_context.rs:69-75 | after binding a name it is found with the new value, and every other name is found as before |
| TypingContexts.TypingContext.constructor | src/context_management/typing_context.rs:28-36 | a new typing context holds the global data unless it is module-only, then one empty scope |
| TypingContexts.TypingContext.Add | src/context_management/typing_context.rs:38-42 | the other context's scopes are appended above this context's own |
| TypingContexts.TypingContext.GetItem | src/context_management/typing_context.rs:44-53 | the item found is the innermost binding of the name, or none |
| TypingContexts.TypingContext.PushContext | src/context_management/typing_context.rs:61-63 | an empty scope is pushed on top |
| TypingContexts.TypingContext.PopContext | src/context_management/typing_context.rs:65-67 | the top scope is dropped; popping no scope leaves none |
| TypingContexts.TypingContext.AddVariable | src/context_management/typing_context.rs:69-71 | the variable is bound in the innermost scope; on an empty stack, where the source panics, nothing changes and the call reports failure |
| TypingContexts.TypingContext.AddFunction | src/context_management/typing_context.rs:73-75 | the function is bound in the innermost scope; on an empty stack, where the source panics, nothing changes and the call reports failure |
| TypingContexts.PushPopRestores | src/context_management/typing_context.rs:61-67 | popping right after a push restores the scopes, and an empty pushed scope hides nothing |
| TypingContexts.FreshContextLookup | src/context_management/typing_context.rs:28-59 | a fresh typing context knows std as the empty namespace, and a fresh module context knows no name |
| ContextManagers.RegisteredIsFresh | src/context_management/context_manager.rs:58-62 | registering a context type hands out an id above every id in use, binds it to the type, keeps every earlier entry and keeps all ids at or below the new maximum |
| ContextManagers.UpdatedKeepsIds | src/context_management/context_manager.rs:64-94 | an update succeeds exactly when the id is registered, then rebinds it; the set of ids never changes |
| ContextManagers.ContextManager.constructor | src/context_management/context_manager.rs:23-29 | a new manager has no contexts, no context types and maximum id 0 |
| ContextManagers.ContextManager.AddContext | src/context_management/context_manager.rs:31-33 | the context is stored under the file name, replacing any earlier one; the context types are unchanged |
| ContextManagers.ContextManager.TakeContext | src/context_management/context_manager.rs:47-49 | the file's context is returned and removed from the manager; a missing file is a precondition, where the source panics |
| ContextManagers.ContextManager.GetContextType | src/context_management/context_manager.rs:51-56 | a context type is found exactly when its id is registered, and it is the one registered |
| ContextManagers.ContextManager.AddContextType | src/context_management/context_manager.rs:58-62 | the type is registered under the next id, which becomes the maximum and is returned |
| ContextManagers.ContextManager.Update | src/context_management/context_manager.rs:64-94 | a registered id is rebound to the new type and the answer is true; an unknown id changes nothing and the answer is false |
| ContextManagers.ContextManager.UpdateVar | src/context_management/context_manager.rs:64-70 | a registered id is rebound to the variable; an unknown id changes nothing and gives false |
| ContextManagers.ContextManager.UpdateFunc | src/context_management/context_manager.rs:72-78 | a registered id is rebound to the function; an unknown id changes nothing and gives false |
| ContextManagers.ContextManager.UpdateQuantumFunc | src/context_management/context_manager.rs:80-86 | a registered id is rebound to the overload set; an unknown id changes nothing and gives false |
| ContextManagers.ContextManager.UpdateClass | src/context_management/context_manager.rs:88-94 | a registered id is rebound to the class; an unknown id changes nothing and gives false |
| GlobalContexts.FindClassMeaning | src/context_management/global_context.rs:25-32 | no attribute class is found exactly when none has the name; otherwise the one found is the earliest registered under it |
| GlobalContexts.AddedClassFound | src/context_management/global_context.rs:21-32 | registering a class does not change what an earlier registration already answers; it answers a name only when none answered before |
| GlobalContexts.GlobalContext.constructor | src/context_management/global_context.rs:15-19 | a new global context has no attribute classes |
| GlobalContexts.GlobalContext.AddAttributeClass | src/context_management/global_context.rs:21-23 | the class is appended to the registered attribute classes |
| GlobalContexts.GlobalContext.FindAttribute | src/context_management/global_context.rs:25-32 | the class found is the earliest registered under the name, or none |
| StaticExtensions.SingleNameMatchesClass | src/context_management/static_extension.rs:71-77 | an extension declared on a single name matches every class type of that name |
| StaticExtensions.IsTypeWithoutOracles | src/context_management/static_extension.rs:64-79 | when the extended type is neither equal to the type nor of inferred style, the extension matches exactly a class type named by its single-name undeclared type |
| StaticExtensions.FirstMatch | src/context_management/static_extension.rs:36-42 | nothing is found exactly when no extension in the list matches; otherwise the one found matches and no earlier one does |
| StaticExtensions.InsertKeepsEarlierMatches | src/context_management/static_extension.rs:25-42 | appending an extension does not change a search that already found one |
| StaticExtensions.StaticExtensionContext.constructor | src/context_management/static_extension.rs:19-23 | a new extension context registers nothing |
| StaticExtensions.StaticExtensionContext.Insert | src/context_management/static_extension.rs:25-31 | the extension is appended to its name's list, creating the list when the name is new; every earlier list keeps its entries |
| StaticExtensions.StaticExtensionContext.Find | src/context_management/static_extension.rs:33-45 | an unknown name finds nothing; a known one finds the first extension registered under it that matches the type |
| AttributeDeclarations.ParamLoop | src/declaration_parser/attribute_declaration.rs:63-85 | the parameter loop leaves the cursor within the content |
| AttributeDeclarations.AttributeSpec | src/declaration_parser/attribute_declaration.rs:43-95 | parsing an attribute leaves the cursor within the content |
| AttributeDeclarations.NewAttribute | src/declaration_parser/attribute_declaration.rs:43-95 | the parser reads the attribute as AttributeSpec says: a name after the at sign, and an optional parenthesised parameter list |
| AttributeDeclarations.ParseParams | src/declaration_parser/attribute_declaration.rs:63-85 | the parameter loop reads as ParamLoop says, each parameter up to a comma or closing parenthesis outside nested expressions |
| AttributeDeclarations.ParamSpans | src/declaration_parser/attribute_declaration.rs:63-85 | a parsed parameter list is a chain of spans from the loop's start to the closing parenthesis, joined by single commas |
| AttributeDeclarations.StoredParamsAreSpanTexts | src/declaration_parser/attribute_declaration.rs:68-80 | storing parameters as text moves the cursor the same way and records the text of each span the other mode records |
| AttributeDeclarations.ParamsLength | src/declaration_parser/attribute_declaration.rs:106-108 | an attribute without parentheses has no parameters; otherwise the count is the length of its list |
| AttributeDeclarations.ParamTexts | src/declaration_parser/attribute_declaration.rs:110-118 | there is one parameter text for each parameter |
| AttributeDeclarations.StoredAttributeSameTexts | src/declaration_parser/attribute_declaration.rs:43-118 | an attribute parsed with stored parameters succeeds exactly when it does with spans and has the same parameter texts |
| AttributeDeclarations.RecognisedAttribute | src/declaration_parser/attribute_declaration.rs:101-104 | a recognised attribute starts on the at sign |
| AttributeDeclarations.StoredOnlyWithin | src/declaration_parser/attribute_declaration.rs:110-118 | parameters stored as text can be read against any content |
| AttributeDeclarations.ParamLoopStores | src/declaration_parser/attribute_declaration.rs:68-80 | with storing on, every parameter is stored as text |
| AttributeDeclarations.AttributeStores | src/declaration_parser/attribute_declaration.rs:43-95 | an attribute parsed with storing on holds only stored text |
| AttributeDeclarations.AttributeProgress | src/declaration_parser/attribute_declaration.rs:43-95 | parsing an attribute never moves the cursor back, and moves it forward unless the content ran out |
| AttributeDeclarations.ParamLoopMovesFrom | src/declaration_parser/attribute_declaration.rs:63-85 | the parameter loop never moves the cursor back |
| AttributeDeclarations.ParamLoopMoves | src/declaration_parser/attribute_declaration.rs:46-50 | parsing an attribute that starts on the at sign always moves the cursor forward |
| AttributeLists.FindMeaning | src/declaration_parser/attributes.rs:35-44 | an attribute is found exactly when one has the name, and the one found is the first with it |
| AttributeLists.HasAttribute | src/declaration_parser/attributes.rs:24-33 | the answer is whether some attribute has the name |
| AttributeLists.GetAttribute | src/declaration_parser/attributes.rs:35-44 | the attribute returned is the first with the name, or none |
| AttributeLists.FirstAtIndex | src/declaration_parser/attributes.rs:35-44 | the first attribute with a name is found at its own position |
| AttributeLists.GetAttributeParamLength | src/declaration_parser/attributes.rs:46-52 | a missing attribute has 0 parameters; otherwise the count is that of the first attribute with the name |
| AttributeLists.ParameterTexts | src/declaration_parser/attributes.rs:54-67 | a missing attribute has no parameter texts; otherwise there is one per parameter of the first attribute with the name |
| AttributeLists.FindWithin | src/declaration_parser/attributes.rs:54-67 | the spans of a found attribute lie within the content |
| AttributeLists.GetAttributeParameters | src/declaration_parser/attributes.rs:54-67 | the texts returned are the parameter texts of the first attribute with the name, in order |
| AttributeLists.FoundClassStored | src/declaration_parser/attribute_declaration.rs:120-134 | an attribute class found in the registry keeps its templates as stored text |
| AttributeLists.FlattenList | src/declaration_parser/attribute_declaration.rs:120-134 | the attributes are kept in order and followed by the expansions of every use of a registered attribute class, use by use |
| AttributeLists.Flatten | src/declaration_parser/attributes.rs:69-86 | no attributes stay none; otherwise the list is extended by its expansions |
| AttributeLists.NoClassNoExpansion | src/declaration_parser/attributes.rs:69-86 | when no attribute names a registered class, flattening adds nothing |
| AttributeLists.ExpansionsCount | src/declaration_parser/attributes.rs:69-86 | flattening adds as many attributes as the used classes have templates, summed over the uses |
| AttributeLists.RequiredIncludesMeaning | src/declaration_parser/attributes.rs:88-110 | at most one include is required; there is one exactly when the first RequireInclude has a first parameter stored as text, which is its path, and it is a system include exactly when there is no second parameter |
| AttributeLists.GetRequiredIncludes | src/declaration_parser/attributes.rs:88-110 | the includes returned are those RequiredIncludes describes |
| DeclarationTypes.Name | src/declaration_parser/class_declaration.rs:61-63 | every class style is spelled class, abstract or enum |
| DeclarationTypes.StyleOf | src/declaration_parser/class_declaration.rs:87-92 | a keyword stands for a class style exactly when it is class, abstract or enum |
| DeclarationTypes.StyleNumber | src/declaration_parser/class_declaration.rs:65-67 | every style has a number from 0 to 2 |
| DeclarationTypes.StyleKeywordRoundTrip | src/declaration_parser/class_declaration.rs:61-92 | a style's keyword reads back as the style, and a keyword's style is spelled as that keyword |
| DeclarationTypes.StyleNumberRoundTrip | src/declaration_parser/class_declaration.rs:65-67 | numbering the styles and making a style from a number from 0 to 2 are inverse to each other |
| DeclarationTypes.Pending | src/declaration_parser/class_declaration.rs:181-185 | a declaration with no pending attributes takes none; otherwise it takes all of them |
| AssumeDeclarations.AssumeSpec | src/declaration_parser/assume_declaration.rs:37-58 | a parsed assume records the line it started on; the cursor never moves back, and moves forward whenever a word was read |
| AssumeDeclarations.NewAssume | src/declaration_parser/assume_declaration.rs:37-58 | the parser reads the declaration as AssumeSpec says |
| AssumeDeclarations.RecognisedAssume | src/declaration_parser/assume_declaration.rs:37-67 | at a recognised assume declaration the parse succeeds exactly when the content after the whitespace has a semicolon; the path is everything up to the first one, where the cursor stops |
| ImportDeclarations.ImportSpec | src/declaration_parser/import_declaration.rs:38-59 | a parsed import records the line it started on; the cursor never moves back, and moves forward whenever a word was read |
| ImportDeclarations.NewImport | src/declaration_parser/import_declaration.rs:38-59 | the parser reads the declaration as ImportSpec says |
| ImportDeclarations.RecognisedImport | src/declaration_parser/import_declaration.rs:38-68 | at a recognised import declaration the parse succeeds exactly when the content after the whitespace has a semicolon; the path is everything up to the first one, where the cursor stops |
| IncludeDeclarations.IncludeLineRoundTrip | src/declaration_parser/include_declaration.rs:70-75 | the C++ line is the include directive with the path between quotes for a local include and between angle brackets for a system one, so the path can be read back from it |
| IncludeDeclarations.IncludeSpec | src/declaration_parser/include_declaration.rs:79-132 | parsing an include never moves the cursor back, and moves it forward whenever a word was read |
| IncludeDeclarations.IncludeTail | src/declaration_parser/include_declaration.rs:98-131 | parsing the include type and path never moves the cursor back |
| IncludeDeclarations.NewInclude | src/declaration_parser/include_declaration.rs:79-132 | the parser reads the declaration as IncludeSpec says |
| IncludeDeclarations.ParseIncludeTail | src/declaration_parser/include_declaration.rs:98-131 | the parser reads the type and path as IncludeTail says |
| IncludeDeclarations.IncludeMeaning | src/declaration_parser/include_declaration.rs:79-132 | a parsed include starts with include or contain, goes to the header exactly for include, records its starting line, and is a system include exactly when the type word is system |
| IncludeDeclarations.ImplicitLocalPath | src/declaration_parser/include_declaration.rs:100-122 | when the type word is neither local nor system the include is local and the word is the start of the path, which runs up to the next semicolon |
| IncludeDeclarations.RecognisedInclude | src/declaration_parser/include_declaration.rs:138-141 | a recognised include declaration starts with the word include or contain |
| InjectDeclarations.InjectSpec | src/declaration_parser/inject_declaration.rs:39-61 | parsing an injection never moves the cursor back, and moves it forward whenever a word was read |
| InjectDeclarations.InjectBody | src/declaration_parser/inject_declaration.rs:49-53 | reading the injected block never moves the cursor back |
| InjectDeclarations.NewInject | src/declaration_parser/inject_declaration.rs:39-61 | the parser reads the declaration as InjectSpec says |
| InjectDeclarations.ParseInjectBody | src/declaration_parser/inject_declaration.rs:49-60 | the parser reads the block as InjectBody says |
| InjectDeclarations.InjectSpansBraces | src/declaration_parser/inject_declaration.rs:39-61 | a parsed injection spans exactly the text between an opening brace and the matching closing brace, where the cursor stops, and records its starting line |
| InjectDeclarations.RecognisedInject | src/declaration_parser/inject_declaration.rs:67-70 | a recognised injection starts with the word inject |
| AttributeClassDeclarations.AttributeClassSpec | src/declaration_parser/attribute_class_declaration.rs:37-122 | parsing an attribute class never moves the cursor back, and moves it forward whenever a word was read |
| AttributeClassDeclarations.AttributeClassNamed | src/declaration_parser/attribute_class_declaration.rs:46-121 | parsing from the class name on never moves the cursor back |
| AttributeClassDeclarations.AttributeClassFormals | src/declaration_parser/attribute_class_declaration.rs:52-121 | parsing the formals and body never moves the cursor back |
| AttributeClassDeclarations.FormalLoop | src/declaration_parser/attribute_class_declaration.rs:57-79 | the formals loop never moves the cursor back and leaves it within the content |
| AttributeClassDeclarations.Formal | src/declaration_parser/attribute_class_declaration.rs:59-78 | one formal either fails with an error or moves the cursor forward, so the loop makes progress |
| AttributeClassDeclarations.FormalName | src/declaration_parser/attribute_class_declaration.rs:60-70 | reading a formal's name, bracketed or not, either fails with an error or moves the cursor forward |
| AttributeClassDeclarations.FormalEnd | src/declaration_parser/attribute_class_declaration.rs:71-78 | after a formal a closing parenthesis ends the list and a comma is required otherwise; either fails with an error or moves the cursor forward |
| AttributeClassDeclarations.AttributeClassBody | src/declaration_parser/attribute_class_declaration.rs:82-121 | parsing the braces and body never moves the cursor back |
| AttributeClassDeclarations.BodyLoop | src/declaration_parser/attribute_class_declaration.rs:89-115 | the body loop never moves the cursor back |
| AttributeClassDeclarations.BodyStep | src/declaration_parser/attribute_class_declaration.rs:90-114 | one pass of the body loop either stops or moves the cursor forward within the content |
| AttributeClassDeclarations.NewAttributeClass | src/declaration_parser/attribute_class_declaration.rs:37-122 | the parser reads the class as AttributeClassSpec says: keyword, name, optional formals, then the body's attributes |
| AttributeClassDeclarations.ParseAttributeClassNamed | src/declaration_parser/attribute_class_declaration.rs:46-121 | the parser reads from the name on as AttributeClassNamed says |
| AttributeClassDeclarations.ParseAttributeClassFormals | src/declaration_parser/attribute_class_declaration.rs:52-121 | the parser reads the formals and body as AttributeClassFormals says |
| AttributeClassDeclarations.ParseFormals | src/declaration_parser/attribute_class_declaration.rs:57-79 | the formals are read as FormalLoop says |
| AttributeClassDeclarations.ParseFormal | src/declaration_parser/attribute_class_declaration.rs:59-78 | one formal is read as Formal says |
| AttributeClassDeclarations.ParseFormalName | src/declaration_parser/attribute_class_declaration.rs:60-70 | a formal's name is read as FormalName says |
| AttributeClassDeclarations.ParseFormalEnd | src/declaration_parser/attribute_class_declaration.rs:71-78 | what follows a formal is read as FormalEnd says |
| AttributeClassDeclarations.ParseAttributeClassBody | src/declaration_parser/attribute_class_declaration.rs:82-121 | the braces and body are read as AttributeClassBody says |
| AttributeClassDeclarations.ParseBody | src/declaration_parser/attribute_class_declaration.rs:89-115 | the body's attributes are collected as BodyLoop says |
| AttributeClassDeclarations.ParseBodyStep | src/declaration_parser/attribute_class_declaration.rs:90-114 | one pass of the body loop is taken as BodyStep says |
| AttributeClassDeclarations.BoundArgsMeaning | src/declaration_parser/attribute_class_declaration.rs:134-142 | with at least one formal no argument is lost or reordered: there are as many groups as formals or arguments, whichever is fewer, every group but the last holds one argument, and the last takes the rest; with no formals there are no groups |
| AttributeClassDeclarations.BoundArgsStep | src/declaration_parser/attribute_class_declaration.rs:136-141 | one more argument opens a new group while formals remain and joins the last group otherwise |
| AttributeClassDeclarations.BindArguments | src/declaration_parser/attribute_class_declaration.rs:134-142 | the groups built are those BoundArgs describes |
| AttributeClassDeclarations.Trimmed | src/declaration_parser/attribute_class_declaration.rs:152-155 | trimming keeps one text per argument, and without trimming the arguments are unchanged |
| AttributeClassDeclarations.SubstituteName | src/declaration_parser/attribute_class_declaration.rs:150-168 | a parameter with no bracket that names none of the remaining formals is never rewritten and contributes nothing more |
| AttributeClassDeclarations.ExactFormalContributes | src/declaration_parser/attribute_class_declaration.rs:150-168 | a parameter that is exactly a formal's name contributes that formal's arguments, trimmed unless the formal was bracketed, and is kept itself |
| AttributeClassDeclarations.Filler | src/declaration_parser/attribute_class_declaration.rs:159-165 | the text that replaces "[name]" is the formal's arguments joined with ",", trimmed as a whole unless the formal was bracketed |
| AttributeClassDeclarations.SubstituteRewriteStep | src/declaration_parser/attribute_class_declaration.rs:158-166 | at a visited formal whose name the parameter is not, every "[name]" is replaced by the filler and nothing is contributed, whether or not "[name]" occurs |
| AttributeClassDeclarations.SubstituteRewrites | src/declaration_parser/attribute_class_declaration.rs:149-168 | a parameter that at no visited formal equals that formal's name contributes no arguments and becomes the text with each formal's "[name]" replaced by its filler, formal by formal in order, up to the shorter of the formals and the argument groups |
| AttributeClassDeclarations.OneFormalSubstitution | src/declaration_parser/attribute_class_declaration.rs:158-166 | with one formal, a parameter other than its name has every "[name]" replaced by the filler and contributes nothing |
| AttributeClassDeclarations.FirstBracketReplaced | src/declaration_parser/attribute_class_declaration.rs:158-166 | with one formal, the text before the first "[name]" is kept, that "[name]" becomes the filler and the rest is rewritten likewise |
| AttributeClassDeclarations.SubstituteParam | src/declaration_parser/attribute_class_declaration.rs:149-169 | one template parameter is rewritten and its contributions collected as Substitute says |
| AttributeClassDeclarations.OutputNewAttributes | src/declaration_parser/attribute_class_declaration.rs:133-176 | the attributes produced are those NewAttributes describes |
| AttributeClassDeclarations.ExpansionKeepsTemplates | src/declaration_parser/attribute_class_declaration.rs:144-173 | a use expands to one attribute per template attribute, in order, each keeping the template's name and line, with stored parameters at least as many as the template had |
| AttributeClassDeclarations.ExpansionLength | src/declaration_parser/attribute_class_declaration.rs:148-170 | every template parameter contributes at least its own rewritten text |
| AttributeClassDeclarations.ExpansionAppend | src/declaration_parser/attribute_class_declaration.rs:148-170 | expanding parameters one after another is the same as expanding them all at once |
| AttributeClassDeclarations.ContributionOfName | src/declaration_parser/attribute_class_declaration.rs:150-169 | a parameter with no bracket naming no formal is kept as it is; one naming a formal contributes that formal's arguments, trimmed unless bracketed, followed by itself |
| AttributeClassDeclarations.BodyLoopStores | src/declaration_parser/attribute_class_declaration.rs:94-100 | the body loop only adds attributes whose parameters are stored as text |
| AttributeClassDeclarations.ParsedTemplatesStored | src/declaration_parser/attribute_class_declaration.rs:94-121 | a parsed attribute class keeps its templates as stored text, so a use in another file can expand them |
| ModuleAttributeDeclarations.ModuleAttributeSpec | src/declaration_parser/module_attribute_declaration.rs:28-51 | parsing a module attribute never moves the cursor back, and moves it forward when it starts on a percent sign |
| ModuleAttributeDeclarations.NewModuleAttribute | src/declaration_parser/module_attribute_declaration.rs:28-51 | the parser reads the module attribute as ModuleAttributeSpec says |
| ModuleAttributeDeclarations.ModuleAttributeBetweenPercents | src/declaration_parser/module_attribute_declaration.rs:28-51 | a parsed module attribute is a name between two percent signs, both consumed, and records its starting line |
| ModuleAttributeDeclarations.IsModuleAttributeDeclaration | src/declaration_parser/module_attribute_declaration.rs:57-71 | the scan answers exactly ModuleAttributeLine: at the start of a line, a percent sign, and a line that ends with a percent sign before its newline |
| ModuleAttributeDeclarations.RecognisedModuleAttribute | src/declaration_parser/module_attribute_declaration.rs:57-71 | a recognised module attribute line starts with a percent sign and has a closing percent sign right before its newline |
| ClassDeclarations.ClassSpec | src/declaration_parser/class_declaration.rs:84-250 | parsing a class never moves the cursor back and moves it forward whenever a word was read; a parsed class has the style its keyword names and a non-empty name |
| ClassDeclarations.ClassNamed | src/declaration_parser/class_declaration.rs:94-100 | a class parsed from its name on keeps the style and has a non-empty name |
| ClassDeclarations.ClassStyled | src/declaration_parser/class_declaration.rs:94-137 | a class parsed from the whitespace after its keyword on keeps the style and has a non-empty name |
| ClassDeclarations.ClassGap | src/declaration_parser/class_declaration.rs:100-137 | what follows the name keeps the class's style and name |
| ClassDeclarations.ClassWord | src/declaration_parser/class_declaration.rs:103-137 | reading a word before the body never moves the cursor back, and a class that parses keeps its style and name |
| ClassDeclarations.ClassKeyword | src/declaration_parser/class_declaration.rs:106-136 | whichever word was read, the rest of the head and the body never move the cursor back, and a class that parses keeps its style and name |
| ClassDeclarations.ClassHead | src/declaration_parser/class_declaration.rs:102-137 | what comes before the body keeps the class's style and name |
| ClassDeclarations.ClassExtends | src/declaration_parser/class_declaration.rs:106-126 | a class with an extends list is of the plain class style |
| ClassDeclarations.ClassBecomes | src/declaration_parser/class_declaration.rs:127-136 | an abstract that becomes a type is of the abstract style and has exactly one extension |
| ClassDeclarations.ExtendsLoop | src/declaration_parser/class_declaration.rs:112-126 | the extends loop never moves the cursor back and leaves it within the content |
| ClassDeclarations.ExtendsItem | src/declaration_parser/class_declaration.rs:113-116 | reading one type of the list either fails with an error or leaves the cursor inside the content |
| ClassDeclarations.ExtendsSeparator | src/declaration_parser/class_declaration.rs:117-122 | the word between two types either fails with an error or moves the cursor forward |
| ClassDeclarations.ClassOpen | src/declaration_parser/class_declaration.rs:139-250 | a parsed class keeps its style and name, has declaration id 0, and has extensions exactly when the extends list was non-empty |
| ClassDeclarations.EmptyBody | src/declaration_parser/class_declaration.rs:142-145 | a body starts with no declarations and no pending attributes, with an abstract member list exactly for an abstract |
| ClassDeclarations.ClassLoop | src/declaration_parser/class_declaration.rs:147-240 | the body loop never moves the cursor back, keeps members filed as the style demands, and fails only for an abstract; otherwise it stops at the end or on a closing brace |
| ClassDeclarations.File | src/declaration_parser/class_declaration.rs:181-194 | a member goes to the abstract list exactly when the class is abstract and the member is not forward; every other member is an ordinary declaration |
| ClassDeclarations.Skip | src/declaration_parser/class_declaration.rs:165 | stepping n times moves the index by n |
| ClassDeclarations.MemberStart | src/declaration_parser/class_declaration.rs:162-170 | a member is forward only in an abstract, and reading the forward word never moves the cursor back |
| ClassDeclarations.ClassStep | src/declaration_parser/class_declaration.rs:148-239 | one pass never moves the cursor back, keeps members filed as the style demands, and fails only for an abstract |
| ClassDeclarations.ClassMember | src/declaration_parser/class_declaration.rs:172-239 | a member pass never moves the cursor back, fails only for an abstract, and halts only at the end or on a closing brace |
| ClassDeclarations.FunctionMember | src/declaration_parser/class_declaration.rs:172-199 | a function member moves the cursor forward and clears the pending attributes |
| ClassDeclarations.VariableMember | src/declaration_parser/class_declaration.rs:201-227 | a variable member moves the cursor forward and clears the pending attributes |
| ClassDeclarations.NewClass | src/declaration_parser/class_declaration.rs:84-250 | the parser reads the class as ClassSpec says |
| ClassDeclarations.ParseClassNamed | src/declaration_parser/class_declaration.rs:94-100 | the parser reads from the name on as ClassNamed says |
| ClassDeclarations.ParseClassStyled | src/declaration_parser/class_declaration.rs:94-137 | the parser reads from the whitespace after the keyword on as ClassStyled says |
| ClassDeclarations.ParseClassGap | src/declaration_parser/class_declaration.rs:100-137 | the parser reads from the whitespace after the name on as ClassGap says |
| ClassDeclarations.ParseClassWord | src/declaration_parser/class_declaration.rs:103-137 | the parser reads a word before the body as ClassWord says |
| ClassDeclarations.ParseClassKeyword | src/declaration_parser/class_declaration.rs:106-136 | the parser acts on the word before the body as ClassKeyword says |
| ClassDeclarations.ParseClassHead | src/declaration_parser/class_declaration.rs:102-137 | the parser reads what precedes the body as ClassHead says |
| ClassDeclarations.ParseClassExtends | src/declaration_parser/class_declaration.rs:106-126 | the parser reads an extends clause as ClassExtends says |
| ClassDeclarations.ParseClassBecomes | src/declaration_parser/class_declaration.rs:127-136 | the parser reads a becomes clause as ClassBecomes says |
| ClassDeclarations.ParseExtends | src/declaration_parser/class_declaration.rs:112-126 | the extends list is read as ExtendsLoop says |
| ClassDeclarations.ParseExtendsItem | src/declaration_parser/class_declaration.rs:113-116 | one type of the list is read as ExtendsItem says |
| ClassDeclarations.ParseExtendsSeparator | src/declaration_parser/class_declaration.rs:117-122 | the separator word is read as ExtendsSeparator says |
| ClassDeclarations.ParseClassOpen | src/declaration_parser/class_declaration.rs:139-250 | the brace and body are read as ClassOpen says |
| ClassDeclarations.ParseClassBody | src/declaration_parser/class_declaration.rs:147-240 | the body is read as ClassLoop says |
| ClassDeclarations.ParseClassStep | src/declaration_parser/class_declaration.rs:148-239 | one pass is taken as ClassStep says |
| ClassDeclarations.ParseClassMember | src/declaration_parser/class_declaration.rs:172-239 | a member is read as ClassMember says |
| ClassDeclarations.ParseFunctionMember | src/declaration_parser/class_declaration.rs:172-199 | a function member is read and filed as FunctionMember says |
| ClassDeclarations.ParseVariableMember | src/declaration_parser/class_declaration.rs:201-227 | a variable member is read and filed as VariableMember says |
| ClassDeclarations.ClassToCppShape | src/declaration_parser/class_declaration.rs:261-287 | the class head line starts with the style keyword and a blank and ends with an opening brace; without decorating attributes it is the keyword, the name, the public base list and an opening brace |
| ClassDeclarations.OperatorKeysDistinct | src/declaration_parser/class_declaration.rs:296-299 | operators with ids below 100 get distinct keys, one range per operator kind |
| ClassDeclarations.ToClass | src/declaration_parser/class_declaration.rs:289-338 | the class description is the one ClassInfoOf describes, and the headers its member types need are added to the context |
| ClassDeclarations.MemberStep | src/declaration_parser/class_declaration.rs:293-327 | each member adds a property when it is a variable, a function when it is not an operator, and an operator entry otherwise |
| ClassDeclarations.RegisterTypes | src/declaration_parser/class_declaration.rs:309-312 | registering each type in turn adds the headers Registered describes |
| ClassDeclarations.RegisteredAppend | src/declaration_parser/class_declaration.rs:309-323 | registering two lists of types in turn is registering their concatenation |
| ClassDeclarations.PropertiesMeaning | src/declaration_parser/class_declaration.rs:314-324 | every variable becomes a property, and every property comes from a variable |
| ClassDeclarations.FunctionsMeaning | src/declaration_parser/class_declaration.rs:306-308 | every function that is not an operator is listed, and every listed function is one |
| ClassDeclarations.OperatorsMeaning | src/declaration_parser/class_declaration.rs:296-305 | the operator table has a key exactly when some operator is filed under it, and every operator is listed under its key |
| ClassDeclarations.RegisteredMeaning | src/declaration_parser/class_declaration.rs:309-323 | after registering, the header list keeps distinct paths and holds a path exactly when it held it before or some registered type needs it |
| RefurbishDeclarations.RefurbishSpec | src/declaration_parser/refurbish_declaration.rs:47-116 | parsing a refurbish never moves the cursor back and moves it forward whenever a word was read; a parsed refurbish starts with the refurbish keyword and holds only functions |
| RefurbishDeclarations.RefurbishSpaced | src/declaration_parser/refurbish_declaration.rs:55-115 | a refurbish parsed from the blank after its keyword on never moves the cursor back and holds only functions |
| RefurbishDeclarations.RefurbishTyped | src/declaration_parser/refurbish_declaration.rs:57-115 | a refurbish parsed from its type on holds only functions |
| RefurbishDeclarations.RefurbishOpen | src/declaration_parser/refurbish_declaration.rs:62-115 | a parsed refurbish keeps the type read and holds only functions |
| RefurbishDeclarations.RefurbishLoop | src/declaration_parser/refurbish_declaration.rs:68-110 | the body loop never moves the cursor back and collects only functions |
| RefurbishDeclarations.RefurbishStep | src/declaration_parser/refurbish_declaration.rs:69-109 | one pass never moves the cursor back and collects only functions |
| RefurbishDeclarations.NewRefurbish | src/declaration_parser/refurbish_declaration.rs:47-116 | the parser reads the refurbish as RefurbishSpec says |
| RefurbishDeclarations.ParseRefurbishSpaced | src/declaration_parser/refurbish_declaration.rs:55-115 | the parser reads the blank, type and body as RefurbishSpaced says |
| RefurbishDeclarations.ParseRefurbishTyped | src/declaration_parser/refurbish_declaration.rs:57-115 | the parser reads the type and body as RefurbishTyped says |
| RefurbishDeclarations.ParseRefurbishOpen | src/declaration_parser/refurbish_declaration.rs:62-115 | the parser reads the brace and body as RefurbishOpen says |
| RefurbishDeclarations.ParseRefurbishBody | src/declaration_parser/refurbish_declaration.rs:68-110 | the body is read as RefurbishLoop says |
| RefurbishDeclarations.ParseRefurbishStep | src/declaration_parser/refurbish_declaration.rs:69-109 | one pass is taken as RefurbishStep says |
| RefurbishDeclarations.Underscored | src/declaration_parser/refurbish_declaration.rs:127-130 | replacing separators never makes the text longer |
| RefurbishDeclarations.UnderscoredIsClean | src/declaration_parser/refurbish_declaration.rs:127-130 | the made name holds no separator and no double colon, and is empty only for an empty text |
| RefurbishDeclarations.CleanUnchanged | src/declaration_parser/refurbish_declaration.rs:127-130 | text with no separator and no double colon is left as it is |
| RefurbishDeclarations.UnderscoredIdempotent | src/declaration_parser/refurbish_declaration.rs:127-130 | replacing twice is the same as replacing once |
| ModuleDeclarations.HeaderLoop | src/declaration_parser/module_declaration.rs:86-99 | the module attribute loop never moves the cursor back and collects only module attributes, keeping those already collected |
| ModuleDeclarations.HeaderStep | src/declaration_parser/module_declaration.rs:87-95 | one module attribute is parsed where the whitespace ends, and it moves the cursor forward |
| ModuleDeclarations.ParseHeaders | src/declaration_parser/module_declaration.rs:86-99 | the first loop reads the module attributes as HeaderLoop says |
| ModuleDeclarations.Settle | src/declaration_parser/module_declaration.rs:116-128 | a declaration attempt appends the declaration when it parsed, carrying the pending attributes, which are cleared either way |
| ModuleDeclarations.ModuleLoop | src/declaration_parser/module_declaration.rs:101-174 | the declaration loop never moves the cursor back and keeps every collected declaration well placed |
| ModuleDeclarations.KeywordLedIsRead | src/declaration_parser/module_declaration.rs:131-167 | every declaration recognised by its leading keyword starts with a word its parser reads as a name |
| ModuleDeclarations.ModuleStep | src/declaration_parser/module_declaration.rs:102-173 | one pass never moves the cursor back; a pass that goes on has moved forward or reached the end, and each declaration takes the attributes collected before it |
| ModuleDeclarations.ModuleClasses | src/declaration_parser/module_declaration.rs:131-173 | the class and refurbish attempts and the rest of the pass never move the cursor back |
| ModuleDeclarations.ModuleRest | src/declaration_parser/module_declaration.rs:161-173 | the assume and import attempts and the rest of the pass never move the cursor back, and a pass that goes on has moved forward or reached the end |
| ModuleDeclarations.ModuleInclude | src/declaration_parser/module_declaration.rs:163-173 | the include attempt and the rest of the pass never move the cursor back, and a pass that goes on has moved forward or reached the end |
| ModuleDeclarations.ModuleLate | src/declaration_parser/module_declaration.rs:164-173 | the variable and inject attempts and the rest of the pass never move the cursor back, and a pass that goes on has moved forward or reached the end |
| ModuleDeclarations.ModuleEnd | src/declaration_parser/module_declaration.rs:167-173 | the attribute class attempt or the single step forward never moves the cursor back; the pass stops only where that step cannot move, and a declaration it adds takes the attributes waiting before it |
| ModuleDeclarations.ModuleSpec | src/declaration_parser/module_declaration.rs:82-179 | parsing a file never moves the cursor back, puts the module attributes first, and every declaration in the result is well formed |
| ModuleDeclarations.NewModule | src/declaration_parser/module_declaration.rs:82-179 | the parser reads the file as ModuleSpec says |
| ModuleDeclarations.ParseDeclarations | src/declaration_parser/module_declaration.rs:101-174 | the second loop reads the declarations as ModuleLoop says |
| ModuleDeclarations.ParseModuleStep | src/declaration_parser/module_declaration.rs:102-173 | one pass is taken as ModuleStep says |
| ModuleDeclarations.ParseModuleClasses | src/declaration_parser/module_declaration.rs:131-173 | the class and refurbish attempts and the rest are taken as ModuleClasses says |
| ModuleDeclarations.ParseModuleRest | src/declaration_parser/module_declaration.rs:161-173 | the remaining attempts are taken as ModuleRest says |
| ModuleDeclarations.ParseModuleLate | src/declaration_parser/module_declaration.rs:164-173 | the last attempts and the step forward are taken as ModuleLate says |
| Statements.ConditionFailure | src/scope_parser/while_parser.rs:57-62 | a condition fails exactly when the expression ended for an unknown reason, at the end of the content, or without a value, and the error covers the character before the cursor |
| Statements.Word | src/declaration_parser/declaration.rs:53-61 | the word and cursor are those the name reader gives, and there is no error exactly when the word is non-empty and content remains |
| Statements.RequiredSpace | src/declaration_parser/declaration.rs:43-51 | the cursor is where the whitespace ends, and there is no error exactly when whitespace was found and content remains |
| Statements.Body | src/scope_parser/while_parser.rs:66-74 | a body opening with a brace is an unlimited scope starting after the brace; any other body is a one-statement scope starting at the cursor; the scope records the line it starts on |
| Statements.ParseBody | src/scope_parser/while_parser.rs:66-74 | the parser reads the body as Body says |
| Statements.ParseExpression | src/declaration_parser/parser.rs:525-530 | the expression, end reason and new cursor are those the expression parser gives for the expected type |
| WhileParsers.WhileSpec | src/scope_parser/while_parser.rs:43-82 | a parsed while statement starts with the while keyword and records the lines it starts and ends on |
| WhileParsers.WhileCondition | src/scope_parser/while_parser.rs:52-81 | a statement parsed from its condition on records the line given and the line it ends on |
| WhileParsers.NewWhile | src/scope_parser/while_parser.rs:43-82 | the parser reads the statement as WhileSpec says |
| WhileParsers.ParseWhileCondition | src/scope_parser/while_parser.rs:52-81 | the parser reads the condition and body as WhileCondition says |
| WhileParsers.WhileConditionReasons | src/scope_parser/while_parser.rs:54-62 | a condition that ends for an unknown reason, at the end of the content, or without a value fails over the character before the cursor; any other reason goes on to the body |
| WhileParsers.WhileShape | src/scope_parser/while_parser.rs:43-82 | a parsed while holds the condition the expression parser read as a boolean, followed by the body that begins after the whitespace |
| WhileParsers.WhileRecognition | src/scope_parser/while_parser.rs:88-91 | a text is recognised exactly when "while" is followed by a blank or an opening parenthesis there; so a longer word or the bare keyword is not |
| LoopParsers.LoopSpec | src/scope_parser/loop_parser.rs:43-69 | a parsed loop starts with the loop keyword and records the lines it starts and ends on |
| LoopParsers.NewLoop | src/scope_parser/loop_parser.rs:43-69 | the parser reads the statement as LoopSpec says |
| LoopParsers.LoopWrongKeyword | src/scope_parser/loop_parser.rs:46-50 | another word in place of loop gives Unexpected Keyword over exactly that word |
| LoopParsers.LoopBody | src/scope_parser/loop_parser.rs:52-62 | a loop body is unlimited exactly when it opens with a brace, and a one-statement scope otherwise |
| InjectStatements.InjectSpec | src/scope_parser/inject_parser.rs:33-58 | a parsed injection starts with the inject keyword and records the lines it starts and ends on |
| InjectStatements.InjectBlock | src/scope_parser/inject_parser.rs:42-57 | an injection parsed after its keyword records the line given and the line it ends on |
| InjectStatements.InjectCode | src/scope_parser/inject_parser.rs:44-57 | an injection parsed from its brace on records the line given and the line it ends on |
| InjectStatements.NewInject | src/scope_parser/inject_parser.rs:33-58 | the parser reads the statement as InjectSpec says |
| InjectStatements.ParseInjectBlock | src/scope_parser/inject_parser.rs:42-57 | the parser reads the opening brace and the code as InjectBlock says |
| InjectStatements.ParseInjectCode | src/scope_parser/inject_parser.rs:44-57 | the parser reads the braces and code as InjectCode says |
| InjectStatements.InjectSpansBraces | src/scope_parser/inject_parser.rs:33-58 | a parsed injection spans exactly the text between an opening brace and its matching closing brace, and the cursor ends just past the closing brace |
| InjectStatements.BlockSpansBraces | src/scope_parser/inject_parser.rs:42-57 | after the keyword, a parsed injection spans the text between an opening brace and the closing brace that ends it, and the cursor ends just past that brace |
| InjectStatements.CodeSpansBraces | src/scope_parser/inject_parser.rs:45-57 | from the opening brace on, the code starts at the cursor and ends on a closing brace, and the cursor ends just past it |
| InjectStatements.InjectPrefixOnly | src/scope_parser/inject_parser.rs:64-67 | a text is recognised exactly when "inject" is spelled there, whatever follows: a longer word such as injected is recognised too |
| ReturnParsers.ReturnToCpp | src/scope_parser/return_parser.rs:47-49 | a return statement has no C++ text of its own |
| ReturnParsers.ReturnSpec | src/scope_parser/return_parser.rs:53-88 | a parsed return starts with the return keyword and records the line it starts on |
| ReturnParsers.ReturnValue | src/scope_parser/return_parser.rs:65-87 | a return with a value holds the expression the expression parser read for the expected type |
| ReturnParsers.NewReturn | src/scope_parser/return_parser.rs:53-88 | the parser reads the statement as ReturnSpec says |
| ReturnParsers.ParseReturnValue | src/scope_parser/return_parser.rs:65-87 | the parser reads the value as ReturnValue says |
| ReturnParsers.ReturnValueAbsentIffSemicolon | src/scope_parser/return_parser.rs:62-87 | a parsed return has no value exactly when a semicolon follows the keyword, and otherwise holds the parsed expression |
| ReturnParsers.SemicolonNeeded | src/scope_parser/return_parser.rs:73-79 | after a complete expression the return succeeds exactly when a semicolon follows, and otherwise fails with Semicolon Needed over the character before the expression's end |
| DoWhileParsers.DoWhileSpec | src/scope_parser/dowhile_parser.rs:54-118 | a parsed do-while starts with the do keyword and records the lines it starts and ends on |
| DoWhileParsers.DoBody | src/scope_parser/dowhile_parser.rs:63-117 | the body is unlimited exactly when it opens with a brace, and the statement records the line given and the line it ends on |
| DoWhileParsers.DoTail | src/scope_parser/dowhile_parser.rs:80-117 | the statement keeps the body's scope and records the line given and the line it ends on |
| DoWhileParsers.DoKeyword | src/scope_parser/dowhile_parser.rs:82-117 | the statement keeps the body's scope and records the line given and the line it ends on |
| DoWhileParsers.DoCondition | src/scope_parser/dowhile_parser.rs:94-117 | a parsed do-while holds the condition the expression parser read as a boolean, with the kind, scope, lines and offset given |
| DoWhileParsers.NewDoWhile | src/scope_parser/dowhile_parser.rs:54-118 | the parser reads the statement as DoWhileSpec says |
| DoWhileParsers.ParseDoBody | src/scope_parser/dowhile_parser.rs:63-117 | the parser reads the body and what follows as DoBody says |
| DoWhileParsers.ParseDoTail | src/scope_parser/dowhile_parser.rs:80-117 | the parser reads the while or until keyword and what follows as DoTail says |
| DoWhileParsers.ParseDoKeyword | src/scope_parser/dowhile_parser.rs:82-117 | the parser reads the keyword and what follows as DoKeyword says |
| DoWhileParsers.ParseDoCondition | src/scope_parser/dowhile_parser.rs:94-117 | the parser reads the condition and semicolon as DoCondition says |
| DoWhileParsers.DoTailKeyword | src/scope_parser/dowhile_parser.rs:80-92 | while gives a while loop and until an until loop, the offset is the number of lines between the body's end and the keyword, and any other word fails with Unexpected Keyword over that word |
| DoWhileParsers.DoWhileOffset | src/scope_parser/dowhile_parser.rs:75-82 | for a one-statement body the offset counts the lines from the statement's end to the keyword |
| DoWhileParsers.DoWhileNeedsSemicolon | src/scope_parser/dowhile_parser.rs:106-108 | a parsed do-while ends just past a semicolon |
| IfParsers.IfSpec | src/scope_parser/if_parser.rs:96-162 | a parsed if statement records the lines it starts and ends on |
| IfParsers.IfElse | src/scope_parser/if_parser.rs:110-128 | a statement parsed after else records the line given and the line it ends on |
| IfParsers.IfCondition | src/scope_parser/if_parser.rs:130-161 | a statement with a condition keeps its kind and holds the condition the expression parser read as a boolean |
| IfParsers.IfBody | src/scope_parser/if_parser.rs:145-161 | the body always parses, keeping the kind and condition, and records the lines |
| IfParsers.NewIf | src/scope_parser/if_parser.rs:96-162 | the parser reads the statement as IfSpec says |
| IfParsers.ParseIfElse | src/scope_parser/if_parser.rs:110-128 | the parser reads what follows else as IfElse says |
| IfParsers.ParseIfCondition | src/scope_parser/if_parser.rs:130-161 | the parser reads the condition and body as IfCondition says |
| IfParsers.IfKinds | src/scope_parser/if_parser.rs:99-128 | a statement has no condition exactly when it is a bare else; if, unless, else if and else unless give their own kinds |
| IfParsers.BareElseRewinds | src/scope_parser/if_parser.rs:124-127 | an else not followed by if or unless rewinds to just after the whitespace and reads the body as a bare else |
| ForParsers.ForVariable | src/scope_parser/for_parser.rs:131-135 | the loop variable with the intended check: the word read there, with no error exactly when it is non-empty and content remains; a missing name is Expected Variable Name |
| ForParsers.ForVariableAsWritten | src/scope_parser/for_parser.rs:129-135 | the loop variable as the source reads it: the word read there, with no error exactly when it is non-empty and content remains |
| ForParsers.ForSpec | src/scope_parser/for_parser.rs:119-254 | a parsed for loop has the kind its keyword names, never invalid, and records the lines it starts and ends on |
| ForParsers.ForHead | src/scope_parser/for_parser.rs:129-253 | the variable is read as written (an empty name is Expected Identifier); a parsed loop keeps its kind and its non-empty variable name, and holds a collection exactly for a for-each loop |
| ForParsers.ForIn | src/scope_parser/for_parser.rs:140-160 | a for-each loop holds one collection expression |
| ForParsers.ForFrom | src/scope_parser/for_parser.rs:162-227 | a counted loop holds a start, an end and an optional step |
| ForParsers.ForTo | src/scope_parser/for_parser.rs:183-227 | a counted loop keeps the start it read before to |
| ForParsers.ForBy | src/scope_parser/for_parser.rs:204-227 | a counted loop keeps its start and end, and has a step exactly when the word after the end is by |
| ForParsers.ForStep | src/scope_parser/for_parser.rs:212-226 | the step is the expression the expression parser read after by |
| ForParsers.ForStepRead | src/scope_parser/for_parser.rs:215-225 | once the step is read, a failed step is reported at the cursor and otherwise the loop keeps its kind, variable, bounds and that step |
| ForParsers.ForScope | src/scope_parser/for_parser.rs:234-253 | the loop is assembled from its kind, variable, content and body, with the lines |
| ForParsers.NewFor | src/scope_parser/for_parser.rs:119-254 | the parser reads the loop as ForSpec says |
| ForParsers.ParseForHead | src/scope_parser/for_parser.rs:129-253 | the parser reads from the whitespace after the keyword as ForHead says, reading the variable with the Expected Identifier helper |
| ForParsers.ParseForIn | src/scope_parser/for_parser.rs:140-160 | the parser reads in and the collection as ForIn says |
| ForParsers.ParseForFrom | src/scope_parser/for_parser.rs:162-227 | the parser reads from and the start as ForFrom says |
| ForParsers.ParseForTo | src/scope_parser/for_parser.rs:183-227 | the parser reads to and the end as ForTo says |
| ForParsers.ParseForBy | src/scope_parser/for_parser.rs:204-227 | the parser reads the optional step as ForBy says |
| ForParsers.ParseForStep | src/scope_parser/for_parser.rs:212-226 | the parser reads the step as ForStep says |
| ForParsers.ParseForStepRead | src/scope_parser/for_parser.rs:215-225 | the parser goes on from the step read as ForStepRead says |
| ForParsers.ParseForScope | src/scope_parser/for_parser.rs:234-253 | the parser reads the body as ForScope says |
| ForParsers.ForTypeKeywords | src/scope_parser/for_parser.rs:59-67 | exactly the five keywords for, inc, dec, incto and decto name a loop kind, and each kind reads back from its keyword |
| ForParsers.ForNeedsIn | src/scope_parser/for_parser.rs:142-146 | another word in place of in gives Unexpected Keyword over that word |
| ForParsers.ForWithoutStep | src/scope_parser/for_parser.rs:206-224 | without the word by the loop has no step and the parser rewinds to read the body |
| ForParsers.VariableNameCheckUnreachable | src/scope_parser/for_parser.rs:131-135 | as written, a missing variable name is reported as Expected Identifier and never as Expected Variable Name |
| ForParsers.MissingVariableNameReported | src/scope_parser/for_parser.rs:133-135 | corrected, a missing variable name is reported as Expected Variable Name over the character before the cursor |
| ForParsers.CountedToFormsUnrecognised | src/scope_parser/for_parser.rs:35 | incto and decto name loop kinds, yet a statement starting with either is not recognised as a for loop |
| ForParsers.EveryForKeywordRecognised | src/scope_parser/for_parser.rs:35 | corrected, every loop keyword followed by a word boundary is recognised |
| Expressions.GetType | src/expression/mod.rs:40-57 | every expression other than Invalid yields the type stored in it; Invalid has no type of its own and is given the inferred type |
| Expressions.Leftmost | src/expression/mod.rs:59-63 | following the first operand of ternaries always ends at an expression that is not a ternary |
| Expressions.LineNumberOfLeftmost | src/expression/mod.rs:59-78 | an expression's line is its leftmost non-ternary part's line; it is absent exactly when that part is Invalid, and a position without a line counts as line 0 |
| Expressions.GapsFrom | src/expression/mod.rs:114-124 | a group element gets exactly one line gap, counted from the line of the element before it |
| Expressions.Gaps | src/expression/mod.rs:114-124 | a group has one gap per element and the first element never gets line breaks in front of it |
| Expressions.GapsSpanTheLines | src/expression/mod.rs:114-124 | when the lines ascend, the gaps add up to the distance from the first line to the last, so the C++ output keeps the source's line layout |
| Expressions.LineBreaks | src/expression/mod.rs:125-133 | a gap of n lines becomes n newline-and-tab pairs |
| Expressions.SingleElementIsParenthesised | src/expression/mod.rs:112-141 | a one-element group is printed as that element in parentheses, with no line breaks |
| Expressions.PairIsTuple | src/expression/mod.rs:112-141 | a group of two or more is printed as a std::make_tuple call, with the second element preceded by as many line breaks as the lines it is below the first |
| ExpressionPieces.InitializerListType | src/expression/expression_piece.rs:72-93 | a non-empty initializer list whose elements all share one type has the initializer-list type of that type, and a type exists only in that case |
| ExpressionPieces.GroupIsTuple | src/expression/expression_piece.rs:59-65 | a group of two or more values has a tuple type whose element types are the values' types in order |
| ExpressionPieces.GetEncapsulatedType | src/expression/expression_piece.rs:57-99 | the loop over the list's elements computes the same type as the specification of encapsulated types |
| ExpressionPieces.InferTypeFromValueString | src/expression/expression_piece.rs:492-518 | an empty literal is inferred, a literal starting with a digit is a number, true and false are booleans, and any other plain name takes the type its lookup gives or else the inferred type |
| ExpressionPieces.QuotedValueIsString | src/expression/expression_piece.rs:492-527 | a plain double-quoted literal is typed as a const char array string |
| ExpressionPieces.ExpressionFromPiece | src/expression/expression_piece.rs:450-474 | only operator and parameter pieces yield no expression; an expression piece yields its expression and a value piece a Value with its inferred type |
| ExpressionPieces.TypeFromPiece | src/expression/expression_piece.rs:476-483 | a type is found only in a type piece |
| ExpressionPieces.AccessFromPiece | src/expression/expression_piece.rs:485-490 | an access name is found only in a value piece |
| ExpressionPieces.PiecePriority | src/expression/expression_piece.rs:544-569 | call and index parameters bind at priority 950, and operator pieces take the priority and direction of their operator table entry |
| ExpressionPieces.NextOperatorUnique | src/expression/expression_piece.rs:529-542 | at most one operator piece is the next one to fold: a later piece never also qualifies |
| ExpressionPieces.ExpectType | src/expression/expression_piece.rs:237-242 | only the prefix operators 8 and 9 and the infix operator 6 expect a type operand |
| ExpressionPieces.ParsePrefix | src/expression/expression_piece.rs:244-272 | a prefix folds exactly when its operand is an expression, keeps its operator and position, and operator 8 gives an unsigned number |
| ExpressionPieces.ParseSuffix | src/expression/expression_piece.rs:274-280 | a suffix folds exactly when its operand is an expression and gives an inferred-type Suffix around it |
| ExpressionPieces.Mirrored | src/expression/expression_piece.rs:316-331 | the mirrored comparison is a comparison of the same strictness facing the other way |
| ExpressionPieces.ParseInfix | src/expression/expression_piece.rs:282-361 | an infix folds exactly when both of its neighbours are expressions |
| ExpressionPieces.ComparisonChain | src/expression/expression_piece.rs:316-331 | a chain like a <= b < c folds into two comparisons sharing the middle operand, joined by a logical and: the inner one with its operands swapped and its operator mirrored, then the outer one |
| ExpressionPieces.MirroredSwaps | src/expression/expression_piece.rs:328 | mirroring a comparison and swapping its operands keeps its truth |
| ExpressionPieces.ChainAsWritten | src/expression/expression_piece.rs:326-330 | the chain as written is a logical and whose first half carries the mirror of the outer operator |
| ExpressionPieces.ChainAsWrittenDropsInner | src/expression/expression_piece.rs:326-330 | for a <= b < c with a equal to b and c larger, both comparisons hold but the chain as written does not |
| ExpressionPieces.Chain | src/expression/expression_piece.rs:326-330 | the corrected chain is a logical and whose first half carries the mirror of the inner operator |
| ExpressionPieces.ChainMeansBoth | src/expression/expression_piece.rs:316-331 | the corrected chain of a op b id c holds exactly when a op b and b id c both hold |
| ExpressionPieces.MixedComparisonsNest | src/expression/expression_piece.rs:316-331 | comparisons facing different ways do not chain and simply nest |
| ExpressionPieces.ParseTernary | src/expression/expression_piece.rs:363-387 | a ternary fails exactly when a neighbour is missing or is not an expression, with code 3 for a missing right side and 2 otherwise, and keeps its middle branch |
| ExpressionPieces.ParseFunctionCall | src/expression/expression_piece.rs:389-440 | a call folds exactly when its callee is an expression, and keeps its arguments, plus the receiver for a static extension |
| ExpressionPieces.StaticExtensionCall | src/expression/expression_piece.rs:394-417 | a member call on a type with a static extension becomes a call of the extension with the receiver as the first argument and the extension's return type |
| ExpressionPieces.ParseArrayAccess | src/expression/expression_piece.rs:442-448 | an index folds exactly when its target is an expression and gives an inferred-type ArrayAccess with the index list |
| ExpressionParsers.CheckOperator | src/expression/expression_parser.rs:444-457 | returns, in ascending order, exactly the indices of the named operators whose name equals the text, or starts with it when the match is not exact |
| ExpressionParsers.StartsWithShorter | src/expression/expression_parser.rs:325-348 | an operator that starts with a text also starts with every shorter prefix of it, so candidates only shrink as the scan grows |
| ExpressionParsers.MatchOperator | src/expression/expression_parser.rs:319-361 | a matched operator is a named operator whose name is exactly the matched text, no other operator has that name, and the text cannot be extended to a longer operator |
| ExpressionParsers.NextState | src/expression/expression_parser.rs:146-176 | the machine ends, with a reason, only from a failed value (NoValueError) or a failed infix (EndOfExpression) |
| ExpressionParsers.StatesCycle | src/expression/expression_parser.rs:146-176 | prefix, value, suffix and infix follow one another in a cycle and the end state is final |
| ExpressionParsers.OperatorPieces | src/expression/expression_parser.rs:203-237 | prefix, suffix and infix operators each push a piece and ternary operators push none |
| ExpressionParsers.GetEndChar | src/expression/expression_parser.rs:371-381 | an opening bracket closes with its partner and anything else has no closing character |
| ExpressionParsers.ScanFrom | src/expression/expression_piece.rs:529-542 | the rest of the scan finds the piece with the highest priority, later pieces winning ties only when they bind right to left, or no piece at all when none outranks -3 |
| ExpressionParsers.ScanStep | src/expression/expression_piece.rs:532-540 | one iteration of the scan keeps the best-so-far invariant |
| ExpressionParsers.NextOperator | src/expression/expression_piece.rs:529-542 | the piece chosen is the next operator to fold, and nothing is chosen only when no piece outranks -3 |
| ExpressionParsers.At | src/expression/expression_piece.rs:282-285 | a neighbouring piece is present exactly when its index is inside the list |
| ExpressionParsers.Splice | src/expression/expression_piece.rs:124-203 | replacing a run of pieces by one shortens the list by the run's length less one |
| ExpressionParsers.ReduceStep | src/expression/expression_piece.rs:120-216 | folding the chosen piece replaces it and its operands by one expression, reports the error at the operator's position, or ends with no support when the piece is not an operator |
| ExpressionParsers.ReplacedInRange | src/expression/expression_piece.rs:120-216 | each fold keeps the pieces within the operator table and makes the list strictly shorter, so the reduction ends |
| ExpressionParsers.ResultOf | src/expression/expression_piece.rs:218-234 | only a built expression is returned and every other ending yields Invalid |
| ExpressionParsers.Fold | src/expression/expression_piece.rs:218-232 | an empty list is reported as a broken expression at the start position |
| ExpressionParsers.Reduce | src/expression/expression_piece.rs:101-108 | a single piece is the result exactly when it is an expression |
| ExpressionParsers.InfixBetweenValuesFolds | src/expression/expression_piece.rs:120-160 | a value, an infix operator and a value fold into the infix expression of the two values |
| ExpressionParsers.ExpressionParser.constructor | src/expression/expression_parser.rs:84-101 | a new parser reads the whole content with the given operators, start position and end characters, with no pieces and no end reason yet |
| ExpressionParsers.ExpressionParser.SetEndReason | src/expression/expression_parser.rs:138-144 | the first reason recorded sticks and later ones are refused |
| ExpressionParsers.ExpressionParser.IndexWithinBounds | src/expression/expression_parser.rs:243-250 | the cursor is within the text exactly when it is before its end; otherwise the end index and EndOfContent are recorded |
| ExpressionParsers.ExpressionParser.ParseNextWhitespace | src/expression/expression_parser.rs:252-267 | measures the blank run ahead and counts its line breaks without moving the cursor |
| ExpressionParsers.ExpressionParser.CheckForEndChar | src/expression/expression_parser.rs:127-136 | skips the blank run, then stops exactly on one of the end characters, recording where and which |
| ExpressionParsers.ExpressionParser.GeneratePos | src/expression/expression_parser.rs:178-201 | a generated position is in the start position's file, on its line plus the line breaks seen so far |
| ExpressionParsers.ExpressionParser.GeneratePosKeepsOrder | src/expression/expression_parser.rs:178-201 | a generated span keeps its length and its start and end in order |
| ExpressionParsers.ExpressionParser.ParseNextOperator | src/expression/expression_parser.rs:319-361 | on success the longest matching operator after the blank run is pushed as a piece and the cursor moves past it; on failure nothing changes |
| ExpressionParsers.ExpressionParser.PushOperator | src/expression/expression_parser.rs:349-358 | a found operator is pushed with its span and the cursor moves to its end |
| ExpressionParsers.ExpressionParser.ParseNextSuffixOperator | src/expression/expression_parser.rs:383-410 | an opening bracket after the blank run starts a call or index group; anything else is read as a suffix operator, and the end of the text is reported rather than read past |
| ExpressionParsers.ExpressionParser.ParseGroup | src/expression/expression_parser.rs:386-389 | after an opening bracket the group is what the nested group parser reads: its pieces are appended, the cursor moves to where it stopped, and its success is the step's |
| ExpressionParsers.ExpressionParser.ParseValue | src/expression/expression_parser.rs:269-313 | at the end of the text there is no value and EndOfContent is recorded; otherwise the value reader decides |
| ExpressionParsers.ExpressionParser.Parse | src/expression/expression_parser.rs:146-176 | one step follows the state machine and ends it only with a recorded reason, NoValueError or EndOfExpression unless the text had run out |
| ExpressionParsers.ExpressionParser.ParseExprStr | src/expression/expression_parser.rs:111-125 | whenever the loop stops on its own an end reason is recorded, a reason once recorded never changes, and pieces are only ever appended |
| ExpressionParsers.ExpressionParser.GetNextOperator | src/expression/expression_piece.rs:529-542 | the loop finds the same piece as the scan specification, the next operator to fold |
| ExpressionParsers.ExpressionParser.ReduceParts | src/expression/expression_piece.rs:101-235 | the loop folds the pieces exactly as the reduction specification does and returns its expression or Invalid |
| ExpressionParsers.InfixOperandsAsWritten | src/expression/expression_piece.rs:282-285 | as written, the infix fold reads the pieces on both sides of the removed operator, and there are none on the right when the operator was last |
| ExpressionParsers.TrailingInfixPanics | src/expression/expression_piece.rs:146-156 | as written, a value followed by a trailing infix operator, such as "a +", makes the infix fold read past the end of the piece list |
| ExpressionParsers.TrailingInfixReported | src/expression/expression_piece.rs:146-156 | corrected, a trailing infix operator is reported as Expected Expression (Infix) at the operator |
| ExpressionParsers.PrefixOperandAsWritten | src/expression/expression_piece.rs:244-272 | as written, the prefix fold reads the piece at the removed operator's index, and there is none when the operator was last |
| ExpressionParsers.TrailingPrefixPanics | src/expression/expression_piece.rs:120-126 | as written, a value, an infix operator and a tighter prefix operator at the end, such as "a + !", make the prefix fold read past the end of the piece list |
| ExpressionParsers.TrailingPrefixReported | src/expression/expression_piece.rs:124-134 | corrected, a trailing prefix operator is reported as Expected Expression (Prefix) at the operator |
| ExpressionParsers.SuffixStartAsWritten | src/expression/expression_parser.rs:383-385 | as written, the suffix step reads the character after the blank run, which exists only when the run stops before the end of the text |
| ExpressionParsers.TrailingBlankSuffixPanics | src/expression/expression_parser.rs:383-385 | as written, on the text "a " the blank run after the value reaches the end, so the suffix step reads past it |
| MainOutput.Inserted | src/main.rs:484-499 | the buffer is padded with empty lines up to the target line, an empty text only pads, the target line is replaced or extended after one space, and no other line changes |
| MainOutput.InsertOutputLine | src/main.rs:484-499 | the padding loop and the write leave exactly the buffer the specification describes |
| MainOutput.ConfiguredDeclaration | src/main.rs:461-472 | the declaration is isolated exactly when it has the Isolated attribute, and its text is the declaration (with its semicolon) behind the DeclarePrepend lines and before the DeclareAppend lines |
| MainOutput.UnattributedDeclaration | src/main.rs:461-472 | without attributes a declaration is not isolated and keeps its text, semicolon added |
| MainOutput.ConfigureDeclaration | src/main.rs:474-482 | the configured text joins the isolated list exactly when the declaration is isolated, and the normal list otherwise |
| MainOutput.ArgumentCaptures | src/main.rs:91 | a match of the argument pattern splits the argument into a non-empty word key and a single-line value that rebuild it |
| MainOutput.CapturesRoundTrip | src/main.rs:91 | every well-formed key and value written as a key-value argument is read back as that key and value |
| MainOutput.ArgumentEntry | src/main.rs:99-111 | only arguments of three or more characters starting with two dashes count; they give a key with a value, or the bare key when the pattern does not match |
| MainOutput.CollectedMeaning | src/main.rs:112-120 | a key is in the table exactly when some argument names it, and its list is the values given for it in order |
| MainOutput.NoEntryNoValues | src/main.rs:112-120 | a key no argument names has no values |
| MainOutput.ParseArguments | src/main.rs:90-126 | the loop over the arguments builds exactly the argument table of the specification |
| MainOutput.ProgramNameIgnored | src/main.rs:93-98 | the first argument, the program name, never contributes to the table |
| Transpilers.SplitLines | src/transpiler.rs:29-31 | the text is cut at every line break, with the two-character breaks counted once, and no piece holds a break |
| Transpilers.SplitJoinRoundTrip | src/transpiler.rs:29-31 | splitting a text that uses only newline breaks and joining the pieces with newlines gives the text back |
| Transpilers.OneLine | src/transpiler.rs:29-31 | a text without line breaks is a single line |
| Transpilers.Tabs | src/transpiler.rs:78-82 | the indentation is exactly the requested number of tab characters |
| Transpilers.IndentedLines | src/transpiler.rs:56-64 | each non-blank line of an indented declaration is that line behind exactly the requested tabs, and a blank line becomes empty |
| Transpilers.PushLine | src/transpiler.rs:56-68 | the loop appends exactly the declaration's lines, indented, or the declaration as one line without indentation |
| Transpilers.IsolatedAlternates | src/transpiler.rs:96-103 | unindented isolated declarations alternate with blank lines, declaration i on line 2i |
| Transpilers.NormalThenBlank | src/transpiler.rs:105-112 | normal declarations are written one after another with one blank line after a non-empty group and nothing for an empty one |
| Transpilers.ConcatUnindented | src/transpiler.rs:105-112 | without indentation the declarations are written unchanged |
| Transpilers.ExportIsolated | src/transpiler.rs:96-103 | the loop appends exactly the isolated group's lines |
| Transpilers.ExportNormal | src/transpiler.rs:105-112 | the loop appends exactly the normal group's lines |
| Transpilers.GroupsEmptyIff | src/transpiler.rs:96-112 | a group writes no line exactly when it is empty |
| Transpilers.DeclarationLists.ExportedEmptyIff | src/transpiler.rs:70-94 | exporting writes nothing exactly when all four declaration lists are empty |
| Transpilers.DeclarationLists.ExportOrders | src/transpiler.rs:77-94 | the variable groups come before the function groups when variables go first, and after them otherwise |
| Transpilers.DeclarationLists.ExportToLines | src/transpiler.rs:77-94 | exporting appends the isolated and normal groups of both kinds in the order the flag selects |
| Transpilers.VarFuncDeclarations.constructor | src/transpiler.rs:47-54 | new declaration lists are all empty |
| Transpilers.VariableLine | src/transpiler.rs:178-184 | under alignment a variable goes to its own line; otherwise to the end of the buffer, one line further when it is at least two lines below the last declaration |
| Transpilers.IncludeLine | src/transpiler.rs:343-347 | a local include is written in quotes and a system include in angle brackets |
| Transpilers.ImportLine | src/transpiler.rs:323-327 | an import includes the module's header, with the .hpp or .h extension the configuration selects |
| Transpilers.Transpiler.constructor | src/transpiler.rs:136-156 | a new transpiler has no output, no declarations, no classes, no includes, no header include line, and is handling module attributes |
| Transpilers.Transpiler.RouteModuleVariable | src/transpiler.rs:166-241 | a module variable's C++ text goes to its placed line, the end line moves to it, and unless NoHeader an extern declaration joins the normal or isolated variable list; no other field of the transpiler changes (the module scope binding is RouteFirst's) |
| Transpilers.Transpiler.RouteFirst | src/transpiler.rs:162-244 | in the first pass a variable is routed and bound in the module typing context, as FirstStep says; anything else waits |
| Transpilers.Transpiler.RouteSecond | src/transpiler.rs:246-431 | in the second pass a module attribute is registered; anything else ends module-attribute handling and is routed by kind, as SecondStep says; an import of an unknown module yields its error |
| Transpilers.Transpiler.RouteKind | src/transpiler.rs:259-431 | a class, injection, import or include is routed as KindRouted says, and only an import of an unknown module yields an error |
| Transpilers.Transpiler.RouteImportItem | src/transpiler.rs:317-332 | an import is routed as KindRouted says |
| Transpilers.Transpiler.RouteIncludeItem | src/transpiler.rs:333-350 | an include is routed as KindRouted says |
| Transpilers.Transpiler.ParseDeclarations | src/transpiler.rs:158-434 | the state after parse_declarations is the first pass over all declarations followed by the second pass over all of them, and the errors are those of the unknown imports, in order |
| Transpilers.ImportError | src/transpiler.rs:317-331 | an error arises exactly for an import of a module that does not exist |
| Transpilers.FirstStepKeeps | src/transpiler.rs:162-244 | one step of the first pass changes only the output, the end line, the variable lists and the module scopes, whose depth it keeps |
| Transpilers.FirstPassKeeps | src/transpiler.rs:162-244 | the first pass changes only the output, the end line, the variable lists and the module scopes, whose depth it keeps |
| Transpilers.FirstStepExterns | src/transpiler.rs:206-218 | one step of the first pass adds a variable's extern text to the list its attributes choose, unless NoHeader |
| Transpilers.FirstPassExterns | src/transpiler.rs:162-244 | the header's variable lists grow by exactly the extern texts of the variables, in declaration order |
| Transpilers.FirstPassBinds | src/transpiler.rs:184-188 | after the first pass each variable is bound in the module scope to its type unless a later variable of the same name rebinds it |
| Transpilers.FirstPassEndLine | src/transpiler.rs:162-205 | after the first pass the end line is the last variable's line, or unchanged without variables |
| Transpilers.SecondStepEffect | src/transpiler.rs:246-431 | one step of the second pass keeps the end line, the header lists and the module scopes, and adds a known import |
| Transpilers.SecondPassKeeps | src/transpiler.rs:246-431 | the second pass leaves the end line, the header's declaration lists and the module scopes alone |
| Transpilers.SecondPassImports | src/transpiler.rs:317-327 | the imported modules grow by the imports of existing modules, in order |
| Transpilers.SecondPassAlignment | src/transpiler.rs:248-255 | alignment is on after the second pass exactly when it was before or a TastyAlign attribute is declared |
| Transpilers.SecondPassHandling | src/transpiler.rs:248-257 | module attributes are still being handled afterwards exactly when they were and every declaration is a module attribute |
| Transpilers.TwoPassEffect | src/transpiler.rs:158-434 | after both passes the variable lists gain the variables' extern texts in order, the end line is the last variable's, the imports gain the known imports in order, alignment and module-attribute handling are as the declarations say, and the function lists are untouched |
| Transpilers.VariablesPlacedBeforeAlignment | src/transpiler.rs:162-255 | variables are placed before the module attributes of the same list are registered, so a TastyAlign beside them does not align them |
| Transpilers.Transpiler.RouteInclude | src/transpiler.rs:333-349 | a header include joins the local or system list and leaves the output alone; a source include is written on its placed line and leaves the lists alone |
| Transpilers.Transpiler.RouteImport | src/transpiler.rs:317-331 | a known module is registered and its header included on its placed line; an unknown one changes nothing and is reported as Import Not Found over its path on the following line |
| Transpilers.Transpiler.RouteClass | src/transpiler.rs:286-299 | a class joins the header's classes, in order, with its attribute-configured text and the declaration lists of its members |
| Transpilers.Transpiler.RouteModuleAttribute | src/transpiler.rs:247-254 | a module attribute is registered, TastyAlign turning alignment on, and under alignment the header's include moves to the attribute's line |
| Transpilers.Transpiler.EndModuleAttributes | src/transpiler.rs:255-257 | the first other declaration ends the handling of module attributes and changes nothing else |
| Transpilers.Transpiler.RouteInjection | src/transpiler.rs:301-314 | an injection's text, trimmed unless aligned, is placed line by line from its own line under alignment or from one past the end of the buffer otherwise |
| Transpilers.PlaceInjection | src/transpiler.rs:309-313 | the loop places the injection's lines exactly as the specification does, skipping blank lines without alignment |
| Transpilers.InsertedPastEnd | src/main.rs:484-499 | a line placed past the end of the buffer lands after empty padding |
| Transpilers.AlignedInjectionKeepsLines | src/transpiler.rs:303-313 | under alignment an injection keeps its line layout: padding up to its line, then all of its lines, blank ones included |
| Transpilers.UnalignedInjectionDropsBlanks | src/transpiler.rs:303-313 | without alignment only the injection's non-blank lines are written, one after another, and an all-blank injection adds nothing |
| Transpilers.AlignedIncludeLandsOnItsLine | src/transpiler.rs:341-348 | under alignment an include lands on its own source line when that line is still empty |
| Transpilers.UnattributedClass | src/transpiler.rs:286-297 | a class without attributes keeps its C++ text |
| SourceFiles.Padded | src/main.rs:335-344 | the source gets at most two blank lines in front so that its first two lines are blank, and a source already starting with two blank lines is unchanged |
| SourceFiles.Prepared | src/main.rs:335-345 | a non-empty source with no header include line is padded and its header include goes to line 0; otherwise nothing changes |
| SourceFiles.PrepareOutput | src/main.rs:335-345 | the insertions leave the buffer and header include line the specification describes, and nothing else changes |
| SourceFiles.HeaderIncludeStandsAlone | src/main.rs:335-345 | after padding, the header's include takes line 0 alone, line 1 stays blank and every non-empty source line survives, shifted down |
| SourceFiles.IncludedHeaderPath | src/main.rs:410-416 | the header is named relative to the source directory when its path starts with it, with or without a leading dot-slash, and by its full path otherwise |
| SourceFiles.IncludedHeaderPathRelative | src/main.rs:410-416 | a header inside the source directory is included by its path relative to it |
| SourceFiles.Upper | src/main.rs:351 | lower-case ASCII letters become upper case and every other character is kept |
| SourceFiles.IncludeLines | src/main.rs:361-373 | each include path gives one include line of its kind, in order |
| SourceFiles.HeaderPaths | src/main.rs:361-363 | the context's headers give their paths in order |
| SourceFiles.HeaderGuarded | src/main.rs:351-398 | the header opens with pragma once, or with the ifndef and define of the upper-cased stem's TASTYFILE macro and closes with endif |
| SourceFiles.HeaderIncludesListed | src/main.rs:359-374 | every context header, system include and local include appears in the header as an include line |
| SourceFiles.EmptyHeader | src/main.rs:348-398 | a file with nothing to declare gets only its guard in the header |
| SourceFiles.ClassFraming | src/main.rs:376-395 | a class's lines start with its text and end with the closing brace and a blank line, with a public label exactly when it has constructor or public declarations |
| SourceFiles.PushIncludes | src/main.rs:364-373 | the loop appends exactly one include line per path |
| SourceFiles.PushSystemBlock | src/main.rs:359-367 | the module headers and system includes are written as the system block, one include line per path then a blank line, and nothing when both are empty |
| SourceFiles.PushLocalBlock | src/main.rs:368-373 | the local includes are written as the local block, one quoted include line per path then a blank line, and nothing when there are none |
| SourceFiles.PushPublic | src/main.rs:378-387 | the public section holds the label, then the constructor and public declarations indented one tab, the blank line after the public ones dropped |
| SourceFiles.PushPrivate | src/main.rs:388-392 | the private section holds the label and the private declarations indented one tab, without the trailing blank line |
| SourceFiles.PushClass | src/main.rs:376-395 | a class is written as its specification lines |
| SourceFiles.PushTop | src/main.rs:350-374 | the guard and the include groups are written as the specification of the header's top |
| SourceFiles.PushClasses | src/main.rs:376-395 | the loop writes the classes in order |
| SourceFiles.AssembleHeader | src/main.rs:348-398 | the header is its guard, includes, exported declarations with variables first, classes and closing guard, as the specification assembles them |

## Left out

- File system and process I/O: reading sources and configuration, `get_source_files`, `get_output_dirs`, directory creation, the file writes of `transpile_source_file` and `main` itself.
- JSON decoding of the operator table: the table is an input sequence of name, priority and direction records.
- Diagnostic printing: each parser returns its error as a value (`Diagnostic`, `DeclResult.Err`), as the source does. The declaration loops print a failed declaration's error and go on: the attribute class body (attribute_class_declaration.rs:96-97), the class body (class_declaration.rs:155, 179, 207), the refurbish body (refurbish_declaration.rs:76, 86) and the module loop (module_declaration.rs:48-149). The model's loops drop that error and go on in the same way; the printing itself is not modelled. The `println!` traces are dropped.
- The function and variable declaration parsers, `Parser::parse_expression`, `ScopeExpression`, `to_function` and the `VariableType` methods that are not shown are parameters of the model; the loops that call the member parsers assume that those parsers never move the cursor back (`Monotone`, `Advancing`) and that a scope parse does not go back a line (`ScopesForward`).
- ExpressionParsers.ExpressionParser.ParseValue: the literal scan of `parse_value` and the nested expression parsers of bracketed groups are a parameter; the model states how their result is recorded, not what they read.
- ExpressionParsers.ExpressionParser.ParseExprStr: the loop runs for at most a given number of steps, because its termination depends on the parameters above; within that bound it is the source's loop. Its contract does not state which pieces are pushed or where the cursor ends, only that pieces are appended and how the end reason is recorded; each step's pieces and cursor are stated by the contracts of ParseNextOperator, ParseNextSuffixOperator and ParseValue.
- The `ConstructCall` shortcut of `parse_expr_parts` and the `Function` piece: the expression types they build are not part of the expression enum.
- ExpressionPieces.ParseInfix: a comparison chain mirrors the inner comparison's operator, where the source mirrors the outer one; the as-written chain is in the Findings table.
- ExpressionParsers.ReduceStep: a prefix or infix operator left last among the pieces is reported as Expected Expression, where the source indexes past the end and panics; the as-written behaviour is in the Findings table.
- The "Could not parse expression components!" panic of the reducer is modelled as the `Stuck` outcome.
- Expressions.GapsFrom: requires the element lines to ascend, because the source's unsigned subtraction fails otherwise.
- The emission of functions and of class variables in `parse_declarations` goes through `ScopeExpression` and the variable declaration's `to_cpp`, which are not shown; only module variables, includes, imports, injections, module attributes and classes are routed.
- Class members' own declaration lists come in as values: the recursive `parse_declarations` over a class body is not modelled.
- The registration of an imported module in the module typing context is modelled as the list `importedModules`.
- The output file paths (`Path::join`, `file_stem`, `to_slash`) and the skip of the header write when there is nothing to declare are not modelled; the file stem and the header path are inputs.
- Scan.ExprLoop: that the stop is the first target is proved for runs of plain characters (ExprLoopReachesTarget) and across a string literal at the cursor (ExprLoopSkipsString), not as one statement over arbitrary text with blanks, comments and brackets between.
- Scan.UntilAtExpr: as for Scan.ExprLoop.
- Cursor.Parser.ParseUntilAtExpr: as for Scan.ExprLoop.
- Transpilers.Transpiler.ParseDeclarations: only the module-level call is modelled; the recursive call for a class body, the typing scope pushed around it and the `this` binding are not. The `flatten_attributes` call made on a variable's and on a class's attributes before they are tested (transpiler.rs:165 and 262) is not made by the loop: the attributes of a `ModuleDecl` are taken to be already flattened, and the flattening itself is AttributeLists.Flatten. The `to_class` and `update_class` step for a class with a non-zero declaration id (transpiler.rs:279-284) is not made either; ClassDeclarations.ToClass and ContextManagers.ContextManager.UpdateClass model its two halves separately. The context taken from and returned to the context manager around each variable is the `Context` passed in. The C++ texts of variables and their types, and whether an imported module exists, are inputs.
- The macro `parse_unneccessary_ascii!` (for_parser.rs:210, if_parser.rs:115) is defined in no file of this model; it is read as an optional word: AsciiName, with no error when the word is empty.
- The fields `Property.is_declare` (class_declaration.rs:321) and `VariableType.var_optional` (expression_piece.rs:309) belong to definitions that are not part of this model and are left out of the model's records.
- ContextManagers.ContextManager.TakeContext: `take_context` panics on a missing file; the model requires the file to be present.
- SourceFiles.Upper: only ASCII letters are upper-cased, where Rust's `to_uppercase` covers all of Unicode.
- Text is a sequence of characters with ASCII classification (letters, digits, whitespace); the source slices the content by byte, which agrees for ASCII text.
- `Rc` sharing and `std::mem::replace` are ownership details with no counterpart in the model.
- The stale root-level copies of the expression files, `attribute_type.rs`, `source_files.rs`, and the variable and function declaration parsers do not compile and are not part of this model.

## Findings

| source | as written | input that shows it | evidently intended | confidence | as-written member | corrected member |
|---|---|---|---|---|---|---|
| src/declaration_parser/parser.rs:225-229 | a `//` comment that runs to the end of the text leaves the index one past the end, and the next `check_ahead` slices the content out of range | the text "//" | the scan stops at the end of the text and reports it | not executed | Scan.TrailingLineCommentWitness | Scan.TrailingLineCommentCorrected |
| src/declaration_parser/parser.rs:230-239 | a block comment that is never closed leaves the index past the end, and the next `check_ahead` slices the content out of range | the text "/*" (or "/**") | the scan stops at the end of the text and reports it | not executed | Scan.TrailingBlockCommentWitness | Scan.TrailingBlockCommentCorrected |
| src/scope_parser/for_parser.rs:131-135 | the variable name is read with a helper that already fails on an empty name, so the "Expected Variable Name" check can never fire | "for 1 in xs" (a digit where the variable name belongs) | a missing variable name is reported as Expected Variable Name | not executed | ForParsers.VariableNameCheckUnreachable | ForParsers.MissingVariableNameReported |
| src/scope_parser/for_parser.rs:35 | the recogniser's keyword list lacks incto and decto, though the loop kinds exist | "incto 1" | every loop keyword is recognised | not executed | ForParsers.CountedToFormsUnrecognised | ForParsers.EveryForKeywordRecognised |
| src/expression/expression_piece.rs:282-285 | after the operator is removed, the infix fold reads the piece at its index, which is past the end when the operator was last | the expression "a +" | a trailing operator is reported as Expected Expression (Infix) | not executed | ExpressionParsers.TrailingInfixPanics | ExpressionParsers.TrailingInfixReported |
| src/expression/expression_piece.rs:244-272 | after the operator is removed, the prefix fold reads the piece at its index, which is past the end when the operator was last | the expression "a + !" before an end character, where the prefix operator binds tighter than the infix one | a trailing prefix operator is reported as Expected Expression (Prefix) | not executed | ExpressionParsers.TrailingPrefixPanics | ExpressionParsers.TrailingPrefixReported |
| src/expression/expression_parser.rs:383-391 | the suffix step reads the character after the blank run without checking that the text goes on | the expression "a " at the end of the content | the end of the text ends the suffix step | not executed | ExpressionParsers.TrailingBlankSuffixPanics | ExpressionParsers.ExpressionParser.ParseNextSuffixOperator |
| src/expression/expression_piece.rs:326-330 | the first half of a comparison chain swaps the inner operands but takes the mirror of the outer operator, losing the inner one | the expression "a <= b < c" with a equal to b, which becomes "b > a && b < c" | the first half is the inner comparison mirrored, "b >= a" | not executed | ExpressionPieces.ChainAsWrittenDropsInner | ExpressionPieces.ChainMeansBoth |

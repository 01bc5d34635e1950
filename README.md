# Regex pattern parser of `lexerParser.cpp`, modelled in Dafny

The component parses a regular-expression pattern into a syntax tree by
recursive descent. A `Matching` cursor holds a view of the input that is
not yet parsed. Four primitives each consume at most one character of that
view: `matchAnyChar`, `matchChar`, `matchCharNotIn` and `matchAnyCharIn`.
The grammar functions thread that cursor through the parse and save and
restore it to backtrack. From loosest to tightest, the levels are:

- one alternation `|`;
- implicit concatenation, nested to the right;
- at most one postfix operator `+`, `?` or `*`;
- an atom: a group `( … )`, `.`, or a possibly escaped literal.

Each node of the `RegexParserNode` tree has a kind (`OR`, `AND`, `OPT`,
`MANY`, `NONZERO`, `CHAR`), owned children, and a range
`[begChar, endChar)` on its `CHAR` leaves.

How the model is built:

- `chars.dfy` fixes C `char` as a signed 8-bit integer (`CChar`, -128..127).
  An `int` stored into a `char` wraps modulo 256 (`ToCChar`).
- `cursor.dfy` holds the primitives twice:
  - as functions over the rest of the input, giving the character yielded and how many characters are consumed;
  - as methods of the class `Matching`, whose field `ref` is the view they update in place.
- `syntax.dfy` holds the node datatype, the arity column of `typeSpecs`, the
  node constructor with its `int`-to-`char` narrowing, and the well-formedness
  predicate (every node has as many children as its kind prescribes).
- `grammar.dfy` specifies each production by a function over the rest of the
  input. The function returns the node and how much input is consumed. A
  method with the source's name implements each production on a shared
  `Matching` and is proved equal to its function. Termination is by (input
  left, grammar level).
- `properties.dfy` proves what the productions do. `examples.dfy` works out
  particular patterns.

Behaviours of the source the model keeps:

- `(a|b|c)` does not parse. Inside the group the single alternation stops
  before the second `|`, so no `)` follows it (`Examples.GroupedThreeAlternativesFail`).
- A failing production does not always leave the input untouched. A lone
  trailing `\` fails with the backslash consumed (`GrammarProperties.LoneBackslashIsSwallowed`).
- `d+1` in a `CHAR` leaf wraps for the character 127, giving the empty range
  `[127, -128)` (`Examples.TopCharacterRangeWraps`).

Two places are corrected in the parse the model builds. Each is also
modelled as written (see "## Findings"):

- `matchAnyCharIn` (lexerParser.cpp:72) yields `ref[pos]`, where `pos` is
  the character's position in the filter rather than in the input. The
  parse reads the consumed operator instead (`Cursor.AnyCharIn`).
  `Grammar.WithPostfixAsWritten` gives what a postfix term is as written.
  For example, `a?b` is `MANY(a)`, `a*` and `a?` read past the end of the
  view, and the term `f?` of the program's default pattern `c|d(f?|g)` is
  `MANY(f)`.
- The `OR` of lexerParser.cpp:269 is built from an empty left operand when
  an alternation (the whole pattern, or the inside of a group) starts with
  `|` and a concatenation parses after the bar, as in `|a` or `(|a)`. The
  model fails there instead (`Grammar.Orred`). A `|` with nothing parsable
  after it, as in `|` alone, builds no `OR` in the source either.

## Model

| member | source | states |
|---|---|---|
| CChars.ToCChar | lexerParser.cpp:155-164 | an `int` stored into a `char` field is congruent to it modulo 256, and unchanged when it fits |
| Cursor.FindFirstOf | lexerParser.cpp:66-69 | `find_first_of` finds nothing exactly when the character is absent from the filter; otherwise it gives the first position holding it |
| Cursor.AnyChar | lexerParser.cpp:20-33 | `matchAnyChar` consumes exactly the first character and yields it; on empty input it yields NUL and consumes nothing |
| Cursor.MatchesChar | lexerParser.cpp:36-45 | `matchChar(c)` accepts exactly when the input starts with `c` |
| Cursor.CharNotIn | lexerParser.cpp:48-59 | `matchCharNotIn` consumes one character exactly when the input is non-empty and its first character is outside the filter, and yields it; otherwise it yields NUL and consumes nothing |
| Cursor.AnyCharIn | lexerParser.cpp:62-81 | corrected `matchAnyCharIn`: consumes one character exactly when the first character is in the filter, and yields that character; otherwise it yields NUL and consumes nothing |
| Cursor.AnyCharInAsWritten | lexerParser.cpp:62-81 | `matchAnyCharIn` as written consumes like the corrected one; on failure it yields NUL; it yields `s[p]`, where `p` is the first position of the consumed character in the filter, and the out-of-range read when `p` is past the end of the view; so it yields the consumed character when that character is the filter's first |
| Cursor.Matching.constructor | lexerParser.cpp:14-17 | the cursor's view starts as the whole input |
| Cursor.Matching.MatchAnyChar | lexerParser.cpp:20-33 | yields what `AnyChar` yields and removes from the view exactly what it consumes |
| Cursor.Matching.MatchChar | lexerParser.cpp:36-45 | accepts exactly when `MatchesChar` holds; then removes exactly one character, otherwise leaves the view unchanged |
| Cursor.Matching.MatchCharNotIn | lexerParser.cpp:48-59 | yields what `CharNotIn` yields and removes from the view exactly what it consumes |
| Cursor.Matching.MatchAnyCharIn | lexerParser.cpp:62-81 | yields what `AnyCharIn` yields and removes from the view exactly what it consumes |
| Cursor.Matching.MatchAnyCharInAsWritten | lexerParser.cpp:62-81 | yields `ref[pos]` or the explicit out-of-range read, as `AnyCharInAsWritten` does, and removes exactly one character on success |
| Syntax.MakeNode | lexerParser.cpp:155-164 | a node keeps its kind and children and narrows its range bounds into `char` with `ToCChar` (unchanged when they fit); it is well formed exactly when its children are, and their number is the kind's `nSubNodes` (lines 113-119) |
| Syntax.Literal | lexerParser.cpp:219 | the leaf for `d` is `CHAR[d, d+1)`, except that `d+1` wraps to -128 when `d` is 127 |
| Syntax.AnyCharLeaf | lexerParser.cpp:194 | the leaf for `.` is `CHAR[0, numeric_limits<char>::max())` |
| Grammar.MaybeEscape | lexerParser.cpp:200-212 | `b n f r t` map to backspace, newline, form feed, carriage return and tab; every other character maps to itself; only NUL maps to NUL |
| Grammar.PostfixKind | lexerParser.cpp:238 | `+` selects `NONZERO`, `?` selects `OPT`, every other character (`*` included) selects `MANY`, and each takes one child |
| Grammar.SubExpr | lexerParser.cpp:175-188 | a group consumes nothing on failure; on success it consumes text that starts with `(` and ends with `)`, and its tree is well formed |
| Grammar.Dot | lexerParser.cpp:191-197 | `.` succeeds exactly when the input starts with `.`, giving the any-character leaf after one character; on failure nothing is consumed |
| Grammar.EscapedChar | lexerParser.cpp:215-222 | a literal consumes within the input and succeeds only after consuming, with a well-formed leaf |
| Grammar.Atom | lexerParser.cpp:232-234 | an atom consumes within the input, succeeds only after consuming, and yields a well-formed tree |
| Grammar.WithPostfix | lexerParser.cpp:225-241 | a postfix term consumes within the input, succeeds only after consuming, and yields a tree whose every node has its kind's arity |
| Grammar.Anded | lexerParser.cpp:244-255 | a concatenation consumes within the input, succeeds only after consuming, and yields a tree whose every node has its kind's arity |
| Grammar.Orred | lexerParser.cpp:258-274 | an alternation consumes within the input, succeeds only after consuming, and yields a tree whose every node has its kind's arity |
| Grammar.WithPostfixAsWritten | lexerParser.cpp:225-241 | as written, a postfix term consumes what the corrected one does; it is undefined exactly when after an atom `?` has fewer than two characters, or `*` fewer than three, left in the view; `?` takes the kind of the character after it, and `*` of the one two further; with no operator or with `+` it agrees with the corrected term |
| Grammar.OrJoinAsWritten | lexerParser.cpp:267-269 | as written, joining the operands is undefined exactly when the left one is missing and the right one is present; with both present it is the `OR` of the two; without a right one it is the left one |
| Grammar.MatchSubExpr | lexerParser.cpp:175-188 | yields the node of `SubExpr`; the view is advanced by exactly what `SubExpr` consumes, so it is restored on failure |
| Grammar.MatchDot | lexerParser.cpp:191-197 | yields the node of `Dot` and advances the view by what `Dot` consumes |
| Grammar.MatchPossiblyEscapedChar | lexerParser.cpp:215-222 | yields the node of `EscapedChar` and advances the view by what `EscapedChar` consumes |
| Grammar.MatchAtom | lexerParser.cpp:232-234 | yields the node of `Atom` and advances the view by what `Atom` consumes |
| Grammar.MatchAndAddExprWithPossiblePostfix | lexerParser.cpp:225-241 | yields the node of `WithPostfix` and advances the view by what `WithPostfix` consumes |
| Grammar.MatchAndAddPossiblyAndedExpr | lexerParser.cpp:244-255 | yields the node of `Anded` and advances the view by what `Anded` consumes |
| Grammar.MatchAndAddPossiblyOrredExpr | lexerParser.cpp:258-274 | yields the node of `Orred` and advances the view by what `Orred` consumes; the view is restored to before the bar when no right operand follows |
| GrammarProperties.PossiblyEscapedCharCases | lexerParser.cpp:215-222 | a plain character is `CHAR[c, c+1)` after one character; `\x` is the leaf of `MaybeEscape(x)` after two; a metacharacter or the end consumes nothing; a lone `\` or a NUL fails after consuming |
| GrammarProperties.AtomFailure | lexerParser.cpp:232-234 | on a C string, a failing atom consumes nothing and faces the end or a metacharacter, except on a lone `\`, which stays consumed |
| GrammarProperties.FailureLeavesInputUntouched | lexerParser.cpp:178-185 | on a C string other than a lone `\`, atoms, postfix terms, concatenations and alternations that fail consume nothing |
| GrammarProperties.AtomFailsAsLiteral | lexerParser.cpp:232-234 | when an atom fails, the group and `.` have both failed without consuming, and the result is the literal's |
| GrammarProperties.PostfixAppliesOnce | lexerParser.cpp:236-238 | with the operator read correctly, a postfix term is its atom, wrapped in one node of the operator that follows it if any; at most one operator is consumed |
| GrammarProperties.ConcatenationNeedsFirstTerm | lexerParser.cpp:247-250 | a concatenation succeeds exactly when its first term does |
| GrammarProperties.AlternationNeedsLeftOperand | lexerParser.cpp:261-272 | an alternation succeeds only when its left concatenation does; when that fails, the alternation is that failure |
| GrammarProperties.LoneBackslashIsSwallowed | lexerParser.cpp:217-218 | the pattern `\` fails with one character consumed |
| GrammarProperties.ConcatenationStopsAtMetachar | lexerParser.cpp:244-255 | on a C string, what a concatenation leaves unconsumed is empty or starts with a metacharacter (bar, `*+?()`) |
| GrammarProperties.AlternationStopsAtMetachar | lexerParser.cpp:258-274 | on a C string, what an alternation leaves unconsumed is empty or starts with a metacharacter (bar, `*+?()`) |
| GrammarProperties.AlternationJoinsAtMostOnce | lexerParser.cpp:258-274 | an alternation either is its left concatenation with nothing more consumed, or one `OR` of that concatenation and the one after a single bar |
| GrammarProperties.StopperParsesNothing | lexerParser.cpp:217 | the end of input, or a metacharacter other than `(`, starts no term and no concatenation, and nothing is consumed |
| GrammarProperties.PlainAtom | lexerParser.cpp:232-234 | a character that is not a metacharacter, `\` or NUL is an atom on its own: its leaf, after one character |
| GrammarProperties.PlainTerm | lexerParser.cpp:232-238 | a plain character not followed by a postfix operator is one leaf, consuming one character |
| GrammarProperties.PostfixTerm | lexerParser.cpp:236-238 | with the operator read correctly, a plain character followed by a postfix operator is that operator's node over the leaf, consuming two characters |
| GrammarProperties.ConcatenationOf | lexerParser.cpp:247-254 | a concatenation is its first term, joined by `AND` to the rest when the rest parses; a failed rest is not restored |
| GrammarProperties.AlternationOf | lexerParser.cpp:261-273 | given the left concatenation, the alternation is the `OR` with the concatenation after a following bar when that parses, and otherwise the left one with the view just before the bar |
| GrammarProperties.PlainRunIsAndChain | lexerParser.cpp:244-255 | a run of characters that are not metacharacters (bar, `*+?()`), `\` or NUL, followed by the end, a bar or `)`, is consumed entirely as the right-nested `AND` chain of its leaves |
| GrammarProperties.AndChainLeaves | lexerParser.cpp:252 | that `AND` chain has one leaf per character, in input order |
| GrammarProperties.PlainPatternParses | lexerParser.cpp:258-274 | a whole pattern of such characters parses entirely as that chain |
| GrammarProperties.WholeConcatenationIsWholeParse | lexerParser.cpp:265-273 | a concatenation that takes the whole input is the alternation's result |
| GrammarProperties.WholeAtomIsWholeParse | lexerParser.cpp:236-250 | an atom that takes the whole input is the whole parse |
| GrammarProperties.PlainRunBeforeParen | lexerParser.cpp:258-274 | a plain run followed by `)` parses as its chain and stops at the `)` |
| GrammarProperties.GroupAround | lexerParser.cpp:181-183 | `(`, an alternation that parses, and a `)` right after it form an atom holding that alternation's tree |
| GrammarProperties.GroupedPlainRun | lexerParser.cpp:175-188 | `(` + a plain run + `)` is an atom holding the run's chain, consuming all of it |
| GrammarProperties.GroupIsTransparent | lexerParser.cpp:181-183 | parentheses around a plain run leave its tree unchanged |
| GrammarProperties.LeadingParenthesisNeedsGroup | lexerParser.cpp:181-188 | a pattern that starts with `(` but is not a group does not parse and consumes nothing |
| Examples.SingleLiteral | lexerParser.cpp:219 | `a` is `CHAR[a, a+1)` |
| Examples.SingleDot | lexerParser.cpp:194 | `.` is `CHAR[0, 127)` |
| Examples.PostfixPattern | lexerParser.cpp:236-238 | with the operator read correctly, a plain character and an operator form the operator's node over the leaf |
| Examples.ZeroOrMore | lexerParser.cpp:238 | with the operator read correctly, `a*` is `MANY(a)` |
| Examples.OneOrMore | lexerParser.cpp:238 | `a+` is `NONZERO(a)` |
| Examples.Optional | lexerParser.cpp:238 | with the operator read correctly, `a?` is `OPT(a)` |
| Examples.DoubledPostfixStops | lexerParser.cpp:236-238 | with the operator read correctly, `a**` is `MANY(a)`, and the second `*` is left unconsumed |
| Examples.GroupedLiteral | lexerParser.cpp:175-188 | `(a)` is the same leaf as `a` |
| Examples.LeftOperandA | lexerParser.cpp:244-255 | `a` before a bar is the concatenation `a` and stops at the bar |
| Examples.TwoAlternatives | lexerParser.cpp:258-274 | `a`, a bar and `b` make `OR(a, b)` |
| Examples.ThreeAlternativesStopAtSecondBar | lexerParser.cpp:258-274 | `a`, bar, `b`, bar, `c` is `OR(a, b)`, and the second bar and `c` are left unconsumed |
| Examples.InnerAlternationStopsAtSecondBar | lexerParser.cpp:258-274 | inside the group of `a`, bar, `b`, bar, `c`, the alternation stops before the second bar, after three characters |
| Examples.GroupedThreeAlternativesFail | lexerParser.cpp:175-188 | the group of `a`, bar, `b`, bar, `c` does not parse and consumes nothing |
| Examples.UnbalancedParenthesis | lexerParser.cpp:175-188 | `(` alone does not parse and consumes nothing |
| Examples.EscapedNewline | lexerParser.cpp:218-219 | `\n` is the leaf for character 10 |
| Examples.TrailingBackslashSwallowed | lexerParser.cpp:217-219 | `a\` is `a`, with both characters consumed |
| Examples.TopCharacterRangeWraps | lexerParser.cpp:219 | character 127 is the leaf `[127, -128)` |
| Examples.PostfixMisreadAsWritten | lexerParser.cpp:72 | as written, `?b` after an atom yields `b`, which selects `MANY`; a trailing `*` or `?` reads out of range; `+` is read back correctly |
| Examples.OptionalThenLiteralAsWritten | lexerParser.cpp:72 | as written, the term `a?b` is `MANY(a)` after two characters, where the corrected read gives `OPT(a)` |
| Examples.ZeroOrMoreAsWritten | lexerParser.cpp:72 | as written, `a*` reads past the end of the view |
| Examples.OptionalAsWritten | lexerParser.cpp:72 | as written, `a?` reads past the end of the view |
| Examples.OneOrMoreAsWritten | lexerParser.cpp:72 | as written, `a+` is still `NONZERO(a)` |
| Examples.DefaultPatternTermAsWritten | lexerParser.cpp:297 | as written, the term `f?` of the default pattern, followed by a bar, `g` and `)`, is `MANY(f)` |
| Examples.OptionalThenLiteral | lexerParser.cpp:236-252 | with the operator read correctly, `a?b` is `AND(OPT(a), b)` |
| Examples.LeadingBarAsWrittenIsUndefined | lexerParser.cpp:267-269 | on a bar followed by `a`, the left operand is missing and the right one present, so the join as written is undefined; the model yields no node and consumes nothing |
| Examples.LoneBarAsWrittenIsDefined | lexerParser.cpp:267-273 | on a bar alone both operands are missing, so no `OR` is built as written either; the alternation fails with nothing consumed |
| Examples.GroupedLeadingBarAsWrittenIsUndefined | lexerParser.cpp:267-269 | inside the group of a bar, `a` and `)`, the left operand is missing and the right one present, so the join as written is undefined; the model fails the whole pattern with nothing consumed |

## Left out

- `RegexParserNode::printf` (lexerParser.cpp:131-149) is not modelled. It is console output with no parsing logic.
- `test` and `main` (lexerParser.cpp:276-300) are not modelled. They are a command-line driver and print the tree.
- The `tag` and `symbol` columns of `typeSpecs` are not modelled. They are used only for printing. The `nSubNodes` column is `Syntax.NumSubNodes`.
- Deleted constructors, `std::move` and `constexpr` are not modelled. They concern ownership and compile-time evaluation, not behaviour.
- The cursor holds the rest of the input as a sequence of `char` values. A C string never contains NUL. The model allows NUL and gives its behaviour: it fails after consuming. The lemmas that need it take `NoNul` as a precondition.
- The `std::string_view&` aliasing between a `Matching` and its caller's view is not modelled. The class owns its view.
- `Grammar.Orred`: where the source dereferences an empty left operand (undefined behaviour), the model yields no node and restores the view to before the bar. `Grammar.OrJoinAsWritten` records the undefined case.
- `Grammar.WithPostfix`: it reads the operator with the corrected `Cursor.AnyCharIn`. The as-written read is modelled for a single postfix term (`Grammar.WithPostfixAsWritten`). It is not carried through concatenation and alternation, so the whole-pattern results (`Grammar.Anded`, `Grammar.Orred` and the lemmas about them) are those of the corrected parser.

## Findings

| source | as written | input that shows it | evidently intended | confidence | as-written member | corrected member |
|---|---|---|---|---|---|---|
| lexerParser.cpp:72 | `matchAnyCharIn` yields `ref[pos]`, with `pos` the position in the filter | `a?b` is `MANY(a)`; `a*` and `a?` read past the view (`Examples.OptionalThenLiteralAsWritten`, `Examples.ZeroOrMoreAsWritten`) | yield the consumed front character | high, not executed | Grammar.WithPostfixAsWritten | Cursor.AnyCharIn |
| lexerParser.cpp:269 | the `OR` node is built from `*lhs` even when `lhs` is empty | a bar followed by `a`, alone or inside a group (`Examples.GroupedLeadingBarAsWrittenIsUndefined`) | fail and restore the view, as for a missing right operand | high, not executed | Examples.LeadingBarAsWrittenIsUndefined | Grammar.Orred |

# Rule engine model

A Dafny model of the rule-expression engine of a small rule service
(`utils/ast_utils.py`). Clients write boolean business rules as strings such
as `age > 30 AND status = 'active'`. The engine turns them into trees,
combines stored trees with one logical operator, evaluates a tree against a
key/value record, and serialises a tree to a nested record.

The model has one module per part of the engine:

- `Tokenizer` (`tokenizer.dfy`): `tokenize`. It is a scanner that tries the
  regex alternatives `(`, `)`, `AND`, `OR`, `[^()\s]+` in that order and
  skips whitespace.
- `Parser` (`parser.dfy`): `parse_rule_string`, `parse_expression`,
  `parse_term` and `parse_condition`. The list Python pops from the front is
  the suffix `toks[pos..]` of an immutable sequence. Python's `IndexError`
  on an exhausted list is `Failure(TokensExhausted)`. Python's `None` tree
  for an empty list is `Success(None)`.
- `ParserProperties` (`parser_properties.dfy`): what the grammar means.
  - Parsing never reads tokens outside the ones it consumes, plus one lookahead.
  - Flat rules fold strictly left to right. `FoldLeft` is the reference definition.
  - A group that covers a leading part of a flat rule changes nothing.
  - A group anywhere else becomes one operand, so it can change the tree:
    `a = 1 AND ( b = 2 OR c = 3 )` is `AND(a, OR(b, c))`, while the bare
    rule is `OR(AND(a, b), c)`.
  - Trailing tokens are ignored.
- `Combinator` (`combinator.dfy`): `combine_nodes`. An empty list is `Failure(EmptyInput)`.
- `Evaluator` (`evaluator.dfy`): `evaluate`. Its outcome has three values.
  `Truth(b)` is a boolean. `Fallthrough` is Python's implicit `None` for an
  unknown comparator or operator. A raised `ValueError` is a `Failure`.
  `AND`/`OR` follow Python's `and`/`or`: they short-circuit and return the
  operand that decided.
- `Serializer` (`serializer.dfy`): `node_to_dict`, plus its inverse `FromRecord`.
- `Text` and `Numbers`: the Python string behaviour the engine relies on.
  - the whitespace class shared by `\s`, `str.split()` and `float()`
  - `str.split()`
  - `str.strip("'")`
  - `str()` of an integer
  - `float()` on integer spellings
- `RuleExamples` (`examples.dfy`): whole-pipeline facts, from the rule
  string to its tree, its verdicts and its record.

Some behaviour of the code is easy to misread; the model keeps it as written:

- An unknown comparator or operator yields `None` (`Fallthrough`). It is not an error.
- `combine_nodes` does not check its operator.
- `=` strips every leading and trailing `'`, not one layer of quotes.
- A missing key is `false` before the comparator is looked at, even for `>`/`<`.
- A missing `)` is tolerated when another token follows. It fails (`IndexError`)
  when the token list ends at that check.

## Model

| member | source | states |
|---|---|---|
| Tokenizer.Tokenize | utils/ast_utils.py:12-13 | every token is `(`, `)` or a non-empty run with no whitespace and no parenthesis (`AND`/`OR` included) |
| Tokenizer.TokensAreFields | utils/ast_utils.py:12-13 | no token is empty or contains whitespace |
| Tokenizer.TokenizeConcat | utils/ast_utils.py:12-13 | the tokens, concatenated in order, are the input with its whitespace removed |
| Tokenizer.TokenizeBlank | utils/ast_utils.py:12-13 | the token list is empty exactly when the input is blank |
| Tokenizer.KeywordPrefix | utils/ast_utils.py:13 | `AND` and `OR` are split off as prefixes of whatever follows them |
| Tokenizer.OrderIsSplit | utils/ast_utils.py:13 | `ORDER` tokenizes to `OR`, `DER` |
| Tokenizer.PlainWordIsLexeme | utils/ast_utils.py:13 | a word whose first letter is not `A` or `O` cannot start with a keyword |
| Tokenizer.LexemeThen | utils/ast_utils.py:13 | a lexeme followed by whitespace is exactly one token |
| Tokenizer.TokenizeUnwords | utils/ast_utils.py:12-13 | lexemes joined by single spaces tokenize back to the same lexemes |
| Text.Split | utils/ast_utils.py:61 | `str.split()` returns only non-empty, whitespace-free fields |
| Text.SplitConcat | utils/ast_utils.py:61 | the fields, concatenated, are the text without its whitespace |
| Text.SplitUnwords | utils/ast_utils.py:61 | splitting fields joined by spaces gives the fields back |
| Text.StripBounds | utils/ast_utils.py:65 | `strip("'")` removes every `'` at either end and nothing else; what is left neither starts nor ends with `'`; it is empty exactly when the text is all quotes |
| Text.StripQuotesQuoted | utils/ast_utils.py:65 | a word in one layer of quotes strips to the bare word |
| Numbers.ParseDecimalText | utils/ast_utils.py:65-69 | `float()` of the text `str()` prints for an integer gives that integer back |
| Numbers.DecimalTextInjective | utils/ast_utils.py:65 | two integers print the same text exactly when they are equal |
| Ast.SplitCondText | utils/ast_utils.py:50-61 | splitting the condition text the parser builds from three whitespace-free tokens gives exactly those tokens |
| Parser.ParseCondition | utils/ast_utils.py:46-50 | succeeds exactly when three tokens remain; consumes exactly three; the leaf's text splits back into those three tokens |
| Parser.ParseTerm | utils/ast_utils.py:35-43 | on success consumes at least one token; the tree is well formed when the tokens have no whitespace |
| Parser.ParseTail | utils/ast_utils.py:27-30 | the loop never moves backwards; it stops at the end of the tokens or at the first token that is not `AND`/`OR` |
| Parser.ParseExpression | utils/ast_utils.py:21-32 | no tree exactly when no token is left; otherwise consumes tokens and stops only at the end or before a non-connective; the tree is well formed |
| Parser.ParseTokens | utils/ast_utils.py:21-23 | `None` exactly for an empty token list |
| Parser.ParseRuleString | utils/ast_utils.py:16-18 | `None` exactly for blank input; every tree it returns splits into three parts at every condition |
| ParserProperties.FrameTerm | utils/ast_utils.py:35-50 | a term parses the same whatever tokens come before or after it |
| ParserProperties.FrameTail | utils/ast_utils.py:27-30 | the operator loop parses the same with extra tokens around it, provided the token after it is not a connective |
| ParserProperties.FrameExpression | utils/ast_utils.py:21-32 | an expression parses the same with extra tokens around it, provided the token after it is not a connective |
| ParserProperties.TrailingTokensIgnored | utils/ast_utils.py:27-32 | tokens after a complete expression are silently ignored when the first of them is not a connective |
| ParserProperties.ParenthesesAreTransparent | utils/ast_utils.py:36-41 | `(E)` parses to the same tree as `E` |
| ParserProperties.GroupTerm | utils/ast_utils.py:36-41 | after `(` and the inner expression, a `)` is consumed when it is the next token and left alone otherwise; with no token left the lookup fails |
| ParserProperties.GroupIsTerm | utils/ast_utils.py:36-41 | `( E )` is a single term carrying E's tree |
| ParserProperties.UnclosedParenthesis | utils/ast_utils.py:39-40 | `( E` at the end of the input fails; `( E x` with `x` not `)` gives E's tree |
| ParserProperties.ShortConditionFails | utils/ast_utils.py:46-49 | one or two tokens that do not open a group fail |
| ParserProperties.FoldLeftSplit | utils/ast_utils.py:27-30 | folding a prefix and then the rest is folding the whole |
| ParserProperties.FlatTail | utils/ast_utils.py:27-30 | the operator loop over `op clause op clause ...` builds the left fold |
| ParserProperties.FlatExpression | utils/ast_utils.py:21-32 | a flat rule followed by a non-connective parses to its left fold and stops before that token |
| ParserProperties.FlatRuleFoldsLeft | utils/ast_utils.py:21-32 | a flat rule parses to its left fold, with no precedence between `AND` and `OR` |
| ParserProperties.ParenthesisedPrefix | utils/ast_utils.py:21-41 | parenthesising any leading part of a flat rule gives the same tree as the bare rule |
| ParserProperties.GroupIsOneOperand | utils/ast_utils.py:27-41 | a group after a connective is one operand: `a AND ( b OR c )` parses to `AND(a, OR(b, c))`, unlike the same rule without parentheses |
| ParserProperties.AndThenOrExample | utils/ast_utils.py:27-30 | `A AND B OR C` and `(A AND B) OR C` both parse to `OR(AND(A, B), C)` |
| Combinator.Combine | utils/ast_utils.py:53-56 | fails exactly on an empty list; one tree comes back unchanged; the leaves are the inputs' leaves in order; exactly n-1 operator nodes are added |
| Combinator.UnchainCombine | utils/ast_utils.py:53-56 | the result is the right-leaning chain `op(t0, op(t1, ...))` with every input tree in place and in order |
| Combinator.CombineWellFormed | utils/ast_utils.py:53-61 | combining trees whose conditions all split into three parts gives such a tree, so a combined rule never fails to unpack a condition |
| Evaluator.Evaluate | utils/ast_utils.py:59-76 | `None` only when the tree holds an unknown comparator or operator; an unpack error only when a condition text does not have three parts |
| Evaluator.AbsentKeyIsFalse | utils/ast_utils.py:61-63 | a key missing from the data makes the condition false, whatever the comparator |
| Evaluator.EqualityStripsQuotes | utils/ast_utils.py:64-65 | for any literal, `key = lit` holds exactly when the value's string form equals the literal with every leading and trailing `'` removed |
| Evaluator.QuotedEquality | utils/ast_utils.py:64-65 | `key = 'w'` holds exactly when the value's string form is `w` |
| Evaluator.NumericComparison | utils/ast_utils.py:64-69 | `=`, `>` and `<` compare an integer value with a decimal literal as numbers; for `>`/`<` a numeric string value compares the same way |
| Evaluator.NonNumericLiteralFails | utils/ast_utils.py:66-69 | `>`/`<` with a non-numeric literal raises instead of answering |
| Evaluator.UnknownComparatorFallsThrough | utils/ast_utils.py:64-70 | an unknown comparator on a present key yields `None`, not a boolean |
| Evaluator.AndShortCircuits | utils/ast_utils.py:72-73 | `AND` returns the left outcome unless it is `True`, and only then the right one |
| Evaluator.OrShortCircuits | utils/ast_utils.py:74-75 | `OR` returns `True` when the left side is `True`, otherwise the right outcome (so `None or X` is `X`) |
| Evaluator.UnknownOperatorFallsThrough | utils/ast_utils.py:71-76 | an unknown operator yields `None` without looking at either subtree |
| Evaluator.CombinedStopsAtFirstSettled | utils/ast_utils.py:53-76 | a combined rule answers with the first tree that settles it; later trees are never consulted and may even fail |
| Evaluator.CombineAndIsConjunction | utils/ast_utils.py:53-76 | when every tree is boolean, the `AND` combination is their conjunction |
| Evaluator.CombineOrIsDisjunction | utils/ast_utils.py:53-76 | when every tree is boolean, the `OR` combination is their disjunction |
| Serializer.NodeToDict | utils/ast_utils.py:95-97 | `None` maps to `None` and a tree to a record |
| Serializer.RecordRoundTrip | utils/ast_utils.py:95-103 | reading a record back gives the tree that was serialised |
| Serializer.RecordInverse | utils/ast_utils.py:95-103 | a record that reads back as a tree is exactly that tree's serialisation |
| Serializer.RecordSizeIsSize | utils/ast_utils.py:95-103 | the record has exactly one entry per node |
| Serializer.NodeToDictStable | utils/ast_utils.py:95-103 | serialising again after reading back gives the same record |
| RuleExamples.SingleConditionRule | utils/ast_utils.py:16-50 | `"K OP V"` parses to one leaf with that text, serialised as `{condition, "K OP V", None, None}` |
| RuleExamples.AgeRuleParses | utils/ast_utils.py:12-50 | `age > 30 AND status = 'active'` parses to `AND(age > 30, status = 'active')` |
| RuleExamples.AgeRuleAccepts | utils/ast_utils.py:59-73 | that rule is true for `{age: 45, status: "active"}` |
| RuleExamples.AgeRuleRejectsYoung | utils/ast_utils.py:59-73 | it is false for `{age: 20, status: "active"}` |
| RuleExamples.AgeRuleMissingKey | utils/ast_utils.py:59-73 | it is false, not an error, for `{status: "active"}` |

## Left out

- `print_tree` (utils/ast_utils.py:78-92) writes a diagram to standard output for diagnostics only. It has no result to state anything about.
- `main.py` is left out: Flask routes, persistence, duplicate-name conflicts, random rule names, logging and HTTP status codes are host plumbing. So is `static/js/main.js`, which is user interface and network code.
- Numbers.ParseNumber: `float()` is modelled on integer spellings only: an optional sign, ASCII digits, surrounding whitespace. Python also accepts fractions, exponents, `inf`/`nan`, underscores and non-ASCII digits, and it rounds large integers to binary floating point. The model treats such text as not numeric and compares whole numbers exactly.
- Evaluator.Evaluate: data values are JSON strings, integers, booleans and `null`. JSON floats, lists and objects are not modelled.
- Deep trees that would exceed Python's recursion limit are not modelled. Every function here terminates on every input.
- A `Node` whose `type` is neither `condition` nor `operator` is never built by the engine. The datatype does not represent it, so `evaluate`'s silent fall-through for such a node is not modelled.
- Combinator.Combine: the operator is modelled as a string. `combine_nodes` stores whatever the host passes, and `main.py` passes `data.get('op')`, which is `None` or a number when a request omits or mistypes `op`. Such a tree serialises with `'value': None`, or a number, and evaluates to `None` like an unknown string operator; an operator that is not a string is not modelled.
- Combinator.Combine takes present trees only. A stored absent tree (from a whitespace-only rule) inside the list to combine is not modelled.
- The parser's two `IndexError` messages (`pop from empty list`, `list index out of range`) are one error value, `TokensExhausted`.

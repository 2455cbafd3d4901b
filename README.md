# Propositional-logic toolkit in Dafny

This project models the core of a small propositional-logic toolkit and proves properties of that model. The toolkit has four parts:

- A character cursor (`Reader`) with an end-of-input error and a syntax error. Each error records a position.
- A recursive-descent parser over the cursor. It reads formulas such as `a and not (b -> c)`, and it reads atom-value strings such as `a !b`.
- The formula tree. It can evaluate a formula against an assignment, list the formula's atom names (`resolve`) and print the formula fully parenthesised (`__str__`).
- The truth-table builder of the command-line tool, together with its tautology/contradiction decision.

## Modules

- `Results` (`results.dfy`): the `Result`, `Outcome` and `Option` wrappers. Raised exceptions become `Err` / `Fail` values.
- `Reader` (`reader.dfy`): the class `Reader`, with a mutable `offset` and the error constructors.
- `SyntaxTree` (`syntax_tree.dfy`): the `Formula` datatype, plus `Eval`, `Atoms` and `Show`. `Eval` is checked against a classical reference semantics, `Holds`.
- `Grammar` (`grammar.dfy`): the keyword tables, the names the parser accepts (`LiteralName`, `ValidName`, `WellNamed`), and one function per parser routine.
  - Each function maps the text and a start offset to a `Step`: the result or error, together with the offset where the reader stops.
  - The operator fold is here as well.
- `Parser` (`parser.dfy`): the class `Parser` over a `Reader`. Every method is written as loops and calls, as in the source. Its contract says it returns, raises and moves the reader exactly as its `Grammar` function does.
- `Precedence` (`precedence.dfy`): an independent reference reading of an operator chain, with five precedence levels and left associativity. The proof that the tier-by-tier fold computes it is here.
- `RoundTrip` (`roundtrip.dfy`): printing a formula and parsing the text back gives the same formula. This module also holds the parser's quirks as lemmas: trailing text is ignored, the unknown-operator position, `&!` being one word, and `~`.
- `AtomStrings` (`atom_strings.dfy`): what atom-value strings mean. An `Entry` is a bare name, or a NOT word, spaces and a name. The entries, joined by spaces, parse to the map that stores them in order.
- `ParseErrors` (`errors.dfy`): the syntax errors a code word raises where a formula or an atom is expected, for every input of the stated shape. A code word is a maximal run of characters that are not spaces, letters, digits or parentheses.
  - `⊤` and `⊥` are listed among the truth words, but they are code characters. The code-word check comes first, so neither one is ever read as a constant; `TopBottomRefused` states this.
- `TruthTable` (`truth_table.dfy`): `create_truth_table` and the `is-tautology` decision, both as methods with loops.

## Model

| member | source | states |
|---|---|---|
| Reader.Reader.constructor | logic_solver/reader.py:14-16 | A new reader is at offset 0 over the given text. |
| Reader.Reader.Forward | logic_solver/reader.py:19-23 | If the target is within the text, the offset becomes `old + n` and nothing is raised. Past the end, the offset is clamped to `len(data)` first, and then the end-of-input error is raised at position `len(data)`. `0 <= offset <= len(data)` is kept. |
| Reader.Reader.Back | logic_solver/reader.py:26-27 | `back(n)` is `forward(-n)`. With `0 <= n <= offset` it lands exactly `n` earlier and never raises. |
| Reader.Reader.IsEof | logic_solver/reader.py:30-35 | Answers true exactly when `offset >= len(data)`, and then leaves the offset at `len(data)`. Otherwise the offset is unchanged. |
| Reader.Reader.Read | logic_solver/reader.py:38-41 | Returns `data[offset]` without moving. At the end it raises the end-of-input error at the current offset. |
| Reader.Reader.EofError | logic_solver/reader.py:43-44 | The end-of-input error carries the raw offset. |
| Reader.Reader.SyntaxError | logic_solver/reader.py:46-47 | A syntax error carries its message and the 1-based position `offset + 1`. |
| SyntaxTree.Eval | logic_solver/syntax_tree.py:66-70 | A raised `KeyError` always names an atom of the formula that the assignment lacks. |
| SyntaxTree.EvalMatchesHolds | logic_solver/syntax_tree.py:26-123 | When the assignment defines every atom of the formula, evaluation never raises. It then returns the classical truth value: conjunction is "all", disjunction is "some", implication, equivalence as `==`, exclusive disjunction as `!=`, negation, constants, atoms. |
| SyntaxTree.EvalDependsOnlyOnAtoms | logic_solver/syntax_tree.py:15-20 | Two assignments that agree on the atoms `resolve` returns give the same result, including the same error. |
| SyntaxTree.Atoms | logic_solver/syntax_tree.py:15-73 | `resolve` collects the children's atoms; a constant has none and an atom is its own name. Two assignments that agree on these names give the same classical truth value. |
| SyntaxTree.Show | logic_solver/syntax_tree.py:22-123 | `__str__` puts every operand in parentheses. When no atom name holds a parenthesis, the printed text has as many `)` as `(`. Its inverse is `RoundTrip.PropositionOfShow`. |
| SyntaxTree.ShortCircuit | logic_solver/syntax_tree.py:26-45 | Conjunction stops at a false left child and disjunction at a true one. The right child is then not evaluated, so its atoms may be missing. |
| SyntaxTree.StrictConnectives | logic_solver/syntax_tree.py:79-109 | Implication is false exactly when the left side is true and the right side false. Exclusive disjunction raises exactly when equivalence does, and otherwise it is the negation of equivalence. |
| Grammar.RunEnd | logic_solver/parser.py:51-57 | A scan stops at the end of the text or at the first character outside the class. |
| Grammar.RunEndClass | logic_solver/parser.py:51-57 | Every character the scan passes over is in the class. Together with `RunEnd`, the run is maximal. |
| Grammar.WellNamedAtoms | logic_solver/parser.py:158-171 | A formula is well named exactly when every atom `resolve` returns is a name the parser reads as an atom: letters and digits, a letter first, and neither a NOT word nor a truth constant. |
| Grammar.Operator | logic_solver/parser.py:39-43 | The dictionary lookup. `Some(k)` is returned only for a word in the table of `k`, and `None` exactly when no table lists the word. |
| Grammar.OperatorOfSynonym | logic_solver/parser.py:21-43 | Every listed word maps to its own operator, so the order in which the table builds the dictionary does not matter. |
| Grammar.SynonymsApart | logic_solver/parser.py:21-30 | No word is listed for two operators. |
| Grammar.LowerChars | logic_solver/parser.py:116-119 | Lower-casing works character by character: ASCII capitals become small letters and every other character is kept. |
| Grammar.RunAt | logic_solver/parser.py:71-94 | `word_text` / `word_code` stop at the end of the maximal run. The scan fails exactly when that run is empty, and it then raises the end-of-input error at the start. A success returns exactly the text consumed, all of the class. |
| Grammar.WordAt | logic_solver/parser.py:59-69 | `word` fails exactly when only spaces come before the end or a parenthesis, and then raises the end-of-input error after the spaces. On success the word starts at the end of the spaces. `is_text` is the class of its first character, the word is the maximal run of that class, and `length` is spaces plus word. |
| Grammar.FoldTier | logic_solver/parser.py:126-138 | One tier keeps `len(expression) == len(operators) + 1`. It removes exactly the operators of that tier and keeps the others in order. |
| Grammar.FoldTiers | logic_solver/parser.py:124-139 | After the tiers, the invariant still holds, and the operators left are exactly those of kinds not in the tiers. |
| Grammar.FoldLeavesOne | logic_solver/parser.py:124-140 | After all five tiers no operator is left, and a single operand remains to be returned as `expression[0]`. |
| Grammar.Resolve | logic_solver/parser.py:124-140 | The folded formula has exactly the atoms of the operands in the chain. |
| Grammar.OrderHasAll | logic_solver/parser.py:31-37 | Every connective has a tier in the fold order. |
| Grammar.FormulaAt | logic_solver/parser.py:150-174 | `formula` never moves the reader before its start. A successful parse consumes at least one character and returns a well-named formula. |
| Grammar.WordFormulaAt | logic_solver/parser.py:158-174 | The same, for a formula that starts with a word: a NOT word, a truth constant, or an atom whose name passes `assert_literal`. |
| Grammar.ExpressionAt | logic_solver/parser.py:96-140 | The same, for `expression`. |
| Grammar.TailAt | logic_solver/parser.py:103-122 | The operator loop never moves back. When the operands collected so far are well named, so is the result. |
| Grammar.OperatorTailAt | logic_solver/parser.py:111-122 | The same, for one round of the loop. |
| Grammar.Proposition | logic_solver/parser.py:221-222 | Whatever `parse_logic_proposition` returns is well named, so `RoundTrip.PropositionOfShow` applies to it. |
| Grammar.AtomAt | logic_solver/parser.py:176-197 | `atom` never moves back. A success consumes input and returns a name that passes `assert_literal`. |
| Grammar.NegatedAtomAt | logic_solver/parser.py:180-188 | The same, for the name after a NOT word, whose value is false. |
| Grammar.AtomValuesFrom | logic_solver/parser.py:203-214 | The loop of `atom_values` stays within the text, and a success reads to the end. The map keeps every name it started with, and each name it adds passes `assert_literal`. |
| Grammar.AtomValues | logic_solver/parser.py:199-218 | Every key of the map `parse_atom_values` returns passes `assert_literal`. |
| Grammar.TailCloses | logic_solver/parser.py:104-109 | `)` or the end of the text, after spaces, ends the operator loop, and the collected chain is folded. |
| Grammar.TailWordEnds | logic_solver/parser.py:107-113 | A word scan that raises the end-of-input error in operator position also ends the expression without an error. Past the spaces, with the end of the text and `)` handled by `TailCloses`, that happens only at `(`. |
| Grammar.TailUnknown | logic_solver/parser.py:115-117 | A word that names no operator is a syntax error. It is reported one past the end of the word, without moving back. |
| Parser.ResolveOperators | logic_solver/parser.py:124-140 | The in-place fold (`del` inside `while offset < len(operators)`, once per tier) returns the `Resolve` of the chain. |
| Parser.Parser.constructor | logic_solver/parser.py:47-48 | The parser works on the given reader. |
| Parser.Parser.Spaces | logic_solver/parser.py:51-57 | Moves to the end of the maximal run of `" \t\n\r"` and returns exactly the text it passed. |
| Parser.Parser.WordText | logic_solver/parser.py:85-94 | Returns and consumes what `RunAt` gives for letters and digits, raising at an empty run. |
| Parser.Parser.WordCode | logic_solver/parser.py:71-83 | Returns and consumes what `RunAt` gives for code characters, raising at an empty run. |
| Parser.Parser.Word | logic_solver/parser.py:59-69 | Returns, raises and moves as `WordAt` says. |
| Parser.Parser.Expression | logic_solver/parser.py:96-140 | Returns, raises and moves as `ExpressionAt` says. |
| Parser.Parser.AssertLiteral | logic_solver/parser.py:142-148 | A word starting with a letter passes and does not move. Otherwise the reader moves back `length` characters and the syntax error is raised there. |
| Parser.Parser.Formula | logic_solver/parser.py:150-174 | Returns, raises and moves as `FormulaAt` says. |
| Parser.Parser.Atom | logic_solver/parser.py:176-197 | Returns, raises and moves as `AtomAt` says. |
| Parser.Parser.AtomValues | logic_solver/parser.py:199-214 | Returns, raises and moves as `AtomValuesFrom` says, after the leading spaces. |
| Parser.ParseLogicProposition | logic_solver/parser.py:221-222 | Equals `Proposition`: one expression from offset 0. |
| Parser.ParseAtomValues | logic_solver/parser.py:217-218 | Equals `AtomValues` over the whole text. |
| Precedence.OrderByPrec | logic_solver/parser.py:31-37 | The fold order lists the connectives from tightest to loosest: conjunction, disjunction, exclusive disjunction, implication, equivalence. |
| Precedence.TierFold | logic_solver/parser.py:127-138 | One tier read as a left-to-right recursion removes exactly that tier's operators. |
| Precedence.FoldTierIsTierFold | logic_solver/parser.py:126-138 | The in-place scan with its `offset` index equals the left-to-right recursion. |
| Precedence.ResolveIsGrouped | logic_solver/parser.py:124-140 | The fold computes the reference reading of the chain. The root is the last operator of the loosest kind, and each side is read the same way. |
| Precedence.ResolveAtLoosest | logic_solver/parser.py:124-140 | The fold's root is the last operator of the loosest kind present. Its two sides are the folds of the operands and operators on each side of it. |
| Precedence.LeftAssociative | logic_solver/parser.py:125-138 | Operators of one kind group to the left: `a k b k c` is `(a k b) k c`. |
| Precedence.TighterFirst | logic_solver/parser.py:124-140 | A tighter operator takes its operands first, whichever side of the looser operator it stands on. |
| RoundTrip.PropositionOfShow | logic_solver/syntax_tree.py:22-23 | Parsing the printed text of a formula gives the same formula back, so it also evaluates identically. This holds when its atom names are letters and digits, start with a letter, and are not NOT words or truth constants. |
| RoundTrip.ReparseShow | logic_solver/parser.py:221-222 | Printing any formula `parse_logic_proposition` returns and parsing the text again gives the same result. |
| RoundTrip.ShowThenParen | logic_solver/parser.py:103-113 | The top-level parse does not require all input to be consumed. A printed formula followed by `)`, or by `(` where an operator is expected (there `word` raises the end-of-input error), and then any text, parses to that formula. |
| RoundTrip.OperatorWordShow | logic_solver/parser.py:111-122 | Any code word whose lower-cased form names operator `k`, followed by a formula, adds `k` and that formula to the chain. |
| RoundTrip.UnknownOperatorAfter | logic_solver/parser.py:115-117 | After a parenthesised formula, a space and a maximal word that names no operator, parsing fails with "Unknown operator: w". The position is one past the end of the word. |
| RoundTrip.AdjacentSymbols | logic_solver/parser.py:71-83 | `&!` is one code word, so `(f) &!(g)` fails with "Unknown operator: &!" rather than reading a conjunction and a negation. |
| RoundTrip.TildeTwoWays | logic_solver/parser.py:20-29 | `~` is a NOT word in formula position, and it denotes equivalence in operator position. |
| RoundTrip.TildeNegation | logic_solver/parser.py:158-160 | `~(f)` parses to the negation of `f`. |
| RoundTrip.TildeEquivalence | logic_solver/parser.py:111-119 | `(f)~(g)` parses to the equivalence of `f` and `g`. |
| AtomStrings.AtomValuesOfEntries | logic_solver/parser.py:199-214 | Any valid entries joined by a non-empty run of spaces parse to the map that stores the entries in order. An entry is a name that is not a NOT word, or any NOT word, spaces and a name; a NOT word made of letters needs at least one space before the name. |
| AtomStrings.EntryAt | logic_solver/parser.py:176-197 | `atom` reads a valid entry followed by the end or a space as its name with its value: true for a bare name, false after a NOT word. |
| AtomStrings.ApplyKeys | logic_solver/parser.py:209-210 | Storing the entries adds exactly their names to the map. |
| AtomStrings.ApplyLastWins | logic_solver/parser.py:209-210 | Each name ends up with the value of its last entry. |
| AtomStrings.ApplyKeeps | logic_solver/parser.py:209-210 | A name no entry mentions keeps its old value. |
| AtomStrings.SpecialRefused | logic_solver/parser.py:204-207 | A parenthesis where the loop expects the next atom is the "special characters" error, reported at the parenthesis. This holds after any valid entries joined by spaces, or none, and then any spaces. |
| ParseErrors.CodeStartRefused | logic_solver/parser.py:150-174 | After any spaces, a maximal code word that is not a NOT word cannot start a formula. `parse_logic_proposition` raises "Invalid operator starting formula: w" at the word's first character. |
| ParseErrors.CodeAtomRefused | logic_solver/parser.py:189-193 | The same code word where the loop of `atom_values` expects the next atom raises "Invalid operator in atom values string: w" at the word. This holds after any valid entries and spaces. |
| ParseErrors.CodeAfterNot | logic_solver/parser.py:180-186 | A NOT word, spaces and then a code word `v` raise "After NOT operator there must be literal, not code word: v". `back(length)` undoes the spaces too, so the position is just after the NOT word. This holds after any valid entries and spaces. |
| ParseErrors.LoneCodeRefused | logic_solver/parser.py:173-193 | A text that is one such code word is refused both as a formula and as an atom-value string, at position 1. |
| ParseErrors.TopBottomRefused | logic_solver/parser.py:13-19 | `⊤` and `⊥` are in the truth-word lists but are code characters. As a formula each is the "Invalid operator starting formula" error at 1, and as an atom-value string the "Invalid operator in atom values string" error at 1. |
| TruthTable.AtomList | solve-logic-proposition.py:10 | `list(formula.resolve())` has no duplicates and has exactly the formula's atoms as elements. |
| TruthTable.RowKeys | solve-logic-proposition.py:14-17 | Every row assigns exactly the atoms. |
| TruthTable.RowPrefixBit | solve-logic-proposition.py:14-17 | In the row for state `s`, `atoms[i]` gets bit `i` of `s`, least significant bit first. |
| TruthTable.RowsDistinct | solve-logic-proposition.py:13-17 | Different states below `2^k` give different assignments. |
| TruthTable.RowsCover | solve-logic-proposition.py:13-17 | Every assignment of exactly the atoms is the row of some state below `2^k`. |
| TruthTable.CreateTruthTable | solve-logic-proposition.py:7-21 | There are `2^len(atoms)` rows in increasing state order. Bit `i` of the state goes to `atoms[i]`, and each row's result is the formula's value, which never raises there. |
| TruthTable.IsTautology | solve-logic-proposition.py:53-61 | The decision is true exactly when the formula has the value `not inverted` under every assignment of its atoms. That is a tautology, or with `inverted`, a contradiction. |

## Left out

- The command-line front end is not modelled: `argparse`, `input()`, `print_truth_table` and the `print` calls. These are console input and output.
- Raised exceptions are modelled as error values, and Python's exception classes are not. `ParseError`, `ParseEOFError` and `KeyError` carry their messages and positions.
- Reader.Reader.Forward: does not model a move to a negative offset (it requires `offset + n >= 0`). Python would then index the text from its end, and the parser never asks for such a move.
- Reader.Reader.Back: requires `n <= offset` for the same reason.
- N-ary child lists are not modelled. Connective nodes have exactly two children, and a negation has one, because that is all the parser builds.
- The abstract base class and the `Negation` constructor's `list()` / `TypeError` fallback are not modelled.
- Python's set iteration order is not modelled. `AtomList` picks the atoms in an unspecified order, and every property is proved for every such order.
- Lower-casing is ASCII-only. Full Unicode case folding is left out. It matters only for the keyword words, which lower-case as ASCII does.
- The keyword lists are modelled as sets, because the source only tests membership. The conjunction list contains the two-character word `∧∧`, as the source writes it.
- Python's recursion limit on deeply nested formulas is not modelled.
- AtomStrings.AtomValuesOfEntries: covers texts whose entries are separated by one fixed non-empty run of spaces, with no spaces before the first or after the last entry. Leading and trailing spaces are handled by the same `spaces` calls, but they are not part of this lemma.
- `formula` skips one character after a parenthesised expression without checking that it is `)`. The model keeps this, and no property depends on it.

# MyMiniLang semantic-collection pass, in Dafny

This project models the semantic pass of the MyMiniLang compiler (`MyMiniLangVisitor`).
The pass is one depth-first walk over the ANTLR parse tree. It fills three accumulators as it goes:

- **Token log.** Every terminal is logged as (symbolic kind, lexeme, line), except whitespace (`WS`), `LINE_COMMENT` and `BLOCK_COMMENT` tokens.
- **Global-variable table.** It maps a name to (type text, optional initializer text).
  - The first declaration of a name wins. A redeclaration is reported and leaves the table unchanged.
  - An `int` whose initializer text starts with `"` is reported, but is inserted anyway.
- **Function list.** Each declaration is recorded as (name, return type, ordered parameters).
  - A declaration is reported once per earlier entry with the same name and the same parameter types (`HasSameParameters`).
  - It is appended even when it is a duplicate, and only after its body has been visited.

The pass then renders each accumulator as report lines.

The parse tree is a closed datatype, `Visitor.Node`. Each declaration node carries the text the pass extracts from it, next to its children in source order. The walk is a pair of mutually recursive pure functions, `Visitor.Visit` and `Visitor.VisitAll`, that thread a `Visitor.State` record. Console messages become `Diagnostics.Diagnostic` values appended to `State.diags`. `Diagnostics.Message` gives their exact text. The dictionary is a map plus the sequence of its keys in insertion order. That sequence is the order in which the dictionary is enumerated for the report, because nothing is ever removed.

Each per-node operation is paired with a *reference definition* that reads what the walk should collect directly off the tree:

- `Terminals`: the tree's terminals, in document order.
- `GlobalDecls`: the global declarations, in document order.
- `FunctionsOf`: the function declarations, in post-order.

Lemmas in `VisitorProperties` connect the walk to these definitions for every tree and every starting state. `PassReports` carries the results through to the report lines.

Modules: `Wrappers` (Option), `Decimal` (rendering of `int` and its inverse), `Diagnostics`, `Tokens`, `Globals`, `Functions`, `Visitor`, `VisitorProperties`, `Reports`, `PassReports`, `Scenarios` (small concrete programs).

Notes on the code:

- **Text language.** The console messages and the function report are in Romanian (`Funcție:`, ` - Parametri:`).
- **Duplicate-function reports.** A declaration is reported once for each matching earlier entry, so a third copy of a signature draws two reports.
- **Syntax errors.** `Program.cs` runs the visitor even after the error listener has printed syntax errors. ANTLR hands error nodes to `VisitErrorNode`, not to `VisitTerminal`, so they are modelled as `ErrorLeaf` nodes and add no token. This covers only trees whose declaration nodes still have their name and type children; a recovered tree that lacks one makes the source abort (see "## Left out").
- **Repeated runs.** Nothing in the code guards against running the visitor twice. A second run is `Visit(p, Visit(p, Initial))`, and the walk lemmas, which hold for every start state, describe it. For `int x = 5; int f(int a)` the second run reports `x` as redeclared and `f` as a duplicate, and records `f` again (`Scenarios.SecondRunReportsAgain`). `Scenarios.SecondRunOfPair` states the same for any start state that already holds both declarations.
- **Type names.** Types are compared as text (`"int"`).

## Model

| member | source | states |
|---|---|---|
| Tokens.Record | MyMiniLangCompiler/MyMiniLangCompiler/MyMiniLangVisitor.cs:24-38 | visiting a terminal grows the log by exactly that token iff its kind is not WS, LINE_COMMENT or BLOCK_COMMENT; earlier entries are unchanged |
| VisitorProperties.VisitTokenLog | MyMiniLangCompiler/MyMiniLangCompiler/MyMiniLangVisitor.cs:24-38 | for any tree and start state, the log gains exactly the non-suppressed terminals of the tree, in document order, after what it held |
| VisitorProperties.TokenLogMembers | MyMiniLangCompiler/MyMiniLangCompiler/MyMiniLangVisitor.cs:31-35 | from an empty log, a token is logged iff it is a terminal of the tree and its kind is not suppressed |
| Globals.Declare | MyMiniLangCompiler/MyMiniLangCompiler/MyMiniLangVisitor.cs:53-67 | a present name leaves the table identical and yields exactly one redeclaration report; a fresh name is inserted last with its type and initializer, and is reported iff it is an int with an initializer starting with a double quote; other names keep their entries; the name is a key afterwards |
| Globals.TableSize | MyMiniLangCompiler/MyMiniLangCompiler/MyMiniLangVisitor.cs:16-17 | a well-formed table has as many entries as its insertion-order key list has names |
| VisitorProperties.VisitGlobalEntry | MyMiniLangCompiler/MyMiniLangCompiler/MyMiniLangVisitor.cs:53-67 | after any walk, each name's entry is its entry from before the walk if it had one, else its earliest declaration in document order (first writer wins across the whole tree) |
| VisitorProperties.GlobalKeySet | MyMiniLangCompiler/MyMiniLangCompiler/MyMiniLangVisitor.cs:53-67 | the table's names after a walk are the names before it plus every name the tree declares |
| VisitorProperties.GlobalTableSize | MyMiniLangCompiler/MyMiniLangCompiler/MyMiniLangVisitor.cs:53-67 | from an empty table, the table size equals the number of distinct global names declared |
| VisitorProperties.VisitGlobalKeys | MyMiniLangCompiler/MyMiniLangCompiler/MyMiniLangVisitor.cs:66 | the insertion order gains each newly declared name once, at its first declaration in document order |
| Functions.CompareParameters | MyMiniLangCompiler/MyMiniLangCompiler/MyMiniLangVisitor.cs:182-192 | the comparison loop returns true iff the lists have equal length and equal parameter types at every index |
| Functions.SignatureIsTypeSequence | MyMiniLangCompiler/MyMiniLangCompiler/MyMiniLangVisitor.cs:182-192 | two parameter lists match iff their sequences of parameter types are equal |
| Functions.ParameterNamesIgnored | MyMiniLangCompiler/MyMiniLangCompiler/MyMiniLangVisitor.cs:186-189 | renaming parameters while keeping their types never changes the outcome of the comparison |
| Functions.SameParametersReflexive | MyMiniLangCompiler/MyMiniLangCompiler/MyMiniLangVisitor.cs:182-192 | every parameter list matches itself |
| Functions.SameParametersSymmetric | MyMiniLangCompiler/MyMiniLangCompiler/MyMiniLangVisitor.cs:182-192 | the comparison gives the same answer in both directions |
| Functions.SameParametersTransitive | MyMiniLangCompiler/MyMiniLangCompiler/MyMiniLangVisitor.cs:182-192 | lists matching a common list match each other |
| Functions.DuplicateReports | MyMiniLangCompiler/MyMiniLangCompiler/MyMiniLangVisitor.cs:90-97 | one duplicate report, naming the function, per existing entry with the same name and matching parameter types; none at all iff no entry clashes |
| Functions.ReturnTypeIgnored | MyMiniLangCompiler/MyMiniLangCompiler/MyMiniLangVisitor.cs:93 | entry lists that differ only in return types draw the same duplicate reports |
| Visitor.Visit | MyMiniLangCompiler/MyMiniLangCompiler/MyMiniLangVisitor.cs:24-115 | visiting any node keeps the table well formed (names unique, key list matching the map) and only ever appends to the token log, the function list and the diagnostics |
| VisitorProperties.VisitFunctionList | MyMiniLangCompiler/MyMiniLangCompiler/MyMiniLangVisitor.cs:99-114 | the function list gains one entry per function declaration in post-order, so each entry follows those recorded from its body; duplicates are kept |
| VisitorProperties.FunctionsOfCount | MyMiniLangCompiler/MyMiniLangCompiler/MyMiniLangVisitor.cs:112 | the post-order list has exactly one entry per function-declaration node |
| VisitorProperties.FunctionListLength | MyMiniLangCompiler/MyMiniLangCompiler/MyMiniLangVisitor.cs:99-114 | the function list grows by exactly the number of function-declaration nodes visited |
| VisitorProperties.FunctionDeclStep | MyMiniLangCompiler/MyMiniLangCompiler/MyMiniLangVisitor.cs:90-114 | a function declaration first adds one duplicate report per clashing existing entry, then its body's effects, and its own entry last |
| VisitorProperties.StructDeclStep | MyMiniLangCompiler/MyMiniLangCompiler/MyMiniLangVisitor.cs:158-165 | a struct declaration adds one note naming it, then visits its children; it adds nothing to either table itself |
| VisitorProperties.NoDeclarationsNoChange | MyMiniLangCompiler/MyMiniLangCompiler/MyMiniLangVisitor.cs:24-38 | a tree with no global, function or struct declaration changes neither table and reports nothing |
| Diagnostics.Message | MyMiniLangCompiler/MyMiniLangCompiler/MyMiniLangVisitor.cs:55-62 | the console text of each report (also those at lines 95 and 161): semantic errors, and only they, start with the `[Eroare semantica]` tag; every message quotes the name it concerns |
| Decimal.IntRoundTrip | MyMiniLangCompiler/MyMiniLangCompiler/MyMiniLangVisitor.cs:127 | the decimal text of any int, negative ones included, parses back to that int |
| Reports.TokenLineRecoversLine | MyMiniLangCompiler/MyMiniLangCompiler/MyMiniLangVisitor.cs:127 | the line number can be read back from every token line, whatever the kind and lexeme contain |
| Reports.GlobalLines | MyMiniLangCompiler/MyMiniLangCompiler/MyMiniLangVisitor.cs:136-141 | one line per table entry, in insertion order |
| Reports.GlobalLineShape | MyMiniLangCompiler/MyMiniLangCompiler/MyMiniLangVisitor.cs:138-140 | a line starts with `type name `; it ends there, with the trailing space, iff there is no initializer, and otherwise continues with `= ` and the initializer text |
| Reports.FunctionLines | MyMiniLangCompiler/MyMiniLangCompiler/MyMiniLangVisitor.cs:149-155 | exactly three lines per recorded function, in list order: `Funcție: name (return type)`, ` - Parametri: count`, and the dash separator |
| Reports.ParamCountRecoverable | MyMiniLangCompiler/MyMiniLangCompiler/MyMiniLangVisitor.cs:153 | the parameter count can be read back from its line |
| PassReports.TokenReport | MyMiniLangCompiler/MyMiniLangCompiler/MyMiniLangVisitor.cs:125-128 | after a whole run, the token report has one line per non-suppressed terminal of the tree, in document order |
| PassReports.GlobalReport | MyMiniLangCompiler/MyMiniLangCompiler/MyMiniLangVisitor.cs:136-141 | after a whole run, the global report lists each declared name once, in order of first declaration, with that first declaration's type and initializer |
| PassReports.FunctionReport | MyMiniLangCompiler/MyMiniLangCompiler/MyMiniLangVisitor.cs:149-155 | after a whole run, the function report has three lines per function-declaration node |
| Scenarios.RedeclaredGlobalKeepsFirst | MyMiniLangCompiler/MyMiniLangCompiler/MyMiniLangVisitor.cs:53-56 | `int x = 5; int x = 6;` gives one redeclaration report and keeps `x` as (int, 5) |
| Scenarios.StringIntoIntStillInserted | MyMiniLangCompiler/MyMiniLangCompiler/MyMiniLangVisitor.cs:59-66 | `int x = "hello";` gives one mismatch report and still inserts `x` |
| Scenarios.SameTypesDifferentNamesIsDuplicate | MyMiniLangCompiler/MyMiniLangCompiler/MyMiniLangVisitor.cs:90-112 | `f(int a)` then `f(int b)` gives one duplicate report and two entries |
| Scenarios.DifferentTypesIsOverload | MyMiniLangCompiler/MyMiniLangCompiler/MyMiniLangVisitor.cs:90-112 | `f(int a)` then `f(float a)` gives no report and two entries |
| Scenarios.NestedTwinNotReported | MyMiniLangCompiler/MyMiniLangCompiler/MyMiniLangVisitor.cs:91-112 | a same-signature function nested in a function's own body is not reported, because the outer entry is added only after the body; the nested entry is listed first |
| Scenarios.CommentsOnlyEmptyLog | MyMiniLangCompiler/MyMiniLangCompiler/MyMiniLangVisitor.cs:32-35 | whitespace and a line comment leave the token log empty |
| Scenarios.SecondRunReportsAgain | MyMiniLangCompiler/MyMiniLangCompiler/MyMiniLangVisitor.cs:53-112 | running the pass a second time over `int x = 5; int f(int a)` from the first run's state adds exactly a redeclaration report for `x` and a duplicate report for `f`, and records `f` a second time |
| Scenarios.SecondRunOfPair | MyMiniLangCompiler/MyMiniLangCompiler/MyMiniLangVisitor.cs:53-112 | from any state whose table already holds `x` as `int` = `5` and whose function list is exactly `f(int a)`, visiting `int x = 5; int f(int a)` appends a redeclaration report for `x` and then a duplicate report for `f`, leaves the table unchanged and records `f` once more |

## Left out

- Command-line handling, file checks, building the lexer and parser, and the catch-all handler in `Program.cs`: these are I/O and library plumbing. The model starts from a tree.
- `MiniLangErrorListener.cs`: it only prints the parser's syntax-error callbacks.
- ANTLR internals (`GetText()`, `GetSymbolicName`, `base.Visit*` dispatch and its result values). The extracted texts are fields of the tree nodes, and children are visited in order.
  - A token with no symbolic name, for which `GetSymbolicName` returns null, is represented by whatever kind string the tree carries. String interpolation prints null as an empty string.
- File creation and writing in the `Print*` methods: only the sequence of lines is modelled.
- `Console.WriteLine` itself: each message is a `Diagnostic` value, and its text is given by `Diagnostics.Message`.
- `Globals.Declare`: the initializer test uses an ordinal check of the first character. .NET's `StartsWith(string)` is culture-sensitive and could also match text that starts with characters the culture ignores.
- `Decimal.IntToString`: prints a negative number with `-`, as the invariant culture does. Culture-specific negative signs are not modelled.
- Declaration nodes missing their `ID` or `type` child cannot be represented: every `Node` declaration carries its name and type texts. The parser can leave such a node after recovering from a syntax error (for example `struct ;`). The overrides call `ID()`, `type()` and `paramDecl.ID()` without null checks (MyMiniLangVisitor.cs lines 43-44, 75-76, 84-85, 160), so the source throws a NullReferenceException there. `Program.cs` then prints its `Eroare la parsare` message and writes none of the reports. The model always completes the walk, and `PassReports` does not describe such runs.
- The parser's grammar: the tree datatype allows declarations in any position, including places the grammar may never produce (for example a function nested in a function body). The properties hold for every such tree.

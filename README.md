# Naming-length linter: a Dafny model

This project models the analysis core of a TypeScript language server. The server flags
variable names that are too short for the scope they are declared in. One analysis pass
does three things:

1. It wraps every syntax node in a **symbol** that points back to its enclosing symbol.
   The symbol's **depth** counts the enclosing function, class, method, variable and
   property declarations.
2. It walks the tree in pre-order. At every variable declaration it **collects** each
   direct identifier child, with the declaration's symbol as that identifier's parent.
3. It takes the deepest depth among the collected identifiers (`maxDepth`). Each collected
   identifier then needs at least
   `MIN_LENGTH + (maxDepth - scopeDepth) * LENGTH_PER_DEPTH` characters, where
   `scopeDepth` is its depth minus one, `MIN_LENGTH = 1` and `LENGTH_PER_DEPTH = 3`.
   A name strictly shorter than that gets an informational diagnostic. The diagnostic's
   source is `Language Server` and its message is `recommended name length: <n>`.
   Each pass rebuilds the server's diagnostic list from scratch.

Files and modules:

- `syntax.dfy` (`Syntax`): the parser's tree as an immutable value. A node has a kind,
  its text, start and end offsets, and its children.
- `optional.dfy` (`Optional`): an optional value, standing in for a nullable parent.
- `symbols.dfy` (`Symbols`): the symbol datatype and `Depth`. `Depth` is the recursive
  walk up the parent chain. The module also has an independent count of the
  scope-introducing ancestors, and a proof that the two agree.
- `visitor.dfy` (`Visitor`): the traversal. `Collected` is its specification as a
  function. `VisitNode` is the imperative traversal, with `RecordIdentifierChildren` as its scan of
  a declaration. Both push into a `SymbolList`, which
  models the caller's array. A lemma shows that `Collected` equals the declarations'
  identifier children concatenated in pre-order. `Collected` and `CollectedFromChildren`
  carry no contract of their own: `CollectedIsPreOrderDeclarations`,
  `CollectedAreDeclaredIdentifiers` and `ChildrenCollectDeclaredIdentifiers` state what
  they compute.
- `decimal.dfy` (`Decimal`): how the threshold is printed in the message, plus a proof
  that the printed number reads back to the same value.
- `naming_rule.dfy` (`NamingRule`): the constants, the maximum depth, the threshold, the
  flag predicate and the diagnostic list. It proves that diagnostics are produced for
  exactly the flagged symbols, in collection order.
- `server.dfy` (`Server`): the whole pass. `LanguageServer.ParseTextDocument` resets the
  `diagnostics` field, runs the traversal, runs the depth loop (`MaxDepth`) and runs the
  rule loop (`ReportShortNames`). The end-to-end lemmas about `Analyze` are here too.
- `example.dfy` (`Example`): a worked pass over `let x = 1; function f() { let yyyy = 2; }`.
  Only `x` is reported, with threshold 7. `yyyy` needs 4 characters and has exactly 4,
  so it is not reported.

Modelling decisions:

- The source scans a declaration's children one way and recurses into children another
  way (`getChildren` at server/src/server.ts:146, `forEachChild` at line 153). The model
  uses the same `children` list for both. Every direct `Identifier` child of a variable
  declaration is collected. So an initializer that is a bare identifier, as in
  `let a = b`, is collected too, exactly as the code does.
- The source's `Symbol` objects are never changed after construction. The model
  therefore represents them as a recursive datatype with an optional parent.
- `maxDepth` is taken over the collected identifiers only (server/src/server.ts:103-107).
  It is not taken over every symbol of the document. The model follows the code here.
- The code has exactly one threshold formula: the depth-normalised one at
  server/src/server.ts:120-121. The model has only that formula.
- The code checks only identifiers whose parent is a variable declaration. Property
  declarations are never collected, so the model does not collect them either.
- A name's length is JavaScript's `.length` (server/src/server.ts:113), which counts UTF-16
  code units. Dafny strings hold Unicode scalar values, so `Syntax.Utf16Length` counts two
  units for a character above U+FFFF and one otherwise. The rule compares that count.
- The source computes with JavaScript numbers. All values here are small non-negative
  integers, so the model uses unbounded integers.
- The module-level `diagnostics` array becomes the `diagnostics` field of
  `LanguageServer`. Each pass resets it and then appends to it.

## Model

| member | source | states |
|---|---|---|
| `Symbols.RootDepth` | server/src/server.ts:45-47 | a symbol without a parent has depth 0 |
| `Symbols.ChildDepth` | server/src/server.ts:49-62 | a child's depth is its parent's depth plus one exactly when the parent is a function, class, method, variable or property declaration; otherwise it equals the parent's depth |
| `Symbols.DepthIsScopeAncestorCount` | server/src/server.ts:45-63 | the recursive depth equals the number of scope-introducing symbols on the parent chain |
| `Symbols.Depth` | server/src/server.ts:45-63 | a depth never exceeds the length of the parent chain (its exact value is stated by the three lemmas above) |
| `Syntax.Utf16Length` | server/src/server.ts:113 | a string's UTF-16 length lies between its number of characters and twice that |
| `Syntax.Utf16LengthOfBmp` | server/src/server.ts:113 | the UTF-16 length equals the number of characters iff no character lies above U+FFFF |
| `Visitor.DeclaredHere` | server/src/server.ts:144-150 | the symbol itself contributes at most one symbol per child |
| `Visitor.IdentifierChildren` | server/src/server.ts:146-150 | a declaration records at most one symbol per child |
| `Visitor.IdentifierChildrenShape` | server/src/server.ts:146-150 | every symbol recorded for a declaration is an identifier whose parent is that declaration's symbol |
| `Visitor.IdentifierChildrenExact` | server/src/server.ts:146-150 | a child is recorded under the declaration iff it is among the declaration's children and is an identifier |
| `Visitor.CollectedAreDeclaredIdentifiers` | server/src/server.ts:143-156 | everything the traversal collects is an identifier whose parent symbol is a variable declaration |
| `Visitor.ChildrenCollectDeclaredIdentifiers` | server/src/server.ts:153-155 | the same holds for the symbols collected while visiting any prefix of a node's children |
| `Visitor.PreOrder` | server/src/server.ts:153-155 | the pre-order of the symbols the traversal creates starts at the visited symbol |
| `Visitor.CollectedIsPreOrderDeclarations` | server/src/server.ts:143-156 | the traversal collects exactly the identifier children of every variable declaration in the tree, each once, declaration by declaration in pre-order; other nodes contribute nothing directly |
| `Visitor.CollectedDepth` | server/src/server.ts:144-148 | each collected identifier's depth is its declaration's depth plus one, so its scope depth is not negative |
| `Visitor.SymbolList.constructor` | server/src/server.ts:92 | the list of variables starts empty |
| `Visitor.SymbolList.Push` | server/src/server.ts:148 | pushing appends one symbol and changes nothing else |
| `Visitor.RecordIdentifierChildren` | server/src/server.ts:146-150 | the scan of a declaration's children appends exactly its identifier children, in order, each with the declaration as parent |
| `Visitor.VisitNode` | server/src/server.ts:143-156 | the traversal only appends to the caller's list, and what it appends is exactly `Collected` of the visited symbol |
| `Decimal.NatToDecimal` | server/src/server.ts:130 | the printed threshold is a non-empty string of digits without a leading zero |
| `Decimal.DecimalRoundTrip` | server/src/server.ts:130 | reading the printed number back gives the threshold |
| `NamingRule.MaxDepthOf` | server/src/server.ts:102-108 | the result is at least the depth of every collected symbol, equals one of those depths, and is 0 for an empty list |
| `NamingRule.MinLengthFor` | server/src/server.ts:120-121 | the threshold is at least MIN_LENGTH exactly when the scope depth does not exceed the maximum depth |
| `NamingRule.MinLengthScale` | server/src/server.ts:116-121 | the threshold is MIN_LENGTH at the deepest level and MIN_LENGTH + maxDepth * LENGTH_PER_DEPTH at the top; each level deeper lowers it by exactly LENGTH_PER_DEPTH |
| `NamingRule.IsChecked` | server/src/server.ts:111 | a symbol passes the filter only if it has a parent, and then it lies exactly one level below that parent |
| `NamingRule.ScopeDepth` | server/src/server.ts:114 | a symbol that passes the filter has a scope depth of at least 0 |
| `NamingRule.RequiredLength` | server/src/server.ts:114-121 | when the maximum depth is at least the symbol's depth, the required length is at least MIN_LENGTH + LENGTH_PER_DEPTH |
| `NamingRule.Flagged` | server/src/server.ts:111-123 | a flagged symbol's required length is at least 1 |
| `NamingRule.Message` | server/src/server.ts:130 | the message starts with `recommended name length: ` and has something after it |
| `NamingRule.DiagnosticFor` | server/src/server.ts:124-132 | a flagged symbol's diagnostic is informational, carries the source `Language Server` and the symbol's offsets, and its message names a threshold larger than the name's UTF-16 length |
| `NamingRule.Diagnose` | server/src/server.ts:110-135 | the rule emits at most one diagnostic per collected symbol |
| `NamingRule.MessageNamesThreshold` | server/src/server.ts:130 | the message is the fixed prefix followed by a numeral whose value is the threshold |
| `NamingRule.DiagnoseExactlyFlagged` | server/src/server.ts:110-135 | the rule emits at most one diagnostic per symbol, in collection order: the k-th diagnostic belongs to the k-th flagged symbol, and a symbol is among the reported ones iff it is flagged |
| `Server.Variables` | server/src/server.ts:92-99 | every symbol collected from the document's tree passes the variable-declaration filter |
| `Server.Analyze` | server/src/server.ts:91-135 | a pass yields at most one diagnostic per collected symbol |
| `Server.MaxDepth` | server/src/server.ts:102-108 | the depth loop returns the maximum depth of the collected symbols |
| `Server.CollectedAreChecked` | server/src/server.ts:111-121 | every collected identifier passes the variable-declaration filter, has a scope depth of at least 0, and gets a threshold of at least MIN_LENGTH + LENGTH_PER_DEPTH |
| `Server.AnalyzeFlagsShortNames` | server/src/server.ts:110-123 | in a whole pass, a collected identifier is reported iff its length in UTF-16 code units is strictly below MIN_LENGTH + (maxDepth - scopeDepth) * LENGTH_PER_DEPTH; a length equal to the threshold is not reported |
| `Server.AnalyzeDiagnosticShape` | server/src/server.ts:124-132 | every diagnostic of a pass is informational, carries the source `Language Server`, and has the message `recommended name length: <n>` with n at least 4 |
| `Server.LanguageServer.constructor` | server/src/server.ts:34 | the server starts with no diagnostics |
| `Server.LanguageServer.ReportShortNames` | server/src/server.ts:110-135 | the rule loop, measuring names in UTF-16 code units, appends to the diagnostic list exactly the rule's diagnostics for the list, in order |
| `Server.LanguageServer.ParseTextDocument` | server/src/server.ts:91-135 | a pass replaces the diagnostic list with the pass's result for the parsed tree; nothing from an earlier pass remains |
| `Example.CollectedLeaf` | server/src/server.ts:143-156 | a childless node other than a variable declaration contributes nothing |
| `Example.CollectedPassThrough` | server/src/server.ts:153-155 | a node other than a variable declaration, with one or two children, contributes what those children contribute, in order |
| `Example.CollectedDeclaration` | server/src/server.ts:144-150 | a declaration whose leaf children are a name and two tokens contributes just the name |
| `Example.ExampleVariables` | server/src/server.ts:99 | in the worked document, the pass collects `x` and then `yyyy`; the function's own name is not collected |
| `Example.ExampleDepths` | server/src/server.ts:45-63 | in the worked document, `x` has depth 1 and `yyyy` has depth 2; their thresholds are 7 and 4 |
| `Example.ExampleMessage` | server/src/server.ts:130 | the message for threshold 7 is `recommended name length: 7` |
| `Example.TwoNames` | server/src/server.ts:102-135 | for names of lengths 1 and 4 at depths 1 and 2, only the first is reported |
| `Example.AstralNameNotFlagged` | server/src/server.ts:113-123 | the two-character name `𝑥𝑦` has UTF-16 length 4, so at depth 1 with maximum depth 1 (threshold 4) it is not reported |
| `Example.ExamplePass` | server/src/server.ts:91-135 | the worked document yields exactly one diagnostic: offsets 4 to 5, informational, `recommended name length: 7` |

## Left out

- The LSP connection and session setup are not modelled. This covers the initialize
  capabilities, the pull handler that always answers with an empty full report, and
  `documents.listen` / `connection.listen` (server/src/server.ts:26-29, 66-89, 169-174).
  These are transport plumbing.
- Publishing is not modelled: `sendDiagnostics` and the `decorateSymbols` notification
  (server/src/server.ts:137-140). The model stops at the diagnostic list they would send.
- Parsing is not modelled. The tree from `tsc.createSourceFile` is an input. A node's text
  and offsets stand for `getText`, `getStart` and `getEnd`. Ranges stay as offsets, so
  `positionAt` (line/character conversion) is not modelled.
- The language-id filter in the change handler is not modelled (server/src/server.ts:160-167).
  Neither is the async wrapper, so passes that overlap in time are not modelled.
- The client's startup and decoration code (client/src/extension.ts) is editor UI. Its
  severity/source filter is not modelled.
- The load-generation script (test/file-generator-script.py) only appends generated code to files; it is not modelled.

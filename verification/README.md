# Property read/write CodeLens — a Dafny model

This project models the core of a VS Code extension. In a JavaScript or
TypeScript document, the extension puts up to two lenses over each class field
its regular expressions find: "N reads" and "N writes", each only when N > 0.
The model has three parts:

- **The CodeLens pass** (`provideCodeLenses` and `getDocument` in
  `propertyReadWriteCodelens.js`). It walks class matches and their field
  matches, computes each declaration's position and asks the reference provider
  for its usages. It drops the declaration's own usage. It skips usages whose
  document, line or column cannot be had, and classifies the rest as reads or
  writes with a line-local heuristic. It then emits at most two lenses per
  field. Documents come through a cache held by the provider object and reset
  at the start of every pass. A cancellation token is polled at fixed points.
- **The balanced statement-end scan** (`test/debug-findend.js`). It finds the `;`
  that ends a field initializer spanning several lines. It tracks brace,
  bracket and paren depth and string state.
- **The per-line field recognizer** (`test/debug-regex.js`). It trims each line
  of a class body, skips blank and comment lines, and matches the field pattern
  at the start of the line.

Modules:

| file | module | what it holds |
|---|---|---|
| `wrappers.dfy` | `Wrappers` | `Option` |
| `text.dfy` | `Text` | the JavaScript string built-ins used (`trim`, `substring`, `indexOf`, `includes`, `startsWith`, `endsWith`, `split`), and the regular-expression classes `\s` and `\w` |
| `lists.dfy` | `Lists` | concatenated per-item output (`FlatMap`), `Filter`, and the "a prefix of the items was handled" predicate that the loops' proofs use |
| `classifier.dfy` | `Classifier` | the read/write heuristic of one usage |
| `documents.dfy` | `Documents` | positions, documents, the editor's documents, and `getDocument` with its cache |
| `codelens.dfy` | `CodeLens` | the pass: offsets, per-reference verdicts, counting, lenses, polling and cancellation |
| `findend.dfy` | `FieldEnd` | the statement-end scan, as a function, as the script's loops, and as "the first cell that ends the statement" |
| `fieldline.dfy` | `FieldLine` | the line recognizer and the pattern it implements, stated over split points |

The pass's collaborators are parameters of the model (`CodeLens.Env`):

- the regular-expression matches of classes and fields;
- `positionAt`;
- the reference provider, where a failed or non-array answer is an empty list;
- the editor's open and loadable documents.

The model assumes that none of these changes during a pass; the code does not
guarantee it (see "## Left out"). Under that assumption the main results are:

- `CodeLens.UncancelledPassCoversAllFields`: without cancellation the pass
  emits, in document order, the lenses every field gets when each usage's
  document is resolved directly with no cache. The cache makes no difference.
- `CodeLens.PassEmitsFirstFields`: whatever the token does, the lenses form a
  prefix of that sequence cut at a field boundary.

## Where the code and its comments differ

The model follows the code.

- The comment at `propertyReadWriteCodelens.js:132` lists `++prop` and `--prop`
  as write patterns. For a member access such as `++foo.prop`, however, the text
  before the name ends with `.`, so the prefix clause never fires.
  `Classifier.ExamplePreInc` proves the usage is a **Read**, and
  `Classifier.MemberAccessHidesPrefixIncrement` proves the general fact.
- The lookahead `(?!=)` on line 134 shows that comparisons are meant to be
  reads. Yet the catch-all `refLine.includes(`${propName} =`)` on line 136 also
  matches `prop ==`. `Classifier.ExampleEq` proves that `if (foo.prop == 5)` is
  a **Write**, and `Classifier.EqualityCountsAsWrite` proves it for every line
  containing `name ==`.

## Model

| member | source | states |
|---|---|---|
| Text.Trim | propertyReadWriteCodelens.js:127-130 | `trim` takes only whitespace away, from both ends, and leaves no whitespace at either end |
| Text.TrimIdempotent | test/debug-regex.js:15 | trimming a trimmed line changes nothing |
| Text.IndexOf | propertyReadWriteCodelens.js:57 | `indexOf` is -1 exactly when the text does not occur; otherwise it is an occurrence with none before it |
| Text.Split | test/debug-regex.js:11 | `split('\n')` yields at least one part, and no part holds the separator |
| Text.JoinSplit | test/debug-regex.js:11 | the parts of a split, joined with the separator, give the body back |
| Text.SplitJoin | test/debug-regex.js:11 | splitting separator-free lines joined with the separator gives the lines back |
| Classifier.ClassifyMatchesPatterns | propertyReadWriteCodelens.js:127-143 | a usage is a Write exactly when, read literally, the after-pattern matches the trimmed text after the name, or the before-pattern matches the trimmed text before it, or the line contains `name =` |
| Classifier.AssignmentCheckMatchesPattern | propertyReadWriteCodelens.js:134 | on trimmed text, `^(\s*=(?!=)\|\+\+\|--\|\+=\|-=\|\*=\|\/=\|%=)` matches exactly when the text opens with a lone `=` or one of the seven operators |
| Classifier.IncrementCheckMatchesPattern | propertyReadWriteCodelens.js:135 | on trimmed text, `(\+\+\|--)\s*$` matches exactly when the text ends with `++` or `--` |
| Classifier.Classify | propertyReadWriteCodelens.js:127-143 | the read/write heuristic itself; it has no ensures of its own, and `Classifier.ClassifyMatchesPatterns` states its property |
| Classifier.TextAfter | propertyReadWriteCodelens.js:127-129 | the trimmed text after the name, with `substring`'s clamping; no ensures of its own, `Classifier.ClassifyMatchesPatterns` states what is tested on it |
| Classifier.TextBefore | propertyReadWriteCodelens.js:130 | the trimmed text before the name; no ensures of its own, `Classifier.ClassifyMatchesPatterns` states what is tested on it |
| Classifier.EqualityCountsAsWrite | propertyReadWriteCodelens.js:136 | any line holding `name ==` makes every usage on it a Write, whatever the column |
| Classifier.MemberAccessHidesPrefixIncrement | propertyReadWriteCodelens.js:130-135 | when the name follows a `.`, the prefix-increment clause cannot fire |
| Classifier.PunctuationAfterIsNotAssignment | propertyReadWriteCodelens.js:127-134 | a name followed directly by punctuation that starts no operator does not satisfy the after-pattern |
| Classifier.AbsentCharRulesOutIncludes | propertyReadWriteCodelens.js:136 | a line lacking one character of `name =` does not contain it |
| Classifier.ReadWhenNoClauseFires | propertyReadWriteCodelens.js:140-143 | a usage that none of the three clauses catches is a Read |
| Classifier.ExampleAssign | propertyReadWriteCodelens.js:132-139 | `foo.prop = 5;` at `prop` is a Write |
| Classifier.ExampleRead | propertyReadWriteCodelens.js:140-143 | `console.log(foo.prop);` at `prop` is a Read |
| Classifier.ExamplePostInc | propertyReadWriteCodelens.js:134 | `foo.prop++;` at `prop` is a Write |
| Classifier.ExamplePreInc | propertyReadWriteCodelens.js:130-143 | `++foo.prop;` at `prop` is a Read, although line 132 names prefix increments as writes |
| Classifier.ExampleCompound | propertyReadWriteCodelens.js:134 | `foo.prop += 1;` at `prop` is a Write |
| Classifier.ExampleEq | propertyReadWriteCodelens.js:136 | `if (foo.prop == 5)` at `prop` is a Write, although comparisons are meant to be reads |
| Documents.FindOpen | propertyReadWriteCodelens.js:195-197 | `find` returns the first open document with the URI, and nothing exactly when none has it |
| Documents.StartCache | propertyReadWriteCodelens.js:22-23 | the cache starts holding exactly the analysed document under its URI |
| Documents.GetDocument | propertyReadWriteCodelens.js:186-215 | a hit returns the entry and leaves the cache alone; a miss returns the open document or the load, and records it; a failed load returns nothing and records nothing; entries are never replaced or removed |
| Documents.StartCacheCoherent | propertyReadWriteCodelens.js:22-23 | the starting cache only holds what direct resolution would give |
| Documents.OccurrenceOnOneLine | propertyReadWriteCodelens.js:59 | text without line feeds that occurs at an offset of the document's text (`getText()`) lies on one line, at that offset's line and character, within the line |
| Documents.GetDocumentResolves | propertyReadWriteCodelens.js:186-215 | from a coherent cache, `getDocument` returns what direct resolution gives, and the cache stays coherent |
| CodeLens.DeclarationOffsetNamesField | propertyReadWriteCodelens.js:41-58 | for matches that lie where they say, the declaration offset points at an occurrence of the property name in the document |
| CodeLens.ClassStartOffset | propertyReadWriteCodelens.js:41-42 | the body's offset in the document; no ensures of its own, `CodeLens.DeclarationOffsetNamesField` states what it and `FieldOffset` achieve |
| CodeLens.FieldOffset | propertyReadWriteCodelens.js:55-58 | the declaration offset; no ensures of its own, `CodeLens.DeclarationOffsetNamesField` states that it points at the name |
| CodeLens.NameIndexBounds | propertyReadWriteCodelens.js:57 | the name's index in the matched text is at least 0 and at most the captured name's position |
| CodeLens.DeclarationCanLandOnModifier | propertyReadWriteCodelens.js:57 | in `static s = 1;` the name `s` is found at index 0, inside `static`, not at its captured index 7 |
| CodeLens.DeclStart | propertyReadWriteCodelens.js:59 | the declaration's start, `positionAt` of its offset; no ensures of its own, `CodeLens.DeclarationOffsetNamesField` states that the offset is at the name |
| CodeLens.DeclRange | propertyReadWriteCodelens.js:59-60 | the range both lenses get (lines 157, 167); no ensures of its own, its end is the `Position.translate` stand-in listed under "## Left out", and `CodeLens.DeclRangeNamesField` states what it covers |
| CodeLens.DeclRangeSpansName | propertyReadWriteCodelens.js:59-60 | when `positionAt` is the editor's conversion for the document's text and the name (free of line feeds) occurs at the declaration's offset, the range lies on one line of the document and covers exactly the name |
| CodeLens.DeclRangeNamesField | propertyReadWriteCodelens.js:41-60 | lines 41-60 end to end: for class and field matches lying where they say in the document's text, both lenses of the field cover exactly the property name in the document |
| CodeLens.IsDeclarationSite | propertyReadWriteCodelens.js:83-89 | a usage is the declaration itself when it starts at the declaration's line and character in the analysed document; no ensures of its own, `CodeLens.DeclarationSiteNeverCounted` states that such a usage is never counted |
| CodeLens.JudgeIn | propertyReadWriteCodelens.js:93-143 | a usage is skipped exactly when its document is missing, its line is outside the document, or its column is outside the line; otherwise the line classifies it |
| CodeLens.Record | propertyReadWriteCodelens.js:133-143 | a Read appends the usage to the reads and bumps their count, a Write likewise for writes; a skip changes nothing |
| CodeLens.CountOne | propertyReadWriteCodelens.js:81-151 | one usage adds at most one entry, and the counts keep matching the lists |
| CodeLens.CountRefs | propertyReadWriteCodelens.js:80-152 | the counts keep matching the lists, and no more entries are added than there are usages |
| CodeLens.SelectedMembers | propertyReadWriteCodelens.js:80-152 | a usage is among the reads (writes) exactly when it was reported and its verdict is Read (Write) |
| CodeLens.SelectionPartitions | propertyReadWriteCodelens.js:80-152 | every reported usage is counted exactly once: read, write, or dropped |
| CodeLens.DeclarationSiteNeverCounted | propertyReadWriteCodelens.js:83-89 | the declaration's own usage is neither a read nor a write |
| CodeLens.SkippedNeverCounted | propertyReadWriteCodelens.js:93-124 | a usage with no document, or a line or column out of range, is neither a read nor a write |
| CodeLens.CountOneResolves | propertyReadWriteCodelens.js:91-143 | from a coherent cache, one turn records the usage's uncached verdict and keeps the cache coherent |
| CodeLens.CountRefsMatchesSpec | propertyReadWriteCodelens.js:75-152 | the cached loop appends exactly the uncached reads and writes, in provider order, and keeps the cache coherent |
| CodeLens.CountField | propertyReadWriteCodelens.js:64-173 | one field's request, counting and lenses; no ensures of its own, `CodeLens.CountFieldMatchesSpec` states that it gives the uncached lenses |
| CodeLens.LensesFor | propertyReadWriteCodelens.js:154-173 | a reads lens exactly when there are reads, before a writes lens exactly when there are writes; both span the declaration and carry their count and list |
| CodeLens.CountFieldMatchesSpec | propertyReadWriteCodelens.js:64-173 | counting one field through a coherent cache gives the lenses it gets without a cache |
| CodeLens.FieldCounterFaithful | propertyReadWriteCodelens.js:64-173 | the pass's per-field counting meets that specification for every field and coherent cache |
| CodeLens.CancelledBeforePass | propertyReadWriteCodelens.js:26-28 | a token already set emits nothing and asks the provider nothing |
| CodeLens.RunField | propertyReadWriteCodelens.js:49-179 | one field with its two polls; no ensures of its own, `CodeLens.RunFieldSpec` states its property |
| CodeLens.RunFields | propertyReadWriteCodelens.js:49-179 | the field loop; no ensures of its own, `CodeLens.RunFieldsSpec` states its property |
| CodeLens.RunClasses | propertyReadWriteCodelens.js:34-180 | the class loop; no ensures of its own, `CodeLens.RunClassesSpec` states its property |
| CodeLens.Analyze | propertyReadWriteCodelens.js:17-183 | the whole pass; no ensures of its own, `CodeLens.AnalyzeProgress` and `CodeLens.PassEmitsFirstFields` state its properties |
| CodeLens.ProvideCodeLenses | propertyReadWriteCodelens.js:17-183 | the lenses of the pass; no ensures of its own, `CodeLens.UncancelledPassCoversAllFields` and `CodeLens.CancelledBeforePass` state its properties |
| CodeLens.RunFieldSpec | propertyReadWriteCodelens.js:49-73 | a field either completes and emits its lenses, or stops at one of its polls having emitted nothing |
| CodeLens.RunFieldsSpec | propertyReadWriteCodelens.js:49-179 | the field loop handles a prefix of the class's fields, all of them when not stopped |
| CodeLens.RunClassesSpec | propertyReadWriteCodelens.js:34-180 | the class loop handles a prefix of all fields in document order, all of them when not stopped |
| CodeLens.AnalyzeProgress | propertyReadWriteCodelens.js:17-183 | the pass handles a prefix of the fields, all of them when never cancelled |
| CodeLens.PrefixWitness | propertyReadWriteCodelens.js:17-183 | progress from an empty pass is a cut at a field boundary |
| CodeLens.PassEmitsFirstFields | propertyReadWriteCodelens.js:36-73 | whenever cancellation strikes, the lenses are those of the first fields, never half a field's pair |
| CodeLens.UncancelledPassCoversAllFields | propertyReadWriteCodelens.js:17-183 | without cancellation, the lenses are those of every field in document order, as if there were no cache, and each field's position is asked about once |
| FieldEnd.QuoteAfter | test/debug-findend.js:30-39 | with no string open, a string opens exactly on a quote character and is delimited by it; with one open, it closes exactly on the same delimiter not preceded by a backslash on its line, and otherwise stays |
| FieldEnd.Step | test/debug-findend.js:27-67 | the paren counter never moves; inside a string no counter moves; only braces move the brace counter and only brackets the bracket counter |
| FieldEnd.IsEnd | test/debug-findend.js:59-64 | a `;` outside a string with all three counters at zero ends the statement; no ensures of its own, `FieldEnd.FindEndIsFirstEnd` states that the scan stops at the first such character |
| FieldEnd.ScanFrom | test/debug-findend.js:21-69 | a reported end is a visited position holding `;` |
| FieldEnd.FindEnd | test/debug-findend.js:12-71 | the scan from the start position with all counters zero and no string open; no ensures of its own, `FieldEnd.FindEndIsFirstEnd` states its property |
| FieldEnd.FindFieldEnd | test/debug-findend.js:12-71 | the script's loops over its own variables compute the scan's answer |
| FieldEnd.CellsFromVisitsRange | test/debug-findend.js:21-28 | the scan visits each position from the start once, in line-then-column order, with its character and predecessor |
| FieldEnd.ScanFromIsScan | test/debug-findend.js:21-69 | the nested loops stop where the scan over the visited characters stops |
| FieldEnd.ScanNotFound | test/debug-findend.js:59-71 | nothing is reported exactly when no visited character ends the statement |
| FieldEnd.ScanFindsFirstEnd | test/debug-findend.js:59-64 | the reported position is the first visited character that ends the statement |
| FieldEnd.FindEndIsFirstEnd | test/debug-findend.js:21-71 | the scan's answer is the first `;` at zero depth outside a string, or nothing when there is none |
| FieldEnd.ParensStayZero | test/debug-findend.js:41-66 | no character changes the paren counter |
| FieldEnd.StringContentsKeepDepths | test/debug-findend.js:30-67 | characters read inside a string leave the brace and bracket counters unchanged |
| FieldEnd.SampleEndsOnLastLine | test/debug-findend.js:2-23 | the sample from line 0, column 3 ends at the `;` of line 2, after `}]` |
| FieldEnd.StrayCloserHidesEnd | test/debug-findend.js:47-64 | counters are not clamped: after a stray `}` a `;` does not end the statement |
| FieldEnd.StringSpansLines | test/debug-findend.js:21-39 | a string left open at the end of a line stays open on the next, hiding its `;` |
| FieldEnd.EscapedQuoteStaysOpen | test/debug-findend.js:33-38 | a quote after a backslash does not close the string |
| FieldLine.TailSound | test/debug-regex.js:23 | the recognizer's reading of what follows the name is one way of matching the pattern's tail |
| FieldLine.TailComplete | test/debug-regex.js:23 | whenever the tail can match in some way, the recognizer finds a match |
| FieldLine.TailFrom | test/debug-regex.js:23 | the recognizer of what follows the name; no ensures of its own, `FieldLine.TailSound` and `FieldLine.TailComplete` state its property |
| FieldLine.NameIsWholeWord | test/debug-regex.js:23 | in any match, the name is the whole run of word characters |
| FieldLine.MatchSound | test/debug-regex.js:23 | every field the recognizer reports is a match of the pattern: modifiers, name, optional `?`, optional type, marker |
| FieldLine.MatchComplete | test/debug-regex.js:23 | whenever the pattern can match, the recognizer reports a field with that match's name, so every way of matching agrees on the name |
| FieldLine.MatchAt | test/debug-regex.js:23 | the recognizer, trying the modifier branch before the name; no ensures of its own, `FieldLine.MatchSound` and `FieldLine.MatchComplete` state its property |
| FieldLine.MatchLine | test/debug-regex.js:23 | the recognizer from the start of the line; no ensures of its own, `FieldLine.MatchLineIsPattern` states its property |
| FieldLine.MatchLineIsPattern | test/debug-regex.js:23-26 | a line matches exactly when the pattern matches it, and both give the same name |
| FieldLine.NoTerminatorNoMatch | test/debug-regex.js:23 | text with no `=` and no `;` never matches |
| FieldLine.NonWordStartNoMatch | test/debug-regex.js:23 | a line not opening with a word character never matches |
| FieldLine.AnalyzeLine | test/debug-regex.js:15-19 | a line is skipped exactly when, trimmed, it is empty or opens with `//` or `/*` |
| FieldLine.AnalyzeLineIsPattern | test/debug-regex.js:15-29 | a field is reported for a line exactly when the pattern matches its trimmed text and the line is not a comment |
| FieldLine.AnalyzeLineIgnoresIndent | test/debug-regex.js:15 | surrounding whitespace does not change a line's verdict |
| FieldLine.CommentsNeverMatch | test/debug-regex.js:17-19 | comment lines are skipped even when they hold a declaration |
| FieldLine.LineNames | test/debug-regex.js:25-29 | a line yields a name exactly when it is matched, and at most one |
| FieldLine.FieldNamesMembers | test/debug-regex.js:11-30 | a name is reported for a body exactly when some line of it declares that name |
| FieldLine.FieldNames | test/debug-regex.js:11-30 | the names reported for a body, line by line; no ensures of its own, `FieldLine.FieldNamesMembers` and `FieldLine.SampleBodyNames` state its properties |
| FieldLine.SampleSimpleField | test/debug-regex.js:3 | `simpleField = 5;` declares `simpleField` |
| FieldLine.SampleComplexObject | test/debug-regex.js:4 | `complexObject = {` declares `complexObject` |
| FieldLine.SampleInnerProperty | test/debug-regex.js:5 | `prop: "value"` declares nothing: it has no `=` or `;` |
| FieldLine.SampleCloser | test/debug-regex.js:6 | `};` declares nothing: it does not open with a word character |
| FieldLine.SampleComplexArray | test/debug-regex.js:7 | `complexArray = [ {} ];` declares `complexArray` |
| FieldLine.SampleShortName | test/debug-regex.js:8 | `a = [ {} ];` declares `a` |
| FieldLine.BlankLine | test/debug-regex.js:17-19 | a blank line declares nothing |
| FieldLine.SampleBodyNames | test/debug-regex.js:2-30 | on the sample body, exactly `simpleField`, `complexObject`, `complexArray` and `a` are recognised, in that order |
| FieldLine.ModifierThenName | test/debug-regex.js:23 | `static s = 1;` declares `s`: the modifier is skipped |
| FieldLine.ModifierAsName | test/debug-regex.js:23 | `static = 5;` declares `static`: with no name after it, the modifier is the name |
| FieldLine.OptionalTypedField | test/debug-regex.js:23 | `count?: number;` declares `count`, with the type's `;` as the marker |
| FieldLine.EmptyTypeNoMatch | test/debug-regex.js:23 | `a:=1;` does not match: a type needs at least one character |

## Left out

- The extension's registration: `activate`, the refresh command, the show-reads and show-writes commands, and the change-event emitter (propertyReadWriteCodelens.js:4-14, 218-289). They are UI wiring with no logic to model.
- The class and field regular expressions of the pass (propertyReadWriteCodelens.js:32, 46-47). Their matches (index, text, captured name) are inputs of `CodeLens.ClassMatch` and `CodeLens.FieldMatch`. A full backtracking regex engine is out of scope. The lazy `[\s\S]*?\}` ends a class body at its first `}`, so fields after a nested block are never seen; the model takes whatever matches the engine produces.
- `await`, promises and the reference command's transport. The provider's answer is a function of the declaration's position. An answer that is not an array is modelled as an empty list (line 80).
- A rejected reference request is also modelled as an empty list. In the code, a rejection jumps to the `catch` at lines 174-178 and skips the cancellation poll at line 71; `CodeLens.RunField` always polls after the request. The numbering of `CodeLens.Token`'s polls therefore differs from the code after a rejection. The emitted lenses are the same: a rejected field emits none either way, and cancellation stops the pass at the next poll.
- Concurrent passes. The document cache is a field of the provider object (line 7), cleared at the start of each pass (lines 22-23). Because `provideCodeLenses` awaits (lines 64-68), two passes can overlap and clear or fill each other's cache. The model runs one pass at a time with its own cache. The results are the same provided the editor's documents stay fixed and each pass's document is the open document for its URI.
- The `try`/`catch` around each usage (lines 91, 144-150). After the range checks nothing in the modelled code can throw, so the catch path has nothing to do.
- Logging (`console.warn`, `console.error`, `console.log`) and `process.exit`. They have no effect on results.
- Lens titles and command identifiers (lines 158-160, 168-170). `CodeLens.LensKind` stands for the pair, and the count and list are kept.
- `Uri.toString` normalisation. A URI is modelled by its string, which is the cache's key.
- `CodeLens.DeclRangeSpansName` and `CodeLens.DeclRangeNamesField`: assume that `positionAt` is the editor's offset-to-position conversion (`CodeLens.PositionAtFaithful`), since `positionAt` is a parameter. They also assume line feeds alone end lines: with `\r\n` endings the document's text holds `\r` characters that `Documents.DocText` does not.
- UTF-16: JavaScript strings are UTF-16 code units, while Dafny `char` is a Unicode scalar value. Columns and lengths agree for text in the Basic Multilingual Plane only.
- Documents that change during a pass. While the pass awaits (lines 64-68 and 93), documents can be opened, closed or edited, and `openTextDocument` (line 205) adds the loaded document to the open ones. The code keeps each URI's first document in the cache until the next pass starts (lines 190-206). The model holds the editor's documents (`Documents.Workspace`) fixed, and that is what makes the cache transparent in `Documents.GetDocumentResolves` and `CodeLens.UncancelledPassCoversAllFields`.
- `Documents.Translate` stands in for VS Code's `Position.translate` (line 60) and is not a property of this code. It does not model the rejection of a negative resulting character, because `positionAt` never yields one and the name length is never negative.
- `propertyReadWriteCodelens.js` has no symbol-tree scanner and does not scan constructor assignments, so neither is part of this model.
- `test/test.ts` is a sample TypeScript file used by hand in the editor. It holds no logic.

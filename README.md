# Verifier-type detector of the AnalyzerTesting.CSharp source generator

The analyzer project ships an incremental source generator. It looks through a test
project's compilation for the verifier type the tests plug into the Roslyn analyzer
testing framework. Then it emits fluent extension methods specialised to that verifier.

This project models the detector and the symbol helpers it relies on, and proves
properties of the model. The detector works as follows:

- For every syntax tree, a syntax walker visits each object-creation expression and
  each class declaration, and resolves the named type they create or declare.
- For that type, `GetTypeHierarchy` walks the base-type chain. The walk yields the
  type and each successive base type, but only while the current type has a base type
  of its own. So the last element is the type directly below the root, usually
  directly below `object`.
- That element is the marker when all of these hold:
  - its name is `AnalyzerTest`;
  - it is generic with exactly one type argument;
  - `GetNamespace` renders its namespace as
    `Microsoft.Microsoft.CodeAnalysis.Microsoft.CodeAnalysis.Testing`.
- `GetNamespace` joins, outermost first, the `ToString()` of every enclosing
  namespace. Each of those is already a qualified name, so the names repeat.
- On a match, the fully qualified display string of the type argument goes into an
  ordinal hash set shared by all walkers.
- `FindVerifierTypes` sorts the set and joins it with `;`.
- `GetTemplate` picks one of three templates from that string:
  - blank: no verifier;
  - containing `;`: several verifiers;
  - otherwise: exactly one.
- `GenerateSource` adds one source under a fixed hint name. Its text is the template
  with `%VERIFIER%` replaced by the string.

Files:
- `options.dfy`: `Option` and `Result`.
- `text.dfy`: the .NET string operations the code uses: `string.IsNullOrWhiteSpace`,
  `string.Join` and `string.Replace`. It also holds two operations the code does not call:
  - `Split`, the inverse of `Join`, in which the round trip of the verifier string is stated;
  - ordinal string order, the model's stand-in for the default comparer that
    `OrderBy(item => item)` sorts with. The code compares ordinally only for set
    membership (`StringComparer.Ordinal`).
- `ordering.dfy`: `OrderBy(item => item)`, and the ascending list of a set that it
  must agree with.
- `symbols.dfy`: type and namespace symbols as inductive datatypes, and
  `GetTypeHierarchy`, `GetNamespaceHierarchy` and `GetNamespace` (ExtensionMethods.cs).
  - The two walks are `while` loops, proved against recursive specification functions.
- `generator.dfy`: the generator itself.
  - The shared hash set is the class `CandidateSet`.
  - The walker is the class `SyntaxWalker`. Its methods update that set and are proved
    against the recursive function `NodeCandidates`.
  - `FindVerifierTypes` is proved equal to `VerifierTypes(compilation)`. That is the
    ascending list of all candidates joined by `;`.
  - The properties of `VerifierTypes` are lemmas.
- `scenarios.dfy`: the four unit-test scenarios of the generator, plus the input behind
  the finding below. They are written over the framework's types and hold for any
  analyzer and verifier display string.

`GetVerifierTypeName` takes `.Last()` of `GetTypeHierarchy` and tests that element,
which is the type directly below the root, not the root itself. The code also has no bound for cyclic base-type
chains. The model follows the code on both points: `Symbols.LastOfHierarchyIsBelowRoot`
states the first, and the inductive datatypes make every chain finite.

## Model

| member | source | states |
|---|---|---|
| Symbols.GetTypeHierarchy | source/AnalyzerTesting.CSharp.Analyzer/ExtensionMethods.cs:7-14 | The loop yields the start type first, then each element's base type. Every yielded element has a base type and the root is never yielded. The result is empty exactly when the start type has no base type. |
| Symbols.TypeHierarchyShape | source/AnalyzerTesting.CSharp.Analyzer/ExtensionMethods.cs:7-14 | The walk has that shape, and its length is the chain depth minus one. |
| Symbols.TypeHierarchyIsUnique | source/AnalyzerTesting.CSharp.Analyzer/ExtensionMethods.cs:7-14 | Any sequence with that shape is the walk's result. |
| Symbols.LastOfHierarchyIsBelowRoot | source/AnalyzerTesting.CSharp.Analyzer/SourceGenerator.cs:86 | `.Last()` of the walk is the type directly below the root of the chain. That type's base type is the root, which has no base type. The walk is empty exactly when the start type is itself a root. |
| Symbols.GetNamespaceHierarchy | source/AnalyzerTesting.CSharp.Analyzer/ExtensionMethods.cs:16-24 | The loop yields containing namespaces innermost first, each containing the one before. It never yields the global namespace. It stops at the global namespace or at a missing one. |
| Symbols.NamespaceHierarchyShape | source/AnalyzerTesting.CSharp.Analyzer/ExtensionMethods.cs:16-24 | The walk has exactly that shape. |
| Symbols.NamespaceHierarchyIsUnique | source/AnalyzerTesting.CSharp.Analyzer/ExtensionMethods.cs:16-24 | Any sequence with that shape is the walk's result. |
| Symbols.GetNamespace | source/AnalyzerTesting.CSharp.Analyzer/ExtensionMethods.cs:26-29 | The result is the namespace hierarchy reversed to outermost first, each namespace's display string, joined by '.'. |
| Symbols.NamespaceStringEmptyIffGlobal | source/AnalyzerTesting.CSharp.Analyzer/ExtensionMethods.cs:26-29 | A type in the global namespace, or in none, renders as "". With named namespaces, that is the only way to get "". |
| Symbols.NamespaceAtDisplay | source/AnalyzerTesting.CSharp.Analyzer/ExtensionMethods.cs:28 | A namespace declared as `A.B.C` displays as its path joined by '.'. |
| Symbols.NamespaceStringOfPath | source/AnalyzerTesting.CSharp.Analyzer/ExtensionMethods.cs:26-29 | For a type in namespace `A.B.C`, the result joins the qualified names `A`, `A.B` and `A.B.C` by '.'. |
| Generator.MarkerNamespaceJoinsItsPrefixes | source/AnalyzerTesting.CSharp.Analyzer/SourceGenerator.cs:91 | The literal compared against is that join for `Microsoft.CodeAnalysis.Testing`. |
| Generator.IsMarker | source/AnalyzerTesting.CSharp.Analyzer/SourceGenerator.cs:88-92 | The marker is `AnalyzerTest` with exactly one type argument and namespace string `Microsoft.Microsoft.CodeAnalysis.Microsoft.CodeAnalysis.Testing`. A type in the global namespace, or in none, is never the marker. |
| Scenarios.FrameworkBaseIsMarker | source/AnalyzerTesting.CSharp.Analyzer/SourceGenerator.cs:88-92 | The framework's `Microsoft.CodeAnalysis.Testing.AnalyzerTest<TVerifier>` passes both checks, whatever its verifier. |
| Generator.GetTemplate | source/AnalyzerTesting.CSharp.Analyzer/SourceGenerator.cs:24-33 | Blank means no verifier, whatever else the string holds. Otherwise a ';' means several verifiers, and its absence means exactly one. |
| Generator.TemplateReflectsCandidateCount | source/AnalyzerTesting.CSharp.Analyzer/SourceGenerator.cs:24-33 | For verifier names that are not blank and hold no ';', 0, 1 and 2 or more candidates select the no-verifier, single-verifier and multiple-verifier templates. |
| Generator.GenerateSource | source/AnalyzerTesting.CSharp.Analyzer/SourceGenerator.cs:17-22 | The added source always carries the hint name `AnalyzerTesting.CSharp.FluentExtensions.g.cs`. |
| Generator.GeneratedTextFillsPlaceholder | source/AnalyzerTesting.CSharp.Analyzer/SourceGenerator.cs:21 | The chosen template is its placeholder-free pieces joined by `%VERIFIER%`. The generated text is the same pieces joined by the verifier string. |
| Generator.EvidenceIsMarkerArgument | source/AnalyzerTesting.CSharp.Analyzer/SourceGenerator.cs:81-98 | A type symbol names verifier `v` exactly when it resolved, the type directly below its root is the marker, and `v` is that marker's type argument (corrected; see ## Findings). |
| Generator.CandidateSet.Add | source/AnalyzerTesting.CSharp.Analyzer/SourceGenerator.cs:97 | `HashSet.Add` returns true exactly when the name was absent. The set then also holds it, it keeps no duplicates, and a new name goes last in enumeration order. |
| Generator.SyntaxWalker.GetVerifierTypeName | source/AnalyzerTesting.CSharp.Analyzer/SourceGenerator.cs:81-98 | The set gains the symbol's evidence and nothing else. A null symbol, a type without a base type, a non-marker, or a marker in another namespace add nothing. Otherwise the set gains the marker's type argument (corrected; see ## Findings). |
| Generator.SyntaxWalker.VisitObjectCreationExpression | source/AnalyzerTesting.CSharp.Analyzer/SourceGenerator.cs:67-72 | The set gains the created type's evidence and everything found below the expression. |
| Generator.SyntaxWalker.VisitClassDeclaration | source/AnalyzerTesting.CSharp.Analyzer/SourceGenerator.cs:74-79 | The set gains the declared type's evidence and everything found inside the declaration. |
| Generator.SyntaxWalker.Visit | source/AnalyzerTesting.CSharp.Analyzer/SourceGenerator.cs:49 | Any node adds exactly the candidates of its subtree. |
| Generator.SyntaxWalker.VisitChildren | source/AnalyzerTesting.CSharp.Analyzer/SourceGenerator.cs:71 | Visiting the children in order adds exactly their candidates. |
| Generator.SyntaxWalker.GetVerifierTypeCandidates | source/AnalyzerTesting.CSharp.Analyzer/SourceGenerator.cs:62-65 | The set gains exactly the candidates of the whole tree. |
| Generator.CandidatesAreEvidenceOfNodes | source/AnalyzerTesting.CSharp.Analyzer/SourceGenerator.cs:67-79 | A name is found in a subtree exactly when some node of it, in the walker's visiting order, offers that name itself. |
| Generator.FindVerifierTypes | source/AnalyzerTesting.CSharp.Analyzer/SourceGenerator.cs:35-47 | The result is the set of candidates of all trees, without duplicates, in ascending ordinal order, joined by ';'. The empty set gives "" (corrected; see ## Findings). |
| Generator.CandidatesOfTrees | source/AnalyzerTesting.CSharp.Analyzer/SourceGenerator.cs:39-44 | A name is a candidate of the compilation exactly when some syntax tree offers it. |
| Generator.VisitOrderIsIrrelevant | source/AnalyzerTesting.CSharp.Analyzer/SourceGenerator.cs:39-46 | Visiting the syntax trees in any other order gives the same string. |
| Generator.SingleCandidateIsItsName | source/AnalyzerTesting.CSharp.Analyzer/SourceGenerator.cs:46 | With one candidate, the string is that candidate. |
| Generator.JoinedCandidatesSplitBack | source/AnalyzerTesting.CSharp.Analyzer/SourceGenerator.cs:46 | Splitting the string at ';' gives back exactly the candidates, each once, in strictly ascending order. |
| Generator.JoinedCandidatesAreInjective | source/AnalyzerTesting.CSharp.Analyzer/SourceGenerator.cs:46 | Different candidate sets give different strings. |
| Ordering.OrderByOrdinal | source/AnalyzerTesting.CSharp.Analyzer/SourceGenerator.cs:46 | The sorted list is a permutation of the enumerated names. |
| Ordering.OrderByDistinctIsAscending | source/AnalyzerTesting.CSharp.Analyzer/SourceGenerator.cs:46 | Sorting distinct names gives a strictly ascending list. |
| Ordering.OrderByIsAscendingList | source/AnalyzerTesting.CSharp.Analyzer/SourceGenerator.cs:46 | Sorting any duplicate-free enumeration of a set gives the same list: the set's one strictly ascending list. |
| Ordering.AscendingListsAreUnique | source/AnalyzerTesting.CSharp.Analyzer/SourceGenerator.cs:46 | Two strictly ascending lists with the same elements are equal. |
| Text.LessTransitive | source/AnalyzerTesting.CSharp.Analyzer/SourceGenerator.cs:46 | Ordinal order is transitive. |
| Text.LessTotal | source/AnalyzerTesting.CSharp.Analyzer/SourceGenerator.cs:46 | Ordinal order is total on distinct strings. |
| Text.IsNullOrWhiteSpace | source/AnalyzerTesting.CSharp.Analyzer/SourceGenerator.cs:26 | A string is blank exactly when every character is white space. |
| Text.JoinIsBlankIffEmpty | source/AnalyzerTesting.CSharp.Analyzer/SourceGenerator.cs:26 | Joining non-blank names gives a blank string exactly when there are none. |
| Text.JoinHasSeparatorIffTwoOrMore | source/AnalyzerTesting.CSharp.Analyzer/SourceGenerator.cs:29 | Joining names free of ';' by ';' gives a string with a ';' exactly when there are two or more. |
| Text.SplitJoin | source/AnalyzerTesting.CSharp.Analyzer/SourceGenerator.cs:46 | Splitting at `c` undoes joining a nonempty list of `c`-free pieces by `c`. |
| Text.ReplaceJoinsPieces | source/AnalyzerTesting.CSharp.Analyzer/SourceGenerator.cs:21 | `Replace` is the text cut at each non-overlapping occurrence, scanning left to right, and joined by the replacement. |
| Text.PiecesAvoidPattern | source/AnalyzerTesting.CSharp.Analyzer/SourceGenerator.cs:21 | No piece contains the pattern, so no occurrence is left unreplaced. |
| Scenarios.EmptySourceFindsNoVerifier | source/AnalyzerTesting.CSharp.Analyzer.Test/ExtensionMethodsCodeGeneratorUnitTest.cs:42-52 | An empty source gives "" and the no-verifier template. |
| Scenarios.AnalyzerOnlyFindsNoVerifier | source/AnalyzerTesting.CSharp.Analyzer.Test/ExtensionMethodsCodeGeneratorUnitTest.cs:54-62 | A source that only declares the analyzer gives "" and the no-verifier template. |
| Scenarios.ExplicitClassFindsItsVerifier | source/AnalyzerTesting.CSharp.Analyzer.Test/ExtensionMethodsCodeGeneratorUnitTest.cs:64-96 | A class deriving from `CSharpAnalyzerTest<MyAnalyzer, V>` that is also instantiated yields `V` once, and the single-verifier template. |
| Scenarios.AdHocInstanceFindsItsVerifier | source/AnalyzerTesting.CSharp.Analyzer.Test/ExtensionMethodsCodeGeneratorUnitTest.cs:98-124 | `new CSharpAnalyzerTest<MyAnalyzer, V>()` yields `V`, and the single-verifier template. |
| Generator.LastOfHierarchyAsWritten | source/AnalyzerTesting.CSharp.Analyzer/SourceGenerator.cs:86 | As written, `.Last()` fails exactly when the type has no base type. |
| Generator.WalkThrowsIffBaseless | source/AnalyzerTesting.CSharp.Analyzer/SourceGenerator.cs:86 | As written, walking a tree throws exactly when it visits a creation or declaration of a type without a base type. |
| Generator.EvidenceAsWritten | source/AnalyzerTesting.CSharp.Analyzer/SourceGenerator.cs:81-98 | As written, `GetVerifierTypeName` throws exactly for a resolved type without a base type. There the corrected check finds nothing; everywhere else the two agree. |
| Generator.NodeEvidenceAsWritten | source/AnalyzerTesting.CSharp.Analyzer/SourceGenerator.cs:67-79 | As written, visiting a creation or declaration throws exactly when its type has no base type. Otherwise it adds that node's own evidence. |
| Generator.WalkAsWritten | source/AnalyzerTesting.CSharp.Analyzer/SourceGenerator.cs:62-79 | As written, a walk that does not throw finds exactly the candidates of the subtree. |
| Generator.ChildrenWalkAsWritten | source/AnalyzerTesting.CSharp.Analyzer/SourceGenerator.cs:71 | As written, a walk of the first `k` children that does not throw finds exactly their candidates. |
| Generator.TreesAsWritten | source/AnalyzerTesting.CSharp.Analyzer/SourceGenerator.cs:39-44 | As written, the loop over the trees, if it does not throw, finds exactly the candidates of all trees. |
| Generator.TreesThrowIffSomeWalkThrows | source/AnalyzerTesting.CSharp.Analyzer/SourceGenerator.cs:39-44 | The loop over the trees throws exactly when the walk of one of them throws. |
| Generator.FindVerifierTypesAsWritten | source/AnalyzerTesting.CSharp.Analyzer/SourceGenerator.cs:35-47 | As written, `FindVerifierTypes` throws exactly when the walk of some tree throws. Otherwise its result is the corrected `VerifierTypes`. |
| Generator.GeneratedSourcesAsWritten | source/AnalyzerTesting.CSharp.Analyzer/SourceGenerator.cs:17-22 | As written, the generator adds no source exactly when `FindVerifierTypes` throws, because the driver drops a failed generator's output. Otherwise it adds the one source the corrected generator adds. |
| Scenarios.NewObjectSuppressesGeneratedSource | source/AnalyzerTesting.CSharp.Analyzer/SourceGenerator.cs:86 | As written, adding `new object()` to the ad-hoc test makes the generator throw and add no source. |
| Scenarios.NewObjectIsIgnoredWhenCorrected | source/AnalyzerTesting.CSharp.Analyzer/SourceGenerator.cs:86 | Corrected, the same compilation yields its verifier and the single-verifier source. |

## Left out

- Roslyn's semantic model is left out: `GetSemanticModel`, `GetSymbolInfo` and `GetDeclaredSymbol`. Each visited node carries the symbol it resolves to, or none.
- `ToDisplayString(SymbolDisplayFormat.FullyQualifiedFormat)` is left out. A type argument is held as the string that call returns.
- A namespace's `ToString()` is modelled as its qualified name: the names from the outermost namespace inwards, joined by '.'.
- The `CSharpSyntaxWalker` machinery is reduced to a tree of three node kinds: object creations, class declarations and all other nodes. Other node kinds are not inspected by the source either. These include target-typed `new()`, records and structs.
- The texts of `GeneratedSourceTemplate` are not part of this model. They are a parameter: `Generator.Templates`.
- `Initialize` and the incremental pipeline are left out because they are plumbing: `CompilationProvider.Select` and `RegisterSourceOutput`. `Generator.GenerateSource` returns the source that `AddSource` would add.
- The `CancellationToken` passed to `FindVerifierTypes` is never consulted, so it is left out.
- `GetTypeHierarchy` and `GetNamespaceHierarchy` are lazy iterators. They are modelled as loops that enumerate them to the end, which is what `.Last()`, `.Reverse()` and `string.Join` do.
- Symbols.GetTypeHierarchy: cyclic base-type chains cannot be expressed, because the datatypes are inductive. The source has no guard against them either.
- Ordering.OrderByOrdinal: the model sorts in ordinal character order. `OrderBy(item => item)` uses `Comparer<string>.Default`, which compares linguistically under every culture, the invariant culture included. So the two orders differ whenever two names first differ in letter case. For example, `global::MSTestNs.V` sorts before `global::Microsoft.CodeAnalysis.Testing.DefaultVerifier` in ordinal order ('S' is 0x53, 'i' is 0x69). The source sorts it after.
- Generator.FindVerifierTypes: with two or more verifiers, the model's string lists them in ordinal order and the source's does not. Which names appear, each once, and the template chosen do not depend on the order.
- Generator.JoinedCandidatesSplitBack: the strictly ascending order it states is ordinal order, not the order of the source's string.
- Text.Less: .NET compares UTF-16 code units, while Dafny's `char` is a Unicode scalar value. The two orders differ only for characters outside the Basic Multilingual Plane.
- Generator.CandidateSet: a `HashSet` enumerates in insertion order only while nothing is removed, and here nothing is. The model takes insertion order as the enumeration order. The result does not depend on it: `Ordering.OrderByIsAscendingList`.
- The fluent test-configuration extensions, the snapshot and adapter test classes, the Transforms and the Sample project are not part of this model. They configure or delegate to the Roslyn testing framework.

## Findings

| source | as written | input that shows it | evidently intended | confidence | as-written member | corrected member |
|---|---|---|---|---|---|---|
| source/AnalyzerTesting.CSharp.Analyzer/SourceGenerator.cs:86 | `GetTypeHierarchy().Last()` throws `InvalidOperationException` when the visited type has no base type. The exception escapes `FindVerifierTypes`, so the generator adds no source at all. | any compilation that contains `new object()`, for example a lock field, next to a verifier usage | a type without a base type is not the marker and adds no candidate | not executed | Scenarios.NewObjectSuppressesGeneratedSource | Scenarios.NewObjectIsIgnoredWhenCorrected |

The as-written behaviour is modelled by these members:
- `Generator.LastOfHierarchyAsWritten`
- `Generator.EvidenceAsWritten`
- `Generator.NodeEvidenceAsWritten`
- `Generator.WalkAsWritten`
- `Generator.TreesAsWritten`
- `Generator.FindVerifierTypesAsWritten`
- `Generator.GeneratedSourcesAsWritten`

`Generator.WalkThrowsIffBaseless` characterises the failing inputs.

The rest of the model uses the corrected check: `Generator.Evidence` and
`Generator.SyntaxWalker.GetVerifierTypeName`. It returns early when the hierarchy is
empty.

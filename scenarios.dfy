/**
 * The generator's unit-test scenarios, on the type symbols the framework
 * declares, and the input on which the source as written loses its output.
 * The analyzer and the verifier enter as their fully qualified display
 * strings, whatever they are.
 *
 * The framework's types, as their symbols are modelled here:
 * - `Microsoft.CodeAnalysis.Testing.AnalyzerTest<TVerifier>` derives from `object`;
 * - `Microsoft.CodeAnalysis.CSharp.Testing.CSharpAnalyzerTest<TAnalyzer, TVerifier>`
 *   derives from `AnalyzerTest<TVerifier>`;
 * - `Microsoft.CodeAnalysis.Diagnostics.DiagnosticAnalyzer` derives from `object`.
 */
module Scenarios {
  import opened Options
  import opened Text
  import opened Ordering
  import opened Symbols
  import opened Generator

  const TestingPath: seq<string> := ["Microsoft", "CodeAnalysis", "Testing"]

  const SystemObject := NamedType("Object", false, [], None, Some(NamespaceAt(["System"])))

  function FrameworkAnalyzerTest(verifier: string): NamedType {
    NamedType("AnalyzerTest", true, [verifier], Some(SystemObject), Some(NamespaceAt(TestingPath)))
  }

  function CSharpAnalyzerTest(analyzer: string, verifier: string): NamedType {
    NamedType("CSharpAnalyzerTest", true, [analyzer, verifier], Some(FrameworkAnalyzerTest(verifier)),
      Some(NamespaceAt(["Microsoft", "CodeAnalysis", "CSharp", "Testing"])))
  }

  const DiagnosticAnalyzer := NamedType("DiagnosticAnalyzer", false, [], Some(SystemObject),
    Some(NamespaceAt(["Microsoft", "CodeAnalysis", "Diagnostics"])))

  /** `public class MyAnalyzer : DiagnosticAnalyzer`. */
  const MyAnalyzer := NamedType("MyAnalyzer", false, [], Some(DiagnosticAnalyzer), Some(GlobalNamespace))

  /** `public class AnalyzerTest : CSharpAnalyzerTest<MyAnalyzer, Verifier>`. */
  function UserAnalyzerTest(analyzer: string, verifier: string): NamedType {
    NamedType("AnalyzerTest", false, [], Some(CSharpAnalyzerTest(analyzer, verifier)), Some(GlobalNamespace))
  }

  /** `public class Test`. */
  const TestClass := NamedType("Test", false, [], Some(SystemObject), Some(GlobalNamespace))

  const EmptySource := SyntaxTree(OtherNode([]))

  /** The analyzer under test, declared in a source of its own. */
  const AnalyzerSource := SyntaxTree(OtherNode([ClassDeclaration(Some(MyAnalyzer), [])]))

  /** A test class deriving from the C# analyzer test, instantiated in a test method. */
  function ExplicitClassSource(analyzer: string, verifier: string): SyntaxTree {
    SyntaxTree(OtherNode([
      ClassDeclaration(Some(UserAnalyzerTest(analyzer, verifier)), []),
      ClassDeclaration(Some(TestClass),
        [OtherNode([ObjectCreation(Some(UserAnalyzerTest(analyzer, verifier)), [])])])]))
  }

  /** The C# analyzer test instantiated directly in a test method. */
  function AdHocSource(analyzer: string, verifier: string): SyntaxTree {
    SyntaxTree(OtherNode([
      ClassDeclaration(Some(TestClass),
        [OtherNode([ObjectCreation(Some(CSharpAnalyzerTest(analyzer, verifier)), [])])])]))
  }

  /** A source holding `new object()`. */
  const NewObjectSource := SyntaxTree(OtherNode([ObjectCreation(Some(SystemObject), [])]))

  /** The framework's base class renders as the literal the generator compares against. */
  lemma FrameworkBaseIsMarker(verifier: string)
    ensures IsMarker(FrameworkAnalyzerTest(verifier))
  {
    NamespaceStringOfPath(FrameworkAnalyzerTest(verifier), TestingPath);
    TestingNamespaceIsMarkerNamespace();
  }

  /** Joining the display strings of `Microsoft`, `Microsoft.CodeAnalysis` and
      `Microsoft.CodeAnalysis.Testing` repeats the outer namespaces. */
  lemma TestingNamespaceIsMarkerNamespace()
    ensures Join(".", QualifiedPrefixes(TestingPath)) == MarkerNamespace
  {
    var prefixes := QualifiedPrefixes(TestingPath);
    assert prefixes[0] == "Microsoft" by {
      assert TestingPath[..1] == ["Microsoft"];
    }
    assert prefixes[1] == "Microsoft" + "." + "CodeAnalysis" by {
      assert TestingPath[..2] == ["Microsoft", "CodeAnalysis"];
      assert ["Microsoft", "CodeAnalysis"][1..] == ["CodeAnalysis"];
      assert Join(".", ["CodeAnalysis"]) == "CodeAnalysis";
    }
    assert prefixes[2] == "Microsoft" + "." + "CodeAnalysis" + "." + "Testing" by {
      assert TestingPath[..3] == TestingPath;
      assert TestingPath[1..] == ["CodeAnalysis", "Testing"];
      assert TestingPath[1..][1..] == ["Testing"];
      JoinThree(".", "Microsoft", "CodeAnalysis", "Testing");
    }
    assert prefixes == ["Microsoft", "Microsoft" + "." + "CodeAnalysis",
      "Microsoft" + "." + "CodeAnalysis" + "." + "Testing"];
    MarkerNamespaceJoinsItsPrefixes();
  }

  lemma JoinThree(separator: string, a: string, b: string, c: string)
    ensures Join(separator, [a, b, c]) == a + separator + b + separator + c
  {
    assert [a, b, c][1..] == [b, c];
    assert [b, c][1..] == [c];
    assert Join(separator, [b, c]) == b + separator + c;
    assert Join(separator, [a, b, c]) == a + separator + (b + separator + c);
  }

  /** A type deriving from the framework's base class, directly or through the
      C# analyzer test, gives evidence of its verifier. */
  lemma DerivedTypesGiveEvidence(analyzer: string, verifier: string)
    ensures Evidence(Some(FrameworkAnalyzerTest(verifier))) == Some(verifier)
    ensures Evidence(Some(CSharpAnalyzerTest(analyzer, verifier))) == Some(verifier)
    ensures Evidence(Some(UserAnalyzerTest(analyzer, verifier))) == Some(verifier)
  {
    FrameworkBaseIsMarker(verifier);
    var framework := FrameworkAnalyzerTest(verifier);
    var csharp := CSharpAnalyzerTest(analyzer, verifier);
    assert TypeHierarchy(framework) == [framework];
    assert TypeHierarchy(csharp) == [csharp, framework];
    assert TypeHierarchy(UserAnalyzerTest(analyzer, verifier)) == [UserAnalyzerTest(analyzer, verifier), csharp, framework];
  }

  /** The analyzer, the plain test class and `object` give no evidence. */
  lemma OtherTypesGiveNoEvidence()
    ensures Evidence(Some(MyAnalyzer)) == None
    ensures Evidence(Some(TestClass)) == None
    ensures Evidence(Some(SystemObject)) == None
  {
    assert TypeHierarchy(MyAnalyzer) == [MyAnalyzer, DiagnosticAnalyzer];
    assert TypeHierarchy(TestClass) == [TestClass];
  }

  lemma NoChildren(node: SyntaxNode)
    requires node.children == []
    ensures NodeCandidates(node) == NodeEvidence(node)
  {
  }

  lemma OneChild(node: SyntaxNode)
    requires |node.children| == 1
    ensures NodeCandidates(node) == NodeEvidence(node) + NodeCandidates(node.children[0])
  {
    assert ChildrenCandidates(node, 1) == ChildrenCandidates(node, 0) + NodeCandidates(node.children[0]);
  }

  lemma TwoChildren(node: SyntaxNode)
    requires |node.children| == 2
    ensures NodeCandidates(node) ==
      NodeEvidence(node) + NodeCandidates(node.children[0]) + NodeCandidates(node.children[1])
  {
    assert ChildrenCandidates(node, 1) == ChildrenCandidates(node, 0) + NodeCandidates(node.children[0]);
  }

  lemma CandidatesOfSnoc(trees: seq<SyntaxTree>, tree: SyntaxTree)
    ensures CandidatesOf(trees + [tree]) == CandidatesOf(trees) + TreeCandidates(tree)
  {
    assert (trees + [tree])[..|trees|] == trees;
  }

  /** Sources that use no verifier. */
  lemma SourcesWithoutVerifier()
    ensures TreeCandidates(EmptySource) == {}
    ensures TreeCandidates(AnalyzerSource) == {}
    ensures TreeCandidates(NewObjectSource) == {}
  {
    OtherTypesGiveNoEvidence();
    NoChildren(EmptySource.root);
    OneChild(AnalyzerSource.root);
    NoChildren(AnalyzerSource.root.children[0]);
    OneChild(NewObjectSource.root);
    NoChildren(NewObjectSource.root.children[0]);
  }

  /** Each test source uses exactly its verifier. */
  lemma TestSourcesUseTheirVerifier(analyzer: string, verifier: string)
    ensures TreeCandidates(ExplicitClassSource(analyzer, verifier)) == {verifier}
    ensures TreeCandidates(AdHocSource(analyzer, verifier)) == {verifier}
  {
    ExplicitClassSourceUsesItsVerifier(analyzer, verifier);
    OtherTypesGiveNoEvidence();
    DerivedTypesGiveEvidence(analyzer, verifier);
    var adHoc := AdHocSource(analyzer, verifier).root;
    OneChild(adHoc);
    OneChild(adHoc.children[0]);
    OneChild(adHoc.children[0].children[0]);
    NoChildren(adHoc.children[0].children[0].children[0]);
  }

  lemma ExplicitClassSourceUsesItsVerifier(analyzer: string, verifier: string)
    ensures TreeCandidates(ExplicitClassSource(analyzer, verifier)) == {verifier}
  {
    OtherTypesGiveNoEvidence();
    DerivedTypesGiveEvidence(analyzer, verifier);
    var explicit := ExplicitClassSource(analyzer, verifier).root;
    TwoChildren(explicit);
    NoChildren(explicit.children[0]);
    OneChild(explicit.children[1]);
    OneChild(explicit.children[1].children[0]);
    NoChildren(explicit.children[1].children[0].children[0]);
  }

  /** An empty source generates the no-verifier template. */
  lemma EmptySourceFindsNoVerifier()
    ensures VerifierTypes(Compilation([EmptySource])) == ""
    ensures GetTemplate(VerifierTypes(Compilation([EmptySource]))) == NoVerifierFound
  {
    SourcesWithoutVerifier();
    CandidatesOfSnoc([], EmptySource);
  }

  /** A source that only declares an analyzer generates the no-verifier template. */
  lemma AnalyzerOnlyFindsNoVerifier()
    ensures VerifierTypes(Compilation([AnalyzerSource])) == ""
    ensures GetTemplate(VerifierTypes(Compilation([AnalyzerSource]))) == NoVerifierFound
  {
    SourcesWithoutVerifier();
    CandidatesOfSnoc([], AnalyzerSource);
  }

  /** A test class deriving from the C# analyzer test, also instantiated, counts
      once: the single-verifier template, filled with the verifier. */
  lemma ExplicitClassFindsItsVerifier(analyzer: string, verifier: string)
    requires WellFormedName(verifier)
    ensures var compilation := Compilation([AnalyzerSource, ExplicitClassSource(analyzer, verifier)]);
      && VerifierTypes(compilation) == verifier
      && GetTemplate(VerifierTypes(compilation)) == SingleVerifier
  {
    SourcesWithoutVerifier();
    TestSourcesUseTheirVerifier(analyzer, verifier);
    CandidatesOfSnoc([], AnalyzerSource);
    CandidatesOfSnoc([AnalyzerSource], ExplicitClassSource(analyzer, verifier));
    assert [] + [AnalyzerSource] == [AnalyzerSource];
    assert [AnalyzerSource] + [ExplicitClassSource(analyzer, verifier)]
      == [AnalyzerSource, ExplicitClassSource(analyzer, verifier)];
    SingleCandidateIsItsName(verifier);
  }

  /** The C# analyzer test instantiated directly gives the same single verifier. */
  lemma AdHocInstanceFindsItsVerifier(analyzer: string, verifier: string)
    requires WellFormedName(verifier)
    ensures var compilation := Compilation([AnalyzerSource, AdHocSource(analyzer, verifier)]);
      && VerifierTypes(compilation) == verifier
      && GetTemplate(VerifierTypes(compilation)) == SingleVerifier
  {
    SourcesWithoutVerifier();
    TestSourcesUseTheirVerifier(analyzer, verifier);
    CandidatesOfSnoc([], AnalyzerSource);
    CandidatesOfSnoc([AnalyzerSource], AdHocSource(analyzer, verifier));
    assert [] + [AnalyzerSource] == [AnalyzerSource];
    assert [AnalyzerSource] + [AdHocSource(analyzer, verifier)] == [AnalyzerSource, AdHocSource(analyzer, verifier)];
    SingleCandidateIsItsName(verifier);
  }

  /** `new object()` throws as written: `object` has no base type. */
  lemma NewObjectSourceThrows()
    ensures WalkAsWritten(NewObjectSource.root).Failure?
  {
    assert NodeEvidenceAsWritten(NewObjectSource.root.children[0]).Failure?;
    assert ChildrenWalkAsWritten(NewObjectSource.root, 1).Failure?;
  }

  /** The compilation of the ad-hoc test with `new object()` added to it. */
  function WithNewObject(analyzer: string, verifier: string): Compilation {
    Compilation([AnalyzerSource, AdHocSource(analyzer, verifier), NewObjectSource])
  }

  /** As written, `new object()` anywhere in the compilation makes the generator
      throw, so it adds no source at all, although the compilation uses
      exactly one verifier. */
  lemma NewObjectSuppressesGeneratedSource(templates: Templates, analyzer: string, verifier: string)
    ensures FindVerifierTypesAsWritten(WithNewObject(analyzer, verifier)) == Failure(InvalidOperation)
    ensures GeneratedSourcesAsWritten(templates, WithNewObject(analyzer, verifier)) == []
  {
    NewObjectSourceThrows();
    var compilation := WithNewObject(analyzer, verifier);
    assert NewObjectSource in compilation.syntaxTrees;
    var r := FindVerifierTypesAsWritten(compilation);
    assert r.Failure? && r.error.InvalidOperation?;
  }

  /** Corrected, the same compilation generates the single-verifier source,
      filled with the verifier. */
  lemma NewObjectIsIgnoredWhenCorrected(templates: Templates, analyzer: string, verifier: string)
    requires WellFormedName(verifier)
    ensures VerifierTypes(WithNewObject(analyzer, verifier)) == verifier
    ensures GenerateSource(templates, VerifierTypes(WithNewObject(analyzer, verifier)))
      == GeneratedSource(HintName, Replace(templates.text, Placeholder, verifier))
  {
    SourcesWithoutVerifier();
    TestSourcesUseTheirVerifier(analyzer, verifier);
    var adHoc := AdHocSource(analyzer, verifier);
    CandidatesOfSnoc([], AnalyzerSource);
    CandidatesOfSnoc([AnalyzerSource], adHoc);
    CandidatesOfSnoc([AnalyzerSource, adHoc], NewObjectSource);
    assert [] + [AnalyzerSource] == [AnalyzerSource];
    assert [AnalyzerSource] + [adHoc] == [AnalyzerSource, adHoc];
    assert [AnalyzerSource, adHoc] + [NewObjectSource] == WithNewObject(analyzer, verifier).syntaxTrees;
    SingleCandidateIsItsName(verifier);
  }
}

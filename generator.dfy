/**
 * The incremental source generator of the analyzer project (SourceGenerator.cs).
 *
 * It finds which verifier type the test code binds to the framework's
 * `AnalyzerTest<TVerifier>` base class and picks one of three templates for the
 * generated fluent extensions:
 * - every syntax tree is walked, and each object creation and each class
 *   declaration offers its resolved type as evidence;
 * - the element directly below the root of that type's base-type chain must be
 *   `AnalyzerTest` with one type argument, in the framework's namespace;
 * - the matching type arguments are collected in a set, sorted and joined by ';';
 * - the joined string chooses the template and replaces its placeholder.
 *
 * The semantic model is abstracted away: each creation and declaration node
 * carries the named type it resolves to, or `None` when it resolves to none.
 */
module Generator {
  import opened Options
  import opened Text
  import opened Ordering
  import opened Symbols

  // ---------------------------------------------------------------------------
  // Input

  /** The nodes the walker distinguishes. Every kind of node has children, which
      the walker visits in order after the node itself. */
  datatype SyntaxNode =
    | ObjectCreation(createdType: Option<NamedType>, children: seq<SyntaxNode>)
    | ClassDeclaration(declaredSymbol: Option<NamedType>, children: seq<SyntaxNode>)
    | OtherNode(children: seq<SyntaxNode>)

  datatype SyntaxTree = SyntaxTree(root: SyntaxNode)

  datatype Compilation = Compilation(syntaxTrees: seq<SyntaxTree>)

  /** The name and the rendered namespace of the framework's marker base class. */
  const MarkerName: string := "AnalyzerTest"
  const MarkerNamespace: string := "Microsoft.Microsoft.CodeAnalysis.Microsoft.CodeAnalysis.Testing"

  /** The literal is what `ToString` of each namespace above the marker, joined
      by '.', gives for `Microsoft.CodeAnalysis.Testing`. */
  lemma MarkerNamespaceJoinsItsPrefixes()
    ensures Join(".", ["Microsoft", "Microsoft" + "." + "CodeAnalysis",
      "Microsoft" + "." + "CodeAnalysis" + "." + "Testing"]) == MarkerNamespace
  {
    var prefixes := ["Microsoft", "Microsoft" + "." + "CodeAnalysis",
      "Microsoft" + "." + "CodeAnalysis" + "." + "Testing"];
    assert prefixes[1..] == [prefixes[1], prefixes[2]];
    assert prefixes[1..][1..] == [prefixes[2]];
    assert Join(".", prefixes[1..]) == prefixes[1] + "." + prefixes[2];
    MarkerNamespaceSpelledOut();
    DotJoinOfPrefixes("Microsoft", "CodeAnalysis", "Testing");
  }

  // An equality between long string literals is costly for the solver, so the
  // next three lemmas build the marker namespace from short pieces, one append
  // at a time.

  /** The literal, grown from the left one word or dot at a time. */
  lemma MarkerNamespaceSpelledOut()
    ensures "Microsoft" + "." + "Microsoft" + "." + "CodeAnalysis" + "." + "Microsoft" + "." + "CodeAnalysis"
      + "." + "Testing" == MarkerNamespace
  {
    MarkerNamespaceOuterHalf();
    assert "Microsoft.Microsoft.CodeAnalysis." + "Microsoft" == "Microsoft.Microsoft.CodeAnalysis.Microsoft";
    assert "Microsoft.Microsoft.CodeAnalysis.Microsoft" + "." == "Microsoft.Microsoft.CodeAnalysis.Microsoft.";
    assert "Microsoft.Microsoft.CodeAnalysis.Microsoft." + "CodeAnalysis"
      == "Microsoft.Microsoft.CodeAnalysis.Microsoft.CodeAnalysis";
    assert "Microsoft.Microsoft.CodeAnalysis.Microsoft.CodeAnalysis" + "."
      == "Microsoft.Microsoft.CodeAnalysis.Microsoft.CodeAnalysis.";
    assert "Microsoft.Microsoft.CodeAnalysis.Microsoft.CodeAnalysis." + "Testing" == MarkerNamespace;
  }

  lemma MarkerNamespaceOuterHalf()
    ensures "Microsoft" + "." + "Microsoft" + "." + "CodeAnalysis" + "." == "Microsoft.Microsoft.CodeAnalysis."
  {
    assert "Microsoft" + "." == "Microsoft.";
    assert "Microsoft." + "Microsoft" == "Microsoft.Microsoft";
    assert "Microsoft.Microsoft" + "." == "Microsoft.Microsoft.";
    assert "Microsoft.Microsoft." + "CodeAnalysis" == "Microsoft.Microsoft.CodeAnalysis";
  }

  /** Joining the three qualified prefixes of `a.b.c`, associated from the left. */
  lemma DotJoinOfPrefixes(a: string, b: string, c: string)
    ensures a + "." + ((a + "." + b) + "." + (a + "." + b + "." + c))
      == a + "." + a + "." + b + "." + a + "." + b + "." + c
  {
  }

  // ---------------------------------------------------------------------------
  // Output

  /** The three constants of `GeneratedSourceTemplate`. */
  datatype TemplateKind = NoVerifierFound | MultipleVerifiersFound | SingleVerifier

  /** The texts of the three templates. */
  datatype Templates = Templates(noVerifierFound: string, multipleVerifiersFound: string, text: string)

  function TemplateText(templates: Templates, kind: TemplateKind): string {
    match kind
    case NoVerifierFound => templates.noVerifierFound
    case MultipleVerifiersFound => templates.multipleVerifiersFound
    case SingleVerifier => templates.text
  }

  /** A source added to the compilation: its hint name and its text. */
  datatype GeneratedSource = GeneratedSource(hintName: string, text: string)

  const HintName: string := "AnalyzerTesting.CSharp.FluentExtensions.g.cs"
  const Placeholder: string := "%VERIFIER%"

  /** `GetTemplate`: a blank string means no verifier, whatever else it holds;
      otherwise a ';' means several, and its absence exactly one. */
  function GetTemplate(verifierTypes: string): (kind: TemplateKind)
    ensures kind == NoVerifierFound <==> IsNullOrWhiteSpace(verifierTypes)
    ensures kind == MultipleVerifiersFound <==> !IsNullOrWhiteSpace(verifierTypes) && ';' in verifierTypes
    ensures kind == SingleVerifier <==> !IsNullOrWhiteSpace(verifierTypes) && ';' !in verifierTypes
  {
    if IsNullOrWhiteSpace(verifierTypes) then NoVerifierFound
    else if ';' in verifierTypes then MultipleVerifiersFound
    else SingleVerifier
  }

  /** `GenerateSource`: the one source it adds, under the fixed hint name, is the
      chosen template with the placeholder replaced by the verifier string. */
  function GenerateSource(templates: Templates, verifierTypes: string): (source: GeneratedSource)
    ensures source.hintName == HintName
  {
    var template := TemplateText(templates, GetTemplate(verifierTypes));
    GeneratedSource(HintName, Replace(template, Placeholder, verifierTypes))
  }

  /** The generated text is the template cut at every occurrence of the
      placeholder and put back together with the verifier string in each cut. */
  lemma GeneratedTextFillsPlaceholder(templates: Templates, verifierTypes: string)
    ensures var template := TemplateText(templates, GetTemplate(verifierTypes));
      var pieces := Pieces(template, Placeholder);
      && Join(Placeholder, pieces) == template
      && (forall k | 0 <= k < |pieces| :: !Occurs(Placeholder, pieces[k]))
      && GenerateSource(templates, verifierTypes).text == Join(verifierTypes, pieces)
  {
    var template := TemplateText(templates, GetTemplate(verifierTypes));
    ReplaceJoinsPieces(template, Placeholder, verifierTypes);
    ReplaceJoinsPieces(template, Placeholder, Placeholder);
    ReplaceBySelf(template, Placeholder);
    PiecesAvoidPattern(template, Placeholder);
  }

  // ---------------------------------------------------------------------------
  // What one node contributes

  /** The marker base class: `AnalyzerTest`, generic, with exactly one type
      argument, in the framework's testing namespace. */
  predicate IsMarker(rootType: NamedType): (r: bool)
    ensures r ==> !StopsAt(rootType.containingNamespace)
  {
    && rootType.name == MarkerName
    && rootType.isGenericType
    && |rootType.typeArguments| == 1
    && NamespaceString(rootType) == MarkerNamespace
  }

  /** The verifier that a resolved type gives evidence of: the type argument of
      the last element of its type hierarchy, when that element is the marker.
      A type without a base type gives none. */
  function Evidence(typeSymbol: Option<NamedType>): Option<string> {
    match typeSymbol
    case None => None
    case Some(symbol) =>
      var hierarchy := TypeHierarchy(symbol);
      if hierarchy == [] then None
      else
        var rootType := hierarchy[|hierarchy| - 1];
        if IsMarker(rootType) then Some(rootType.typeArguments[0]) else None
  }

  function AsSet(evidence: Option<string>): set<string> {
    match evidence
    case None => {}
    case Some(v) => {v}
  }

  /** A type symbol gives evidence of `v` exactly when it resolved, the type
      directly below the root of its chain is the marker, and `v` is that
      marker's type argument. */
  lemma EvidenceIsMarkerArgument(typeSymbol: Option<NamedType>, v: string)
    ensures Evidence(typeSymbol) == Some(v) <==>
      && typeSymbol.Some?
      && DirectlyBelowRoot(typeSymbol.value).Some?
      && IsMarker(DirectlyBelowRoot(typeSymbol.value).value)
      && v == DirectlyBelowRoot(typeSymbol.value).value.typeArguments[0]
  {
    if typeSymbol.Some? {
      LastOfHierarchyIsBelowRoot(typeSymbol.value);
    }
  }

  /** The evidence a node offers itself: the resolved type of an object creation
      or of a class declaration; other nodes offer none. */
  function NodeEvidence(node: SyntaxNode): set<string> {
    match node
    case ObjectCreation(createdType, _) => AsSet(Evidence(createdType))
    case ClassDeclaration(declaredSymbol, _) => AsSet(Evidence(declaredSymbol))
    case OtherNode(_) => {}
  }

  /** The candidates found by walking `node` and everything below it. */
  function NodeCandidates(node: SyntaxNode): set<string>
    decreases node, 1
  {
    NodeEvidence(node) + ChildrenCandidates(node, |node.children|)
  }

  /** The candidates found by walking the first `k` children of `node`. */
  function ChildrenCandidates(node: SyntaxNode, k: nat): set<string>
    requires k <= |node.children|
    decreases node, 0, k
  {
    if k == 0 then {} else ChildrenCandidates(node, k - 1) + NodeCandidates(node.children[k - 1])
  }

  function TreeCandidates(tree: SyntaxTree): set<string> {
    NodeCandidates(tree.root)
  }

  /** The candidates found by walking `trees` in turn. */
  function CandidatesOf(trees: seq<SyntaxTree>): set<string> {
    if trees == [] then {} else CandidatesOf(trees[..|trees| - 1]) + TreeCandidates(trees[|trees| - 1])
  }

  /** The candidates in ascending ordinal order, joined by ';'. */
  ghost function JoinedCandidates(candidates: set<string>): string {
    Join(";", AscendingList(candidates))
  }

  /** The string `FindVerifierTypes` returns for `compilation`. */
  ghost function VerifierTypes(compilation: Compilation): string {
    JoinedCandidates(CandidatesOf(compilation.syntaxTrees))
  }

  // ---------------------------------------------------------------------------
  // The walk

  /** The `HashSet<string>` with ordinal comparison shared by the walkers.
      `items` is its enumeration order. */
  class CandidateSet {
    var items: seq<string>

    ghost predicate Valid()
      reads this
    {
      Distinct(items)
    }

    function Elements(): set<string>
      reads this
    {
      set x | x in items
    }

    constructor ()
      ensures Valid() && items == []
    {
      items := [];
    }

    /** `Add`: true when `x` was not yet present; the set then holds `x` too. */
    method Add(x: string) returns (added: bool)
      requires Valid()
      modifies this
      ensures Valid()
      ensures added <==> x !in old(Elements())
      ensures items == if added then old(items) + [x] else old(items)
      ensures Elements() == old(Elements()) + {x}
    {
      added := x !in items;
      if added {
        items := items + [x];
      }
    }
  }

  /** The walker over one syntax tree; it adds what it finds to the set it shares
      with `FindVerifierTypes`. */
  class SyntaxWalker {
    const syntaxTree: SyntaxTree
    const verifierTypeCandidates: CandidateSet

    constructor (syntaxTree: SyntaxTree, verifierTypeCandidates: CandidateSet)
      ensures this.syntaxTree == syntaxTree
      ensures this.verifierTypeCandidates == verifierTypeCandidates
    {
      this.syntaxTree := syntaxTree;
      this.verifierTypeCandidates := verifierTypeCandidates;
    }

    /** `GetVerifierTypeCandidates`: walks the whole tree from its root. */
    method GetVerifierTypeCandidates()
      requires verifierTypeCandidates.Valid()
      modifies verifierTypeCandidates
      ensures verifierTypeCandidates.Valid()
      ensures verifierTypeCandidates.Elements() ==
        old(verifierTypeCandidates.Elements()) + TreeCandidates(syntaxTree)
    {
      Visit(syntaxTree.root);
    }

    /** `Visit`: dispatches on the kind of node. */
    method Visit(node: SyntaxNode)
      requires verifierTypeCandidates.Valid()
      modifies verifierTypeCandidates
      ensures verifierTypeCandidates.Valid()
      ensures verifierTypeCandidates.Elements() == old(verifierTypeCandidates.Elements()) + NodeCandidates(node)
      decreases node, 2
    {
      match node
      case ObjectCreation(_, _) => VisitObjectCreationExpression(node);
      case ClassDeclaration(_, _) => VisitClassDeclaration(node);
      case OtherNode(_) => VisitChildren(node);
    }

    /** `VisitObjectCreationExpression`: the created type first, then the children. */
    method VisitObjectCreationExpression(node: SyntaxNode)
      requires node.ObjectCreation?
      requires verifierTypeCandidates.Valid()
      modifies verifierTypeCandidates
      ensures verifierTypeCandidates.Valid()
      ensures verifierTypeCandidates.Elements() == old(verifierTypeCandidates.Elements()) + NodeCandidates(node)
      decreases node, 1
    {
      GetVerifierTypeName(node.createdType);
      VisitChildren(node);
    }

    /** `VisitClassDeclaration`: the declared type first, then the children. */
    method VisitClassDeclaration(node: SyntaxNode)
      requires node.ClassDeclaration?
      requires verifierTypeCandidates.Valid()
      modifies verifierTypeCandidates
      ensures verifierTypeCandidates.Valid()
      ensures verifierTypeCandidates.Elements() == old(verifierTypeCandidates.Elements()) + NodeCandidates(node)
      decreases node, 1
    {
      GetVerifierTypeName(node.declaredSymbol);
      VisitChildren(node);
    }

    /** The base walker's visit of the children, in order. */
    method VisitChildren(node: SyntaxNode)
      requires verifierTypeCandidates.Valid()
      modifies verifierTypeCandidates
      ensures verifierTypeCandidates.Valid()
      ensures verifierTypeCandidates.Elements() ==
        old(verifierTypeCandidates.Elements()) + ChildrenCandidates(node, |node.children|)
      decreases node, 0
    {
      for i := 0 to |node.children|
        invariant verifierTypeCandidates.Valid()
        invariant verifierTypeCandidates.Elements() ==
          old(verifierTypeCandidates.Elements()) + ChildrenCandidates(node, i)
      {
        Visit(node.children[i]);
      }
    }

    /** `GetVerifierTypeName`: adds the evidence of `typeSymbol`, if any, and
        leaves the set unchanged otherwise. */
    method GetVerifierTypeName(typeSymbol: Option<NamedType>)
      requires verifierTypeCandidates.Valid()
      modifies verifierTypeCandidates
      ensures verifierTypeCandidates.Valid()
      ensures verifierTypeCandidates.Elements() ==
        old(verifierTypeCandidates.Elements()) + AsSet(Evidence(typeSymbol))
    {
      if typeSymbol == None {
        return;
      }
      var hierarchy := GetTypeHierarchy(typeSymbol.value);
      if hierarchy == [] {
        // `.Last()` throws here in the source; `EvidenceAsWritten` models that.
        return;
      }
      var rootType := hierarchy[|hierarchy| - 1];
      if !(rootType.name == MarkerName && rootType.isGenericType && |rootType.typeArguments| == 1) {
        return;
      }
      var rootNamespace := GetNamespace(rootType);
      if rootNamespace != MarkerNamespace {
        return;
      }
      var verifierType := rootType.typeArguments[0];
      var _ := verifierTypeCandidates.Add(verifierType);
    }
  }

  /** `FindVerifierTypes`: walks every syntax tree into one shared set, then
      sorts the set and joins it by ';'. */
  method FindVerifierTypes(compilation: Compilation) returns (verifierTypes: string)
    ensures verifierTypes == VerifierTypes(compilation)
  {
    var verifierTypeCandidates := new CandidateSet();
    var trees := compilation.syntaxTrees;
    for i := 0 to |trees|
      invariant verifierTypeCandidates.Valid()
      invariant verifierTypeCandidates.Elements() == CandidatesOf(trees[..i])
    {
      var walker := new SyntaxWalker(trees[i], verifierTypeCandidates);
      walker.GetVerifierTypeCandidates();
      assert trees[..i + 1][..i] == trees[..i];
    }
    assert trees[..|trees|] == trees;
    OrderByIsAscendingList(verifierTypeCandidates.items);
    verifierTypes := Join(";", OrderByOrdinal(verifierTypeCandidates.items));
  }

  // ---------------------------------------------------------------------------
  // Properties of the result

  /** A verifier name as the fully qualified display format renders it: never
      blank and never containing ';'. */
  predicate WellFormedName(name: string) {
    !IsNullOrWhiteSpace(name) && ';' !in name
  }

  /** The template reflects how many distinct candidates were found: none, one,
      or two and more. */
  lemma TemplateReflectsCandidateCount(candidates: set<string>)
    requires forall v | v in candidates :: WellFormedName(v)
    ensures GetTemplate(JoinedCandidates(candidates)) ==
      if |candidates| == 0 then NoVerifierFound
      else if |candidates| == 1 then SingleVerifier
      else MultipleVerifiersFound
  {
    var names := AscendingList(candidates);
    assert forall k | 0 <= k < |names| :: WellFormedName(names[k]) by {
      forall k | 0 <= k < |names| ensures WellFormedName(names[k]) {
        assert names[k] in candidates;
      }
    }
    JoinIsBlankIffEmpty(";", names);
    JoinHasSeparatorIffTwoOrMore(';', names);
  }

  /** With one candidate, the string is that candidate's name. */
  lemma SingleCandidateIsItsName(name: string)
    ensures JoinedCandidates({name}) == name
  {
    var names := AscendingList({name});
    assert names[0] in {name};
  }

  /** The string lists the candidates, each once, in ascending ordinal order:
      splitting it at ';' gives them back. */
  lemma JoinedCandidatesSplitBack(candidates: set<string>)
    requires candidates != {}
    requires forall v | v in candidates :: WellFormedName(v)
    ensures var names := Split(JoinedCandidates(candidates), ';');
      && StrictlyAscending(names)
      && (forall v :: v in names <==> v in candidates)
  {
    var names := AscendingList(candidates);
    assert names != [] by {
      var v :| v in candidates;
      assert v in names;
    }
    forall k | 0 <= k < |names| ensures ';' !in names[k] {
      assert names[k] in candidates;
    }
    SplitJoin(';', names);
  }

  /** Different candidate sets give different strings. */
  lemma JoinedCandidatesAreInjective(a: set<string>, b: set<string>)
    requires forall v | v in a :: WellFormedName(v)
    requires forall v | v in b :: WellFormedName(v)
    requires JoinedCandidates(a) == JoinedCandidates(b)
    ensures a == b
  {
    TemplateReflectsCandidateCount(a);
    TemplateReflectsCandidateCount(b);
    if a != {} && b != {} {
      JoinedCandidatesSplitBack(a);
      JoinedCandidatesSplitBack(b);
      forall v ensures v in a <==> v in b { }
    }
  }

  /** A name is a candidate of `trees` exactly when some tree offers it. */
  lemma {:induction false} CandidatesOfTrees(trees: seq<SyntaxTree>, v: string)
    ensures v in CandidatesOf(trees) <==> exists t | t in trees :: v in TreeCandidates(t)
  {
    if trees != [] {
      var init := trees[..|trees| - 1];
      CandidatesOfTrees(init, v);
      assert trees == init + [trees[|trees| - 1]];
      if v in TreeCandidates(trees[|trees| - 1]) {
        assert trees[|trees| - 1] in trees;
      }
      if exists t | t in trees :: v in TreeCandidates(t) {
        var t :| t in trees && v in TreeCandidates(t);
        if t != trees[|trees| - 1] {
          assert t in init;
        }
      }
    }
  }

  /** The order in which the syntax trees are visited does not change the result. */
  lemma VisitOrderIsIrrelevant(c1: Compilation, c2: Compilation)
    requires multiset(c1.syntaxTrees) == multiset(c2.syntaxTrees)
    ensures VerifierTypes(c1) == VerifierTypes(c2)
  {
    forall v ensures v in CandidatesOf(c1.syntaxTrees) <==> v in CandidatesOf(c2.syntaxTrees) {
      CandidatesOfTrees(c1.syntaxTrees, v);
      CandidatesOfTrees(c2.syntaxTrees, v);
      forall t ensures t in c1.syntaxTrees <==> t in c2.syntaxTrees {
        assert t in c1.syntaxTrees <==> t in multiset(c1.syntaxTrees);
        assert t in c2.syntaxTrees <==> t in multiset(c2.syntaxTrees);
      }
    }
    assert CandidatesOf(c1.syntaxTrees) == CandidatesOf(c2.syntaxTrees);
  }

  /** Every node of the tree below `node`, in the order the walker visits them:
      the node itself, then each child's nodes in turn. */
  function Nodes(node: SyntaxNode): (r: seq<SyntaxNode>)
    ensures |r| >= 1 && r[0] == node
    decreases node, 1
  {
    [node] + ChildrenNodes(node, |node.children|)
  }

  function ChildrenNodes(node: SyntaxNode, k: nat): seq<SyntaxNode>
    requires k <= |node.children|
    decreases node, 0, k
  {
    if k == 0 then [] else ChildrenNodes(node, k - 1) + Nodes(node.children[k - 1])
  }

  /** Some node of `nodes` offers `v` itself. */
  predicate SomeNodeOffers(nodes: seq<SyntaxNode>, v: string) {
    exists n | n in nodes :: v in NodeEvidence(n)
  }

  lemma SomeNodeOffersConcat(a: seq<SyntaxNode>, b: seq<SyntaxNode>, v: string)
    ensures SomeNodeOffers(a + b, v) <==> SomeNodeOffers(a, v) || SomeNodeOffers(b, v)
  {
    if SomeNodeOffers(a + b, v) {
      var n :| n in a + b && v in NodeEvidence(n);
      assert n in a || n in b;
    }
    if SomeNodeOffers(a, v) {
      var n :| n in a && v in NodeEvidence(n);
      assert n in a + b;
    }
    if SomeNodeOffers(b, v) {
      var n :| n in b && v in NodeEvidence(n);
      assert n in a + b;
    }
  }

  /** The walk finds exactly the evidence of the nodes it visits. */
  lemma {:induction false} CandidatesAreEvidenceOfNodes(node: SyntaxNode, v: string)
    ensures v in NodeCandidates(node) <==> SomeNodeOffers(Nodes(node), v)
    decreases node, 1
  {
    ChildrenCandidatesAreEvidenceOfNodes(node, |node.children|, v);
    SomeNodeOffersConcat([node], ChildrenNodes(node, |node.children|), v);
    assert SomeNodeOffers([node], v) <==> v in NodeEvidence(node) by {
      assert node in [node];
    }
  }

  lemma {:induction false} ChildrenCandidatesAreEvidenceOfNodes(node: SyntaxNode, k: nat, v: string)
    requires k <= |node.children|
    ensures v in ChildrenCandidates(node, k) <==> SomeNodeOffers(ChildrenNodes(node, k), v)
    decreases node, 0, k
  {
    if k > 0 {
      ChildrenCandidatesAreEvidenceOfNodes(node, k - 1, v);
      CandidatesAreEvidenceOfNodes(node.children[k - 1], v);
      SomeNodeOffersConcat(ChildrenNodes(node, k - 1), Nodes(node.children[k - 1]), v);
    }
  }

  // ---------------------------------------------------------------------------
  // The source as written: `.Last()` on an empty hierarchy throws

  /** The exception `Enumerable.Last` throws on an empty sequence. */
  datatype Fault = InvalidOperation

  /** `GetTypeHierarchy().Last()` as the source calls it. */
  function LastOfHierarchyAsWritten(symbol: NamedType): (r: Result<NamedType, Fault>)
    ensures r.Failure? <==> symbol.baseType.None?
  {
    var hierarchy := TypeHierarchy(symbol);
    if hierarchy == [] then Failure(InvalidOperation) else Success(hierarchy[|hierarchy| - 1])
  }

  /** `GetVerifierTypeName` as written: the exception escapes it exactly for a
      resolved type without a base type; there the corrected check finds
      nothing, and everywhere else the two agree. */
  function EvidenceAsWritten(typeSymbol: Option<NamedType>): (r: Result<Option<string>, Fault>)
    ensures r.Failure? <==> typeSymbol.Some? && typeSymbol.value.baseType.None?
    ensures r.Failure? ==> Evidence(typeSymbol) == None
    ensures r.Success? ==> r.value == Evidence(typeSymbol)
  {
    match typeSymbol
    case None => Success(None)
    case Some(symbol) =>
      match LastOfHierarchyAsWritten(symbol)
      case Failure(fault) => Failure(fault)
      case Success(rootType) =>
        Success(if IsMarker(rootType) then Some(rootType.typeArguments[0]) else None)
  }

  /** The node creates or declares a type that has no base type, as
      `new object()` does. */
  predicate CreatesOrDeclaresBaseless(node: SyntaxNode) {
    match node
    case ObjectCreation(createdType, _) => createdType.Some? && createdType.value.baseType.None?
    case ClassDeclaration(declaredSymbol, _) => declaredSymbol.Some? && declaredSymbol.value.baseType.None?
    case OtherNode(_) => false
  }

  function EvidenceSetAsWritten(typeSymbol: Option<NamedType>): Result<set<string>, Fault> {
    match EvidenceAsWritten(typeSymbol)
    case Failure(fault) => Failure(fault)
    case Success(evidence) => Success(AsSet(evidence))
  }

  /** What visiting one node adds as written, before its children are visited:
      the exception for a type without a base type, otherwise its evidence. */
  function NodeEvidenceAsWritten(node: SyntaxNode): (r: Result<set<string>, Fault>)
    ensures r.Failure? <==> CreatesOrDeclaresBaseless(node)
    ensures r.Success? ==> r.value == NodeEvidence(node)
  {
    match node
    case ObjectCreation(createdType, _) => EvidenceSetAsWritten(createdType)
    case ClassDeclaration(declaredSymbol, _) => EvidenceSetAsWritten(declaredSymbol)
    case OtherNode(_) => Success({})
  }

  /** The walk of `node` as written: the node first, then its children in
      order; the first exception ends the walk and escapes it. */
  function WalkAsWritten(node: SyntaxNode): (r: Result<set<string>, Fault>)
    ensures r.Success? ==> r.value == NodeCandidates(node)
    decreases node, 1
  {
    match NodeEvidenceAsWritten(node)
    case Failure(fault) => Failure(fault)
    case Success(own) =>
      match ChildrenWalkAsWritten(node, |node.children|)
      case Failure(fault) => Failure(fault)
      case Success(found) => Success(own + found)
  }

  /** The walk of the first `k` children of `node` as written. */
  function ChildrenWalkAsWritten(node: SyntaxNode, k: nat): (r: Result<set<string>, Fault>)
    requires k <= |node.children|
    ensures r.Success? ==> r.value == ChildrenCandidates(node, k)
    decreases node, 0, k
  {
    if k == 0 then Success({})
    else
      match ChildrenWalkAsWritten(node, k - 1)
      case Failure(fault) => Failure(fault)
      case Success(found) =>
        match WalkAsWritten(node.children[k - 1])
        case Failure(fault) => Failure(fault)
        case Success(more) => Success(found + more)
  }

  predicate SomeNodeThrows(nodes: seq<SyntaxNode>) {
    exists n | n in nodes :: CreatesOrDeclaresBaseless(n)
  }

  lemma SomeNodeThrowsConcat(a: seq<SyntaxNode>, b: seq<SyntaxNode>)
    ensures SomeNodeThrows(a + b) <==> SomeNodeThrows(a) || SomeNodeThrows(b)
  {
    if SomeNodeThrows(a + b) {
      var n :| n in a + b && CreatesOrDeclaresBaseless(n);
      assert n in a || n in b;
    }
    if SomeNodeThrows(a) {
      var n :| n in a && CreatesOrDeclaresBaseless(n);
      assert n in a + b;
    }
    if SomeNodeThrows(b) {
      var n :| n in b && CreatesOrDeclaresBaseless(n);
      assert n in a + b;
    }
  }

  /** As written, the walk of a tree throws exactly when it visits a node that
      creates or declares a type without a base type. */
  lemma {:induction false} WalkThrowsIffBaseless(node: SyntaxNode)
    ensures WalkAsWritten(node).Failure? <==> SomeNodeThrows(Nodes(node))
    decreases node, 1
  {
    ChildrenWalkThrowsIffBaseless(node, |node.children|);
    SomeNodeThrowsConcat([node], ChildrenNodes(node, |node.children|));
    assert SomeNodeThrows([node]) <==> CreatesOrDeclaresBaseless(node) by {
      assert node in [node];
    }
  }

  lemma {:induction false} ChildrenWalkThrowsIffBaseless(node: SyntaxNode, k: nat)
    requires k <= |node.children|
    ensures ChildrenWalkAsWritten(node, k).Failure? <==> SomeNodeThrows(ChildrenNodes(node, k))
    decreases node, 0, k
  {
    if k > 0 {
      ChildrenWalkThrowsIffBaseless(node, k - 1);
      WalkThrowsIffBaseless(node.children[k - 1]);
      SomeNodeThrowsConcat(ChildrenNodes(node, k - 1), Nodes(node.children[k - 1]));
    }
  }

  /** The loop of `FindVerifierTypes` over the trees as written: the names
      found so far, or the exception of the first walk that throws. */
  function TreesAsWritten(trees: seq<SyntaxTree>): (r: Result<set<string>, Fault>)
    ensures r.Success? ==> r.value == CandidatesOf(trees)
  {
    if trees == [] then Success({})
    else
      match TreesAsWritten(trees[..|trees| - 1])
      case Failure(fault) => Failure(fault)
      case Success(found) =>
        match WalkAsWritten(trees[|trees| - 1].root)
        case Failure(fault) => Failure(fault)
        case Success(more) => Success(found + more)
  }

  /** The loop over the trees throws exactly when the walk of one of them does. */
  lemma {:induction false} TreesThrowIffSomeWalkThrows(trees: seq<SyntaxTree>)
    ensures TreesAsWritten(trees).Failure? <==> exists t | t in trees :: WalkAsWritten(t.root).Failure?
  {
    if trees != [] {
      var init := trees[..|trees| - 1];
      var last := trees[|trees| - 1];
      TreesThrowIffSomeWalkThrows(init);
      assert trees == init + [last];
      if WalkAsWritten(last.root).Failure? {
        assert last in trees;
      }
      if exists t | t in trees :: WalkAsWritten(t.root).Failure? {
        var t :| t in trees && WalkAsWritten(t.root).Failure?;
        if t != last {
          assert t in init;
        }
      }
    }
  }

  /** `FindVerifierTypes` as written: the exception escapes it exactly when
      the walk of some tree throws; otherwise it returns what the corrected
      generator returns. */
  ghost function FindVerifierTypesAsWritten(compilation: Compilation): (r: Result<string, Fault>)
    ensures r.Failure? <==> exists t | t in compilation.syntaxTrees :: WalkAsWritten(t.root).Failure?
    ensures r.Success? ==> r.value == VerifierTypes(compilation)
  {
    TreesThrowIffSomeWalkThrows(compilation.syntaxTrees);
    match TreesAsWritten(compilation.syntaxTrees)
    case Failure(fault) => Failure(fault)
    case Success(candidates) => Success(JoinedCandidates(candidates))
  }

  /** The sources the generator adds as written: none when the exception
      escaped, since the generator driver then drops its output, and otherwise
      the one source the corrected generator adds. */
  ghost function GeneratedSourcesAsWritten(templates: Templates, compilation: Compilation): (r: seq<GeneratedSource>)
    ensures r == [] <==> FindVerifierTypesAsWritten(compilation).Failure?
    ensures r != [] ==> r == [GenerateSource(templates, VerifierTypes(compilation))]
  {
    match FindVerifierTypesAsWritten(compilation)
    case Failure(_) => []
    case Success(verifierTypes) => [GenerateSource(templates, verifierTypes)]
  }
}

/**
 * The symbol helpers of the analyzer project (ExtensionMethods.cs): walking a
 * named type's base-type chain and its chain of containing namespaces, and
 * rendering the namespace the way the generator compares it.
 *
 * Roslyn's symbols are modelled as values. A base type or containing namespace
 * that may be null is an `Option`; because the datatypes are inductive, every
 * chain is finite.
 */
module Symbols {
  import opened Options
  import opened Text

  /** A namespace symbol: its own simple name, whether it is the global
      namespace, and the namespace that contains it. */
  datatype Namespace = Namespace(name: string, isGlobal: bool, containing: Option<Namespace>)

  /** A named type symbol. `typeArguments` holds each type argument as
      `ToDisplayString(SymbolDisplayFormat.FullyQualifiedFormat)` renders it. */
  datatype NamedType = NamedType(
    name: string,
    isGenericType: bool,
    typeArguments: seq<string>,
    baseType: Option<NamedType>,
    containingNamespace: Option<Namespace>)

  /** The global namespace: it contains every top-level namespace. */
  const GlobalNamespace := Namespace("<global namespace>", true, None)

  /** A namespace's `ToString()`: its qualified name, the names from the
      outermost namespace inwards joined by '.', the global namespace left out. */
  function DisplayString(ns: Namespace): string {
    match ns.containing
    case Some(outer) => if outer.isGlobal then ns.name else DisplayString(outer) + "." + ns.name
    case None => ns.name
  }

  // ---------------------------------------------------------------------------
  // GetTypeHierarchy

  /** The elements `GetTypeHierarchy` yields: the type and each successive base
      type, as long as the current one has a base type of its own. */
  function TypeHierarchy(symbol: NamedType): seq<NamedType> {
    match symbol.baseType
    case None => []
    case Some(base) => [symbol] + TypeHierarchy(base)
  }

  /** `h` starts at `symbol`, each element is the base type of the one before,
      every element has a base type, and the element after the last is the root
      (it has none). */
  predicate IsTypeHierarchyOf(symbol: NamedType, h: seq<NamedType>) {
    && (h == [] <==> symbol.baseType.None?)
    && (h != [] ==> h[0] == symbol && h[|h| - 1].baseType.Some? && h[|h| - 1].baseType.value.baseType.None?)
    && (forall i | 0 <= i < |h| :: h[i].baseType.Some?)
    && (forall i | 0 <= i < |h| - 1 :: h[i + 1] == h[i].baseType.value)
  }

  /** The number of types on the chain from `symbol` up to and including the root. */
  function ChainDepth(symbol: NamedType): nat {
    match symbol.baseType
    case None => 1
    case Some(base) => 1 + ChainDepth(base)
  }

  /** `GetTypeHierarchy`, with the lazy sequence enumerated to its end. */
  method GetTypeHierarchy(symbol: NamedType) returns (hierarchy: seq<NamedType>)
    ensures hierarchy == TypeHierarchy(symbol)
    ensures IsTypeHierarchyOf(symbol, hierarchy)
  {
    hierarchy := [];
    var current := symbol;
    while current.baseType != None
      invariant hierarchy + TypeHierarchy(current) == TypeHierarchy(symbol)
      decreases current
    {
      hierarchy := hierarchy + [current];
      current := current.baseType.value;
    }
    TypeHierarchyShape(symbol);
  }

  /** The walk yields the chain described by `IsTypeHierarchyOf`; it is one
      shorter than the chain, the root being left out. */
  lemma {:induction false} TypeHierarchyShape(symbol: NamedType)
    ensures IsTypeHierarchyOf(symbol, TypeHierarchy(symbol))
    ensures |TypeHierarchy(symbol)| == ChainDepth(symbol) - 1
  {
    match symbol.baseType
    case None =>
    case Some(base) =>
      TypeHierarchyShape(base);
      var h := TypeHierarchy(symbol);
      assert h[1..] == TypeHierarchy(base);
  }

  /** Only one sequence has the shape of `IsTypeHierarchyOf`: the walk's. */
  lemma {:induction false} TypeHierarchyIsUnique(symbol: NamedType, h: seq<NamedType>)
    requires IsTypeHierarchyOf(symbol, h)
    ensures h == TypeHierarchy(symbol)
  {
    match symbol.baseType
    case None =>
    case Some(base) =>
      assert h[0] == symbol;
      if |h| > 1 {
        assert h[1] == base && h[1].baseType.Some?;
        TypeHierarchyIsUnique(base, h[1..]);
      } else {
        assert h[0] == symbol;
      }
      assert h == [h[0]] + h[1..];
  }

  /** The type directly below the root of `symbol`'s chain, when the chain has
      more than the root. */
  function DirectlyBelowRoot(symbol: NamedType): Option<NamedType> {
    match symbol.baseType
    case None => None
    case Some(base) => if base.baseType.None? then Some(symbol) else DirectlyBelowRoot(base)
  }

  /** The last element of the walk is the type directly below the root; the walk
      is empty exactly when `symbol` is itself a root. */
  lemma {:induction false} LastOfHierarchyIsBelowRoot(symbol: NamedType)
    ensures TypeHierarchy(symbol) == [] <==> DirectlyBelowRoot(symbol).None?
    ensures TypeHierarchy(symbol) != [] ==>
      TypeHierarchy(symbol)[|TypeHierarchy(symbol)| - 1] == DirectlyBelowRoot(symbol).value
    ensures DirectlyBelowRoot(symbol).Some? ==>
      DirectlyBelowRoot(symbol).value.baseType.Some? &&
      DirectlyBelowRoot(symbol).value.baseType.value.baseType.None?
  {
    match symbol.baseType
    case None =>
    case Some(base) =>
      LastOfHierarchyIsBelowRoot(base);
  }

  // ---------------------------------------------------------------------------
  // GetNamespaceHierarchy

  /** True when the walk over containing namespaces stops at `ns`: it is missing
      or it is the global namespace. */
  predicate StopsAt(ns: Option<Namespace>) {
    ns.None? || ns.value.isGlobal
  }

  /** The namespaces yielded when the walk starts at `ns`. */
  function NamespaceChain(ns: Option<Namespace>): seq<Namespace> {
    match ns
    case None => []
    case Some(n) => if n.isGlobal then [] else [n] + NamespaceChain(n.containing)
  }

  /** The elements `GetNamespaceHierarchy` yields, innermost namespace first. */
  function NamespaceHierarchy(symbol: NamedType): seq<Namespace> {
    NamespaceChain(symbol.containingNamespace)
  }

  /** `h` starts at the namespace containing `symbol`, each element contains the
      one before, none is the global namespace, and the walk stops after the last. */
  predicate IsNamespaceHierarchyOf(symbol: NamedType, h: seq<Namespace>) {
    && (h == [] <==> StopsAt(symbol.containingNamespace))
    && (h != [] ==> Some(h[0]) == symbol.containingNamespace && StopsAt(h[|h| - 1].containing))
    && (forall i | 0 <= i < |h| :: !h[i].isGlobal)
    && (forall i | 0 <= i < |h| - 1 :: Some(h[i + 1]) == h[i].containing)
  }

  /** `GetNamespaceHierarchy`, with the lazy sequence enumerated to its end. */
  method GetNamespaceHierarchy(symbol: NamedType) returns (hierarchy: seq<Namespace>)
    ensures hierarchy == NamespaceHierarchy(symbol)
    ensures IsNamespaceHierarchyOf(symbol, hierarchy)
  {
    hierarchy := [];
    var namespaceSymbol := symbol.containingNamespace;
    while namespaceSymbol.Some? && !namespaceSymbol.value.isGlobal
      invariant hierarchy + NamespaceChain(namespaceSymbol) == NamespaceHierarchy(symbol)
      decreases namespaceSymbol
    {
      hierarchy := hierarchy + [namespaceSymbol.value];
      namespaceSymbol := namespaceSymbol.value.containing;
    }
    NamespaceChainShape(symbol.containingNamespace);
  }

  lemma {:induction false} NamespaceChainShape(ns: Option<Namespace>)
    ensures var h := NamespaceChain(ns);
      && (h == [] <==> StopsAt(ns))
      && (h != [] ==> Some(h[0]) == ns && StopsAt(h[|h| - 1].containing))
      && (forall i | 0 <= i < |h| :: !h[i].isGlobal)
      && (forall i | 0 <= i < |h| - 1 :: Some(h[i + 1]) == h[i].containing)
  {
    match ns
    case None =>
    case Some(n) =>
      if !n.isGlobal {
        NamespaceChainShape(n.containing);
        assert NamespaceChain(ns)[1..] == NamespaceChain(n.containing);
      }
  }

  /** The walk yields innermost first, never the global namespace, and stops at
      the global or a missing namespace. */
  lemma NamespaceHierarchyShape(symbol: NamedType)
    ensures IsNamespaceHierarchyOf(symbol, NamespaceHierarchy(symbol))
  {
    NamespaceChainShape(symbol.containingNamespace);
  }

  lemma {:induction false} NamespaceChainIsUnique(ns: Option<Namespace>, h: seq<Namespace>)
    requires h == [] <==> StopsAt(ns)
    requires h != [] ==> Some(h[0]) == ns && StopsAt(h[|h| - 1].containing)
    requires forall i | 0 <= i < |h| :: !h[i].isGlobal
    requires forall i | 0 <= i < |h| - 1 :: Some(h[i + 1]) == h[i].containing
    ensures h == NamespaceChain(ns)
  {
    if h != [] {
      var n := ns.value;
      assert h[0] == n;
      if |h| > 1 {
        assert Some(h[1]) == n.containing && !h[1].isGlobal;
      }
      NamespaceChainIsUnique(n.containing, h[1..]);
      assert h == [h[0]] + h[1..];
    }
  }

  /** Only one sequence has the shape of `IsNamespaceHierarchyOf`: the walk's. */
  lemma NamespaceHierarchyIsUnique(symbol: NamedType, h: seq<Namespace>)
    requires IsNamespaceHierarchyOf(symbol, h)
    ensures h == NamespaceHierarchy(symbol)
  {
    NamespaceChainIsUnique(symbol.containingNamespace, h);
  }

  // ---------------------------------------------------------------------------
  // GetNamespace

  function Reverse<T>(s: seq<T>): (r: seq<T>)
    ensures |r| == |s|
    ensures forall i | 0 <= i < |s| :: r[i] == s[|s| - 1 - i]
  {
    if s == [] then [] else Reverse(s[1..]) + [s[0]]
  }

  /** The display strings of `namespaces`, in order. */
  function DisplayStrings(namespaces: seq<Namespace>): (r: seq<string>)
    ensures |r| == |namespaces|
    ensures forall i | 0 <= i < |namespaces| :: r[i] == DisplayString(namespaces[i])
  {
    seq(|namespaces|, i requires 0 <= i < |namespaces| => DisplayString(namespaces[i]))
  }

  /** The string `GetNamespace` returns: the namespace hierarchy outermost
      first, each namespace as its display string, joined by '.'. */
  function NamespaceString(symbol: NamedType): string {
    Join(".", DisplayStrings(Reverse(NamespaceHierarchy(symbol))))
  }

  /** `GetNamespace`. */
  method GetNamespace(symbol: NamedType) returns (ns: string)
    ensures ns == NamespaceString(symbol)
  {
    var hierarchy := GetNamespaceHierarchy(symbol);
    ns := Join(".", DisplayStrings(Reverse(hierarchy)));
  }

  /** A type outside every named namespace renders as ""; when the namespaces
      have names, that is the only way to get "". */
  lemma NamespaceStringEmptyIffGlobal(symbol: NamedType)
    requires forall i | 0 <= i < |NamespaceHierarchy(symbol)| :: NamespaceHierarchy(symbol)[i].name != ""
    ensures NamespaceString(symbol) == "" <==> StopsAt(symbol.containingNamespace)
  {
    var h := NamespaceHierarchy(symbol);
    NamespaceHierarchyShape(symbol);
    if h != [] {
      var parts := DisplayStrings(Reverse(h));
      DisplayStringEndsWithName(h[0]);
      assert parts[|parts| - 1] == DisplayString(h[0]);
      JoinSnoc(".", parts[..|parts| - 1], parts[|parts| - 1]);
      assert parts[..|parts| - 1] + [parts[|parts| - 1]] == parts;
    }
  }

  lemma {:induction false} DisplayStringEndsWithName(ns: Namespace)
    ensures |ns.name| <= |DisplayString(ns)|
  {
    match ns.containing
    case None =>
    case Some(outer) =>
      if !outer.isGlobal {
        DisplayStringEndsWithName(outer);
      }
  }

  // Namespaces declared by a dotted path, such as `namespace A.B.C`.

  /** The namespace `path[0].path[1]...` declared under the global namespace. */
  function NamespaceAt(path: seq<string>): Namespace
    requires path != []
  {
    if |path| == 1 then Namespace(path[0], false, Some(GlobalNamespace))
    else Namespace(path[|path| - 1], false, Some(NamespaceAt(path[..|path| - 1])))
  }

  /** The display strings of the namespaces `path[..1]`, `path[..2]`, ..., `path`. */
  function QualifiedPrefixes(path: seq<string>): (r: seq<string>)
    ensures |r| == |path|
  {
    seq(|path|, i requires 0 <= i < |path| => Join(".", path[..i + 1]))
  }

  /** A namespace declared by a path displays as the path joined by '.'. */
  lemma {:induction false} NamespaceAtDisplay(path: seq<string>)
    requires path != []
    ensures DisplayString(NamespaceAt(path)) == Join(".", path)
  {
    if |path| > 1 {
      var init := path[..|path| - 1];
      NamespaceAtDisplay(init);
      JoinSnoc(".", init, path[|path| - 1]);
      assert init + [path[|path| - 1]] == path;
    }
  }

  /** For a type in the namespace declared by `path`, `GetNamespace` joins the
      qualified name of every enclosing namespace, outermost first. Each element
      contributes its whole qualified name, so the namespace names repeat. */
  lemma {:induction false} NamespaceStringOfPath(symbol: NamedType, path: seq<string>)
    requires path != []
    requires symbol.containingNamespace == Some(NamespaceAt(path))
    ensures NamespaceString(symbol) == Join(".", QualifiedPrefixes(path))
  {
    NamespaceChainReversed(path);
    var parts := DisplayStrings(Reverse(NamespaceHierarchy(symbol)));
    forall i | 0 <= i < |path| ensures parts[i] == QualifiedPrefixes(path)[i] {
      NamespaceAtDisplay(path[..i + 1]);
    }
    assert parts == QualifiedPrefixes(path);
  }

  /** Outermost first, the chain above `NamespaceAt(path)` is the namespaces of
      the successive prefixes of `path`. */
  lemma {:induction false} NamespaceChainReversed(path: seq<string>)
    requires path != []
    ensures var r := Reverse(NamespaceChain(Some(NamespaceAt(path))));
      |r| == |path| && forall i | 0 <= i < |path| :: r[i] == NamespaceAt(path[..i + 1])
  {
    var chain := NamespaceChain(Some(NamespaceAt(path)));
    if |path| == 1 {
      assert NamespaceChain(Some(GlobalNamespace)) == [];
      assert chain == [NamespaceAt(path)];
      assert path[..1] == path;
    } else {
      var init := path[..|path| - 1];
      NamespaceChainReversed(init);
      var inner := NamespaceChain(Some(NamespaceAt(init)));
      assert chain == [NamespaceAt(path)] + inner;
      var r := Reverse(chain);
      forall i | 0 <= i < |path| ensures r[i] == NamespaceAt(path[..i + 1]) {
        if i < |path| - 1 {
          assert r[i] == Reverse(inner)[i];
          assert init[..i + 1] == path[..i + 1];
        } else {
          assert path[..i + 1] == path;
        }
      }
    }
  }
}

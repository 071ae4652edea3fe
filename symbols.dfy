/** Symbols: a syntax node paired with the symbol of the node that encloses it. */
module Symbols {
  import opened Optional
  import opened Syntax

  /** A symbol wraps `node`; `parent` is `None` only for the symbol of the source file. */
  datatype Symbol = Symbol(node: Node, parent: Option<Symbol>)

  /** The kinds whose presence as a parent opens one more level of scope. */
  predicate IsScopeKind(k: Kind) {
    k == FunctionDeclaration || k == ClassDeclaration || k == MethodDeclaration
    || k == VariableDeclaration || k == PropertyDeclaration
  }

  /** The scope depth of a symbol, computed by walking up its parent chain. */
  function Depth(s: Symbol): (d: nat)
    ensures d <= |Ancestors(s)|
  {
    match s.parent
    case None => 0
    case Some(p) => if IsScopeKind(p.node.kind) then Depth(p) + 1 else Depth(p)
  }

  /** The parent chain of `s`, nearest ancestor first. */
  function Ancestors(s: Symbol): seq<Symbol>
  {
    match s.parent
    case None => []
    case Some(p) => [p] + Ancestors(p)
  }

  /** For each ancestor, whether it opens a scope. */
  function ScopeFlags(ancestors: seq<Symbol>): (r: seq<bool>)
    ensures |r| == |ancestors|
  {
    if ancestors == [] then [] else [IsScopeKind(ancestors[0].node.kind)] + ScopeFlags(ancestors[1..])
  }

  /** The number of scope-introducing ancestors of `s`: the depth as a count of scope-introducing ancestors. */
  ghost function ScopeAncestorCount(s: Symbol): nat
  {
    multiset(ScopeFlags(Ancestors(s)))[true]
  }

  /** The root symbol has depth 0. */
  lemma RootDepth(n: Node)
    ensures Depth(Symbol(n, None)) == 0
  {
  }

  /** A child is one level deeper than its parent exactly when the parent opens a scope. */
  lemma ChildDepth(p: Symbol, n: Node)
    ensures Depth(Symbol(n, Some(p))) == Depth(p) + 1 <==> IsScopeKind(p.node.kind)
    ensures Depth(Symbol(n, Some(p))) == Depth(p) <==> !IsScopeKind(p.node.kind)
  {
  }

  /** The recursive depth counts exactly the scope-introducing ancestors. */
  lemma {:induction false} DepthIsScopeAncestorCount(s: Symbol)
    ensures Depth(s) == ScopeAncestorCount(s)
  {
    match s.parent
    case None =>
    case Some(p) =>
      DepthIsScopeAncestorCount(p);
      var b := IsScopeKind(p.node.kind);
      var rest := ScopeFlags(Ancestors(p));
      var flags := ScopeFlags(Ancestors(s));
      assert Ancestors(s)[1..] == Ancestors(p);
      assert flags == [b] + rest;
      assert multiset(flags) == multiset([b]) + multiset(rest);
  }
}

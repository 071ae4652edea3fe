/**
 * The traversal that collects declared identifiers: a pre-order walk over the
 * syntax tree that, at every variable declaration, records each direct
 * identifier child as a symbol whose parent is the declaration's symbol.
 */
module Visitor {
  import opened Optional
  import opened Syntax
  import opened Symbols

  /** The identifier nodes among `cs`, in order, each wrapped with parent `decl`. */
  function IdentifierChildren(decl: Symbol, cs: seq<Node>): (r: seq<Symbol>)
    ensures |r| <= |cs|
  {
    if cs == [] then []
    else
      var last := cs[|cs| - 1];
      IdentifierChildren(decl, cs[..|cs| - 1])
      + (if last.kind == Identifier then [Symbol(last, Some(decl))] else [])
  }

  /** A node is recorded under `decl` exactly when it is one of `cs` and is an identifier. */
  lemma {:induction false} IdentifierChildrenExact(decl: Symbol, cs: seq<Node>, c: Node)
    ensures Symbol(c, Some(decl)) in IdentifierChildren(decl, cs) <==> c in cs && c.kind == Identifier
  {
    if cs != [] {
      IdentifierChildrenExact(decl, cs[..|cs| - 1], c);
      assert cs == cs[..|cs| - 1] + [cs[|cs| - 1]];
    }
  }

  /** Every symbol recorded under `decl` is an identifier whose parent is `decl`. */
  lemma {:induction false} IdentifierChildrenShape(decl: Symbol, cs: seq<Node>)
    ensures forall e :: e in IdentifierChildren(decl, cs) ==> e.parent == Some(decl) && e.node.kind == Identifier
  {
    if cs != [] {
      IdentifierChildrenShape(decl, cs[..|cs| - 1]);
    }
  }

  /** What one visited symbol contributes by itself, before its children are visited. */
  function DeclaredHere(s: Symbol): (r: seq<Symbol>)
    ensures |r| <= |s.node.children|
  {
    if s.node.kind == VariableDeclaration then IdentifierChildren(s, s.node.children) else []
  }

  /** Every symbol collected from `s` is an identifier whose parent is a variable declaration. */
  ghost predicate DeclaredIdentifiers(r: seq<Symbol>) {
    forall e :: e in r ==>
      e.node.kind == Identifier && e.parent.Some? && e.parent.value.node.kind == VariableDeclaration
  }

  /** The symbols the traversal appends when it visits `s`. */
  function Collected(s: Symbol): seq<Symbol>
    decreases s.node, |s.node.children| + 1
  {
    DeclaredHere(s) + CollectedFromChildren(s, |s.node.children|)
  }

  /** The symbols appended by visiting the first `k` children of `s`, each wrapped with parent `s`. */
  function CollectedFromChildren(s: Symbol, k: nat): seq<Symbol>
    requires k <= |s.node.children|
    decreases s.node, k
  {
    if k == 0 then []
    else CollectedFromChildren(s, k - 1) + Collected(Symbol(s.node.children[k - 1], Some(s)))
  }

  /** All symbols the traversal creates below and including `s`, in pre-order. */
  function PreOrder(s: Symbol): (r: seq<Symbol>)
    ensures |r| >= 1 && r[0] == s
    decreases s.node, |s.node.children| + 1
  {
    [s] + PreOrderOfChildren(s, |s.node.children|)
  }

  function PreOrderOfChildren(s: Symbol, k: nat): seq<Symbol>
    requires k <= |s.node.children|
    decreases s.node, k
  {
    if k == 0 then []
    else PreOrderOfChildren(s, k - 1) + PreOrder(Symbol(s.node.children[k - 1], Some(s)))
  }

  /** The contributions of `ss`, concatenated in order. */
  function DeclaredIn(ss: seq<Symbol>): seq<Symbol>
  {
    if ss == [] then [] else DeclaredIn(ss[..|ss| - 1]) + DeclaredHere(ss[|ss| - 1])
  }

  lemma {:induction false} DeclaredInAppend(a: seq<Symbol>, b: seq<Symbol>)
    ensures DeclaredIn(a + b) == DeclaredIn(a) + DeclaredIn(b)
    decreases |b|
  {
    if b != [] {
      assert (a + b)[..|a + b| - 1] == a + b[..|b| - 1];
      DeclaredInAppend(a, b[..|b| - 1]);
    } else {
      assert a + b == a;
    }
  }

  /**
   * The traversal appends exactly the identifier children of every variable
   * declaration in the tree, declaration by declaration in pre-order.
   */
  lemma {:induction false} CollectedIsPreOrderDeclarations(s: Symbol)
    ensures Collected(s) == DeclaredIn(PreOrder(s))
    decreases s.node, |s.node.children| + 1
  {
    var k := |s.node.children|;
    CollectedFromChildrenIsPreOrder(s, k);
    DeclaredInAppend([s], PreOrderOfChildren(s, k));
    assert DeclaredIn([s]) == DeclaredHere(s) by {
      assert [s][..0] == [];
    }
  }

  lemma {:induction false} CollectedFromChildrenIsPreOrder(s: Symbol, k: nat)
    requires k <= |s.node.children|
    ensures CollectedFromChildren(s, k) == DeclaredIn(PreOrderOfChildren(s, k))
    decreases s.node, k
  {
    if k > 0 {
      var child := Symbol(s.node.children[k - 1], Some(s));
      var before := PreOrderOfChildren(s, k - 1);
      CollectedFromChildrenIsPreOrder(s, k - 1);
      CollectedIsPreOrderDeclarations(child);
      DeclaredInAppend(before, PreOrder(child));
      var left, right := CollectedFromChildren(s, k - 1), Collected(child);
      assert left == DeclaredIn(before);
      assert right == DeclaredIn(PreOrder(child));
      assert CollectedFromChildren(s, k) == left + right;
      assert PreOrderOfChildren(s, k) == before + PreOrder(child);
    }
  }

  /** Everything the traversal collects is an identifier declared by a variable declaration. */
  lemma {:induction false} CollectedAreDeclaredIdentifiers(s: Symbol)
    ensures DeclaredIdentifiers(Collected(s))
    decreases s.node, |s.node.children| + 1
  {
    if s.node.kind == VariableDeclaration {
      IdentifierChildrenShape(s, s.node.children);
    }
    ChildrenCollectDeclaredIdentifiers(s, |s.node.children|);
  }

  lemma {:induction false} ChildrenCollectDeclaredIdentifiers(s: Symbol, k: nat)
    requires k <= |s.node.children|
    ensures DeclaredIdentifiers(CollectedFromChildren(s, k))
    decreases s.node, k
  {
    if k > 0 {
      ChildrenCollectDeclaredIdentifiers(s, k - 1);
      CollectedAreDeclaredIdentifiers(Symbol(s.node.children[k - 1], Some(s)));
    }
  }

  /** Every collected identifier sits one scope below its declaration, so its scope depth is not negative. */
  lemma CollectedDepth(s: Symbol, e: Symbol)
    requires e in Collected(s)
    ensures e.node.kind == Identifier && e.parent.Some? && e.parent.value.node.kind == VariableDeclaration
    ensures Depth(e) == Depth(e.parent.value) + 1
    ensures Depth(e) - 1 >= 0
  {
    CollectedAreDeclaredIdentifiers(s);
  }

  /** The list the traversal appends to: the model of a caller-supplied array. */
  class SymbolList {
    var items: seq<Symbol>

    constructor ()
      ensures items == []
    {
      items := [];
    }

    method Push(s: Symbol)
      modifies this
      ensures items == old(items) + [s]
    {
      items := items + [s];
    }
  }

  /** Appends the identifier children of the declaration `decl`, each with `decl` as parent. */
  method RecordIdentifierChildren(decl: Symbol, nodes: SymbolList)
    modifies nodes
    ensures nodes.items == old(nodes.items) + IdentifierChildren(decl, decl.node.children)
  {
    var children := decl.node.children;
    for i := 0 to |children|
      invariant nodes.items == old(nodes.items) + IdentifierChildren(decl, children[..i])
    {
      var child := children[i];
      assert children[..i + 1][..i] == children[..i];
      if child.kind == Identifier {
        nodes.Push(Symbol(child, Some(decl)));
      }
    }
    assert children[..|children|] == children;
  }

  /**
   * Visits `symbol`: at a variable declaration, appends its identifier children;
   * then visits every child, wrapped with `symbol` as parent.
   */
  method VisitNode(symbol: Symbol, nodes: SymbolList)
    modifies nodes
    ensures nodes.items == old(nodes.items) + Collected(symbol)
    decreases symbol.node
  {
    if symbol.node.kind == VariableDeclaration {
      RecordIdentifierChildren(symbol, nodes);
    }
    assert nodes.items == old(nodes.items) + DeclaredHere(symbol);
    var children := symbol.node.children;
    for j := 0 to |children|
      invariant nodes.items == old(nodes.items) + DeclaredHere(symbol) + CollectedFromChildren(symbol, j)
    {
      VisitNode(Symbol(children[j], Some(symbol)), nodes);
    }
  }
}

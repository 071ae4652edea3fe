/**
 * A worked pass over a small document:
 *
 *   let x = 1;
 *   function f() { let yyyy = 2; }
 *
 * The inner declaration sits one scope deeper, so the deepest identifier depth
 * is 2; `x` needs 1 + 2 * 3 = 7 characters and is reported, while `yyyy` needs
 * 1 + 1 * 3 = 4 characters and, having exactly four, is not.
 */
module Example {
  import opened Optional
  import opened Syntax
  import opened Symbols
  import opened Visitor
  import opened NamingRule
  import opened Server

  function Leaf(kind: Kind, text: string, start: nat): Node {
    Node(kind, text, start, start + |text|, [])
  }

  function Statement(): Node {
    Node(Other, "let x = 1;", 0, 10, [DeclarationList()])
  }

  function DeclarationList(): Node {
    Node(Other, "let x = 1", 0, 9, [TopLevelDeclaration()])
  }

  function TopLevelDeclaration(): Node {
    Node(VariableDeclaration, "x = 1", 4, 9, [Leaf(Identifier, "x", 4), Leaf(Other, "=", 6), Leaf(Other, "1", 8)])
  }

  function DeclaredFunction(): Node {
    Node(FunctionDeclaration, "function f() { let yyyy = 2; }", 11, 41, [Leaf(Identifier, "f", 20), Body()])
  }

  function Body(): Node {
    Node(Other, "{ let yyyy = 2; }", 24, 41, [InnerStatement()])
  }

  function InnerStatement(): Node {
    Node(Other, "let yyyy = 2;", 26, 39, [InnerDeclarationList()])
  }

  function InnerDeclarationList(): Node {
    Node(Other, "let yyyy = 2", 26, 38, [InnerDeclaration()])
  }

  function InnerDeclaration(): Node {
    Node(VariableDeclaration, "yyyy = 2", 30, 38,
         [Leaf(Identifier, "yyyy", 30), Leaf(Other, "=", 35), Leaf(Other, "2", 37)])
  }

  function Document(): Node {
    Node(Other, "let x = 1;\nfunction f() { let yyyy = 2; }", 0, 41, [Statement(), DeclaredFunction()])
  }

  /** A childless node other than a variable declaration contributes nothing. */
  lemma CollectedLeaf(s: Symbol)
    requires s.node.children == [] && s.node.kind != VariableDeclaration
    ensures Collected(s) == []
  {
  }

  /** A node other than a variable declaration contributes what its children contribute. */
  lemma CollectedPassThrough(s: Symbol)
    requires s.node.kind != VariableDeclaration && 1 <= |s.node.children| <= 2
    ensures |s.node.children| == 1 ==> Collected(s) == Collected(Symbol(s.node.children[0], Some(s)))
    ensures |s.node.children| == 2 ==>
      Collected(s) == Collected(Symbol(s.node.children[0], Some(s))) + Collected(Symbol(s.node.children[1], Some(s)))
  {
    var first := Collected(Symbol(s.node.children[0], Some(s)));
    assert DeclaredHere(s) == [];
    assert CollectedFromChildren(s, 1) == [] + first == first;
    if |s.node.children| == 2 {
      assert CollectedFromChildren(s, 2) == first + Collected(Symbol(s.node.children[1], Some(s)));
    }
  }

  /** A declaration with three leaf children, only the first an identifier, contributes that identifier. */
  lemma CollectedDeclaration(s: Symbol)
    requires s.node.kind == VariableDeclaration && |s.node.children| == 3
    requires forall i :: 0 <= i < 3 ==> s.node.children[i].children == []
    requires s.node.children[0].kind == Identifier
    requires s.node.children[1].kind == Other && s.node.children[2].kind == Other
    ensures Collected(s) == [Symbol(s.node.children[0], Some(s))]
  {
    var cs := s.node.children;
    forall i | 0 <= i < 3
      ensures Collected(Symbol(cs[i], Some(s))) == []
    {
      CollectedLeaf(Symbol(cs[i], Some(s)));
    }
    assert CollectedFromChildren(s, 1) == [] + [] == [];
    assert CollectedFromChildren(s, 2) == [] + [] == [];
    assert CollectedFromChildren(s, 3) == [] + [] == [];
    var x := Symbol(cs[0], Some(s));
    assert cs[..1][..0] == [];
    assert IdentifierChildren(s, cs[..1]) == [] + [x] == [x];
    assert cs[..2][..1] == cs[..1];
    assert IdentifierChildren(s, cs[..2]) == [x] + [] == [x];
    assert cs[..3][..2] == cs[..2];
    assert cs[..3] == cs;
    assert IdentifierChildren(s, cs) == [x] + [] == [x];
    assert Collected(s) == [x] + [] == [x];
  }

  function RootSymbol(): Symbol { Symbol(Document(), None) }
  function OuterDeclarationSymbol(): Symbol {
    Symbol(TopLevelDeclaration(), Some(Symbol(DeclarationList(), Some(Symbol(Statement(), Some(RootSymbol()))))))
  }
  function FunctionSymbol(): Symbol { Symbol(DeclaredFunction(), Some(RootSymbol())) }
  function InnerDeclarationSymbol(): Symbol {
    var body := Symbol(Body(), Some(FunctionSymbol()));
    Symbol(InnerDeclaration(), Some(Symbol(InnerDeclarationList(), Some(Symbol(InnerStatement(), Some(body))))))
  }
  function ShortName(): Symbol { Symbol(Leaf(Identifier, "x", 4), Some(OuterDeclarationSymbol())) }
  function ExactName(): Symbol { Symbol(Leaf(Identifier, "yyyy", 30), Some(InnerDeclarationSymbol())) }

  /** The pass collects `x` and then `yyyy`; the function's own name `f` is not collected. */
  lemma ExampleVariables()
    ensures Variables(Document()) == [ShortName(), ExactName()]
  {
    var outer := OuterDeclarationSymbol();
    var list := outer.parent.value;
    var statement := list.parent.value;
    var inner := InnerDeclarationSymbol();
    var innerList := inner.parent.value;
    var innerStatement := innerList.parent.value;
    var body := innerStatement.parent.value;
    var fn := FunctionSymbol();
    CollectedDeclaration(outer);
    CollectedPassThrough(list);
    CollectedPassThrough(statement);
    CollectedDeclaration(inner);
    CollectedPassThrough(innerList);
    CollectedPassThrough(innerStatement);
    CollectedPassThrough(body);
    CollectedLeaf(Symbol(Leaf(Identifier, "f", 20), Some(fn)));
    CollectedPassThrough(fn);
    CollectedPassThrough(RootSymbol());
  }

  /** `x` sits below one declaration; `yyyy` below a function and a declaration. */
  lemma ExampleDepths()
    ensures Depth(ShortName()) == 1 && Depth(ExactName()) == 2
    ensures RequiredLength(ShortName(), 2) == 7 && RequiredLength(ExactName(), 2) == 4
  {
  }

  lemma ExampleMessage()
    ensures Message(7) == "recommended name length: 7"
  {
  }

  /** Over two checked names at depths 1 and 2, of lengths 1 and 4, only the first is reported. */
  lemma TwoNames(x: Symbol, yyyy: Symbol)
    requires IsChecked(x) && IsChecked(yyyy)
    requires Depth(x) == 1 && Depth(yyyy) == 2
    requires Utf16Length(x.node.text) == 1 && Utf16Length(yyyy.node.text) == 4
    ensures MaxDepthOf([x, yyyy]) == 2
    ensures Flagged(x, 2) && RequiredLength(x, 2) == 7
    ensures Diagnose([x, yyyy], 2) == [DiagnosticFor(x, 2)]
  {
    var vs := [x, yyyy];
    assert vs[..1] == [x];
    assert [x][..0] == [];
    assert Diagnose(vs, 2) == Diagnose([x], 2);
  }

  /** `𝑥𝑦` (U+1D465, U+1D466) is two characters but four UTF-16 units, so a threshold of 4 does not flag it. */
  lemma AstralNameNotFlagged(v: Symbol)
    requires IsChecked(v) && Depth(v) == 1 && v.node.text == "\U{1D465}\U{1D466}"
    ensures |v.node.text| == 2 && Utf16Length(v.node.text) == 4
    ensures RequiredLength(v, 1) == 4 && !Flagged(v, 1)
  {
  }

  /** The whole pass reports `x` alone, asking for seven characters. */
  lemma ExamplePass()
    ensures Analyze(Document()) == [Diagnostic(Information, Range(4, 5), "recommended name length: 7", SOURCE_TAG)]
  {
    ExampleVariables();
    ExampleDepths();
    ExampleMessage();
    TwoNames(ShortName(), ExactName());
  }
}

/**
 * One analysis pass of the language server over a parsed document: collect the
 * declared identifiers, take the deepest of their depths, and rebuild the
 * diagnostic list from scratch.
 */
module Server {
  import opened Optional
  import opened Syntax
  import opened Symbols
  import opened Decimal
  import opened Visitor
  import opened NamingRule

  /** The identifiers one pass collects from the tree rooted at `sourceFile`. */
  function Variables(sourceFile: Node): (r: seq<Symbol>)
    ensures forall v :: v in r ==> IsChecked(v)
  {
    CollectedAreDeclaredIdentifiers(Symbol(sourceFile, None));
    Collected(Symbol(sourceFile, None))
  }

  /** The diagnostics one pass produces for the tree rooted at `sourceFile`. */
  function Analyze(sourceFile: Node): (r: seq<Diagnostic>)
    ensures |r| <= |Variables(sourceFile)|
  {
    var variables := Variables(sourceFile);
    Diagnose(variables, MaxDepthOf(variables))
  }

  /**
   * Every collected identifier passes the variable-declaration filter, its scope
   * depth is not negative, and its required length is at least
   * MIN_LENGTH + LENGTH_PER_DEPTH, because the document's deepest depth is at
   * least its own depth, which is its scope depth plus one.
   */
  lemma {:induction false} CollectedAreChecked(sourceFile: Node, v: Symbol)
    requires v in Variables(sourceFile)
    ensures IsChecked(v)
    ensures ScopeDepth(v) >= 0
    ensures RequiredLength(v, MaxDepthOf(Variables(sourceFile))) >= MIN_LENGTH + LENGTH_PER_DEPTH
  {
    var vs := Variables(sourceFile);
    CollectedDepth(Symbol(sourceFile, None), v);
    var i :| 0 <= i < |vs| && vs[i] == v;
    assert Depth(vs[i]) <= MaxDepthOf(vs);
  }

  /**
   * Over a whole pass, the i-th collected identifier is reported iff its name is
   * strictly shorter than MIN_LENGTH + (maxDepth - scopeDepth) * LENGTH_PER_DEPTH,
   * and the reports come in collection order (DiagnoseExactlyFlagged).
   */
  lemma AnalyzeFlagsShortNames(sourceFile: Node, i: int)
    requires 0 <= i < |Variables(sourceFile)|
    ensures var vs := Variables(sourceFile);
      i in FlaggedIndices(vs, MaxDepthOf(vs))
      <==> Utf16Length(vs[i].node.text) < MIN_LENGTH + (MaxDepthOf(vs) - (Depth(vs[i]) - 1)) * LENGTH_PER_DEPTH
  {
    var vs := Variables(sourceFile);
    DiagnoseExactlyFlagged(vs, MaxDepthOf(vs));
    CollectedAreChecked(sourceFile, vs[i]);
  }

  /** Every diagnostic of a pass is informational, tagged with the engine's source, and asks for at least four characters. */
  lemma AnalyzeDiagnosticShape(sourceFile: Node, k: int)
    requires 0 <= k < |Analyze(sourceFile)|
    ensures Analyze(sourceFile)[k].severity == Information
    ensures Analyze(sourceFile)[k].source == SOURCE_TAG
    ensures exists n: nat :: n >= MIN_LENGTH + LENGTH_PER_DEPTH && Analyze(sourceFile)[k].message == Message(n)
  {
    var vs := Variables(sourceFile);
    var m := MaxDepthOf(vs);
    DiagnoseExactlyFlagged(vs, m);
    var v := vs[FlaggedIndices(vs, m)[k]];
    CollectedAreChecked(sourceFile, v);
    var n: nat := RequiredLength(v, m);
    assert Analyze(sourceFile)[k].message == Message(n);
  }

  /** The server state: the diagnostic list that every pass replaces. */
  class LanguageServer {
    var diagnostics: seq<Diagnostic>

    constructor ()
      ensures diagnostics == []
    {
      diagnostics := [];
    }

    /**
     * Runs one pass over the tree rooted at `sourceFile` and replaces the
     * diagnostic list with the pass's result.
     */
    method ParseTextDocument(sourceFile: Node)
      modifies this
      ensures diagnostics == Analyze(sourceFile)
    {
      var variables := new SymbolList();
      diagnostics := [];
      VisitNode(Symbol(sourceFile, None), variables);
      assert variables.items == [] + Variables(sourceFile) == Variables(sourceFile);
      var maxDepth := MaxDepth(variables.items);
      ReportShortNames(variables.items, maxDepth);
      assert diagnostics == [] + Analyze(sourceFile) == Analyze(sourceFile);
    }

    /** The rule loop: appends a diagnostic for every symbol of `vs` whose name is too short. */
    method ReportShortNames(vs: seq<Symbol>, maxDepth: int)
      modifies this
      ensures diagnostics == old(diagnostics) + Diagnose(vs, maxDepth)
    {
      for i := 0 to |vs|
        invariant diagnostics == old(diagnostics) + Diagnose(vs[..i], maxDepth)
      {
        var v := vs[i];
        assert vs[..i + 1][..i] == vs[..i];
        if v.parent.Some? && v.parent.value.node.kind == VariableDeclaration {
          var varnameLength := Utf16Length(v.node.text);
          var scopeDepth := Depth(v) - 1;
          var depthDiff := maxDepth - scopeDepth;
          var minLength := MIN_LENGTH + depthDiff * LENGTH_PER_DEPTH;
          if varnameLength < minLength {
            diagnostics := diagnostics + [Diagnostic(Information, Range(v.node.start, v.node.end),
                                                     MESSAGE_PREFIX + NatToDecimal(minLength), SOURCE_TAG)];
          }
        }
      }
      assert vs[..|vs|] == vs;
    }
  }

  /** The depth loop: the largest depth among `vs`, starting from 0. */
  method MaxDepth(vs: seq<Symbol>) returns (maxDepth: nat)
    ensures maxDepth == MaxDepthOf(vs)
  {
    maxDepth := 0;
    for i := 0 to |vs|
      invariant maxDepth == MaxDepthOf(vs[..i])
    {
      var depth := Depth(vs[i]);
      if depth > maxDepth {
        maxDepth := depth;
      }
      assert vs[..i + 1][..i] == vs[..i];
    }
    assert vs[..|vs|] == vs;
  }
}

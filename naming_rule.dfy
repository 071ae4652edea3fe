/**
 * The naming-length rule: the deepest depth among the collected identifiers,
 * the minimum name length each declaration must meet, and the diagnostics for
 * the names that fall short.
 */
module NamingRule {
  import opened Syntax
  import opened Symbols
  import opened Decimal

  /** Minimum length of a name declared at the deepest level of the document. */
  const MIN_LENGTH: int := 1
  /** Characters required for every level a declaration sits above the deepest one. */
  const LENGTH_PER_DEPTH: int := 3
  /** The source tag every diagnostic of this engine carries. */
  const SOURCE_TAG: string := "Language Server"
  const MESSAGE_PREFIX: string := "recommended name length: "

  datatype Severity = Error | Warning | Information | Hint

  /** A range as start and end offsets into the document. */
  datatype Range = Range(start: nat, end: nat)

  datatype Diagnostic = Diagnostic(severity: Severity, range: Range, message: string, source: string)

  /** The largest depth among `vs`, or 0 when there is none. */
  function MaxDepthOf(vs: seq<Symbol>): (m: nat)
    ensures forall i :: 0 <= i < |vs| ==> Depth(vs[i]) <= m
    ensures vs == [] ==> m == 0
    ensures vs != [] ==> exists i :: 0 <= i < |vs| && Depth(vs[i]) == m
  {
    if vs == [] then 0
    else
      var m := MaxDepthOf(vs[..|vs| - 1]);
      var d := Depth(vs[|vs| - 1]);
      if d > m then d else m
  }

  /** The threshold policy: the required length for a declaration at `scopeDepth`. */
  function MinLengthFor(maxDepth: int, scopeDepth: int): (r: int)
    ensures r >= MIN_LENGTH <==> scopeDepth <= maxDepth
  {
    MIN_LENGTH + (maxDepth - scopeDepth) * LENGTH_PER_DEPTH
  }

  /**
   * At the deepest level the requirement is MIN_LENGTH, at the top level it is
   * MIN_LENGTH plus LENGTH_PER_DEPTH per level of the document's depth, and each
   * level deeper relaxes it by exactly LENGTH_PER_DEPTH.
   */
  lemma MinLengthScale(maxDepth: int, scopeDepth: int)
    ensures MinLengthFor(maxDepth, maxDepth) == MIN_LENGTH
    ensures MinLengthFor(maxDepth, 0) == MIN_LENGTH + maxDepth * LENGTH_PER_DEPTH
    ensures MinLengthFor(maxDepth, scopeDepth) - MinLengthFor(maxDepth, scopeDepth + 1) == LENGTH_PER_DEPTH
  {
  }

  /** The rule applies only to symbols whose parent is a variable declaration. */
  predicate IsChecked(v: Symbol): (b: bool)
    ensures b ==> v.parent.Some? && Depth(v) == Depth(v.parent.value) + 1
  {
    v.parent.Some? && v.parent.value.node.kind == VariableDeclaration
  }

  /** The depth of the declaration that introduces `v`. */
  function ScopeDepth(v: Symbol): (d: int)
    ensures IsChecked(v) ==> d >= 0
  {
    Depth(v) - 1
  }

  /** The threshold for `v`; within a pass the deepest depth is at least `v`'s own. */
  function RequiredLength(v: Symbol, maxDepth: int): (r: int)
    ensures maxDepth >= Depth(v) ==> r >= MIN_LENGTH + LENGTH_PER_DEPTH
  {
    MinLengthFor(maxDepth, ScopeDepth(v))
  }

  /** `v` is reported: it is checked and its name is strictly shorter than required. */
  predicate Flagged(v: Symbol, maxDepth: int): (b: bool)
    ensures b ==> RequiredLength(v, maxDepth) >= 1
  {
    IsChecked(v) && Utf16Length(v.node.text) < RequiredLength(v, maxDepth)
  }

  function Message(minLength: nat): (r: string)
    ensures |r| > |MESSAGE_PREFIX| && r[..|MESSAGE_PREFIX|] == MESSAGE_PREFIX
  {
    MESSAGE_PREFIX + NatToDecimal(minLength)
  }

  /** The message starts with the fixed prefix and the rest reads back as the threshold. */
  lemma MessageNamesThreshold(minLength: nat)
    ensures |Message(minLength)| > |MESSAGE_PREFIX|
    ensures Message(minLength)[..|MESSAGE_PREFIX|] == MESSAGE_PREFIX
    ensures DecimalValue(Message(minLength)[|MESSAGE_PREFIX|..]) == minLength
  {
    assert Message(minLength)[|MESSAGE_PREFIX|..] == NatToDecimal(minLength);
    DecimalRoundTrip(minLength);
  }

  /** The diagnostic reported for a flagged symbol. */
  function DiagnosticFor(v: Symbol, maxDepth: int): (r: Diagnostic)
    requires Flagged(v, maxDepth)
    ensures r.severity == Information && r.source == SOURCE_TAG
    ensures r.range == Range(v.node.start, v.node.end)
    ensures exists n: nat :: Utf16Length(v.node.text) < n && r.message == Message(n)
  {
    Diagnostic(Information, Range(v.node.start, v.node.end),
               Message(RequiredLength(v, maxDepth)), SOURCE_TAG)
  }

  /** The diagnostics of the rule over `vs`, in the order of `vs`. */
  function Diagnose(vs: seq<Symbol>, maxDepth: int): (r: seq<Diagnostic>)
    ensures |r| <= |vs|
  {
    if vs == [] then []
    else
      var v := vs[|vs| - 1];
      Diagnose(vs[..|vs| - 1], maxDepth) + (if Flagged(v, maxDepth) then [DiagnosticFor(v, maxDepth)] else [])
  }

  /** The positions in `vs` of the flagged symbols, in increasing order. */
  ghost function FlaggedIndices(vs: seq<Symbol>, maxDepth: int): seq<int>
  {
    if vs == [] then []
    else
      FlaggedIndices(vs[..|vs| - 1], maxDepth)
      + (if Flagged(vs[|vs| - 1], maxDepth) then [|vs| - 1] else [])
  }

  /**
   * The rule reports each symbol at most once, exactly the flagged ones, in the
   * order they were collected: the k-th diagnostic belongs to the k-th flagged
   * position, and a position is among the flagged ones iff its symbol is flagged.
   */
  lemma {:induction false} DiagnoseExactlyFlagged(vs: seq<Symbol>, maxDepth: int)
    ensures |Diagnose(vs, maxDepth)| == |FlaggedIndices(vs, maxDepth)| <= |vs|
    ensures forall k :: 0 <= k < |FlaggedIndices(vs, maxDepth)| ==>
              0 <= FlaggedIndices(vs, maxDepth)[k] < |vs|
              && Flagged(vs[FlaggedIndices(vs, maxDepth)[k]], maxDepth)
              && Diagnose(vs, maxDepth)[k] == DiagnosticFor(vs[FlaggedIndices(vs, maxDepth)[k]], maxDepth)
    ensures forall k, l :: 0 <= k < l < |FlaggedIndices(vs, maxDepth)| ==>
              FlaggedIndices(vs, maxDepth)[k] < FlaggedIndices(vs, maxDepth)[l]
    ensures forall i :: 0 <= i < |vs| ==> (i in FlaggedIndices(vs, maxDepth) <==> Flagged(vs[i], maxDepth))
  {
    if vs != [] {
      var init := vs[..|vs| - 1];
      DiagnoseExactlyFlagged(init, maxDepth);
      assert forall i :: 0 <= i < |init| ==> vs[i] == init[i];
    }
  }
}

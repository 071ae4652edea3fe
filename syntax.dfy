/**
 * The syntax tree handed to the linter by the TypeScript parser. The parser
 * itself is not part of this model: a tree is an immutable value given as input.
 */
module Syntax {
  /** The node kinds the linter distinguishes; every other kind is `Other`. */
  datatype Kind =
    | FunctionDeclaration
    | ClassDeclaration
    | MethodDeclaration
    | VariableDeclaration
    | PropertyDeclaration
    | Identifier
    | Other

  /**
   * A syntax node: its kind, its source text, its start and end offsets in the
   * document, and its children in source order. The same child list stands
   * for both of the parser's ways of enumerating children.
   */
  datatype Node = Node(kind: Kind, text: string, start: nat, end: nat, children: seq<Node>)

  /** A character outside the Basic Multilingual Plane takes two UTF-16 code units. */
  predicate IsAstral(c: char) {
    c as int > 0xFFFF
  }

  /** The length of `s` in UTF-16 code units, which is what a JavaScript string's `length` counts. */
  function Utf16Length(s: string): (n: nat)
    ensures |s| <= n <= 2 * |s|
  {
    if s == [] then 0 else (if IsAstral(s[0]) then 2 else 1) + Utf16Length(s[1..])
  }

  /** The UTF-16 length equals the character count exactly when no character is astral. */
  lemma {:induction false} Utf16LengthOfBmp(s: string)
    ensures Utf16Length(s) == |s| <==> forall i :: 0 <= i < |s| ==> !IsAstral(s[i])
  {
    if s != [] {
      Utf16LengthOfBmp(s[1..]);
      assert forall i :: 1 <= i < |s| ==> s[i] == s[1..][i - 1];
    }
  }
}

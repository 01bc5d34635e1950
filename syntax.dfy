/**
 * `RegexParserNode`: a node of the regex syntax tree. Every node has a kind,
 * its owned children, and for `Char` leaves the half-open range
 * `[begChar, endChar)` of characters the leaf matches.
 */
module Syntax {
  import opened CChars

  /** The node kinds, in the order of the source's enum: `OR, AND, OPT, MANY, NONZERO, CHAR`. */
  datatype Kind = Or | And | Opt | Many | NonZero | Char

  datatype Node = Node(kind: Kind, subNodes: seq<Node>, begChar: CChar, endChar: CChar)

  /** The `nSubNodes` column of the `typeSpecs` table. */
  function NumSubNodes(k: Kind): nat
  {
    match k
    case Or => 2
    case And => 2
    case Opt => 1
    case Many => 1
    case NonZero => 1
    case Char => 0
  }

  /** Every node of the tree has exactly as many children as its kind prescribes. */
  predicate WellFormed(n: Node)
  {
    |n.subNodes| == NumSubNodes(n.kind) && forall c <- n.subNodes :: WellFormed(c)
  }

  /**
   * The node constructor. Its range arguments are `int`s stored into `char`
   * fields, so they are narrowed; both default to 0.
   */
  function MakeNode(kind: Kind, subNodes: seq<Node>, beg: int := 0, end: int := 0): (n: Node)
    ensures n.kind == kind && n.subNodes == subNodes
    ensures n.begChar == ToCChar(beg) && n.endChar == ToCChar(end)
    ensures CharMin <= beg <= CharMax ==> n.begChar == beg
    ensures CharMin <= end <= CharMax ==> n.endChar == end
    ensures WellFormed(n) <==> |subNodes| == NumSubNodes(kind) && forall c <- subNodes :: WellFormed(c)
  {
    Node(kind, subNodes, ToCChar(beg), ToCChar(end))
  }

  /**
   * The leaf for the single character `d`: the range `[d, d+1)`, where
   * `d+1` wraps to `CharMin` for `d == CharMax` (the range is then empty).
   */
  function Literal(d: CChar): (n: Node)
    ensures n.kind == Char && n.subNodes == [] && n.begChar == d
    ensures d < CharMax ==> n.endChar == d + 1
    ensures d == CharMax ==> n.endChar == CharMin
  {
    MakeNode(Char, [], d, d + 1)
  }

  /** The leaf built for `.`: the range `[0, numeric_limits<char>::max())`. */
  function AnyCharLeaf(): (n: Node)
    ensures n.kind == Char && n.subNodes == [] && n.begChar == 0 && n.endChar == CharMax
  {
    MakeNode(Char, [], 0, CharMax)
  }

  /** The leaves of a tree, left to right. */
  function Frontier(n: Node): seq<Node>
    decreases n, 1
  {
    if n.subNodes == [] then [n] else FrontierOf(n.subNodes)
  }

  function FrontierOf(ns: seq<Node>): seq<Node>
    decreases ns, 0
  {
    if ns == [] then [] else Frontier(ns[0]) + FrontierOf(ns[1..])
  }
}

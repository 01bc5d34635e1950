/**
 * Properties of the grammar: what failure leaves consumed, where a
 * concatenation stops, the shape of the tree for a run of plain characters,
 * transparency of grouping, the single alternation, and the behaviour of
 * the source on a few patterns.
 */
module GrammarProperties {
  import opened Wrappers
  import opened CChars
  import opened Cursor
  import opened Syntax
  import opened Grammar

  /** A character that parses as a leaf on its own: not `|*+?()`, not `\`, not NUL. */
  predicate Plain(c: CChar)
  {
    c !in Metas && c != Backslash && c != Nul
  }

  /** A run of plain characters. */
  predicate PlainRun(s: seq<CChar>)
  {
    s == [] || (Plain(s[0]) && PlainRun(s[1..]))
  }

  /** The leaf a plain character parses to. */
  function Leaf(c: CChar): Node
  {
    if c == Period then AnyCharLeaf() else Literal(c)
  }

  /** The right-nested concatenation of the leaves of `s`: `abc` is `And(a, And(b, c))`. */
  function AndChain(s: seq<CChar>): Node
    requires s != []
  {
    if |s| == 1 then Leaf(s[0]) else Node(And, [Leaf(s[0]), AndChain(s[1..])], 0, 0)
  }

  /** What may follow a run of plain characters without joining it: the end, `|` or `)`. */
  predicate Stopper(t: seq<CChar>)
  {
    t == [] || t[0] == Bar || t[0] == RParen
  }

  /**
   * A literal: a character other than `|*+?()` and `\` is itself; `\x` is
   * `MaybeEscape(x)`; a metacharacter or the end of the input yields nothing
   * and consumes nothing; a lone trailing backslash yields nothing but stays
   * consumed, and so does a NUL character (which a C string never holds).
   */
  lemma {:induction false} PossiblyEscapedCharCases(s: seq<CChar>)
    ensures s == [] || s[0] in Metas ==> EscapedChar(s) == Parsed(None, 0)
    ensures s != [] && s[0] !in Metas && s[0] != Backslash && s[0] != Nul ==>
      EscapedChar(s) == Parsed(Some(Literal(s[0])), 1)
    ensures |s| >= 2 && s[0] == Backslash && s[1] != Nul ==>
      EscapedChar(s) == Parsed(Some(Literal(MaybeEscape(s[1]))), 2)
    ensures s == [Backslash] ==> EscapedChar(s) == Parsed(None, 1)
    ensures s != [] && s[0] == Nul ==> EscapedChar(s) == Parsed(None, 1)
    ensures |s| >= 2 && s[0] == Backslash && s[1] == Nul ==> EscapedChar(s) == Parsed(None, 2)
  {
  }

  /**
   * A failing atom consumes nothing, except on a lone backslash, which it
   * leaves consumed. The input is a C string, so it holds no NUL.
   */
  lemma {:induction false} AtomFailure(s: seq<CChar>)
    requires NoNul(s)
    ensures Atom(s).node.None? ==>
      (Atom(s).used == 0 && (s == [] || s[0] in Metas)) || (s == [Backslash] && Atom(s).used == 1)
  {
    if Atom(s).node.None? && s != [] && s[0] !in Metas {
      assert s[0] != Nul;
    }
  }

  /** Every production that fails leaves the view where it was, unless the input is a lone backslash. */
  lemma {:induction false} FailureLeavesInputUntouched(s: seq<CChar>)
    requires NoNul(s) && s != [Backslash]
    ensures Atom(s).node.None? ==> Atom(s).used == 0
    ensures WithPostfix(s).node.None? ==> WithPostfix(s).used == 0
    ensures Anded(s).node.None? ==> Anded(s).used == 0
    ensures Orred(s).node.None? ==> Orred(s).used == 0
  {
    AtomFailure(s);
  }

  /** An atom that fails is a literal that fails: neither a group nor `.` fails after consuming. */
  lemma {:induction false} AtomFailsAsLiteral(s: seq<CChar>)
    ensures Atom(s).node.None? ==> Atom(s) == EscapedChar(s)
  {
  }

  /**
   * With the operator read correctly, a postfix term is its atom, wrapped in
   * the node of the operator that follows it, if one does; at most one
   * operator is consumed.
   */
  lemma {:induction false} PostfixAppliesOnce(s: seq<CChar>)
    ensures Atom(s).node.None? ==> WithPostfix(s) == Atom(s)
    ensures Atom(s).node.Some? ==>
      var rest := s[Atom(s).used..];
      if rest != [] && rest[0] in Postfixes then
        WithPostfix(s) == Parsed(Some(Node(PostfixKind(rest[0]), [Atom(s).node.value], 0, 0)), Atom(s).used + 1)
      else
        WithPostfix(s) == Atom(s)
  {
  }

  /** A concatenation parses exactly when its first term does. */
  lemma {:induction false} ConcatenationNeedsFirstTerm(s: seq<CChar>)
    ensures Anded(s).node.Some? <==> WithPostfix(s).node.Some?
  {
  }

  /** An alternation yields a node only when its left operand does: a leading `|` is never joined. */
  lemma {:induction false} AlternationNeedsLeftOperand(s: seq<CChar>)
    ensures Orred(s).node.Some? ==> Anded(s).node.Some?
    ensures Anded(s).node.None? ==> Orred(s) == Anded(s)
  {
  }

  /** A lone trailing backslash fails with the backslash left consumed. */
  lemma {:induction false} LoneBackslashIsSwallowed()
    ensures Orred([Backslash]) == Parsed(None, 1)
  {
    var s := [Backslash];
    assert SubExpr(s) == Parsed(None, 0);
    assert Dot(s) == Parsed(None, 0);
    assert Atom(s) == Parsed(None, 1);
    assert WithPostfix(s) == Parsed(None, 1);
    assert Anded(s) == Parsed(None, 1);
    assert s[1..] == [];
  }

  /** A suffix of a C string is a C string. */
  lemma {:induction false} NoNulDrop(s: seq<CChar>, k: nat)
    requires NoNul(s) && k <= |s|
    ensures NoNul(s[k..])
  {
    forall i | 0 <= i < |s| - k ensures s[k..][i] != Nul {
      assert s[k..][i] == s[k + i];
    }
  }

  /** A concatenation stops only at the end of the input or at one of `|*+?()`. */
  lemma {:induction false} ConcatenationStopsAtMetachar(s: seq<CChar>)
    requires NoNul(s)
    ensures var rest := s[Anded(s).used..]; rest == [] || rest[0] in Metas
  {
    var lhs := WithPostfix(s);
    if lhs.node.None? {
      AtomFailure(s);
    } else {
      var tail := s[lhs.used..];
      NoNulDrop(s, lhs.used);
      ConcatenationStopsAtMetachar(tail);
      assert Anded(s).used == lhs.used + Anded(tail).used;
      assert tail[Anded(tail).used..] == s[Anded(s).used..];
    }
  }

  /** So does an alternation: what it leaves unconsumed is empty or starts with one of `|*+?()`. */
  lemma {:induction false} AlternationStopsAtMetachar(s: seq<CChar>)
    requires NoNul(s)
    ensures var rest := s[Orred(s).used..]; rest == [] || rest[0] in Metas
  {
    ConcatenationStopsAtMetachar(s);
    var lhs := Anded(s);
    var rest := s[lhs.used..];
    if MatchesChar(rest, Bar) {
      var tail := rest[1..];
      assert tail == s[lhs.used + 1..];
      NoNulDrop(s, lhs.used + 1);
      ConcatenationStopsAtMetachar(tail);
      assert tail[Anded(tail).used..] == s[lhs.used + 1 + Anded(tail).used..];
    }
  }

  /**
   * An alternation either is its left concatenation, with nothing after it
   * consumed, or joins it with the concatenation after one `|` into a single
   * `Or`; its left operand is always present.
   */
  lemma {:induction false} AlternationJoinsAtMostOnce(s: seq<CChar>)
    ensures var lhs := Anded(s); var r := Orred(s);
      || r == Parsed(lhs.node, lhs.used)
      || (&& lhs.node.Some?
          && lhs.used < |s| && s[lhs.used] == Bar
          && var rhs := Anded(s[lhs.used + 1..]);
          && rhs.node.Some?
          && r == Parsed(Some(Node(Or, [lhs.node.value, rhs.node.value], 0, 0)), lhs.used + 1 + rhs.used))
  {
    var lhs := Anded(s);
    if lhs.node.Some? {
      AlternationOf(s, lhs.node.value, lhs.used);
    } else {
      AlternationNeedsLeftOperand(s);
    }
  }

  /** Neither the end of the input nor a metacharacter other than `(` starts a term. */
  lemma {:induction false} StopperParsesNothing(t: seq<CChar>)
    requires t == [] || (t[0] in Metas && t[0] != LParen)
    ensures WithPostfix(t) == Parsed(None, 0)
    ensures Anded(t) == Parsed(None, 0)
  {
  }

  /** A plain character is an atom on its own: the leaf for that character. */
  lemma {:induction false} PlainAtom(s: seq<CChar>)
    requires s != [] && Plain(s[0])
    ensures Atom(s) == Parsed(Some(Leaf(s[0])), 1)
  {
    assert SubExpr(s) == Parsed(None, 0);
  }

  /** One plain character is one leaf, and it is not followed by a postfix operator. */
  lemma {:induction false} PlainTerm(s: seq<CChar>)
    requires s != [] && Plain(s[0])
    requires |s| == 1 || s[1] !in Postfixes
    ensures WithPostfix(s) == Parsed(Some(Leaf(s[0])), 1)
  {
    PlainAtom(s);
    assert s[1..] == [] || s[1..][0] !in Postfixes;
  }

  /**
   * A run of plain characters, followed by the end, `|` or `)`, parses as the
   * right-nested `And` chain of its leaves and is consumed entirely.
   */
  lemma {:induction false} PlainRunIsAndChain(s: seq<CChar>, t: seq<CChar>)
    requires s != [] && PlainRun(s)
    requires Stopper(t)
    ensures Anded(s + t) == Parsed(Some(AndChain(s)), |s|)
  {
    var u := s + t;
    assert u[0] == s[0];
    if |s| == 1 {
      assert t == [] || (t[0] in Metas && t[0] != LParen && t[0] !in Postfixes);
      PlainTerm(u);
      assert u[1..] == t;
      StopperParsesNothing(t);
    } else {
      assert u[1] == s[1];
      PlainTerm(u);
      assert u[1..] == s[1..] + t;
      PlainRunIsAndChain(s[1..], t);
    }
  }

  /** A concatenation that takes the whole input is the whole parse. */
  lemma {:induction false} WholeConcatenationIsWholeParse(s: seq<CChar>, n: Node)
    requires Anded(s) == Parsed(Some(n), |s|)
    ensures Orred(s) == Parsed(Some(n), |s|)
  {
    AlternationOf(s, n, |s|);
  }

  /** A pattern made of plain characters parses entirely, as the `And` chain of its leaves. */
  lemma {:induction false} PlainPatternParses(s: seq<CChar>)
    requires s != [] && PlainRun(s)
    ensures Orred(s) == Parsed(Some(AndChain(s)), |s|)
  {
    PlainRunIsAndChain(s, []);
    assert s + [] == s;
    WholeConcatenationIsWholeParse(s, AndChain(s));
  }

  /** The `And` chain has one leaf per character, in input order. */
  lemma {:induction false} AndChainLeaves(s: seq<CChar>)
    requires s != []
    ensures Frontier(AndChain(s)) == seq(|s|, i requires 0 <= i < |s| => Leaf(s[i]))
  {
    if |s| > 1 {
      AndChainLeaves(s[1..]);
      var a, b := Leaf(s[0]), AndChain(s[1..]);
      assert FrontierOf([b]) == Frontier(b) + FrontierOf([]);
      assert FrontierOf([a, b]) == Frontier(a) + FrontierOf([b]);
    }
  }

  /** An atom that takes the whole input is the whole parse. */
  lemma {:induction false} WholeAtomIsWholeParse(u: seq<CChar>)
    requires Atom(u).node.Some? && Atom(u).used == |u|
    ensures Orred(u) == Atom(u)
  {
    assert u[|u|..] == [];
    StopperParsesNothing([]);
    assert WithPostfix(u) == Atom(u);
    assert Anded(u) == Atom(u);
  }

  /**
   * With the operator read correctly, a plain character followed by a
   * postfix operator is that operator's node over the leaf.
   */
  lemma {:induction false} PostfixTerm(s: seq<CChar>)
    requires |s| >= 2 && Plain(s[0]) && s[1] in Postfixes
    ensures WithPostfix(s) == Parsed(Some(Node(PostfixKind(s[1]), [Leaf(s[0])], 0, 0)), 2)
  {
    PlainAtom(s);
  }

  /** A concatenation is its first term joined to the concatenation after it, when that parses. */
  lemma {:induction false} ConcatenationOf(s: seq<CChar>, n: Node, k: nat)
    requires WithPostfix(s) == Parsed(Some(n), k)
    ensures Anded(s[k..]).node.None? ==> Anded(s) == Parsed(Some(n), k + Anded(s[k..]).used)
    ensures Anded(s[k..]).node.Some? ==>
      Anded(s) == Parsed(Some(Node(And, [n, Anded(s[k..]).node.value], 0, 0)), k + Anded(s[k..]).used)
  {
  }

  /** An alternation is its concatenation, joined over one `|` to the next one when that parses. */
  lemma {:induction false} AlternationOf(s: seq<CChar>, n: Node, k: nat)
    requires Anded(s) == Parsed(Some(n), k)
    ensures (k == |s| || s[k] != Bar) ==> Orred(s) == Parsed(Some(n), k)
    ensures k < |s| && s[k] == Bar && Anded(s[k + 1..]).node.Some? ==>
      Orred(s) == Parsed(Some(Node(Or, [n, Anded(s[k + 1..]).node.value], 0, 0)), k + 1 + Anded(s[k + 1..]).used)
    ensures k < |s| && s[k] == Bar && Anded(s[k + 1..]).node.None? ==> Orred(s) == Parsed(Some(n), k)
  {
    if k < |s| && s[k] == Bar {
      assert MatchesChar(s[k..], Bar);
      assert s[k..][1..] == s[k + 1..];
    } else {
      assert !MatchesChar(s[k..], Bar);
    }
  }

  /** A plain run followed by `)` is an alternation without `|` that stops at the `)`. */
  lemma {:induction false} PlainRunBeforeParen(s: seq<CChar>)
    requires s != [] && PlainRun(s)
    ensures Orred(s + [RParen]) == Parsed(Some(AndChain(s)), |s|)
  {
    PlainRunIsAndChain(s, [RParen]);
    assert (s + [RParen])[|s|..] == [RParen];
  }

  /** A group is `(`, an alternation that parses, and `)` right after it. */
  lemma {:induction false} GroupAround(u: seq<CChar>, n: Node, k: nat)
    requires u != [] && u[0] == LParen && k + 1 < |u|
    requires Orred(u[1..]) == Parsed(Some(n), k) && u[1 + k] == RParen
    ensures Atom(u) == Parsed(Some(n), k + 2)
  {
    assert SubExpr(u) == Parsed(Some(n), k + 2);
  }

  /** `(` + a plain run + `)` is a group holding the run's `And` chain. */
  lemma {:induction false} GroupedPlainRun(s: seq<CChar>)
    requires s != [] && PlainRun(s)
    ensures Atom([LParen] + s + [RParen]) == Parsed(Some(AndChain(s)), |s| + 2)
  {
    var u := [LParen] + s + [RParen];
    assert u[1..] == s + [RParen];
    PlainRunBeforeParen(s);
    GroupAround(u, AndChain(s), |s|);
  }

  /** Parentheses around a plain run leave the tree unchanged. */
  lemma {:induction false} GroupIsTransparent(s: seq<CChar>)
    requires s != [] && PlainRun(s)
    ensures Orred([LParen] + s + [RParen]) == Parsed(Orred(s).node, |s| + 2)
  {
    PlainPatternParses(s);
    GroupedPlainRun(s);
    WholeAtomIsWholeParse([LParen] + s + [RParen]);
  }

  /** A pattern that starts with `(` parses only as a group: otherwise nothing parses. */
  lemma {:induction false} LeadingParenthesisNeedsGroup(u: seq<CChar>)
    requires u != [] && u[0] == LParen && SubExpr(u).node.None?
    ensures Orred(u) == Parsed(None, 0)
  {
    assert Atom(u) == Parsed(None, 0);
    assert WithPostfix(u) == Parsed(None, 0);
    assert Anded(u) == Parsed(None, 0);
    AlternationNeedsLeftOperand(u);
  }
}

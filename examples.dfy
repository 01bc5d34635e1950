/**
 * What the parser yields on particular patterns, including where the
 * source's behaviour is surprising.
 */
module Examples {
  import opened Wrappers
  import opened CChars
  import opened Cursor
  import opened Syntax
  import opened Grammar
  import opened GrammarProperties

  const LowerA: CChar := 'a' as int
  const LowerB: CChar := 'b' as int
  const LowerC: CChar := 'c' as int
  const LowerF: CChar := 'f' as int
  const LowerG: CChar := 'g' as int
  const LowerN: CChar := 'n' as int

  /** `a` is the leaf `[a, a+1)` and is consumed entirely. */
  lemma {:induction false} SingleLiteral()
    ensures Orred([LowerA]) == Parsed(Some(Node(Char, [], LowerA, LowerA + 1)), 1)
  {
    PlainPatternParses([LowerA]);
  }

  /** `.` is the leaf `[0, CharMax)`. */
  lemma {:induction false} SingleDot()
    ensures Orred([Period]) == Parsed(Some(Node(Char, [], 0, CharMax)), 1)
  {
    PlainPatternParses([Period]);
  }

  /** With the operator read correctly, a plain character and a postfix operator make the whole pattern. */
  lemma {:induction false} PostfixPattern(s: seq<CChar>)
    requires |s| == 2 && Plain(s[0]) && s[1] in Postfixes
    ensures Orred(s) == Parsed(Some(Node(PostfixKind(s[1]), [Leaf(s[0])], 0, 0)), 2)
  {
    PostfixTerm(s);
    var n := Node(PostfixKind(s[1]), [Leaf(s[0])], 0, 0);
    ConcatenationOf(s, n, 2);
    StopperParsesNothing(s[2..]);
    WholeConcatenationIsWholeParse(s, n);
  }

  /** With the operator read correctly, `a*` is `Many(a)`. */
  lemma {:induction false} ZeroOrMore()
    ensures Orred([LowerA, Star]) == Parsed(Some(Node(Many, [Literal(LowerA)], 0, 0)), 2)
  {
    PostfixPattern([LowerA, Star]);
  }

  /** `a+` is `NonZero(a)`. */
  lemma {:induction false} OneOrMore()
    ensures Orred([LowerA, Plus]) == Parsed(Some(Node(NonZero, [Literal(LowerA)], 0, 0)), 2)
  {
    PostfixPattern([LowerA, Plus]);
  }

  /** With the operator read correctly, `a?` is `Opt(a)`. */
  lemma {:induction false} Optional()
    ensures Orred([LowerA, Question]) == Parsed(Some(Node(Opt, [Literal(LowerA)], 0, 0)), 2)
  {
    PostfixPattern([LowerA, Question]);
  }

  /**
   * With the operator read correctly, a second postfix operator is not
   * applied: `a**` stops before the second `*`.
   */
  lemma {:induction false} DoubledPostfixStops()
    ensures Orred([LowerA, Star, Star]) == Parsed(Some(Node(Many, [Literal(LowerA)], 0, 0)), 2)
  {
    var s := [LowerA, Star, Star];
    var n := Node(Many, [Literal(LowerA)], 0, 0);
    PostfixTerm(s);
    ConcatenationOf(s, n, 2);
    StopperParsesNothing(s[2..]);
    AlternationOf(s, n, 2);
  }

  /** `(a)` yields the same tree as `a`. */
  lemma {:induction false} GroupedLiteral()
    ensures Orred([LParen, LowerA, RParen]) == Parsed(Some(Literal(LowerA)), 3)
  {
    GroupIsTransparent([LowerA]);
    PlainPatternParses([LowerA]);
    assert [LParen] + [LowerA] + [RParen] == [LParen, LowerA, RParen];
  }

  /** `a` followed by `|` and more is the concatenation `a`, stopping at the `|`. */
  lemma {:induction false} LeftOperandA(s: seq<CChar>)
    requires |s| >= 2 && s[0] == LowerA && s[1] == Bar
    ensures Anded(s) == Parsed(Some(Literal(LowerA)), 1)
  {
    PlainTerm(s);
    ConcatenationOf(s, Literal(LowerA), 1);
    StopperParsesNothing(s[1..]);
  }

  /** `a|b` is `Or(a, b)`. */
  lemma {:induction false} TwoAlternatives()
    ensures Orred([LowerA, Bar, LowerB]) ==
      Parsed(Some(Node(Or, [Literal(LowerA), Literal(LowerB)], 0, 0)), 3)
  {
    var s := [LowerA, Bar, LowerB];
    LeftOperandA(s);
    PlainRunIsAndChain([LowerB], []);
    assert [LowerB] + [] == s[2..];
    AlternationOf(s, Literal(LowerA), 1);
  }

  /** `a|b|c` is `Or(a, b)` with `|c` left unconsumed: alternation does not chain. */
  lemma {:induction false} ThreeAlternativesStopAtSecondBar()
    ensures Orred([LowerA, Bar, LowerB, Bar, LowerC]) ==
      Parsed(Some(Node(Or, [Literal(LowerA), Literal(LowerB)], 0, 0)), 3)
  {
    var s := [LowerA, Bar, LowerB, Bar, LowerC];
    LeftOperandA(s);
    PlainRunIsAndChain([LowerB], [Bar, LowerC]);
    assert [LowerB] + [Bar, LowerC] == s[2..];
    AlternationOf(s, Literal(LowerA), 1);
  }

  /**
   * `(a|b|c)` does not parse at all: inside the group the alternation stops
   * at the second `|`, so the `)` is missing, and `(` cannot start a literal.
   */
  lemma {:induction false} GroupedThreeAlternativesFail()
    ensures Orred([LParen, LowerA, Bar, LowerB, Bar, LowerC, RParen]) == Parsed(None, 0)
  {
    var u := [LParen, LowerA, Bar, LowerB, Bar, LowerC, RParen];
    InnerAlternationStopsAtSecondBar();
    assert u[1..] == [LowerA, Bar, LowerB, Bar, LowerC, RParen];
    assert u[1..][3] == Bar;
    assert SubExpr(u) == Parsed(None, 0);
    LeadingParenthesisNeedsGroup(u);
  }

  /** Inside `(a|b|c)`, the alternation ends before the second `|`. */
  lemma {:induction false} InnerAlternationStopsAtSecondBar()
    ensures Orred([LowerA, Bar, LowerB, Bar, LowerC, RParen]).used == 3
  {
    var inner := [LowerA, Bar, LowerB, Bar, LowerC, RParen];
    LeftOperandA(inner);
    PlainRunIsAndChain([LowerB], [Bar, LowerC, RParen]);
    assert [LowerB] + [Bar, LowerC, RParen] == inner[2..];
    AlternationOf(inner, Literal(LowerA), 1);
  }

  /** `(` alone fails and consumes nothing. */
  lemma {:induction false} UnbalancedParenthesis()
    ensures Orred([LParen]) == Parsed(None, 0)
  {
    StopperParsesNothing([]);
    AlternationNeedsLeftOperand([]);
    assert SubExpr([LParen]) == Parsed(None, 0);
    LeadingParenthesisNeedsGroup([LParen]);
  }

  /** `\n` is the leaf for the newline character. */
  lemma {:induction false} EscapedNewline()
    ensures Orred([Backslash, LowerN]) == Parsed(Some(Node(Char, [], 10, 11)), 2)
  {
    var u := [Backslash, LowerN];
    assert SubExpr(u) == Parsed(None, 0);
    assert Atom(u) == Parsed(Some(Literal(10)), 2);
    WholeAtomIsWholeParse(u);
  }

  /** A trailing backslash is swallowed: `a\` parses as `a` with both characters consumed. */
  lemma {:induction false} TrailingBackslashSwallowed()
    ensures Orred([LowerA, Backslash]) == Parsed(Some(Literal(LowerA)), 2)
  {
    var s := [LowerA, Backslash];
    PlainTerm(s);
    LoneBackslashIsSwallowed();
    AlternationNeedsLeftOperand(s[1..]);
    ConcatenationOf(s, Literal(LowerA), 1);
    WholeConcatenationIsWholeParse(s, Literal(LowerA));
  }

  /** The character 127 yields the leaf `[127, -128)`: `d+1` wraps when stored into a `char`. */
  lemma {:induction false} TopCharacterRangeWraps()
    ensures Orred([CharMax]) == Parsed(Some(Node(Char, [], CharMax, CharMin)), 1)
  {
    PlainPatternParses([CharMax]);
  }

  /**
   * As written, `matchAnyCharIn("+?*")` yields `ref[pos]`: after an atom,
   * `?b` yields `b` (so `Many` is built instead of `Opt`) and a trailing `*`
   * or `?` reads past the end of the view. Only `+`, at position 0, is read back.
   */
  lemma {:induction false} PostfixMisreadAsWritten()
    ensures AnyCharInAsWritten([Question, LowerB], Postfixes).read == Read(LowerB)
    ensures PostfixKind(LowerB) == Many && AnyCharIn([Question, LowerB], Postfixes).c == Question
    ensures AnyCharInAsWritten([Star], Postfixes).read == OutOfRange
    ensures AnyCharInAsWritten([Question], Postfixes).read == OutOfRange
    ensures AnyCharInAsWritten([Plus], Postfixes).read == Read(Plus)
  {
  }

  /**
   * As written, the term `a?b` is `Many(a)` after two characters: the `?`
   * is at position 1 of `+?*`, so the character read is `b`. Read
   * correctly, it is `Opt(a)`.
   */
  lemma {:induction false} OptionalThenLiteralAsWritten()
    ensures WithPostfixAsWritten([LowerA, Question, LowerB]) ==
      ParsedAsWritten(Defined(Some(Node(Many, [Literal(LowerA)], 0, 0))), 2)
    ensures WithPostfix([LowerA, Question, LowerB]) == Parsed(Some(Node(Opt, [Literal(LowerA)], 0, 0)), 2)
  {
    var s := [LowerA, Question, LowerB];
    PlainAtom(s);
    PostfixTerm(s);
  }

  /** As written, `a*` reads two characters past the `*`, beyond the end of the view. */
  lemma {:induction false} ZeroOrMoreAsWritten()
    ensures WithPostfixAsWritten([LowerA, Star]) == ParsedAsWritten(Undefined, 2)
  {
    var s := [LowerA, Star];
    PlainAtom(s);
    PostfixTerm(s);
  }

  /** As written, `a?` reads one character past the `?`, beyond the end of the view. */
  lemma {:induction false} OptionalAsWritten()
    ensures WithPostfixAsWritten([LowerA, Question]) == ParsedAsWritten(Undefined, 2)
  {
    var s := [LowerA, Question];
    PlainAtom(s);
    PostfixTerm(s);
  }

  /** As written, `a+` is still `NonZero(a)`: `+` is at position 0 of `+?*`. */
  lemma {:induction false} OneOrMoreAsWritten()
    ensures WithPostfixAsWritten([LowerA, Plus]) ==
      ParsedAsWritten(Defined(Some(Node(NonZero, [Literal(LowerA)], 0, 0))), 2)
  {
    var s := [LowerA, Plus];
    PlainAtom(s);
    PostfixTerm(s);
  }

  /**
   * In the program's default pattern `c|d(f?|g)`, the term `f?` inside the
   * group is `Many(f)` as written, since the character read is the `|`.
   */
  lemma {:induction false} DefaultPatternTermAsWritten()
    ensures WithPostfixAsWritten([LowerF, Question, Bar, LowerG, RParen]) ==
      ParsedAsWritten(Defined(Some(Node(Many, [Literal(LowerF)], 0, 0))), 2)
  {
    var s := [LowerF, Question, Bar, LowerG, RParen];
    PlainAtom(s);
    PostfixTerm(s);
  }

  /** With the operator read correctly, `a?b` is `And(Opt(a), b)`. */
  lemma {:induction false} OptionalThenLiteral()
    ensures Orred([LowerA, Question, LowerB]) ==
      Parsed(Some(Node(And, [Node(Opt, [Literal(LowerA)], 0, 0), Literal(LowerB)], 0, 0)), 3)
  {
    var s := [LowerA, Question, LowerB];
    var n := Node(Opt, [Literal(LowerA)], 0, 0);
    PostfixTerm(s);
    PlainRunIsAndChain([LowerB], []);
    assert [LowerB] + [] == s[2..];
    ConcatenationOf(s, n, 2);
    WholeConcatenationIsWholeParse(s, Node(And, [n, Literal(LowerB)], 0, 0));
  }

  /**
   * As written, `|a` dereferences the empty left operand of the `Or`; the
   * model instead fails and consumes nothing.
   */
  lemma {:induction false} LeadingBarAsWrittenIsUndefined()
    ensures Anded([Bar, LowerA]) == Parsed(None, 0)
    ensures Anded([LowerA]).node.Some?
    ensures OrJoinAsWritten(Anded([Bar, LowerA]).node, Anded([LowerA]).node) == Undefined
    ensures Orred([Bar, LowerA]) == Parsed(None, 0)
  {
    StopperParsesNothing([Bar, LowerA]);
    PlainRunIsAndChain([LowerA], []);
    assert [LowerA] + [] == [LowerA];
    AlternationNeedsLeftOperand([Bar, LowerA]);
  }

  /** A lone `|` builds no `Or`: the right operand fails too, so the empty left one is returned as is. */
  lemma {:induction false} LoneBarAsWrittenIsDefined()
    ensures Anded([Bar]) == Parsed(None, 0) && Anded([]) == Parsed(None, 0)
    ensures OrJoinAsWritten(Anded([Bar]).node, Anded([]).node) == Defined(None)
    ensures Orred([Bar]) == Parsed(None, 0)
  {
    StopperParsesNothing([Bar]);
    StopperParsesNothing([]);
    AlternationNeedsLeftOperand([Bar]);
  }

  /**
   * Inside a group the same happens: in `(|a)` the inner alternation starts
   * with `|` and `a` parses after it, so the join as written is undefined;
   * the model fails the whole pattern with nothing consumed.
   */
  lemma {:induction false} GroupedLeadingBarAsWrittenIsUndefined()
    ensures Anded([Bar, LowerA, RParen]) == Parsed(None, 0)
    ensures Anded([LowerA, RParen]).node.Some?
    ensures OrJoinAsWritten(Anded([Bar, LowerA, RParen]).node, Anded([LowerA, RParen]).node) == Undefined
    ensures Orred([LParen, Bar, LowerA, RParen]) == Parsed(None, 0)
  {
    var u := [LParen, Bar, LowerA, RParen];
    var inner := [Bar, LowerA, RParen];
    StopperParsesNothing(inner);
    PlainRunIsAndChain([LowerA], [RParen]);
    assert [LowerA] + [RParen] == [LowerA, RParen];
    AlternationNeedsLeftOperand(inner);
    assert u[1..] == inner;
    assert SubExpr(u) == Parsed(None, 0);
    LeadingParenthesisNeedsGroup(u);
  }
}

/**
 * The recursive-descent grammar. Each production is specified by a function
 * over the rest of the input that says which node it yields and how many
 * characters it leaves consumed (`Parsed`), and is implemented by a method
 * that threads the shared `Matching` cursor, saving and restoring its view
 * exactly where the source does.
 *
 * Precedence, tightest first: atom (group, `.`, possibly escaped literal),
 * postfix (`+`, `?`, `*`), implicit concatenation (right-nested `And`), and
 * a single alternation `|`.
 */
module Grammar {
  import opened Wrappers
  import opened CChars
  import opened Cursor
  import opened Syntax

  /** The characters that never start a literal: `|*+?()`. */
  const Metas: seq<CChar> := [Bar, Star, Plus, Question, LParen, RParen]

  /** The postfix operators, in the source's order `+?*`. */
  const Postfixes: seq<CChar> := [Plus, Question, Star]

  /** A production's outcome: the node it yields, and how many characters are consumed when it returns. */
  datatype Parsed = Parsed(node: Option<Node>, used: nat)

  /** Consumption stays within the input, a node is only produced after consuming, and it has the right arity. */
  predicate Sound(s: seq<CChar>, r: Parsed)
  {
    r.used <= |s| && (r.node.Some? ==> 1 <= r.used && WellFormed(r.node.value))
  }

  /** `maybeEscape`: the character a backslash followed by `c` stands for. */
  function MaybeEscape(c: CChar): (r: CChar)
    ensures c == 'b' as int ==> r == 8   // backspace
    ensures c == 'n' as int ==> r == 10  // newline
    ensures c == 'f' as int ==> r == 12  // form feed
    ensures c == 'r' as int ==> r == 13  // carriage return
    ensures c == 't' as int ==> r == 9   // tab
    ensures c != 'b' as int && c != 'n' as int && c != 'f' as int && c != 'r' as int && c != 't' as int ==> r == c
    ensures r == Nul <==> c == Nul
  {
    if c == 'b' as int then 8
    else if c == 'n' as int then 10
    else if c == 'f' as int then 12
    else if c == 'r' as int then 13
    else if c == 't' as int then 9
    else c
  }

  /** The node kind a postfix operator character selects. */
  function PostfixKind(c: CChar): (k: Kind)
    ensures c == Plus ==> k == NonZero
    ensures c == Question ==> k == Opt
    ensures c == Star ==> k == Many
    ensures c != Plus && c != Question ==> k == Many
    ensures NumSubNodes(k) == 1
  {
    if c == Plus then NonZero else if c == Question then Opt else Many
  }

  /** `matchSubExpr`: `(`, an alternation, `)`; on failure nothing is consumed. */
  function SubExpr(s: seq<CChar>): (r: Parsed)
    ensures Sound(s, r)
    ensures r.node.None? ==> r.used == 0
    ensures r.node.Some? ==> 2 <= r.used && s[0] == LParen && s[r.used - 1] == RParen
    decreases |s|, 0
  {
    if MatchesChar(s, LParen) then
      var inner := Orred(s[1..]);
      if inner.node.Some? && MatchesChar(s[1 + inner.used..], RParen) then
        Parsed(inner.node, inner.used + 2)
      else
        Parsed(None, 0)
    else
      Parsed(None, 0)
  }

  /** `matchDot`: `.` yields the leaf for `[0, CharMax)`. */
  function Dot(s: seq<CChar>): (r: Parsed)
    ensures Sound(s, r)
    ensures r.node.Some? <==> [Period] <= s
    ensures r.node.Some? ==> r == Parsed(Some(AnyCharLeaf()), 1)
    ensures r.node.None? ==> r.used == 0
  {
    if MatchesChar(s, Period) then Parsed(Some(AnyCharLeaf()), 1) else Parsed(None, 0)
  }

  /**
   * `matchPossiblyEscapedChar`. A lone trailing backslash fails with the
   * backslash left consumed, and so does a NUL character (which a C string
   * never holds): the source does not restore the view on this failure.
   */
  function EscapedChar(s: seq<CChar>): (r: Parsed)
    ensures Sound(s, r)
  {
    var first := CharNotIn(s, Metas);
    if first.c == Nul then
      Parsed(None, first.used)
    else if first.c == Backslash then
      var next := AnyChar(s[1..]);
      var d := MaybeEscape(next.c);
      if d != Nul then Parsed(Some(Literal(d)), 1 + next.used) else Parsed(None, 1 + next.used)
    else
      Parsed(Some(Literal(first.c)), 1)
  }

  /** The operand of a postfix operator: a group, else `.`, else a possibly escaped literal. */
  function Atom(s: seq<CChar>): (r: Parsed)
    ensures Sound(s, r)
    decreases |s|, 1
  {
    var group := SubExpr(s);
    if group.node.Some? then group
    else
      var dot := Dot(s);
      if dot.node.Some? then dot else EscapedChar(s)
  }

  /**
   * `matchAndAddExprWithPossiblePostfix`: an atom, wrapped in the node of at
   * most one following postfix operator. The operator is read with
   * `AnyCharIn`, which yields the character it consumed; the source's
   * `matchAnyCharIn` yields another one (`AnyCharInAsWritten`).
   */
  function WithPostfix(s: seq<CChar>): (r: Parsed)
    ensures Sound(s, r)
    decreases |s|, 2
  {
    var atom := Atom(s);
    if atom.node.None? then atom
    else
      var op := AnyCharIn(s[atom.used..], Postfixes);
      if op.c != Nul then
        Parsed(Some(MakeNode(PostfixKind(op.c), [atom.node.value])), atom.used + op.used)
      else
        atom
  }

  /**
   * `matchAndAddPossiblyAndedExpr`: a postfix term followed, when another one
   * parses, by the rest of the concatenation (so `abc` is `And(a, And(b, c))`).
   * A failed right-hand side is not restored.
   */
  function Anded(s: seq<CChar>): (r: Parsed)
    ensures Sound(s, r)
    decreases |s|, 3
  {
    var lhs := WithPostfix(s);
    if lhs.node.None? then lhs
    else
      var rhs := Anded(s[lhs.used..]);
      if rhs.node.Some? then
        Parsed(Some(MakeNode(And, [lhs.node.value, rhs.node.value])), lhs.used + rhs.used)
      else
        Parsed(lhs.node, lhs.used + rhs.used)
  }

  /**
   * `matchAndAddPossiblyOrredExpr`: a concatenation, joined by at most one
   * `|` to a second concatenation. Without a `|` followed by a parsable
   * right-hand side the view is restored to just before the `|`. Where the
   * source dereferences the empty left-hand side (an alternation, the whole
   * pattern or the inside of a group, that starts with `|` followed by a
   * concatenation that parses, as in `|a` or `(|a)`: undefined behaviour),
   * the model yields no node and restores the view the same way.
   */
  function Orred(s: seq<CChar>): (r: Parsed)
    ensures Sound(s, r)
    decreases |s|, 4
  {
    var lhs := Anded(s);
    var rest := s[lhs.used..];
    if MatchesChar(rest, Bar) then
      var rhs := Anded(rest[1..]);
      if rhs.node.Some? && lhs.node.Some? then
        Parsed(Some(MakeNode(Or, [lhs.node.value, rhs.node.value])), lhs.used + 1 + rhs.used)
      else
        Parsed(lhs.node, lhs.used)
    else
      Parsed(lhs.node, lhs.used)
  }

  /** What the source's `OR` construction does: `Undefined` when it dereferences an empty left operand. */
  datatype Outcome = Defined(node: Option<Node>) | Undefined

  /** The end of `matchAndAddPossiblyOrredExpr` as written, given both operands. */
  function OrJoinAsWritten(lhs: Option<Node>, rhs: Option<Node>): (r: Outcome)
    ensures r.Undefined? <==> lhs.None? && rhs.Some?
    ensures rhs.None? ==> r == Defined(lhs)
    ensures r.Defined? && r.node.Some? ==> r.node.value.kind == Or || rhs.None?
    ensures lhs.Some? && rhs.Some? ==> r == Defined(Some(MakeNode(Or, [lhs.value, rhs.value])))
  {
    if rhs.None? then Defined(lhs)
    else if lhs.None? then Undefined
    else Defined(Some(MakeNode(Or, [lhs.value, rhs.value])))
  }

  /** A production run as written: its outcome, and how many characters are consumed. */
  datatype ParsedAsWritten = ParsedAsWritten(outcome: Outcome, used: nat)

  /**
   * `matchAndAddExprWithPossiblePostfix` as written: the operator is read
   * with `AnyCharInAsWritten`, so after the atom `?` selects the node kind of
   * the character one further on and `*` that of the character two further
   * on; a read past the end of the view is `Undefined`. The characters
   * consumed are those of the corrected production.
   */
  function WithPostfixAsWritten(s: seq<CChar>): (r: ParsedAsWritten)
    ensures r.used == WithPostfix(s).used
    ensures Atom(s).node.None? ==> r == ParsedAsWritten(Defined(None), Atom(s).used)
    ensures var a := Atom(s); var rest := s[a.used..];
      r.outcome.Undefined? <==>
        a.node.Some? && rest != [] &&
        ((rest[0] == Question && |rest| < 2) || (rest[0] == Star && |rest| < 3))
    ensures var a := Atom(s); var rest := s[a.used..];
      rest == [] || rest[0] !in Postfixes || rest[0] == Plus ==>
        r == ParsedAsWritten(Defined(WithPostfix(s).node), WithPostfix(s).used)
    ensures var a := Atom(s); var rest := s[a.used..];
      a.node.Some? && |rest| >= 2 && rest[0] == Question && rest[1] != Nul ==>
        r.outcome == Defined(Some(MakeNode(PostfixKind(rest[1]), [a.node.value])))
    ensures var a := Atom(s); var rest := s[a.used..];
      a.node.Some? && |rest| >= 3 && rest[0] == Star && rest[2] != Nul ==>
        r.outcome == Defined(Some(MakeNode(PostfixKind(rest[2]), [a.node.value])))
  {
    var atom := Atom(s);
    if atom.node.None? then ParsedAsWritten(Defined(None), atom.used)
    else
      var op := AnyCharInAsWritten(s[atom.used..], Postfixes);
      match op.read
      case OutOfRange => ParsedAsWritten(Undefined, atom.used + op.used)
      case Read(c) =>
        if c != Nul then
          ParsedAsWritten(Defined(Some(MakeNode(PostfixKind(c), [atom.node.value]))), atom.used + op.used)
        else
          ParsedAsWritten(Defined(atom.node), atom.used + op.used)
  }

  method MatchSubExpr(matchIn: Matching) returns (r: Option<Node>)
    modifies matchIn
    ensures r == SubExpr(old(matchIn.ref)).node
    ensures matchIn.ref == old(matchIn.ref)[SubExpr(old(matchIn.ref)).used..]
    decreases |matchIn.ref|, 0
  {
    var backup := matchIn.ref;
    var open := matchIn.MatchChar(LParen);
    if open {
      var s := MatchAndAddPossiblyOrredExpr(matchIn);
      if s.Some? {
        var close := matchIn.MatchChar(RParen);
        if close {
          assert backup[1..][Orred(backup[1..]).used..][1..] == backup[Orred(backup[1..]).used + 2..];
          return s;
        }
      }
    }
    matchIn.ref := backup;
    return None;
  }

  method MatchDot(matchIn: Matching) returns (r: Option<Node>)
    modifies matchIn
    ensures r == Dot(old(matchIn.ref)).node
    ensures matchIn.ref == old(matchIn.ref)[Dot(old(matchIn.ref)).used..]
  {
    var dot := matchIn.MatchChar(Period);
    if dot {
      return Some(MakeNode(Char, [], 0, CharMax));
    }
    return None;
  }

  method MatchPossiblyEscapedChar(matchIn: Matching) returns (r: Option<Node>)
    modifies matchIn
    ensures r == EscapedChar(old(matchIn.ref)).node
    ensures matchIn.ref == old(matchIn.ref)[EscapedChar(old(matchIn.ref)).used..]
  {
    var c := matchIn.MatchCharNotIn(Metas);
    if c != Nul {
      var d: CChar;
      if c == Backslash {
        var next := matchIn.MatchAnyChar();
        d := MaybeEscape(next);
      } else {
        d := c;
      }
      if d != Nul {
        return Some(MakeNode(Char, [], d, d + 1));
      }
    }
    return None;
  }

  /** The atom that `matchAndAddExprWithPossiblePostfix` tries first: a group, a dot or a character. */
  method MatchAtom(matchIn: Matching) returns (m: Option<Node>)
    modifies matchIn
    ensures m == Atom(old(matchIn.ref)).node
    ensures matchIn.ref == old(matchIn.ref)[Atom(old(matchIn.ref)).used..]
    decreases |matchIn.ref|, 1
  {
    ghost var s := matchIn.ref;
    m := MatchSubExpr(matchIn);
    if m.None? {
      assert matchIn.ref == s;
      m := MatchDot(matchIn);
      if m.None? {
        assert matchIn.ref == s;
        m := MatchPossiblyEscapedChar(matchIn);
        assert Atom(s) == EscapedChar(s);
      } else {
        assert Atom(s) == Dot(s);
      }
    } else {
      assert Atom(s) == SubExpr(s);
    }
  }

  method MatchAndAddExprWithPossiblePostfix(matchIn: Matching) returns (m: Option<Node>)
    modifies matchIn
    ensures m == WithPostfix(old(matchIn.ref)).node
    ensures matchIn.ref == old(matchIn.ref)[WithPostfix(old(matchIn.ref)).used..]
    decreases |matchIn.ref|, 2
  {
    ghost var s := matchIn.ref;
    m := MatchAtom(matchIn);
    ghost var atom := Atom(s);
    if m.Some? {
      ghost var rest := matchIn.ref;
      var c := matchIn.MatchAnyCharIn(Postfixes);
      ghost var op := AnyCharIn(rest, Postfixes);
      assert rest[op.used..] == s[atom.used + op.used..];
      if c != Nul {
        m := Some(MakeNode(PostfixKind(c), [m.value]));
        assert WithPostfix(s) == Parsed(m, atom.used + op.used);
      } else {
        assert WithPostfix(s) == atom;
      }
    } else {
      assert WithPostfix(s) == atom;
    }
  }

  method MatchAndAddPossiblyAndedExpr(matchIn: Matching) returns (r: Option<Node>)
    modifies matchIn
    ensures r == Anded(old(matchIn.ref)).node
    ensures matchIn.ref == old(matchIn.ref)[Anded(old(matchIn.ref)).used..]
    decreases |matchIn.ref|, 3
  {
    ghost var s := matchIn.ref;
    var lhs := MatchAndAddExprWithPossiblePostfix(matchIn);
    ghost var left := WithPostfix(s);
    if lhs.Some? {
      var rhs := MatchAndAddPossiblyAndedExpr(matchIn);
      ghost var right := Anded(s[left.used..]);
      assert matchIn.ref == s[left.used + right.used..];
      if rhs.Some? {
        return Some(MakeNode(And, [lhs.value, rhs.value]));
      }
    }
    return lhs;
  }

  method MatchAndAddPossiblyOrredExpr(matchIn: Matching) returns (r: Option<Node>)
    modifies matchIn
    ensures r == Orred(old(matchIn.ref)).node
    ensures matchIn.ref == old(matchIn.ref)[Orred(old(matchIn.ref)).used..]
    decreases |matchIn.ref|, 4
  {
    ghost var s := matchIn.ref;
    var lhs := MatchAndAddPossiblyAndedExpr(matchIn);
    ghost var left := Anded(s);
    var backup := matchIn.ref;
    var bar := matchIn.MatchChar(Bar);
    if bar {
      ghost var rest := backup[1..];
      var rhs := MatchAndAddPossiblyAndedExpr(matchIn);
      ghost var right := Anded(rest);
      if rhs.Some? {
        if lhs.Some? {
          assert Orred(s) == Parsed(Some(MakeNode(Or, [lhs.value, rhs.value])), left.used + 1 + right.used);
          assert matchIn.ref == s[left.used + 1 + right.used..];
          return Some(MakeNode(Or, [lhs.value, rhs.value]));
        }
        // The source dereferences the empty `lhs` here; the model restores and fails instead.
      }
    }
    matchIn.ref := backup;
    assert Orred(s) == Parsed(lhs, left.used);
    return lhs;
  }
}

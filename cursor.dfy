/**
 * The `Matching` cursor: a view over the unparsed rest of the pattern and
 * the four primitives that consume at most one character of it. Each
 * primitive is described by a function over the rest of the input (the
 * character it yields and how many characters it consumes) and implemented
 * by a method of `Matching` that updates the view in place.
 */
module Cursor {
  import opened Wrappers
  import opened CChars

  /** What a primitive yields: a character (NUL on failure) and how much it consumed. */
  datatype Step = Step(c: CChar, used: nat)

  /** `find_first_of` with a single character: the first index of `c` in `filt`, `None` for `npos`. */
  function FindFirstOf(filt: seq<CChar>, c: CChar): (r: Option<nat>)
    ensures r.None? <==> c !in filt
    ensures r.Some? ==> r.value < |filt| && filt[r.value] == c && c !in filt[..r.value]
  {
    if filt == [] then None
    else if filt[0] == c then Some(0)
    else
      match FindFirstOf(filt[1..], c)
      case None => None
      case Some(k) =>
        assert filt[..k + 1] == [filt[0]] + filt[1..][..k];
        Some(k + 1)
  }

  /** `matchAnyChar`: consumes the first character if there is one. */
  function AnyChar(s: seq<CChar>): (r: Step)
    ensures r.used <= |s| && r.used <= 1
    ensures r.used == 0 <==> s == []
    ensures s[..r.used] == if r.used == 1 then [r.c] else []
    ensures r.used == 0 ==> r.c == Nul
  {
    if s != [] then Step(s[0], 1) else Step(Nul, 0)
  }

  /** `matchChar`: whether the input starts with `c` (and `c` is then consumed). */
  function MatchesChar(s: seq<CChar>, c: CChar): (r: bool)
    ensures r <==> [c] <= s
  {
    s != [] && s[0] == c
  }

  /** `matchCharNotIn`: consumes the first character when it is not in `filt`. */
  function CharNotIn(s: seq<CChar>, filt: seq<CChar>): (r: Step)
    ensures r.used <= |s| && r.used <= 1
    ensures r.used == 1 <==> s != [] && s[0] !in filt
    ensures s[..r.used] == if r.used == 1 then [r.c] else []
    ensures r.used == 0 ==> r.c == Nul
  {
    if s != [] && FindFirstOf(filt, s[0]).None? then Step(s[0], 1) else Step(Nul, 0)
  }

  /**
   * `matchAnyCharIn` as evidently intended: consumes the first character when
   * it is in `filt` and yields that character.
   */
  function AnyCharIn(s: seq<CChar>, filt: seq<CChar>): (r: Step)
    ensures r.used <= |s| && r.used <= 1
    ensures r.used == 1 <==> s != [] && s[0] in filt
    ensures s[..r.used] == if r.used == 1 then [r.c] else []
    ensures r.used == 1 ==> r.c in filt
    ensures r.used == 0 ==> r.c == Nul
  {
    if s != [] && FindFirstOf(filt, s[0]).Some? then Step(s[0], 1) else Step(Nul, 0)
  }

  /** A character read by index, or a read past the end of the view. */
  datatype CharRead = Read(c: CChar) | OutOfRange
  datatype ReadStep = ReadStep(read: CharRead, used: nat)

  /**
   * `matchAnyCharIn` as written: it consumes the right character but yields
   * `ref[pos]`, where `pos` is the position of that character in `filt`, not
   * in the input. Reading at or past the end of the view is undefined
   * behaviour in the source; here it is the explicit `OutOfRange`.
   */
  function AnyCharInAsWritten(s: seq<CChar>, filt: seq<CChar>): (r: ReadStep)
    ensures r.used == AnyCharIn(s, filt).used
    ensures r.used == 0 ==> r.read == Read(Nul)
    ensures r.used == 1 ==>
      var p := FindFirstOf(filt, s[0]).value;
      r.read == if p < |s| then Read(s[p]) else OutOfRange
    ensures r.used == 1 && filt[0] == s[0] ==> r.read == Read(s[0])
  {
    if s == [] then ReadStep(Read(Nul), 0)
    else
      match FindFirstOf(filt, s[0])
      case None => ReadStep(Read(Nul), 0)
      case Some(p) => ReadStep(if p < |s| then Read(s[p]) else OutOfRange, 1)
  }

  /** The cursor: `ref` is the view of the input that is still unparsed. */
  class Matching {
    var ref: seq<CChar>

    constructor (input: seq<CChar>)
      ensures ref == input
    {
      ref := input;
    }

    method MatchAnyChar() returns (c: CChar)
      modifies this
      ensures c == AnyChar(old(ref)).c
      ensures ref == old(ref)[AnyChar(old(ref)).used..]
    {
      if ref != [] {
        c := ref[0];
        ref := ref[1..];
      } else {
        c := Nul;
      }
    }

    method MatchChar(c: CChar) returns (accepting: bool)
      modifies this
      ensures accepting == MatchesChar(old(ref), c)
      ensures ref == if accepting then old(ref)[1..] else old(ref)
    {
      accepting := ref != [] && ref[0] == c;
      if accepting {
        ref := ref[1..];
      }
    }

    method MatchCharNotIn(filt: seq<CChar>) returns (c: CChar)
      modifies this
      ensures c == CharNotIn(old(ref), filt).c
      ensures ref == old(ref)[CharNotIn(old(ref), filt).used..]
    {
      c := Nul;
      if ref != [] {
        var first := ref[0];
        if FindFirstOf(filt, first).None? {
          ref := ref[1..];
          c := first;
        }
      }
    }

    method MatchAnyCharIn(filt: seq<CChar>) returns (c: CChar)
      modifies this
      ensures c == AnyCharIn(old(ref), filt).c
      ensures ref == old(ref)[AnyCharIn(old(ref), filt).used..]
    {
      c := Nul;
      if ref != [] {
        var first := ref[0];
        if FindFirstOf(filt, first).Some? {
          ref := ref[1..];
          c := first;
        }
      }
    }

    method MatchAnyCharInAsWritten(filt: seq<CChar>) returns (r: CharRead)
      modifies this
      ensures r == AnyCharInAsWritten(old(ref), filt).read
      ensures ref == old(ref)[AnyCharInAsWritten(old(ref), filt).used..]
    {
      r := Read(Nul);
      if ref != [] {
        var pos := FindFirstOf(filt, ref[0]);
        if pos.Some? {
          r := if pos.value < |ref| then Read(ref[pos.value]) else OutOfRange;
          ref := ref[1..];
        }
      }
    }
  }
}

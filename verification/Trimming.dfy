/** What trimming removes from a text: exactly the white space at its two ends. */
module Trimming {
  import opened Bytes
  import opened Text

  // ----- White space -----

  /** The code points with the property White_Space. */
  predicate WhitePoint(c: int) {
    || 9 <= c <= 13 || c == 0x20 || c == 0x85 || c == 0xA0 || c == 0x1680 || 0x2000 <= c <= 0x200A
    || c == 0x2028 || c == 0x2029 || c == 0x202F || c == 0x205F || c == 0x3000
  }

  /** The encoding of a code point of up to sixteen bits (section 3 of RFC 3629). */
  function Utf8(c: int): Bytes
    requires 0 <= c < 0x1_0000
  {
    if c < 0x80 then [c]
    else if c < 0x800 then [0xC0 + c / 64, 0x80 + c % 64]
    else [0xE0 + c / 4096, 0x80 + c / 64 % 64, 0x80 + c % 64]
  }

  /** One white-space character. */
  ghost predicate White(s: Bytes) {
    exists c :: WhitePoint(c) && s == Utf8(c)
  }

  /** The same, as the trimmer sees it. */
  predicate IsSpace(s: Bytes) {
    0 < |s| == SpaceLength(s)
  }

  lemma PointIsSpace(s: Bytes, c: int)
    requires WhitePoint(c) && s == Utf8(c)
    ensures IsSpace(s)
  {
  }

  lemma SpaceShape(s: Bytes)
    ensures IsSpace(s) <==>
              || (|s| == 1 && NarrowSpace(s[0])) || (|s| == 2 && MiddleSpace(s[0], s[1]))
              || (|s| == 3 && WideSpace(s[0], s[1], s[2]))
  {
  }

  lemma WideIsPoint(a: Byte, b: Byte, c: Byte)
    requires WideSpace(a, b, c)
    ensures White([a, b, c])
  {
    var p :=
      if a == 0xE1 then 0x1680 else if a == 0xE3 then 0x3000 else if b == 0x81 then 0x205F else 0x1F80 + c as int;
    assert WhitePoint(p) && Utf8(p) == [a, b, c];
  }

  lemma SpaceIsWhite(s: Bytes)
    ensures IsSpace(s) <==> White(s)
  {
    SpaceShape(s);
    if White(s) {
      var c :| WhitePoint(c) && s == Utf8(c);
      PointIsSpace(s, c);
    }
    if IsSpace(s) {
      if |s| == 3 {
        assert s == [s[0], s[1], s[2]];
        WideIsPoint(s[0], s[1], s[2]);
      } else {
        var c := s[|s| - 1];
        assert s == if |s| == 1 then [c] else [0xC2, c];
        assert WhitePoint(c) && Utf8(c) == s;
      }
    }
  }

  // ----- Trimming -----

  predicate SpaceAtFront(s: Bytes, n: nat) {
    0 < n <= |s| && IsSpace(s[..n])
  }

  predicate SpaceAtBack(s: Bytes, n: nat) {
    0 < n <= |s| && IsSpace(s[|s| - n..])
  }

  lemma FrontIsFound(s: Bytes, n: nat)
    ensures SpaceAtFront(s, n) <==> 0 < n == SpaceLength(s)
  {
    if 0 < n <= |s| {
      assert forall i :: 0 <= i < n ==> s[..n][i] == s[i];
    }
  }

  lemma BackIsFound(s: Bytes, n: nat)
    ensures SpaceAtBack(s, n) <==> 0 < n == LastSpaceLength(s)
  {
    if 0 < n <= |s| {
      var back := s[|s| - n..];
      SpaceShape(back);
      assert forall i :: 0 <= i < n ==> back[i] == s[|s| - n + i];
    }
  }

  predicate AllSpace(pieces: seq<Bytes>) {
    forall i :: 0 <= i < |pieces| ==> IsSpace(pieces[i])
  }

  lemma NoSpaceAtFront(s: Bytes)
    requires SpaceLength(s) == 0
    ensures forall n :: !SpaceAtFront(s, n)
  {
    forall n: nat
      ensures !SpaceAtFront(s, n)
    {
      FrontIsFound(s, n);
    }
  }

  lemma NoSpaceAtBack(s: Bytes)
    requires LastSpaceLength(s) == 0
    ensures forall n :: !SpaceAtBack(s, n)
  {
    forall n: nat
      ensures !SpaceAtBack(s, n)
    {
      BackIsFound(s, n);
    }
  }

  lemma OneBefore(first: Bytes, pieces: seq<Bytes>, rest: Bytes)
    ensures Concat([first] + pieces) + rest == first + (Concat(pieces) + rest)
  {
    assert ([first] + pieces)[1..] == pieces;
    Associative(first, Concat(pieces), rest);
  }

  lemma OneBehind(rest: Bytes, pieces: seq<Bytes>, last: Bytes)
    ensures rest + Concat(pieces + [last]) == rest + Concat(pieces) + last
  {
    ConcatAppend(pieces, [last]);
    var one := [last];
    assert one[1..] == [];
    Associative(rest, Concat(pieces), last);
  }

  lemma AllSpaceTogether(a: seq<Bytes>, b: seq<Bytes>)
    requires AllSpace(a) && AllSpace(b)
    ensures AllSpace(a + b)
  {
  }

  lemma {:induction false} LeftIsExact(s: Bytes) returns (left: seq<Bytes>)
    ensures AllSpace(left) && s == Concat(left) + TrimLeft(s) && SpaceLength(TrimLeft(s)) == 0
    decreases |s|
  {
    var n := SpaceLength(s);
    left := [];
    if n != 0 {
      var first, rest := s[..n], s[n..];
      FrontIsFound(s, n);
      var others := LeftIsExact(rest);
      OneBefore(first, others, TrimLeft(rest));
      AllSpaceTogether([first], others);
      left := [first] + others;
    }
  }

  lemma {:induction false} RightIsExact(s: Bytes) returns (right: seq<Bytes>)
    ensures AllSpace(right) && s == TrimRight(s) + Concat(right) && LastSpaceLength(TrimRight(s)) == 0
    ensures TrimRight(s) <= s
    decreases |s|
  {
    var n := LastSpaceLength(s);
    right := [];
    if n != 0 {
      var rest, last := s[..|s| - n], s[|s| - n..];
      BackIsFound(s, n);
      var others := RightIsExact(rest);
      OneBehind(TrimRight(rest), others, last);
      AllSpaceTogether(others, [last]);
      right := others + [last];
    }
  }

  lemma PrefixHasNoSpace(t: Bytes, s: Bytes)
    requires t <= s && forall n :: !SpaceAtFront(s, n)
    ensures forall n :: !SpaceAtFront(t, n)
  {
    forall n: nat | 0 < n <= |t|
      ensures !SpaceAtFront(t, n)
    {
      assert t[..n] == s[..n] && !SpaceAtFront(s, n);
    }
  }

  /** White space at either end. */
  ghost predicate WhiteEnd(s: Bytes, n: nat) {
    0 < n <= |s| && (White(s[..n]) || White(s[|s| - n..]))
  }

  /** Trimming takes white-space characters off both ends, and leaves none there. */
  lemma TrimIsExact(s: Bytes) returns (left: seq<Bytes>, right: seq<Bytes>)
    ensures s == Concat(left) + TrimSpace(s) + Concat(right)
    ensures forall i :: 0 <= i < |left| ==> White(left[i])
    ensures forall i :: 0 <= i < |right| ==> White(right[i])
    ensures forall n :: !WhiteEnd(TrimSpace(s), n)
  {
    left := LeftIsExact(s);
    right := RightIsExact(TrimLeft(s));
    Associative(Concat(left), TrimSpace(s), Concat(right));
    NoSpaceAtFront(TrimLeft(s));
    NoSpaceAtBack(TrimSpace(s));
    PrefixHasNoSpace(TrimSpace(s), TrimLeft(s));
    SpacesAreWhite(left);
    SpacesAreWhite(right);
    NoWhiteEnd(TrimSpace(s));
  }

  lemma SpacesAreWhite(pieces: seq<Bytes>)
    requires AllSpace(pieces)
    ensures forall i :: 0 <= i < |pieces| ==> White(pieces[i])
  {
    forall i | 0 <= i < |pieces|
      ensures White(pieces[i])
    {
      SpaceIsWhite(pieces[i]);
    }
  }

  lemma NoWhiteEnd(s: Bytes)
    requires forall n :: !SpaceAtFront(s, n) && !SpaceAtBack(s, n)
    ensures forall n :: !WhiteEnd(s, n)
  {
    forall n: nat | 0 < n <= |s|
      ensures !WhiteEnd(s, n)
    {
      SpaceIsWhite(s[..n]);
      SpaceIsWhite(s[|s| - n..]);
      assert !SpaceAtFront(s, n) && !SpaceAtBack(s, n);
    }
  }
}

/** UTF-8 byte strings: the syntax of section 4 of RFC 3629, and character boundaries. */
module Utf8 {
  type Byte = x: int | 0 <= x < 256

  type Bytes = seq<Byte>

  predicate IsTail(b: Byte) {
    0x80 <= b < 0xC0
  }

  /** How many bytes the well-formed character at the start of `s` has; 0 when there is none. */
  function CharLen(s: Bytes): (n: nat)
    ensures n <= |s| && n <= 4
    ensures n > 0 ==> !IsTail(s[0]) && forall i :: 0 < i < n ==> IsTail(s[i])
  {
    if s == [] then 0
    else if s[0] < 0x80 then 1
    else if |s| >= 2 && 0xC2 <= s[0] < 0xE0 && IsTail(s[1]) then 2
    else if |s| >= 3 && 0xE0 <= s[0] < 0xF0 && IsTail(s[1]) && IsTail(s[2])
            && (s[0] == 0xE0 ==> 0xA0 <= s[1]) && (s[0] == 0xED ==> s[1] < 0xA0) then 3
    else if |s| >= 4 && 0xF0 <= s[0] < 0xF5 && IsTail(s[1]) && IsTail(s[2]) && IsTail(s[3])
            && (s[0] == 0xF0 ==> 0x90 <= s[1]) && (s[0] == 0xF4 ==> s[1] < 0x90) then 4
    else 0
  }

  /** A sequence of well-formed characters: what a Rust string holds. */
  predicate Valid(s: Bytes) {
    s == [] || (CharLen(s) > 0 && Valid(s[CharLen(s)..]))
  }

  /** `str::is_char_boundary`. */
  predicate Boundary(s: Bytes, i: nat) {
    i == 0 || i == |s| || (i < |s| && !IsTail(s[i]))
  }

  lemma CharLenOfPrefix(a: Bytes, b: Bytes)
    requires CharLen(a) > 0
    ensures CharLen(a + b) == CharLen(a)
  {
  }

  lemma OneChar(s: Bytes)
    requires CharLen(s) > 0
    ensures Valid(s[..CharLen(s)]) && CharLen(s[..CharLen(s)]) == CharLen(s)
  {
    var c := s[..CharLen(s)];
    assert CharLen(c) == |c| && c[|c|..] == [];
  }

  lemma ConcatLaws(a: Bytes, b: Bytes, c: Bytes)
    ensures a + b + c == a + (b + c)
    ensures [] + c == c
  {
  }

  lemma FirstChar(s: Bytes) returns (c: Bytes, rest: Bytes)
    requires Valid(s) && s != []
    ensures 0 < CharLen(c) == |c| && Valid(rest) && s == c + rest
  {
    c, rest := s[..CharLen(s)], s[CharLen(s)..];
    OneChar(s);
  }

  lemma ValidPrepend(c: Bytes, s: Bytes)
    requires 0 < CharLen(c) == |c| && Valid(s)
    ensures Valid(c + s)
  {
    CharLenOfPrefix(c, s);
    assert (c + s)[|c|..] == s;
  }

  lemma {:induction false} ValidConcat(a: Bytes, b: Bytes)
    requires Valid(a) && Valid(b)
    ensures Valid(a + b)
    decreases |a|
  {
    ConcatLaws(a, a, b);
    if a != [] {
      var c, rest := FirstChar(a);
      ConcatLaws(c, rest, b);
      ValidConcat(rest, b);
      ValidPrepend(c, rest + b);
    }
  }

  lemma CharLenOfTake(s: Bytes, i: nat)
    requires 0 < CharLen(s) <= i <= |s|
    ensures CharLen(s[..i]) == CharLen(s)
  {
    var n := CharLen(s);
    OneChar(s);
    CharLenOfPrefix(s[..n], s[n..i]);
    assert s[..n] + s[n..i] == s[..i];
  }

  lemma BoundaryPastFirst(s: Bytes, i: nat)
    requires CharLen(s) > 0 && 0 < i && Boundary(s, i)
    ensures CharLen(s) <= i <= |s| && Boundary(s[CharLen(s)..], i - CharLen(s))
  {
  }

  /** Cutting a valid string at a boundary leaves two valid strings. */
  lemma {:induction false} ValidSplit(s: Bytes, i: nat)
    requires Valid(s) && Boundary(s, i)
    ensures i <= |s| && Valid(s[..i]) && Valid(s[i..])
    decreases |s|
  {
    if i == 0 {
      assert s[..i] == [] && s[i..] == s;
    } else {
      var n := CharLen(s);
      BoundaryPastFirst(s, i);
      ValidSplit(s[n..], i - n);
      CharLenOfTake(s, i);
      assert s[n..][..i - n] == s[..i][n..];
      assert s[n..][i - n..] == s[i..];
    }
  }

  lemma ValidSlice(s: Bytes, i: nat, j: nat)
    requires Valid(s) && i <= j && Boundary(s, i) && Boundary(s, j)
    ensures j <= |s| && Valid(s[i..j])
    ensures i < j ==> !IsTail(s[i])
  {
    ValidSplit(s, j);
    ValidSplit(s, i);
    assert s[..j][i..] == s[i..j];
    if i < j {
      assert Boundary(s[..j], i);
      ValidSplit(s[..j], i);
      assert s[i..j][0] == s[i];
    } else {
      assert s[i..j] == [];
    }
  }

  /** A valid string continues with a valid string after any valid prefix. */
  lemma {:induction false} ValidAfterPrefix(s: Bytes, p: Bytes)
    requires Valid(s) && Valid(p) && p <= s
    ensures Valid(s[|p|..]) && Boundary(s, |p|)
    decreases |p|
  {
    if p != [] {
      var n := CharLen(p);
      CharLenOfPrefix(p, s[|p|..]);
      assert s == p + s[|p|..];
      assert p[n..] <= s[n..];
      ValidAfterPrefix(s[n..], p[n..]);
      assert s[n..][|p[n..]|..] == s[|p|..];
    }
  }

  /** At most three tail bytes follow each other. */
  lemma {:induction false} ShortTails(s: Bytes, i: nat)
    requires Valid(s) && i + 4 <= |s|
    ensures exists j :: i <= j < i + 4 && !IsTail(s[j])
    decreases |s|
  {
    var n := CharLen(s);
    if i < n {
      assert i == 0 ==> !IsTail(s[i]);
      if n < i + 4 {
        assert s[n..] != [] && s[n..][0] == s[n] && CharLen(s[n..]) > 0;
        assert !IsTail(s[n]);
      }
    } else {
      ShortTails(s[n..], i - n);
      var j :| i - n <= j < i - n + 4 && !IsTail(s[n..][j]);
      assert s[n..][j] == s[j + n];
    }
  }
}

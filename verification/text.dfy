/** The few string tests the validators rely on. */
module Text {
  /** `char::is_whitespace`: the Unicode White_Space property. */
  predicate IsSpace(c: char) {
    '\t' <= c <= '\r' || c == ' ' || c == '\U{0085}' || c == '\U{00A0}' || c == '\U{1680}'
    || '\U{2000}' <= c <= '\U{200A}' || c == '\U{2028}' || c == '\U{2029}' || c == '\U{202F}'
    || c == '\U{205F}' || c == '\U{3000}'
  }

  /** `s.trim().is_empty()` */
  predicate IsBlank(s: string) {
    forall i :: 0 <= i < |s| ==> IsSpace(s[i])
  }

  predicate IsLowerOrDigit(c: char) {
    'a' <= c <= 'z' || '0' <= c <= '9'
  }

  /** Lowercase letters and digits, with hyphens and underscores inside. */
  predicate IsSafeSlug(s: string) {
    && s != [] && IsLowerOrDigit(s[0]) && IsLowerOrDigit(s[|s| - 1])
    && forall i :: 0 <= i < |s| ==> IsLowerOrDigit(s[i]) || s[i] == '-' || s[i] == '_'
  }

  /** The 25 characters with the White_Space property. */
  lemma WhiteSpace(c: char)
    ensures IsSpace(c) <==>
            c in {'\U{0009}', '\U{000A}', '\U{000B}', '\U{000C}', '\U{000D}', '\U{0020}', '\U{0085}', '\U{00A0}', '\U{1680}',
                  '\U{2000}', '\U{2001}', '\U{2002}', '\U{2003}', '\U{2004}', '\U{2005}', '\U{2006}', '\U{2007}', '\U{2008}',
                  '\U{2009}', '\U{200A}', '\U{2028}', '\U{2029}', '\U{202F}', '\U{205F}', '\U{3000}'}
  {
  }

  predicate Listed(c: char) {
    c in {'a', 'b', 'c', 'd', 'e', 'f', 'g', 'h', 'i', 'j', 'k', 'l', 'm',
          'n', 'o', 'p', 'q', 'r', 's', 't', 'u', 'v', 'w', 'x', 'y', 'z',
          '0', '1', '2', '3', '4', '5', '6', '7', '8', '9'}
  }

  /** `[a-z0-9]` */
  predicate Edge(s: string) {
    |s| == 1 && Listed(s[0])
  }

  /** `[a-z0-9_-]*` */
  predicate Inside(s: string) {
    forall i :: 0 <= i < |s| ==> Listed(s[i]) || s[i] == '_' || s[i] == '-'
  }

  lemma AlnumIsListed(c: char)
    ensures IsLowerOrDigit(c) <==> Listed(c)
  {
  }

  lemma SlugIsPieces(s: string) returns (middle: string)
    requires IsSafeSlug(s) && |s| > 1
    ensures s == [s[0]] + middle + [s[|s| - 1]] && Edge([s[0]]) && Inside(middle) && Edge([s[|s| - 1]])
  {
    middle := s[1..|s| - 1];
    AlnumIsListed(s[0]);
    AlnumIsListed(s[|s| - 1]);
    forall i | 0 <= i < |middle|
      ensures Listed(middle[i]) || middle[i] == '_' || middle[i] == '-'
    {
      AlnumIsListed(middle[i]);
    }
  }

  /** A slug is what `^[a-z0-9]([a-z0-9_-]*[a-z0-9])?$` matches. */
  lemma SlugIsPattern(s: string)
    ensures IsSafeSlug(s) <==>
            Edge(s) || exists first, middle, last :: s == first + middle + last && Edge(first) && Inside(middle) && Edge(last)
  {
    if |s| == 1 {
      AlnumIsListed(s[0]);
    } else if IsSafeSlug(s) {
      var middle := SlugIsPieces(s);
    }
    if first, middle, last :| s == first + middle + last && Edge(first) && Inside(middle) && Edge(last) {
      PatternIsSlug(first, middle, last);
    }
  }

  lemma PatternIsSlug(first: string, middle: string, last: string)
    requires Edge(first) && Inside(middle) && Edge(last)
    ensures IsSafeSlug(first + middle + last)
  {
    var s := first + middle + last;
    AlnumIsListed(first[0]);
    AlnumIsListed(last[0]);
    forall i | 0 <= i < |s|
      ensures IsLowerOrDigit(s[i]) || s[i] == '-' || s[i] == '_'
    {
      AlnumIsListed(s[i]);
      assert 0 < i < |s| - 1 ==> s[i] == middle[i - 1];
    }
  }

  /** `trim`: without the white space at both ends. */
  function Trim(s: string): string {
    if s != "" && IsSpace(s[0]) then Trim(s[1..])
    else if s != "" && IsSpace(s[|s| - 1]) then Trim(s[..|s| - 1])
    else s
  }

  lemma {:induction false} BlankIsTrimmedAway(s: string)
    ensures IsBlank(s) <==> Trim(s) == ""
  {
    if s != "" && IsSpace(s[0]) {
      BlankIsTrimmedAway(s[1..]);
      assert forall i :: 0 < i < |s| ==> s[i] == s[1..][i - 1];
    } else if s != "" && IsSpace(s[|s| - 1]) {
      BlankIsTrimmedAway(s[..|s| - 1]);
    }
  }
}

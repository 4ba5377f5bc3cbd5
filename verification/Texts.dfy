// Small text operations several components share.
module Texts {

  datatype Option<+T> = None | Some(value: T)

  datatype Result<+T, +E> = Ok(value: T) | Err(error: E)

  // The characters str.isspace accepts.
  predicate IsSpace(c: char) {
    || '\t' <= c <= '\r' || '\U{1c}' <= c <= ' '
    || c == '\U{85}' || c == '\U{a0}' || c == '\U{1680}'
    || '\U{2000}' <= c <= '\U{200a}' || c == '\U{2028}' || c == '\U{2029}'
    || c == '\U{202f}' || c == '\U{205f}' || c == '\U{3000}'
  }

  predicate Blank(s: string) {
    forall i :: 0 <= i < |s| ==> IsSpace(s[i])
  }

  function StripLeft(s: string): string {
    if s != [] && IsSpace(s[0]) then StripLeft(s[1..]) else s
  }

  function StripRight(s: string): string {
    if s != [] && IsSpace(s[|s| - 1]) then StripRight(s[..|s| - 1]) else s
  }

  function Strip(s: string): string {
    StripRight(StripLeft(s))
  }

  lemma {:induction false} StripLeftIs(s: string) returns (cut: nat)
    ensures cut <= |s| && StripLeft(s) == s[cut..] && Blank(s[..cut])
    ensures StripLeft(s) == "" || !IsSpace(StripLeft(s)[0])
  {
    if s != [] && IsSpace(s[0]) {
      var k := StripLeftIs(s[1..]);
      cut := k + 1;
      assert s[1..][k..] == s[cut..];
      assert forall i :: 0 < i < cut ==> s[..cut][i] == s[1..][..k][i - 1];
    } else {
      cut := 0;
    }
  }

  lemma {:induction false} StripRightIs(s: string) returns (end: nat)
    ensures end <= |s| && StripRight(s) == s[..end] && Blank(s[end..])
    ensures StripRight(s) == "" || !IsSpace(StripRight(s)[end - 1])
  {
    if s != [] && IsSpace(s[|s| - 1]) {
      end := StripRightIs(s[..|s| - 1]);
      assert s[..|s| - 1][..end] == s[..end];
      assert forall i :: 0 <= i < |s| - 1 - end ==> s[end..][i] == s[..|s| - 1][end..][i];
    } else {
      end := |s|;
    }
  }

  // Stripping cuts blank ends off and stops at the first other character.
  lemma StripIs(s: string) returns (start: nat, end: nat)
    ensures start <= end <= |s| && Strip(s) == s[start..end]
    ensures Blank(s[..start]) && Blank(s[end..])
    ensures start < end ==> !IsSpace(s[start]) && !IsSpace(s[end - 1])
  {
    start := StripLeftIs(s);
    var n := StripRightIs(s[start..]);
    end := start + n;
    assert s[start..][..n] == s[start..end];
    assert s[start..][n..] == s[end..];
  }

  lemma StripBlank(s: string)
    ensures Strip(s) == "" <==> Blank(s)
  {
    var start, end := StripIs(s);
    if start < end {
      assert !IsSpace(s[start]);
    } else {
      assert forall i :: 0 <= i < |s| ==> s[i] == if i < start then s[..start][i] else s[end..][i - end];
    }
  }

  const NARROW_SPACES := "\t\n\U{b}\U{c}\r\U{1c}\U{1d}\U{1e}\U{1f} \U{85}\U{a0}\U{1680}"
  const WIDE_SPACES := "\U{2000}\U{2001}\U{2002}\U{2003}\U{2004}\U{2005}\U{2006}\U{2007}\U{2008}\U{2009}\U{200a}"
                     + "\U{2028}\U{2029}\U{202f}\U{205f}\U{3000}"

  // White space is these characters and no other.
  lemma SpaceCharacters(c: char)
    ensures IsSpace(c) <==> c in NARROW_SPACES || c in WIDE_SPACES
    ensures '!' <= c <= '~' ==> !IsSpace(c)
  {
  }
}

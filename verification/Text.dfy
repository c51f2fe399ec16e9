/** The string operations the source relies on, for ASCII text. */
module Text {
  function LowerChar(c: char): char {
    if 'A' <= c <= 'Z' then c - 'A' + 'a' else c
  }

  function UpperChar(c: char): char {
    if 'a' <= c <= 'z' then c - 'a' + 'A' else c
  }

  function Lower(s: string): (r: string)
    ensures |r| == |s| && forall i :: 0 <= i < |s| ==> r[i] == LowerChar(s[i])
  {
    if s == "" then "" else [LowerChar(s[0])] + Lower(s[1..])
  }

  function Upper(s: string): (r: string)
    ensures |r| == |s| && forall i :: 0 <= i < |s| ==> r[i] == UpperChar(s[i])
  {
    if s == "" then "" else [UpperChar(s[0])] + Upper(s[1..])
  }

  predicate IsSpace(c: char) {
    c == ' ' || '\t' <= c <= '\r' || '\U{1c}' <= c <= '\U{1f}'
  }

  /** No white space at either end. */
  predicate Trimmed(s: string) {
    s == "" || (!IsSpace(s[0]) && !IsSpace(s[|s| - 1]))
  }

  function StripLeft(s: string): (r: string)
    ensures |r| <= |s| && (r == "" || !IsSpace(r[0]))
    ensures s != "" && !IsSpace(s[0]) ==> r == s
    ensures s != "" && r != "" ==> r[|r| - 1] == s[|s| - 1]
  {
    if s != "" && IsSpace(s[0]) then StripLeft(s[1..]) else s
  }

  function StripRight(s: string): (r: string)
    ensures |r| <= |s| && (r == "" || !IsSpace(r[|r| - 1]))
    ensures s != "" && !IsSpace(s[|s| - 1]) ==> r == s
    ensures r == s[..|r|]
  {
    if s != "" && IsSpace(s[|s| - 1]) then StripRight(s[..|s| - 1]) else s
  }

  function Strip(s: string): (r: string)
    ensures |r| <= |s| && Trimmed(r)
    ensures Trimmed(s) ==> r == s
  {
    StripRight(StripLeft(s))
  }

  predicate NoCapitals(s: string) {
    forall i :: 0 <= i < |s| ==> !('A' <= s[i] <= 'Z')
  }

  predicate NoSmallLetters(s: string) {
    forall i :: 0 <= i < |s| ==> !('a' <= s[i] <= 'z')
  }

  /** Lower case has no capitals, and leaves text that has none alone. */
  lemma LowerIsUniform(s: string)
    ensures NoCapitals(Lower(s))
    ensures NoCapitals(s) ==> Lower(s) == s
  {
    forall i | 0 <= i < |s| ensures !('A' <= Lower(s)[i] <= 'Z') {
      CharCaseLaws(s[i]);
    }
  }

  /** Upper case has no small letters, and leaves text that has none alone. */
  lemma UpperIsUniform(s: string)
    ensures NoSmallLetters(Upper(s))
    ensures NoSmallLetters(s) ==> Upper(s) == s
  {
    forall i | 0 <= i < |s| ensures !('a' <= Upper(s)[i] <= 'z') {
      CharCaseLaws(s[i]);
    }
  }

  /** Changing case loses nothing but case. */
  lemma LowerOfUpper(s: string)
    ensures Lower(Upper(s)) == Lower(s)
  {
    forall i | 0 <= i < |s| ensures Lower(Upper(s))[i] == Lower(s)[i] {
      CharCaseLaws(s[i]);
    }
  }

  lemma UpperOfLower(s: string)
    ensures Upper(Lower(s)) == Upper(s)
  {
    forall i | 0 <= i < |s| ensures Upper(Lower(s))[i] == Upper(s)[i] {
      CharCaseLaws(s[i]);
    }
  }

  lemma CharCaseLaws(c: char)
    ensures LowerChar(UpperChar(c)) == LowerChar(c) && UpperChar(LowerChar(c)) == UpperChar(c)
    ensures !('A' <= LowerChar(c) <= 'Z') && !('a' <= UpperChar(c) <= 'z')
  {
  }

  lemma {:induction false} StripLeftCutsSpace(s: string) returns (n: nat)
    ensures n <= |s| && StripLeft(s) == s[n..] && forall i :: 0 <= i < n ==> IsSpace(s[i])
  {
    if s != "" && IsSpace(s[0]) {
      var m := StripLeftCutsSpace(s[1..]);
      n := m + 1;
    } else {
      n := 0;
    }
  }

  lemma {:induction false} StripRightCutsSpace(s: string)
    ensures forall i :: |StripRight(s)| <= i < |s| ==> IsSpace(s[i])
  {
    if s != "" && IsSpace(s[|s| - 1]) {
      StripRightCutsSpace(s[..|s| - 1]);
    }
  }

  /** Stripping cuts white space off both ends and nothing else. */
  lemma StripCutsSpace(s: string) returns (n: nat, m: nat)
    ensures n <= m <= |s| && Strip(s) == s[n..m]
    ensures forall i :: 0 <= i < n || m <= i < |s| ==> IsSpace(s[i])
  {
    n := StripLeftCutsSpace(s);
    var left := StripLeft(s);
    StripRightCutsSpace(left);
    m := n + |Strip(s)|;
    forall i | m <= i < |s| ensures IsSpace(s[i]) {
      assert s[i] == left[i - n];
    }
  }

  /** Case plays no part in whether text has white space around it. */
  lemma TrimmedIgnoresCase(a: string, b: string)
    requires Lower(a) == Lower(b)
    ensures Trimmed(a) <==> Trimmed(b)
  {
    assert |a| == |b|;
    if a != "" {
      assert LowerChar(a[0]) == Lower(a)[0] == LowerChar(b[0]);
      assert LowerChar(a[|a| - 1]) == Lower(a)[|a| - 1] == LowerChar(b[|b| - 1]);
    }
  }
}

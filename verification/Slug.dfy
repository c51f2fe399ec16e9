/** Choosing a free tenant slug (tenants/auth_views.py): the base, else the base with a counter from 2. */
module Slug {
  import opened Prelude

  function Digit(d: nat): char
    requires d < 10
  {
    ['0', '1', '2', '3', '4', '5', '6', '7', '8', '9'][d]
  }

  function Decimal(n: nat): (s: string)
    ensures s != "" && forall c :: c in s ==> '0' <= c <= '9'
    ensures n > 0 ==> s[0] != '0'
  {
    if n < 10 then [Digit(n)] else Decimal(n / 10) + [Digit(n % 10)]
  }

  function DigitValue(c: char): nat {
    if '0' <= c <= '9' then (c - '0') as nat else 0
  }

  /** Reading a decimal numeral back. */
  function Value(s: string): nat {
    if s == "" then 0 else 10 * Value(Front(s)) + DigitValue(Last(s))
  }

  lemma {:induction false} DecimalReadsBack(n: nat)
    ensures Value(Decimal(n)) == n
  {
    if n >= 10 {
      DecimalReadsBack(n / 10);
      assert Front(Decimal(n)) == Decimal(n / 10);
    } else {
      assert Value(Front(Decimal(n))) == 0;
    }
  }

  /** The k-th candidate: base for k = 1, then base-2, base-3, ... */
  function Candidate(base: string, k: nat): string
    requires k >= 1
  {
    if k == 1 then base else base + "-" + Decimal(k)
  }

  lemma CandidatesDiffer(base: string, j: nat, k: nat)
    requires 1 <= j < k
    ensures Candidate(base, j) != Candidate(base, k)
  {
    DecimalReadsBack(k);
    if j == 1 {
      assert |Candidate(base, k)| > |base|;
    } else {
      DecimalReadsBack(j);
      assert Candidate(base, j)[|base| + 1..] == Decimal(j);
      assert Candidate(base, k)[|base| + 1..] == Decimal(k);
    }
  }

  /** The first n candidates. */
  function Candidates(base: string, n: nat): set<string> {
    if n == 0 then {} else Candidates(base, n - 1) + {Candidate(base, n)}
  }

  lemma {:induction false} LaterCandidateIsNew(base: string, n: nat, k: nat)
    requires k > n
    ensures Candidate(base, k) !in Candidates(base, n)
  {
    if n == 0 {
    } else {
      LaterCandidateIsNew(base, n - 1, k);
      CandidatesDiffer(base, n, k);
    }
  }

  lemma {:induction false} CandidatesAreDistinct(base: string, n: nat)
    ensures |Candidates(base, n)| == n
    ensures forall j :: 1 <= j <= n ==> Candidate(base, j) in Candidates(base, n)
  {
    if n == 0 {
    } else {
      CandidatesAreDistinct(base, n - 1);
      LaterCandidateIsNew(base, n - 1, n);
    }
  }

  /** slugified is slugify(name). Every refused candidate is a different taken slug, so the search ends. */
  method UniqueTenantSlug(slugified: string, taken: set<string>) returns (slug: string)
    ensures slug !in taken
    ensures var base := if slugified != "" then slugified else "tenant";
      slug == base || exists k :: k >= 2 && slug == base + "-" + Decimal(k)
    ensures var base := if slugified != "" then slugified else "tenant";
      exists k :: 1 <= k <= |taken| + 1 && slug == Candidate(base, k)
        && forall j :: 1 <= j < k ==> Candidate(base, j) in taken
  {
    var base := if slugified != "" then slugified else "tenant";
    slug := base;
    var counter := 2;
    while slug in taken
      invariant counter >= 2 && slug == Candidate(base, counter - 1)
      invariant slug == base || (counter > 2 && slug == base + "-" + Decimal(counter - 1))
      invariant Candidates(base, counter - 2) <= taken
      decreases |taken| + 2 - counter
    {
      NoMoreThanTaken(base, counter - 1, taken);
      slug := base + "-" + Decimal(counter);
      counter := counter + 1;
    }
    NoMoreThanTaken(base, counter - 2, taken);
    CandidatesAreDistinct(base, counter - 2);
  }

  lemma NoMoreThanTaken(base: string, n: nat, taken: set<string>)
    requires Candidates(base, n) <= taken
    ensures n <= |taken|
  {
    CandidatesAreDistinct(base, n);
    assert taken == Candidates(base, n) + (taken - Candidates(base, n));
  }
}

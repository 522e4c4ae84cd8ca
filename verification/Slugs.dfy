/**
 Slugs of new workspaces: the base slug, or the base with the first free number from 2 on
 (`create_tenant` in db/sqlite_store.py).
 */
module Slugs {
  import opened Wrappers
  import opened Counting
  import opened Timestamps

  /** A row of `tenants`. */
  datatype Tenant = Tenant(name: string, slug: Option<string>)

  type Tenants = map<string, Tenant>

  /** The number as Python formats it. */
  function Decimal(n: nat): string {
    Pad(n, 1)
  }

  /** What the loop tries when `suffix` is `k`. */
  function Candidate(base: string, k: nat): string {
    if k <= 1 then base else base + "-" + Decimal(k)
  }

  lemma CandidatesDiffer(base: string, j: nat, k: nat)
    requires 1 <= j < k
    ensures Candidate(base, j) != Candidate(base, k)
  {
    hide Pad, NumberIn;
    PadReads(j, 1);
    PadReads(k, 1);
    var longer := Candidate(base, k);
    assert longer[|base|..] == "-" + Decimal(k);
    if j == 1 {
      assert |longer| > |base|;
    } else {
      assert Candidate(base, j)[|base| + 1..] == Decimal(j);
      assert longer[|base| + 1..] == Decimal(k);
    }
  }

  /** The first is the base slug itself; the others are it, a hyphen and the number, in digits and with no
      leading zero. */
  lemma CandidateReads(base: string, k: nat)
    ensures k <= 1 ==> Candidate(base, k) == base
    ensures 2 <= k ==> (
              var c := Candidate(base, k);
              && base + "-" < c && AllDigits(c[|base| + 1..]) && c[|base| + 1] != '0' && NumberIn(c[|base| + 1..]) == k)
  {
    if 2 <= k {
      PadReads(k, 1);
      PadIsDigits(k, 1);
      NoLeadingZero(k);
      assert Candidate(base, k)[|base| + 1..] == Decimal(k);
    }
  }

  lemma {:induction false} NoLeadingZero(n: nat)
    requires 1 <= n
    ensures Decimal(n) != "" && Decimal(n)[0] != '0' && Decimal(n) == Pad(n, 0)
  {
    var shorter := Pad(n / 10, 0);
    assert Pad(n, 1) == Pad(n, 0) == shorter + [Digit(n % 10)];
    if n >= 10 {
      NoLeadingZero(n / 10);
      assert shorter == Decimal(n / 10);
    } else {
      assert shorter == "";
    }
  }

  function Tried(base: string, k: nat): set<string> {
    set j | 1 <= j < k :: Candidate(base, j)
  }

  lemma {:induction false} TriedGrows(base: string, k: nat)
    requires 1 <= k
    ensures Tried(base, k + 1) == Tried(base, k) + {Candidate(base, k)}
    ensures |Tried(base, k)| == k - 1
    decreases k
  {
    hide Candidate;
    forall j | 1 <= j < k ensures Candidate(base, j) != Candidate(base, k) {
      CandidatesDiffer(base, j, k);
    }
    if k > 1 {
      TriedGrows(base, k - 1);
      forall j | 1 <= j < k - 1 ensures Candidate(base, j) != Candidate(base, k - 1) {
        CandidatesDiffer(base, j, k - 1);
      }
    }
  }

  /** If the first `k - 1` candidates are taken, there are at least that many slugs: the search ends. */
  lemma SearchEnds(base: string, k: nat, slugs: set<string>)
    requires 1 <= k && Tried(base, k) <= slugs
    ensures k <= |slugs| + 1
  {
    TriedGrows(base, k);
    SubsetSize(Tried(base, k), slugs);
  }

  /** The least free candidate exists for every finite table, and there is only one. */
  ghost predicate LeastFree(base: string, slugs: set<string>, k: nat) {
    1 <= k && Candidate(base, k) !in slugs && Tried(base, k) <= slugs
  }

  lemma {:induction false} LeastFreeExists(base: string, slugs: set<string>, from: nat) returns (k: nat)
    requires 1 <= from && Tried(base, from) <= slugs
    ensures LeastFree(base, slugs, k) && from <= k <= |slugs| + 1
    ensures forall other: nat | LeastFree(base, slugs, other) :: other == k
    decreases |slugs| + 1 - from
  {
    SearchEnds(base, from, slugs);
    TriedGrows(base, from);
    if Candidate(base, from) in slugs {
      SearchEnds(base, from + 1, slugs);
      k := LeastFreeExists(base, slugs, from + 1);
    } else {
      k := from;
      forall other: nat | LeastFree(base, slugs, other) ensures other == k {
        assert k < other ==> Candidate(base, k) in Tried(base, other);
        assert other < k ==> Candidate(base, other) in Tried(base, k);
      }
    }
  }

  // ------------------------------------------------------------------- the table

  function SlugsOf(t: Tenants): set<string> {
    set id | id in t && t[id].slug.Some? :: t[id].slug.value
  }

  /** The UNIQUE column: no two rows share a slug; absent slugs do not count. */
  ghost predicate DistinctSlugs(t: Tenants) {
    forall a, b | a in t && b in t && a != b && t[a].slug.Some? :: t[a].slug != t[b].slug
  }

  lemma NewSlugKeepsDistinct(t: Tenants, id: string, name: string, slug: string)
    requires DistinctSlugs(t) && id !in t && slug !in SlugsOf(t)
    ensures DistinctSlugs(t[id := Tenant(name, Some(slug))])
    ensures SlugsOf(t[id := Tenant(name, Some(slug))]) == SlugsOf(t) + {slug}
  {
    var n := t[id := Tenant(name, Some(slug))];
    forall s | s in SlugsOf(t) + {slug} ensures s in SlugsOf(n) {
      if s == slug {
        assert n[id].slug == Some(slug);
      } else {
        var a :| a in t && t[a].slug == Some(s);
        assert n[a].slug == Some(s);
      }
    }
    forall a, b | a in n && b in n && a != b && n[a].slug.Some? ensures n[a].slug != n[b].slug {
      assert a != id ==> t[a].slug.value in SlugsOf(t);
      assert b != id && t[b].slug.Some? ==> t[b].slug.value in SlugsOf(t);
    }
  }
}

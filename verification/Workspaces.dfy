/** Workspaces and the ids they share (app/tenancy.py, db/base.py). */
module Workspaces {
  /** The shared workspace, the operator's own. */
  const DEFAULT_TENANT := "default"

  /** `scoped_id`. */
  function ScopedId(item: string, tenant: string): string {
    if tenant == DEFAULT_TENANT || tenant + ":" <= item then item else tenant + ":" + item
  }

  lemma ScopedTwice(item: string, tenant: string)
    ensures ScopedId(ScopedId(item, tenant), tenant) == ScopedId(item, tenant)
    ensures tenant != DEFAULT_TENANT ==> tenant + ":" <= ScopedId(item, tenant)
    ensures ScopedId(item, tenant) == item || ScopedId(item, tenant) == tenant + ":" + item
  {
    assert tenant + ":" <= tenant + ":" + item;
  }

  ghost predicate Collide(a: string, b: string) {
    exists i, j :: ScopedId(i, a) == ScopedId(j, b)
  }

  lemma CollidesByPrefix(a: string, b: string)
    requires a == DEFAULT_TENANT || a + ":" <= b + ":"
    ensures Collide(a, b)
  {
    assert ScopedId(b + ":", a) == ScopedId(b + ":", b);
  }

  /** Two workspaces, neither of them the default one, can collide exactly when one's prefix begins the
      other's. The default one, whose ids stay plain, can collide with any. */
  lemma WhenIdsCollide(a: string, b: string)
    ensures Collide(a, b) <==> a == DEFAULT_TENANT || b == DEFAULT_TENANT || a + ":" <= b + ":" || b + ":" <= a + ":"
  {
    if Collide(a, b) && a != DEFAULT_TENANT && b != DEFAULT_TENANT {
      var i, j :| ScopedId(i, a) == ScopedId(j, b);
      ScopedTwice(i, a);
      ScopedTwice(j, b);
      var id := ScopedId(i, a);
      assert a + ":" == id[..|a| + 1] && b + ":" == id[..|b| + 1];
      assert |a| <= |b| ==> a + ":" == (b + ":")[..|a| + 1];
      assert |b| <= |a| ==> b + ":" == (a + ":")[..|b| + 1];
    }
    if a == DEFAULT_TENANT || a + ":" <= b + ":" {
      CollidesByPrefix(a, b);
    } else if b == DEFAULT_TENANT || b + ":" <= a + ":" {
      CollidesByPrefix(b, a);
      var i, j :| ScopedId(i, b) == ScopedId(j, a);
      assert ScopedId(j, a) == ScopedId(i, b);
    }
  }

  /** Names without a colon, such as the generated ones, never collide. */
  lemma PlainNamesNeverCollide(a: string, b: string)
    requires a != b && a != DEFAULT_TENANT && b != DEFAULT_TENANT && ':' !in a && ':' !in b
    ensures !Collide(a, b)
  {
    WhenIdsCollide(a, b);
    if a + ":" <= b + ":" {
      ColonEnds(a, b);
    }
    if b + ":" <= a + ":" {
      ColonEnds(b, a);
    }
  }

  lemma ColonEnds(a: string, b: string)
    requires ':' !in b && a + ":" <= b + ":"
    ensures a == b
  {
    assert (b + ":")[|a|] == (a + ":")[|a|] == ':';
    assert |a| == |b|;
    assert a == (a + ":")[..|a|] == (b + ":")[..|b|] == b;
  }
}

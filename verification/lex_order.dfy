/** Python's ordering of strings: lexicographic by code point, a proper
    prefix before any extension of it. Dafny's built-in `<` on sequences is
    the proper-prefix relation only, so the order is defined here. */
module LexOrder {

  /** a sorts strictly before b. */
  predicate Less(a: string, b: string)
    decreases |a|
  {
    if |a| == 0 then |b| > 0
    else if |b| == 0 then false
    else a[0] < b[0] || (a[0] == b[0] && Less(a[1..], b[1..]))
  }

  predicate LessOrEqual(a: string, b: string) {
    a == b || Less(a, b)
  }

  lemma {:induction false} Irreflexive(a: string)
    ensures !Less(a, a)
    decreases |a|
  {
    if |a| > 0 {
      Irreflexive(a[1..]);
    }
  }

  lemma {:induction false} Transitive(a: string, b: string, c: string)
    requires Less(a, b) && Less(b, c)
    ensures Less(a, c)
    decreases |a|
  {
    if |a| > 0 && a[0] == b[0] && b[0] == c[0] {
      Transitive(a[1..], b[1..], c[1..]);
    }
  }

  /** Any two distinct strings are ordered one way or the other. */
  lemma {:induction false} Total(a: string, b: string)
    requires a != b
    ensures Less(a, b) || Less(b, a)
    decreases |a|
  {
    if |a| > 0 && |b| > 0 && a[0] == b[0] {
      assert a == [a[0]] + a[1..] && b == [b[0]] + b[1..];
      Total(a[1..], b[1..]);
    }
  }

  lemma Asymmetric(a: string, b: string)
    requires Less(a, b)
    ensures !Less(b, a)
  {
    if Less(b, a) {
      Transitive(a, b, a);
      Irreflexive(a);
    }
  }

  /** m is the greatest element of ids. */
  ghost predicate IsGreatest(ids: set<string>, m: string) {
    m in ids && forall x :: x in ids ==> LessOrEqual(x, m)
  }

  /** A set has at most one greatest element. */
  lemma GreatestUnique(ids: set<string>, m1: string, m2: string)
    requires IsGreatest(ids, m1) && IsGreatest(ids, m2)
    ensures m1 == m2
  {
    if m1 != m2 {
      assert Less(m1, m2) && Less(m2, m1);
      Asymmetric(m1, m2);
    }
  }

  /** Every non-empty finite set of strings has a greatest element. */
  lemma {:induction false} GreatestExists(ids: set<string>)
    requires ids != {}
    ensures exists m :: IsGreatest(ids, m)
    decreases |ids|
  {
    var x :| x in ids;
    var rest := ids - {x};
    if rest == {} {
      assert ids == {x};
      assert IsGreatest(ids, x);
    } else {
      GreatestExists(rest);
      var m :| IsGreatest(rest, m);
      if Less(m, x) {
        forall y | y in ids
          ensures LessOrEqual(y, x)
        {
          if y != x && y != m {
            assert y in rest && LessOrEqual(y, m);
            Transitive(y, m, x);
          }
        }
        assert IsGreatest(ids, x);
      } else {
        if x != m {
          Total(x, m);
        }
        assert IsGreatest(ids, m);
      }
    }
  }

  /** The greatest element of a non-empty set of strings. */
  ghost function Greatest(ids: set<string>): (m: string)
    requires ids != {}
    ensures IsGreatest(ids, m)
  {
    GreatestExists(ids);
    var m :| IsGreatest(ids, m);
    m
  }

  /** Finds the greatest element by one pass over the set: the choice of
      latest checkpoint among a thread's scanned ids. */
  method Max(ids: set<string>) returns (m: string)
    requires ids != {}
    ensures IsGreatest(ids, m)
    ensures m == Greatest(ids)
  {
    m :| m in ids;
    var rest := ids - {m};
    ghost var seen := {m};
    while rest != {}
      invariant seen + rest == ids
      invariant IsGreatest(seen, m)
      decreases |rest|
    {
      var x :| x in rest;
      if Less(m, x) {
        forall y | y in seen
          ensures LessOrEqual(y, x)
        {
          if y != m {
            Transitive(y, m, x);
          }
        }
        m := x;
      } else if x != m {
        Total(x, m);
      }
      rest := rest - {x};
      seen := seen + {x};
    }
    GreatestUnique(ids, m, Greatest(ids));
  }
}

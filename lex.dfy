/**
 * Lexicographic order on strings, the order in which Twilio Sync lists map
 * items by key, and the "greatest key" that a descending listing with
 * limit 1 returns.
 */
module Lex {

  /** `a` sorts strictly before `b`: the first differing character is smaller,
      or `a` is a proper prefix of `b`. */
  predicate Less(a: string, b: string)
    decreases |a|
  {
    if |b| == 0 then false
    else if |a| == 0 then true
    else a[0] < b[0] || (a[0] == b[0] && Less(a[1..], b[1..]))
  }

  /** The order, stated by the first difference: `a` sorts before `b` exactly when,
      at the first position where they differ, `a` has the smaller character, or
      `a` is a proper prefix of `b`. */
  lemma {:induction false} LessFirstDifference(a: string, b: string)
    ensures Less(a, b) <==>
            exists k :: 0 <= k <= |a| && k < |b| && a[..k] == b[..k] && (k == |a| || a[k] < b[k])
    decreases |a|
  {
    if |b| == 0 {
    } else if |a| == 0 {
      assert a[..0] == b[..0];
    } else {
      LessFirstDifference(a[1..], b[1..]);
      if a[0] < b[0] {
        assert a[..0] == b[..0];
      } else if Less(a, b) {
        var k :| 0 <= k <= |a| - 1 && k < |b| - 1 && a[1..][..k] == b[1..][..k]
                 && (k == |a| - 1 || a[1..][k] < b[1..][k]);
        assert a[..k + 1] == [a[0]] + a[1..][..k] && b[..k + 1] == [b[0]] + b[1..][..k];
      }
      if k :| 0 <= k <= |a| && k < |b| && a[..k] == b[..k] && (k == |a| || a[k] < b[k]) {
        if k > 0 {
          assert a[0] == a[..k][0] == b[..k][0] == b[0];
          assert a[1..][..k - 1] == a[..k][1..] == b[..k][1..] == b[1..][..k - 1];
        }
      }
    }
  }

  lemma {:induction false} LessIrreflexive(a: string)
    ensures !Less(a, a)
    decreases |a|
  {
    if |a| > 0 {
      LessIrreflexive(a[1..]);
    }
  }

  lemma {:induction false} LessTransitive(a: string, b: string, c: string)
    requires Less(a, b) && Less(b, c)
    ensures Less(a, c)
    decreases |a|
  {
    if |a| > 0 && a[0] == b[0] && b[0] == c[0] {
      LessTransitive(a[1..], b[1..], c[1..]);
    }
  }

  lemma {:induction false} LessTotal(a: string, b: string)
    ensures a == b || Less(a, b) || Less(b, a)
    decreases |a|
  {
    if |a| > 0 && |b| > 0 && a[0] == b[0] {
      LessTotal(a[1..], b[1..]);
      if a[1..] == b[1..] {
        assert a == [a[0]] + a[1..] && b == [b[0]] + b[1..];
      }
    }
  }

  lemma {:induction false} LessAsymmetric(a: string, b: string)
    requires Less(a, b)
    ensures !Less(b, a)
  {
    if Less(b, a) {
      LessTransitive(a, b, a);
      LessIrreflexive(a);
    }
  }

  /** Two strings of the same length compare as their first parts do, whatever follows. */
  lemma {:induction false} LessExtend(a1: string, a2: string, r1: string, r2: string)
    requires |a1| == |a2| && Less(a1, a2)
    ensures Less(a1 + r1, a2 + r2)
    decreases |a1|
  {
    if a1[0] == a2[0] {
      LessExtend(a1[1..], a2[1..], r1, r2);
      assert (a1 + r1)[1..] == a1[1..] + r1;
      assert (a2 + r2)[1..] == a2[1..] + r2;
    }
  }

  /** A shared prefix does not change the order. */
  lemma {:induction false} LessSamePrefix(p: string, r1: string, r2: string)
    requires Less(r1, r2)
    ensures Less(p + r1, p + r2)
    decreases |p|
  {
    if |p| > 0 {
      LessSamePrefix(p[1..], r1, r2);
      assert (p + r1)[1..] == p[1..] + r1;
      assert (p + r2)[1..] == p[1..] + r2;
    } else {
      assert p + r1 == r1 && p + r2 == r2;
    }
  }

  /** `k` is a key of `keys` and every other key sorts before it. */
  predicate IsGreatest(k: string, keys: set<string>)
  {
    k in keys && forall other :: other in keys && other != k ==> Less(other, k)
  }

  lemma {:induction false} GreatestExists(keys: set<string>)
    requires keys != {}
    ensures exists k :: IsGreatest(k, keys)
    decreases keys
  {
    var x :| x in keys;
    if keys != {x} {
      var rest := keys - {x};
      GreatestExists(rest);
      var k :| IsGreatest(k, rest);
      LessTotal(x, k);
      if Less(x, k) {
        assert IsGreatest(k, keys);
      } else {
        forall other | other in keys && other != x
          ensures Less(other, x)
        {
          if other != k {
            LessTransitive(other, k, x);
          }
        }
        assert IsGreatest(x, keys);
      }
    } else {
      assert IsGreatest(x, keys);
    }
  }

  lemma GreatestUnique(k1: string, k2: string, keys: set<string>)
    requires IsGreatest(k1, keys) && IsGreatest(k2, keys)
    ensures k1 == k2
  {
    if k1 != k2 {
      LessAsymmetric(k1, k2);
    }
  }

  /** The greatest key of a non-empty key set: what Twilio Sync lists first in
      descending order. */
  function Greatest(keys: set<string>): (k: string)
    requires keys != {}
    ensures IsGreatest(k, keys)
  {
    GreatestExists(keys);
    forall k1, k2 | IsGreatest(k1, keys) && IsGreatest(k2, keys)
      ensures k1 == k2
    {
      GreatestUnique(k1, k2, keys);
    }
    var k :| IsGreatest(k, keys);
    k
  }

  /** Adding a key that sorts after every existing key makes it the greatest. */
  lemma {:induction false} GreatestAfterAdding(keys: set<string>, key: string)
    requires forall k :: k in keys ==> Less(k, key)
    ensures Greatest(keys + {key}) == key
  {
    var all := keys + {key};
    assert IsGreatest(key, all);
    GreatestUnique(Greatest(all), key, all);
  }
}

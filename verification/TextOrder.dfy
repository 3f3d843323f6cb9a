/** The order in which Python sorts texts: by code point, a proper prefix first.
    JavaScript sorts by UTF-16 code unit, which is the same up to U+FFFF. */
module TextOrder {

  predicate Less(a: string, b: string) {
    b != "" && (a == "" || a[0] < b[0] || (a[0] == b[0] && Less(a[1..], b[1..])))
  }

  lemma {:induction false} Trichotomy(a: string, b: string)
    ensures Less(a, b) || a == b || Less(b, a)
    ensures !(Less(a, b) && Less(b, a)) && !Less(a, a)
  {
    if a != "" && b != "" && a[0] == b[0] {
      Trichotomy(a[1..], b[1..]);
      assert a == [a[0]] + a[1..] && b == [b[0]] + b[1..];
    }
    if a != "" {
      Trichotomy(a[1..], a[1..]);
    }
  }

  lemma {:induction false} Transitive(a: string, b: string, c: string)
    requires Less(a, b) && Less(b, c)
    ensures Less(a, c)
  {
    if a != "" && a[0] == c[0] {
      Transitive(a[1..], b[1..], c[1..]);
    }
  }

  /** Where two texts of one length part. */
  lemma {:induction false} FirstDifference(a: string, b: string) returns (k: nat)
    requires |a| == |b| && Less(a, b)
    ensures k < |a| && a[..k] == b[..k] && a[k] < b[k]
  {
    if a[0] == b[0] {
      k := FirstDifference(a[1..], b[1..]);
      assert a[..k + 1] == [a[0]] + a[1..][..k] && b[..k + 1] == [b[0]] + b[1..][..k];
      k := k + 1;
    } else {
      k := 0;
    }
  }

  lemma {:induction false} LessAfterPrefix(prefix: string, a: string, b: string)
    ensures Less(prefix + a, prefix + b) == Less(a, b)
  {
    if prefix == "" {
      assert prefix + a == a && prefix + b == b;
    } else {
      LessAfterPrefix(prefix[1..], a, b);
      assert (prefix + a)[1..] == prefix[1..] + a && (prefix + b)[1..] == prefix[1..] + b;
    }
  }

  /** Cutting two texts to one length keeps their order, unless it makes them equal. */
  lemma {:induction false} LessBefore(a: string, b: string, n: nat)
    requires Less(a, b) && n <= |a| && n <= |b|
    ensures a[..n] == b[..n] || Less(a[..n], b[..n])
  {
    if n > 0 && a[0] == b[0] {
      LessBefore(a[1..], b[1..], n - 1);
      assert a[..n] == [a[0]] + a[1..][..n - 1] && b[..n] == [b[0]] + b[1..][..n - 1];
    }
  }

  predicate IsLeast(x: string, keys: set<string>) {
    x in keys && forall y :: y in keys && y != x ==> Less(x, y)
  }

  lemma {:induction false} HasLeast(keys: set<string>)
    requires keys != {}
    ensures exists x :: IsLeast(x, keys)
    ensures forall x, y :: IsLeast(x, keys) && IsLeast(y, keys) ==> x == y
  {
    var x :| x in keys;
    if keys == {x} {
      assert IsLeast(x, keys);
    } else {
      HasLeast(keys - {x});
      var y :| IsLeast(y, keys - {x});
      Trichotomy(x, y);
      if Less(x, y) {
        forall z | z in keys && z != x && z != y
          ensures Less(x, z)
        {
          Transitive(x, y, z);
        }
        assert IsLeast(x, keys);
      } else {
        assert IsLeast(y, keys);
      }
    }
    forall x, y | IsLeast(x, keys) && IsLeast(y, keys)
      ensures x == y
    {
      Trichotomy(x, y);
    }
  }

  predicate Ascending(s: seq<string>) {
    forall i, j :: 0 <= i < j < |s| ==> Less(s[i], s[j])
  }

  /** `sorted` of the keys of a dictionary. */
  function Sorted(keys: set<string>): (s: seq<string>)
    ensures Ascending(s) && forall x :: x in s <==> x in keys
    decreases |keys|
  {
    if keys == {} then []
    else
      HasLeast(keys);
      var x :| IsLeast(x, keys);
      var rest := Sorted(keys - {x});
      assert forall i :: 0 <= i < |rest| ==> rest[i] in rest;
      [x] + rest
  }
}

/** Removal by key, the `list.filter(x => x.id !== id)` idiom of the pages. */
module Lists {

  /** No element occurs twice. */
  predicate NoDuplicates<T(==)>(xs: seq<T>) {
    forall i, j :: 0 <= i < j < |xs| ==> xs[i] != xs[j]
  }

  /** `xs.filter(x => key(x) !== k)`: keeps exactly the elements whose key is
      not `k`; it is strictly shorter when some element has key `k`. */
  function RemoveKey<T(!new)>(xs: seq<T>, key: T -> int, k: int): (r: seq<T>)
    ensures |r| <= |xs|
    ensures forall x :: x in r <==> x in xs && key(x) != k
    ensures (exists x :: x in xs && key(x) == k) ==> |r| < |xs|
  {
    if |xs| == 0 then []
    else (if key(xs[0]) == k then [] else [xs[0]]) + RemoveKey(xs[1..], key, k)
  }

  /** Removal distributes over concatenation, so the survivors keep their
      relative order. */
  lemma {:induction false} RemoveKeyAppend<T(!new)>(a: seq<T>, b: seq<T>, key: T -> int, k: int)
    ensures RemoveKey(a + b, key, k) == RemoveKey(a, key, k) + RemoveKey(b, key, k)
    decreases |a|
  {
    if |a| > 0 {
      assert (a + b)[1..] == a[1..] + b;
      RemoveKeyAppend(a[1..], b, key, k);
    } else {
      assert a + b == b;
    }
  }

  /** Removing a key no element carries changes nothing. */
  lemma {:induction false} RemoveKeyAbsent<T(!new)>(xs: seq<T>, key: T -> int, k: int)
    requires forall i :: 0 <= i < |xs| ==> key(xs[i]) != k
    ensures RemoveKey(xs, key, k) == xs
    decreases |xs|
  {
    if |xs| > 0 {
      RemoveKeyAbsent(xs[1..], key, k);
      assert xs == [xs[0]] + xs[1..];
    }
  }

  /** Removal keeps a duplicate-free list duplicate-free. */
  lemma {:induction false} RemoveKeyNoDuplicates<T(!new)>(xs: seq<T>, key: T -> int, k: int)
    requires NoDuplicates(xs)
    ensures NoDuplicates(RemoveKey(xs, key, k))
    decreases |xs|
  {
    if |xs| > 0 {
      var tail := RemoveKey(xs[1..], key, k);
      assert NoDuplicates(xs[1..]) by {
        forall i, j | 0 <= i < j < |xs[1..]| ensures xs[1..][i] != xs[1..][j] {
          assert xs[1..][i] == xs[i + 1] && xs[1..][j] == xs[j + 1];
        }
      }
      RemoveKeyNoDuplicates(xs[1..], key, k);
      if key(xs[0]) != k {
        assert xs[0] !in xs[1..];
        assert xs[0] !in tail;
        var r := [xs[0]] + tail;
        forall i, j | 0 <= i < j < |r| ensures r[i] != r[j] {
          if i == 0 {
            assert r[j] == tail[j - 1];
          } else {
            assert r[i] == tail[i - 1] && r[j] == tail[j - 1];
          }
        }
      } else {
        assert RemoveKey(xs, key, k) == tail;
      }
    }
  }
}

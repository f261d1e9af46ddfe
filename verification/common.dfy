// Shared vocabulary.
module Common {
  datatype Option<+T> = None | Some(value: T)

  ghost predicate NoDup<T(!new)>(xs: seq<T>) {
    forall i, j | 0 <= i < j < |xs| :: xs[i] != xs[j]
  }

  // Append x unless it is there already.
  function AddOnce<T(==)>(xs: seq<T>, x: T): seq<T> {
    if x in xs then xs else xs + [x]
  }

  // xs without x.
  function Minus<T(==)>(xs: seq<T>, x: T): seq<T> {
    if xs == [] then [] else (if xs[0] == x then [] else [xs[0]]) + Minus(xs[1..], x)
  }

  lemma {:induction false} MinusConcat<T>(a: seq<T>, b: seq<T>, x: T)
    ensures Minus(a + b, x) == Minus(a, x) + Minus(b, x)
  {
    if a == [] {
      assert a + b == b;
    } else {
      assert (a + b)[1..] == a[1..] + b;
      MinusConcat(a[1..], b, x);
    }
  }

  lemma HasMember<T>(xs: seq<T>)
    ensures xs == [] || exists x :: x in xs
  {
    if xs != [] { assert xs[0] in xs; }
  }

  // The search loops over index slices.
  method Contains<T(==)>(xs: seq<T>, x: T) returns (found: bool)
    ensures found <==> x in xs
  {
    found := false;
    for i := 0 to |xs|
      invariant found <==> x in xs[..i]
    {
      if xs[i] == x {
        return true;
      }
    }
    assert xs[..|xs|] == xs;
  }

  // ---- Bulk reads of the state store ----

  // Answered key by key; errs marks the keys whose item came back with an error.
  // Callers skip missing and failed items.
  function Fetch<K(==), V>(m: map<K, V>, keys: seq<K>, errs: seq<bool>): seq<(K, V)>
    requires |keys| == |errs|
  {
    if keys == [] then []
    else (if keys[0] in m && !errs[0] then [(keys[0], m[keys[0]])] else []) + Fetch(m, keys[1..], errs[1..])
  }

  // Some item of this key did not fail.
  ghost predicate Unfailed<K>(keys: seq<K>, errs: seq<bool>, k: K)
    requires |keys| == |errs|
  {
    exists i | 0 <= i < |keys| :: keys[i] == k && !errs[i]
  }

  function NoErrors(n: nat): seq<bool> { seq(n, _ => false) }

  // A key yields at most its own value, and yields it exactly if its item did not fail.
  lemma {:induction false} FetchIsSound<K, V>(m: map<K, V>, keys: seq<K>, errs: seq<bool>)
    requires |keys| == |errs|
    ensures forall i | 0 <= i < |Fetch(m, keys, errs)| ::
              var (k, v) := Fetch(m, keys, errs)[i]; k in keys && k in m && m[k] == v && Unfailed(keys, errs, k)
    ensures forall i | 0 <= i < |keys| :: keys[i] in m && !errs[i] ==> (keys[i], m[keys[i]]) in Fetch(m, keys, errs)
  {
    if keys == [] {
    } else {
      FetchIsSound(m, keys[1..], errs[1..]);
      forall k | Unfailed(keys[1..], errs[1..], k) ensures Unfailed(keys, errs, k) {
        var i :| 0 <= i < |keys[1..]| && keys[1..][i] == k && !errs[1..][i];
        assert keys[i + 1] == k && !errs[i + 1];
      }
    }
  }

  lemma {:induction false} FetchTotal<K, V>(m: map<K, V>, keys: seq<K>)
    requires forall i | 0 <= i < |keys| :: keys[i] in m
    ensures Fetch(m, keys, NoErrors(|keys|)) == seq(|keys|, i requires 0 <= i < |keys| => (keys[i], m[keys[i]]))
  {
    if keys == [] {
    } else {
      assert NoErrors(|keys|)[1..] == NoErrors(|keys[1..]|);
      FetchTotal(m, keys[1..]);
    }
  }

  lemma {:induction false} FetchNothing<K, V>(m: map<K, V>, keys: seq<K>, errs: seq<bool>)
    requires |keys| == |errs| && forall i | 0 <= i < |keys| :: keys[i] !in m || errs[i]
    ensures Fetch(m, keys, errs) == []
  {
    if keys == [] {
    } else {
      FetchNothing(m, keys[1..], errs[1..]);
    }
  }

  lemma {:induction false} FetchDependsOnKeys<K, V>(m: map<K, V>, m': map<K, V>, keys: seq<K>, errs: seq<bool>)
    requires |keys| == |errs|
    requires forall i | 0 <= i < |keys| ::
             (keys[i] in m <==> keys[i] in m')
             && (keys[i] in m ==> m[keys[i]] == m'[keys[i]])
    ensures Fetch(m, keys, errs) == Fetch(m', keys, errs)
  {
    if keys == [] {
    } else {
      FetchDependsOnKeys(m, m', keys[1..], errs[1..]);
    }
  }
}

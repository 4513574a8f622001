/** Finite sets and maps: a member, the least member, and sizes of subsets. */
module Sets {

  /** Some element of a set. */
  ghost function Member<T>(s: set<T>): (x: T)
    requires s != {}
    ensures x in s
  {
    var x :| x in s;
    x
  }

  lemma SubsetSize<T>(a: set<T>, b: set<T>)
    requires a <= b
    ensures |a| <= |b|
  {
    if a != {} {
      var x := Member(a);
      SubsetSize(a - {x}, b - {x});
    }
  }

  ghost predicate IsLeast(s: set<int>, m: int) {
    m in s && forall k :: k in s ==> m <= k
  }

  lemma {:induction false} LeastBelow(s: set<int>, x: int)
    requires x in s
    ensures exists m :: IsLeast(s, m)
    decreases |set k | k in s && k < x|
  {
    if y :| y in s && y < x {
      SubsetSize((set k | k in s && k < y), (set k | k in s && k < x) - {y});
      LeastBelow(s, y);
    } else {
      assert IsLeast(s, x);
    }
  }

  lemma DropUpdated<K, V>(m: map<K, V>, k: K, v: V)
    ensures m[k := v] - {k} == m - {k}
  {
  }

  /** The smallest element of a set. */
  ghost function Least(s: set<int>): (m: int)
    requires s != {}
    ensures IsLeast(s, m)
  {
    var x: int := Member(s);
    LeastBelow(s, x);
    var m :| IsLeast(s, m);
    m
  }

  lemma LeastIn(s: set<int>)
    requires s != {}
    ensures Least(s) in s
  {
  }

  /** Some element of a set, at run time. */
  method Pick<T(==)>(s: set<T>) returns (x: T)
    requires s != {}
    ensures x in s
  {
    x :| x in s;
  }

  /** The next element in ascending order. */
  method LeastOf(s: set<int>) returns (m: int)
    requires s != {}
    ensures m == Least(s)
  {
    m := Pick(s);
    var rest := s - {m};
    while rest != {}
      invariant rest <= s && m in s && forall k :: k in s ==> k in rest || m <= k
      decreases rest
    {
      var k := Pick(rest);
      rest := rest - {k};
      if k < m {
        m := k;
      }
    }
    assert IsLeast(s, m);
  }

  predicate Sorted(keys: seq<int>) {
    forall i, j :: 0 <= i < j < |keys| ==> keys[i] < keys[j]
  }

  /** The keys of an ordered map, in the order of iteration. */
  method Ascending(s: set<int>) returns (keys: seq<int>)
    ensures Sorted(keys) && forall k :: k in keys <==> k in s
  {
    keys := [];
    var rest := s;
    while rest != {}
      invariant rest <= s && Sorted(keys) && forall k :: k in keys <==> k in s - rest
      invariant forall i, k :: 0 <= i < |keys| && k in rest ==> keys[i] < k
      decreases rest
    {
      var m := LeastOf(rest);
      keys := keys + [m];
      rest := rest - {m};
    }
  }

  /** When `k` keys have been dealt with, the next one is the least of the rest. */
  lemma NextIsLeast(keys: seq<int>, k: nat, rest: set<int>)
    requires Sorted(keys) && k < |keys| && forall x :: x in rest <==> x in keys[k..]
    ensures rest != {} && keys[k] == Least(rest)
    ensures forall x :: x in rest - {keys[k]} <==> x in keys[k + 1..]
  {
    assert keys[k..] == [keys[k]] + keys[k + 1..];
    assert keys[k] in keys[k..];
    assert forall j :: k < j < |keys| ==> keys[k] < keys[j];
    assert IsLeast(rest, keys[k]);
  }

  lemma NoneLeft(keys: seq<int>, rest: set<int>)
    requires forall x :: x in rest ==> x in keys[|keys|..]
    ensures rest == {}
  {
    if rest != {} {
      var x := Member(rest);
    }
  }

  method AscendingNats(s: set<nat>) returns (keys: seq<nat>)
    ensures Sorted(keys) && forall k :: k in keys <==> k in s
  {
    var ints := Ascending(s);
    forall i | 0 <= i < |ints| ensures ints[i] >= 0 {
      assert ints[i] in ints;
    }
    keys := ints;
  }

  /** The elements of a set in ascending order. */
  ghost function SortedKeys(s: set<int>): seq<int>
  {
    if s == {} then [] else [Least(s)] + SortedKeys(s - {Least(s)})
  }

  lemma {:induction false} SortedKeysAre(s: set<int>)
    ensures Sorted(SortedKeys(s)) && forall k :: k in SortedKeys(s) <==> k in s
  {
    if s != {} {
      var m := Least(s);
      SortedKeysAre(s - {m});
      var rest := SortedKeys(s - {m});
      forall j | 0 <= j < |rest| ensures m < rest[j] {
        assert rest[j] in rest;
      }
    }
  }

  lemma {:induction false} SortedKeysUnique(s: set<int>, keys: seq<int>)
    requires Sorted(keys) && forall k :: k in keys <==> k in s
    ensures keys == SortedKeys(s)
  {
    assert keys != [] ==> keys[0] in keys;
    if s != {} {
      var m := Least(s);
      assert m in keys && keys[0] in keys;
      assert keys == [keys[0]] + keys[1..];
      assert forall i :: 0 < i < |keys| ==> keys[i] in keys[1..];
      assert keys[0] == m;
      SortedKeysUnique(s - {m}, keys[1..]);
    }
  }
}

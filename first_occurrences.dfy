/**
 * Keeping the first element of every key: what a JavaScript `Set` (or a
 * `Map` guarded by `has`) does to a sequence of insertions.
 */
module FirstOccurrences {

  /** The identity, for sequences whose elements are their own keys. */
  function Self<T>(x: T): T { x }

  /** The keys of the elements of `s`. */
  function KeysOf<T, K(==)>(s: seq<T>, key: T -> K): set<K>
  {
    set i | 0 <= i < |s| :: key(s[i])
  }

  /** No two elements of `s` share a key. */
  ghost predicate DistinctKeys<T, K>(s: seq<T>, key: T -> K)
  {
    forall i, j :: 0 <= i < j < |s| ==> key(s[i]) != key(s[j])
  }

  /** `s[j]` is the first element of `s` with its key. */
  ghost predicate FirstAt<T, K>(s: seq<T>, j: int, key: T -> K)
    requires 0 <= j < |s|
  {
    forall j' :: 0 <= j' < j ==> key(s[j']) != key(s[j])
  }

  lemma KeysOfSnoc<T, K>(s: seq<T>, x: T, key: T -> K)
    ensures KeysOf(s + [x], key) == KeysOf(s, key) + {key(x)}
  {
    var t := s + [x];
    assert key(t[|s|]) == key(x);
    forall k | k in KeysOf(t, key) ensures k in KeysOf(s, key) + {key(x)} {
      var i :| 0 <= i < |t| && key(t[i]) == k;
      if i < |s| { assert t[i] == s[i]; }
    }
    forall k | k in KeysOf(s, key) ensures k in KeysOf(t, key) {
      var i :| 0 <= i < |s| && key(s[i]) == k;
      assert t[i] == s[i];
    }
  }

  /**
   * The elements of `s` whose key has not been seen before, in the order
   * they come: the first element of every key, and nothing else.
   */
  function Dedup<T, K(==)>(s: seq<T>, key: T -> K): (r: seq<T>)
    ensures |r| <= |s|
    ensures KeysOf(r, key) == KeysOf(s, key)
    ensures DistinctKeys(r, key)
    ensures |s| > 0 ==> |r| > 0 && r[0] == s[0]
    decreases |s|
  {
    if |s| == 0 then []
    else
      var init, x := s[..|s| - 1], s[|s| - 1];
      var d := Dedup(init, key);
      KeysOfSnoc(init, x, key);
      assert s == init + [x];
      if key(x) in KeysOf(d, key) then d
      else
        KeysOfSnoc(d, x, key);
        d + [x]
  }

  /** Appending an element either leaves `Dedup` alone or appends it there too. */
  lemma DedupSnoc<T, K>(s: seq<T>, x: T, key: T -> K)
    ensures Dedup(s + [x], key) ==
            if key(x) in KeysOf(s, key) then Dedup(s, key) else Dedup(s, key) + [x]
  {
    assert (s + [x])[..|s|] == s;
  }

  /**
   * `d` lists exactly the first occurrences of `s`, in order: `pos` gives
   * where in `s` each element of `d` comes from.
   */
  ghost predicate FirstOccurrencesAt<T, K>(s: seq<T>, key: T -> K, d: seq<T>, pos: seq<nat>)
  {
    && |pos| == |d|
    && (forall i :: 0 <= i < |pos| ==> pos[i] < |s| && d[i] == s[pos[i]] && FirstAt(s, pos[i], key))
    && (forall i, i' :: 0 <= i < i' < |pos| ==> pos[i] < pos[i'])
    && (forall j :: 0 <= j < |s| && FirstAt(s, j, key) ==> j in pos)
  }

  /** Two elements with different keys are both kept. */
  lemma DedupPair<T, K>(x: T, y: T, key: T -> K)
    requires key(x) != key(y)
    ensures Dedup([x, y], key) == [x, y]
  {
    KeysOfSnoc([], x, key);
    DedupSnoc([], x, key);
    assert [x] + [y] == [x, y];
    DedupSnoc([x], y, key);
  }

  /** `Dedup(s, key)` is the sequence of first occurrences of `s`. */
  lemma {:induction false} DedupPositions<T, K>(s: seq<T>, key: T -> K) returns (pos: seq<nat>)
    ensures FirstOccurrencesAt(s, key, Dedup(s, key), pos)
    decreases |s|
  {
    if |s| == 0 {
      pos := [];
    } else {
      var init, x := s[..|s| - 1], s[|s| - 1];
      assert s == init + [x];
      var p := DedupPositions(init, key);
      DedupSnoc(init, x, key);
      if key(x) in KeysOf(init, key) {
        PositionsSnocSeen(init, x, key, Dedup(init, key), p);
        pos := p;
      } else {
        PositionsSnocNew(init, x, key, Dedup(init, key), p);
        pos := p + [|init|];
      }
    }
  }

  lemma FirstAtSnoc<T, K>(s: seq<T>, x: T, key: T -> K)
    ensures forall j :: 0 <= j < |s| ==> FirstAt(s + [x], j, key) == FirstAt(s, j, key)
  {
    var t := s + [x];
    forall j | 0 <= j < |s| ensures FirstAt(t, j, key) == FirstAt(s, j, key) {
      assert forall j' :: 0 <= j' <= j ==> t[j'] == s[j'];
    }
  }

  /** An element whose key was seen adds no first occurrence. */
  lemma PositionsSnocSeen<T, K>(s: seq<T>, x: T, key: T -> K, d: seq<T>, p: seq<nat>)
    requires FirstOccurrencesAt(s, key, d, p)
    requires key(x) in KeysOf(s, key)
    ensures FirstOccurrencesAt(s + [x], key, d, p)
  {
    var t := s + [x];
    FirstAtSnoc(s, x, key);
    var i :| 0 <= i < |s| && key(s[i]) == key(x);
    assert t[i] == s[i];
    assert !FirstAt(t, |s|, key);
    forall i | 0 <= i < |p| ensures d[i] == t[p[i]] { }
  }

  /** An element with a new key is a first occurrence, at the end. */
  lemma PositionsSnocNew<T, K>(s: seq<T>, x: T, key: T -> K, d: seq<T>, p: seq<nat>)
    requires FirstOccurrencesAt(s, key, d, p)
    requires key(x) !in KeysOf(s, key)
    ensures FirstOccurrencesAt(s + [x], key, d + [x], p + [|s|])
  {
    var t := s + [x];
    FirstAtSnoc(s, x, key);
    forall j' | 0 <= j' < |s| ensures key(t[j']) != key(t[|s|]) {
      assert t[j'] == s[j'];
      assert key(s[j']) in KeysOf(s, key);
    }
    assert FirstAt(t, |s|, key);
    forall i | 0 <= i < |p| ensures d[i] == t[p[i]] { }
  }

  /** `Dedup` has one element per distinct key. */
  lemma DedupCardinality<T, K>(s: seq<T>, key: T -> K)
    ensures |Dedup(s, key)| == |KeysOf(s, key)|
  {
    var d := Dedup(s, key);
    DistinctKeysCardinality(d, key);
  }

  lemma {:induction false} DistinctKeysCardinality<T, K>(s: seq<T>, key: T -> K)
    requires DistinctKeys(s, key)
    ensures |KeysOf(s, key)| == |s|
    decreases |s|
  {
    if |s| > 0 {
      var init, x := s[..|s| - 1], s[|s| - 1];
      assert s == init + [x];
      DistinctKeysCardinality(init, key);
      KeysOfSnoc(init, x, key);
      assert key(x) !in KeysOf(init, key);
    }
  }
}

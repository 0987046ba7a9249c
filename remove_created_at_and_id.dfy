/**
 * src/utils/removeCreatedAtAndId.js: a copy of an object without its
 * `created_at` and `id` properties, at every depth. The result is built in a
 * fresh accumulator by a left fold over the keys; the input is a value and is
 * never changed.
 */
module RemoveCreatedAtAndId {
  import opened JsValues

  /** The two property names the function strips. */
  predicate Stripped(key: string) {
    key == "created_at" || key == "id"
  }

  /** `removeCreatedAtAndId(obj)`: never more properties than the input. */
  function RemoveCreatedAtAndId(obj: Record): (r: Record)
    ensures |r| <= |obj|
    decreases obj, 1
  {
    Reduce([], obj)
  }

  /** `Object.keys(obj).reduce((acc, key) => { ... }, acc)` over the keys still to visit. */
  function Reduce(acc: Record, rest: Record): (r: Record)
    ensures |r| <= |acc| + |rest|
    decreases rest, 0
  {
    if rest == [] then acc
    else
      var e := rest[0];
      var acc' := if !Stripped(e.key) then Put(acc, e.key, CopyValue(e.val)) else acc;
      Reduce(acc', rest[1..])
  }

  /** A nested non-null object is stripped in turn; any other value is copied as it is. */
  function CopyValue(v: Value): (r: Value)
    ensures r.Obj? <==> v.Obj?
    ensures !v.Obj? ==> r == v
    ensures r.Obj? ==> |r.entries| <= |v.entries|
    decreases v, 2
  {
    if TypeofObject(v) && !v.Null? then Obj(RemoveCreatedAtAndId(v.entries)) else v
  }

  // ---------------------------------------------------------------------------
  // Reference definitions

  /** The kept entries of a record, in order, with their values copied: the fold written as a filter. */
  function Kept(r: Record): Record
    decreases |r|
  {
    if r == [] then []
    else (if Stripped(r[0].key) then [] else [Entry(r[0].key, CopyValue(r[0].val))]) + Kept(r[1..])
  }

  /** No `created_at` or `id` key at any depth. */
  ghost predicate FreeOf(r: Record)
    decreases r, 1
  {
    forall i :: 0 <= i < |r| ==> !Stripped(r[i].key) && FreeOfValue(r[i].val)
  }

  ghost predicate FreeOfValue(v: Value)
    decreases v, 0
  {
    v.Obj? ==> FreeOf(v.entries)
  }

  /** Distinct keys at every depth, as every JavaScript object has. */
  ghost predicate WellFormed(r: Record)
    decreases r, 1
  {
    DistinctKeys(r) && forall i :: 0 <= i < |r| ==> WellFormedValue(r[i].val)
  }

  ghost predicate WellFormedValue(v: Value)
    decreases v, 0
  {
    v.Obj? ==> WellFormed(v.entries)
  }

  // ---------------------------------------------------------------------------
  // Lemmas

  /** A key is in the result iff it is in the input and is not stripped. */
  lemma {:induction false} ReduceKeys(acc: Record, rest: Record, k: string)
    ensures k in Keys(Reduce(acc, rest)) <==> k in Keys(acc) || (k in Keys(rest) && !Stripped(k))
    decreases |rest|
  {
    if rest != [] {
      var e := rest[0];
      assert Keys(rest) == [e.key] + Keys(rest[1..]);
      if !Stripped(e.key) {
        PutKeys(acc, e.key, CopyValue(e.val));
        ReduceKeys(Put(acc, e.key, CopyValue(e.val)), rest[1..], k);
      } else {
        ReduceKeys(acc, rest[1..], k);
      }
    }
  }

  lemma TopLevelKeys(obj: Record, k: string)
    ensures k in Keys(RemoveCreatedAtAndId(obj)) <==> k in Keys(obj) && !Stripped(k)
  {
    ReduceKeys([], obj, k);
  }

  /** None of the keys still to visit is already in the accumulator. */
  predicate Unvisited(acc: Record, rest: Record) {
    forall m :: 0 <= m < |rest| ==> rest[m].key !in Keys(acc)
  }

  lemma UnvisitedTail(acc: Record, rest: Record)
    requires |rest| >= 1 && DistinctKeys(rest) && Unvisited(acc, rest)
    ensures DistinctKeys(rest[1..])
    ensures Unvisited(acc, rest[1..])
    ensures Unvisited(acc + [rest[0]], rest[1..])
  {
    var tail := rest[1..];
    forall m | 0 <= m < |tail| ensures tail[m].key !in Keys(acc + [rest[0]]) {
      assert tail[m] == rest[m + 1];
      assert Keys(acc + [rest[0]]) == Keys(acc) + [rest[0].key];
    }
    forall m | 0 <= m < |tail| ensures tail[m].key !in Keys(acc) {
      assert tail[m] == rest[m + 1];
    }
  }

  lemma ReduceStep(acc: Record, rest: Record)
    requires rest != [] && !Stripped(rest[0].key) && rest[0].key !in Keys(acc)
    ensures Reduce(acc, rest) == Reduce(acc + [Entry(rest[0].key, CopyValue(rest[0].val))], rest[1..])
    ensures Kept(rest) == [Entry(rest[0].key, CopyValue(rest[0].val))] + Kept(rest[1..])
  {
    PutAppends(acc, rest[0].key, CopyValue(rest[0].val));
  }

  lemma ReduceSkip(acc: Record, rest: Record)
    requires rest != [] && Stripped(rest[0].key)
    requires Reduce(acc, rest[1..]) == acc + Kept(rest[1..])
    ensures Reduce(acc, rest) == acc + Kept(rest)
  {
  }

  /** For an object (distinct keys), the fold is the filter. */
  lemma {:induction false} ReduceIsKept(acc: Record, rest: Record)
    requires DistinctKeys(rest) && Unvisited(acc, rest)
    ensures Reduce(acc, rest) == acc + Kept(rest)
    decreases |rest|
  {
    if rest != [] {
      var e := rest[0];
      var tail := rest[1..];
      UnvisitedTail(acc, rest);
      if Stripped(e.key) {
        ReduceIsKept(acc, tail);
        ReduceSkip(acc, rest);
      } else {
        var e' := Entry(e.key, CopyValue(e.val));
        ReduceStep(acc, rest);
        UnvisitedKeyChange(acc, e, e', tail);
        ReduceIsKept(acc + [e'], tail);
        assert (acc + [e']) + Kept(tail) == acc + ([e'] + Kept(tail));
      }
    }
  }

  lemma UnvisitedKeyChange(acc: Record, e: Entry, e': Entry, tail: Record)
    requires e.key == e'.key && Unvisited(acc + [e], tail)
    ensures Unvisited(acc + [e'], tail)
  {
    assert Keys(acc + [e]) == Keys(acc) + [e.key];
    assert Keys(acc + [e']) == Keys(acc) + [e'.key];
  }

  lemma {:induction false} KeptGet(r: Record, k: string)
    requires !Stripped(k)
    ensures Get(Kept(r), k) == CopyValue(Get(r, k))
    decreases |r|
  {
    if r != [] {
      KeptGet(r[1..], k);
      if !Stripped(r[0].key) {
        var head := [Entry(r[0].key, CopyValue(r[0].val))];
        assert Kept(r) == head + Kept(r[1..]);
        assert (head + Kept(r[1..]))[0] == head[0];
        assert (head + Kept(r[1..]))[1..] == Kept(r[1..]);
        if r[0].key == k {
          assert Get(Kept(r), k) == CopyValue(r[0].val);
          assert Get(r, k) == r[0].val;
        } else {
          assert Get(Kept(r), k) == Get(Kept(r[1..]), k);
          assert Get(r, k) == Get(r[1..], k);
        }
      } else {
        assert r[0].key != k;
        assert Kept(r) == Kept(r[1..]);
        assert Get(r, k) == Get(r[1..], k);
        assert Get(Kept(r), k) == Get(Kept(r[1..]), k);
      }
    }
  }

  /**
   * Every kept property keeps its value, a nested object being replaced by
   * its stripped copy; a missing key stays missing.
   */
  lemma TopLevelValues(obj: Record, k: string)
    requires DistinctKeys(obj)
    requires !Stripped(k)
    ensures Get(RemoveCreatedAtAndId(obj), k) == CopyValue(Get(obj, k))
    ensures !Get(obj, k).Obj? ==> Get(RemoveCreatedAtAndId(obj), k) == Get(obj, k)
  {
    ReduceIsKept([], obj);
    assert [] + Kept(obj) == Kept(obj);
    KeptGet(obj, k);
  }

  lemma PutFree(acc: Record, k: string, v: Value)
    requires FreeOf(acc) && !Stripped(k) && FreeOfValue(v)
    ensures FreeOf(Put(acc, k, v))
    decreases |acc|
  {
    if acc != [] && acc[0].key != k {
      PutFree(acc[1..], k, v);
      var p := Put(acc, k, v);
      assert p == [acc[0]] + Put(acc[1..], k, v);
      forall i | 0 <= i < |p| ensures !Stripped(p[i].key) && FreeOfValue(p[i].val) {
        if i > 0 { assert p[i] == Put(acc[1..], k, v)[i - 1]; }
      }
    }
  }

  /** Neither key is left at any depth. */
  lemma {:induction false} ResultFree(obj: Record)
    ensures FreeOf(RemoveCreatedAtAndId(obj))
    decreases obj, 1
  {
    ReduceFree([], obj);
  }

  lemma {:induction false} ReduceFree(acc: Record, rest: Record)
    requires FreeOf(acc)
    ensures FreeOf(Reduce(acc, rest))
    decreases rest, 0
  {
    if rest != [] {
      var e := rest[0];
      if !Stripped(e.key) {
        CopyFree(e.val);
        PutFree(acc, e.key, CopyValue(e.val));
        ReduceFree(Put(acc, e.key, CopyValue(e.val)), rest[1..]);
      } else {
        ReduceFree(acc, rest[1..]);
      }
    }
  }

  lemma {:induction false} CopyFree(v: Value)
    ensures FreeOfValue(CopyValue(v))
    decreases v, 2
  {
    if v.Obj? {
      ResultFree(v.entries);
    }
  }

  lemma PutWellFormed(acc: Record, k: string, v: Value)
    requires WellFormed(acc) && WellFormedValue(v)
    ensures WellFormed(Put(acc, k, v))
    decreases |acc|
  {
    PutDistinct(acc, k, v);
    if acc != [] && acc[0].key != k {
      PutWellFormed(acc[1..], k, v);
      var p := Put(acc, k, v);
      assert p == [acc[0]] + Put(acc[1..], k, v);
      forall i | 0 <= i < |p| ensures WellFormedValue(p[i].val) {
        if i > 0 { assert p[i] == Put(acc[1..], k, v)[i - 1]; }
      }
    }
  }

  /** The result has distinct keys at every depth, whatever the input. */
  lemma {:induction false} ResultWellFormed(obj: Record)
    ensures WellFormed(RemoveCreatedAtAndId(obj))
    decreases obj, 1
  {
    ReduceWellFormed([], obj);
  }

  lemma {:induction false} ReduceWellFormed(acc: Record, rest: Record)
    requires WellFormed(acc)
    ensures WellFormed(Reduce(acc, rest))
    decreases rest, 0
  {
    if rest != [] {
      var e := rest[0];
      if !Stripped(e.key) {
        CopyWellFormed(e.val);
        PutWellFormed(acc, e.key, CopyValue(e.val));
        ReduceWellFormed(Put(acc, e.key, CopyValue(e.val)), rest[1..]);
      } else {
        ReduceWellFormed(acc, rest[1..]);
      }
    }
  }

  lemma {:induction false} CopyWellFormed(v: Value)
    ensures WellFormedValue(CopyValue(v))
    decreases v, 2
  {
    if v.Obj? {
      ResultWellFormed(v.entries);
    }
  }

  /** An object that has neither key at any depth comes back equal. */
  lemma {:induction false} FixedPoint(obj: Record)
    requires WellFormed(obj) && FreeOf(obj)
    ensures RemoveCreatedAtAndId(obj) == obj
    decreases obj, 1
  {
    ReduceIsKept([], obj);
    assert [] + Kept(obj) == Kept(obj);
    KeptFixed(obj);
  }

  lemma {:induction false} KeptFixed(r: Record)
    requires WellFormed(r) && FreeOf(r)
    ensures Kept(r) == r
    decreases r, 0
  {
    if r != [] {
      assert !Stripped(r[0].key);
      CopyFixed(r[0].val);
      var tail := r[1..];
      assert WellFormed(tail) by {
        forall i | 0 <= i < |tail| ensures WellFormedValue(tail[i].val) { assert tail[i] == r[i + 1]; }
        forall i, j | 0 <= i < j < |tail| ensures tail[i].key != tail[j].key { assert r[i + 1] == tail[i] && r[j + 1] == tail[j]; }
      }
      assert FreeOf(tail) by {
        forall i | 0 <= i < |tail| ensures !Stripped(tail[i].key) && FreeOfValue(tail[i].val) { assert tail[i] == r[i + 1]; }
      }
      KeptFixed(tail);
      assert r == [r[0]] + tail;
    }
  }

  lemma {:induction false} CopyFixed(v: Value)
    requires WellFormedValue(v) && FreeOfValue(v)
    ensures CopyValue(v) == v
    decreases v, 2
  {
    if v.Obj? {
      FixedPoint(v.entries);
    }
  }

  /** Stripping twice is stripping once. */
  lemma Idempotent(obj: Record)
    ensures RemoveCreatedAtAndId(RemoveCreatedAtAndId(obj)) == RemoveCreatedAtAndId(obj)
  {
    ResultWellFormed(obj);
    ResultFree(obj);
    FixedPoint(RemoveCreatedAtAndId(obj));
  }
}

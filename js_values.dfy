/**
 * The JavaScript values the core handles, and the few built-ins it relies on:
 * truthiness, `typeof x === 'object'`, property read and write, object spread,
 * `Object.keys` / `Object.values`, `Array.prototype.join`, and `String(n)` for
 * the positional-parameter numbers.
 *
 * An object is an ordered list of entries: `Object.keys` reports keys in the
 * order they were first written, and a write to an existing key keeps its place.
 */
module JsValues {

  datatype Option<T> = None | Some(value: T)

  /** A JavaScript value. Numbers are exact reals (no NaN, no infinities). */
  datatype Value =
    | Undefined
    | Null
    | Bool(b: bool)
    | Num(x: real)
    | Str(s: string)
    | Obj(entries: seq<Entry>)

  datatype Entry = Entry(key: string, val: Value)

  /** The own enumerable properties of an object, in key order. */
  type Record = seq<Entry>

  /** `!!v` */
  predicate Truthy(v: Value) {
    match v
    case Undefined => false
    case Null => false
    case Bool(b) => b
    case Num(x) => x != 0.0
    case Str(s) => s != ""
    case Obj(_) => true
  }

  /** `typeof v === 'object'` (arrays, functions and class instances are not modelled). */
  predicate TypeofObject(v: Value) {
    v.Null? || v.Obj?
  }

  /** `Object.keys(r)` */
  function Keys(r: Record): seq<string> {
    seq(|r|, i requires 0 <= i < |r| => r[i].key)
  }

  /** `Object.values(r)` */
  function Values(r: Record): seq<Value> {
    seq(|r|, i requires 0 <= i < |r| => r[i].val)
  }

  /** No key occurs twice: every JavaScript object has this shape. */
  predicate DistinctKeys(r: Record) {
    forall i, j :: 0 <= i < j < |r| ==> r[i].key != r[j].key
  }

  /** Property read `r[k]`: `undefined` when the key is absent. */
  function Get(r: Record, k: string): Value {
    if r == [] then Undefined
    else if r[0].key == k then r[0].val
    else Get(r[1..], k)
  }

  /** Property write `r[k] = v`: an existing key keeps its place, a new key goes last. */
  function Put(r: Record, k: string, v: Value): (p: Record)
    ensures |r| <= |p| <= |r| + 1
    ensures forall i :: 0 <= i < |p| ==> p[i].key == k || p[i] in r
  {
    if r == [] then [Entry(k, v)]
    else if r[0].key == k then [Entry(k, v)] + r[1..]
    else [r[0]] + Put(r[1..], k, v)
  }

  /** Copies the entries of `src` into `acc`, in order, as `{...acc, ...src}` does. */
  function CopyInto(acc: Record, src: Record): Record
    decreases |src|
  {
    if src == [] then acc
    else CopyInto(Put(acc, src[0].key, src[0].val), src[1..])
  }

  /**
   * The own enumerable string-keyed properties of `v`, which `Object.keys`,
   * `Object.values` and spread see: a string has one per character, keyed by
   * its index; numbers, booleans, `null` and `undefined` have none.
   */
  function OwnEntries(v: Value): Record {
    match v
    case Obj(es) => es
    case Str(s) => CharEntries(s, 0)
    case _ => []
  }

  function CharEntries(s: string, from: nat): Record
    decreases |s| - from
  {
    if from >= |s| then [] else [Entry(NatToString(from), Str([s[from]]))] + CharEntries(s, from + 1)
  }

  /** `{ ...a, ...b }`: never a key twice, and exactly the keys of both. */
  function Spread(a: Value, b: Value): (r: Record)
    ensures DistinctKeys(r)
    ensures (set k | k in Keys(r)) == (set k | k in Keys(OwnEntries(a))) + (set k | k in Keys(OwnEntries(b)))
  {
    var first := CopyInto([], OwnEntries(a));
    CopyIntoDistinct([], OwnEntries(a));
    CopyIntoDistinct(first, OwnEntries(b));
    CopyIntoKeys([], OwnEntries(a));
    CopyIntoKeys(first, OwnEntries(b));
    CopyInto(first, OwnEntries(b))
  }

  // ---------------------------------------------------------------------------
  // Property read and write

  /** In a record with distinct keys, the value read at key i is the value stored at i. */
  lemma {:induction false} GetAt(r: Record, i: nat)
    requires DistinctKeys(r) && i < |r|
    ensures Get(r, r[i].key) == r[i].val
  {
    if i > 0 {
      assert r[0].key != r[i].key;
      GetAt(r[1..], i - 1);
    }
  }

  lemma {:induction false} PutGet(r: Record, k: string, v: Value, k': string)
    ensures Get(Put(r, k, v), k') == if k' == k then v else Get(r, k')
  {
    if r != [] && r[0].key != k {
      PutGet(r[1..], k, v, k');
    }
  }

  lemma KeysCons(e: Entry, r: Record)
    ensures Keys([e] + r) == [e.key] + Keys(r)
  {
  }

  lemma {:induction false} PutKeys(r: Record, k: string, v: Value)
    ensures Keys(Put(r, k, v)) == if k in Keys(r) then Keys(r) else Keys(r) + [k]
  {
    if r == [] {
    } else {
      assert r == [r[0]] + r[1..];
      KeysCons(r[0], r[1..]);
      if r[0].key == k {
        KeysCons(Entry(k, v), r[1..]);
      } else {
        PutKeys(r[1..], k, v);
        KeysCons(r[0], Put(r[1..], k, v));
        assert k in Keys(r) <==> k in Keys(r[1..]);
        assert [r[0].key] + (Keys(r[1..]) + [k]) == ([r[0].key] + Keys(r[1..])) + [k];
      }
    }
  }

  lemma KeysDistinct(r: Record)
    ensures DistinctKeys(r) <==> forall i, j :: 0 <= i < j < |Keys(r)| ==> Keys(r)[i] != Keys(r)[j]
  {
    assert |Keys(r)| == |r|;
    assert forall i :: 0 <= i < |r| ==> Keys(r)[i] == r[i].key;
  }

  lemma PutDistinct(r: Record, k: string, v: Value)
    requires DistinctKeys(r)
    ensures DistinctKeys(Put(r, k, v))
  {
    PutKeys(r, k, v);
    KeysDistinct(r);
    KeysDistinct(Put(r, k, v));
  }

  /** Writing a key the record lacks appends it. */
  lemma {:induction false} PutAppends(r: Record, k: string, v: Value)
    requires k !in Keys(r)
    ensures Put(r, k, v) == r + [Entry(k, v)]
  {
    if r != [] {
      assert r[0].key == Keys(r)[0];
      assert Keys(r[1..]) == Keys(r)[1..];
      PutAppends(r[1..], k, v);
      assert r == [r[0]] + r[1..];
    }
  }

  // ---------------------------------------------------------------------------
  // Spread

  /** After copying `src` into `acc`, a key of `src` reads as in `src`, any other key as in `acc`. */
  lemma {:induction false} CopyIntoGet(acc: Record, src: Record, k: string)
    requires DistinctKeys(src)
    ensures Get(CopyInto(acc, src), k) == if k in Keys(src) then Get(src, k) else Get(acc, k)
    decreases |src|
  {
    if src != [] {
      var rest := src[1..];
      assert Keys(src) == [src[0].key] + Keys(rest);
      CopyIntoGet(Put(acc, src[0].key, src[0].val), rest, k);
      PutGet(acc, src[0].key, src[0].val, k);
      if k == src[0].key {
        assert k !in Keys(rest) by {
          forall j | 0 <= j < |rest| ensures rest[j].key != k {
            assert src[j + 1] == rest[j];
          }
        }
      }
    }
  }

  /** Copying keeps every key of `acc` in place and appends the new keys of `src`. */
  lemma {:induction false} CopyIntoKeys(acc: Record, src: Record)
    ensures |Keys(acc)| <= |Keys(CopyInto(acc, src))|
    ensures Keys(CopyInto(acc, src))[..|acc|] == Keys(acc)
    ensures (set k | k in Keys(CopyInto(acc, src))) == (set k | k in Keys(acc)) + (set k | k in Keys(src))
    decreases |src|
  {
    if src != [] {
      var acc' := Put(acc, src[0].key, src[0].val);
      PutKeys(acc, src[0].key, src[0].val);
      CopyIntoKeys(acc', src[1..]);
      assert Keys(src) == [src[0].key] + Keys(src[1..]);
      assert Keys(acc')[..|acc|] == Keys(acc);
      assert Keys(CopyInto(acc, src))[..|acc|] == Keys(acc')[..|acc'|][..|acc|];
    }
  }

  lemma {:induction false} CopyIntoDistinct(acc: Record, src: Record)
    requires DistinctKeys(acc)
    ensures DistinctKeys(CopyInto(acc, src))
    decreases |src|
  {
    if src != [] {
      PutDistinct(acc, src[0].key, src[0].val);
      CopyIntoDistinct(Put(acc, src[0].key, src[0].val), src[1..]);
    }
  }

  /** Copying into a record that shares no key with `src` is concatenation. */
  lemma {:induction false} CopyIntoDisjoint(acc: Record, src: Record)
    requires DistinctKeys(acc + src)
    ensures CopyInto(acc, src) == acc + src
    decreases |src|
  {
    if src != [] {
      var e := src[0];
      assert e.key !in Keys(acc) by {
        forall j | 0 <= j < |acc| ensures acc[j].key != e.key {
          assert (acc + src)[j] == acc[j] && (acc + src)[|acc|] == e;
        }
      }
      PutAppends(acc, e.key, e.val);
      assert (acc + [e]) + src[1..] == acc + src;
      CopyIntoDisjoint(acc + [e], src[1..]);
    }
  }

  /** `{...{}, ...r}` is `r` itself. */
  lemma CopyIntoEmpty(src: Record)
    requires DistinctKeys(src)
    ensures CopyInto([], src) == src
  {
    assert [] + src == src;
    CopyIntoDisjoint([], src);
  }

  // ---------------------------------------------------------------------------
  // String(n) for natural numbers, and its inverse

  function DigitChar(d: nat): char
    requires d < 10
  {
    "0123456789"[d]
  }

  predicate IsDigit(c: char) {
    '0' <= c <= '9'
  }

  function DigitValue(c: char): nat {
    if IsDigit(c) then (c as int - '0' as int) else 0
  }

  /** `String(n)`: the decimal numeral of `n`, without leading zeros. */
  function NatToString(n: nat): (s: string)
    ensures |s| >= 1
    ensures forall i :: 0 <= i < |s| ==> IsDigit(s[i])
    decreases n
  {
    if n < 10 then [DigitChar(n)] else NatToString(n / 10) + [DigitChar(n % 10)]
  }

  /** Reads a decimal numeral (non-digits count as 0). */
  function ParseNat(s: string): nat
    decreases |s|
  {
    if s == [] then 0 else ParseNat(s[..|s| - 1]) * 10 + DigitValue(s[|s| - 1])
  }

  lemma {:induction false} ParseNatToString(n: nat)
    ensures ParseNat(NatToString(n)) == n
    decreases n
  {
    var s := NatToString(n);
    if n < 10 {
      assert s[..|s| - 1] == [];
    } else {
      ParseNatToString(n / 10);
      assert s[..|s| - 1] == NatToString(n / 10);
      assert DigitValue(s[|s| - 1]) == n % 10;
    }
  }

  /** Different numbers have different numerals. */
  lemma NatToStringInjective(m: nat, n: nat)
    requires NatToString(m) == NatToString(n)
    ensures m == n
  {
    ParseNatToString(m);
    ParseNatToString(n);
  }

  lemma {:induction false} CharEntriesKeys(s: string, from: nat)
    ensures |CharEntries(s, from)| == if from >= |s| then 0 else |s| - from
    ensures forall i :: 0 <= i < |CharEntries(s, from)| ==>
              CharEntries(s, from)[i] == Entry(NatToString(from + i), Str([s[from + i]]))
    decreases |s| - from
  {
    if from < |s| {
      CharEntriesKeys(s, from + 1);
    }
  }

  /** Spreading a string yields one entry per character, keyed "0", "1", ... */
  lemma StringOwnEntries(s: string)
    ensures |OwnEntries(Str(s))| == |s|
    ensures forall i :: 0 <= i < |s| ==> OwnEntries(Str(s))[i] == Entry(NatToString(i), Str([s[i]]))
    ensures DistinctKeys(OwnEntries(Str(s)))
  {
    CharEntriesKeys(s, 0);
    var r := OwnEntries(Str(s));
    forall i, j | 0 <= i < j < |r| ensures r[i].key != r[j].key {
      if r[i].key == r[j].key {
        NatToStringInjective(i, j);
      }
    }
  }

  // ---------------------------------------------------------------------------
  // Array.prototype.join, and splitting at a character

  /** `parts.join(sep)` */
  function Join(parts: seq<string>, sep: string): string {
    if parts == [] then ""
    else if |parts| == 1 then parts[0]
    else parts[0] + sep + Join(parts[1..], sep)
  }

  /** `s.split(c)` for a one-character separator. */
  function Split(s: string, c: char): (parts: seq<string>)
    ensures |parts| >= 1
  {
    if s == [] then [""]
    else
      var rest := Split(s[1..], c);
      if s[0] == c then [""] + rest else [[s[0]] + rest[0]] + rest[1..]
  }

  lemma {:induction false} SplitNoSeparator(a: string, c: char)
    requires c !in a
    ensures Split(a, c) == [a]
  {
    if a != [] {
      assert a[0] != c && c !in a[1..];
      SplitNoSeparator(a[1..], c);
      assert [a[0]] + a[1..] == a;
    }
  }

  /** Splitting at a separator splits each side independently. */
  lemma {:induction false} SplitConcat(a: string, c: char, b: string)
    ensures Split(a + [c] + b, c) == Split(a, c) + Split(b, c)
  {
    if a == [] {
      assert a + [c] + b == [c] + b;
      assert ([c] + b)[1..] == b;
    } else {
      assert (a + [c] + b)[0] == a[0];
      assert (a + [c] + b)[1..] == a[1..] + [c] + b;
      SplitConcat(a[1..], c, b);
    }
  }
}

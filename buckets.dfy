/**
 * Aggregate buckets: the plain JavaScript objects the pages use as
 * `{ key: total }` maps. For keys that are not array indices, such an object
 * remembers the order in which keys were first written, so it is modelled as a
 * sequence of entries with distinct keys in insertion order.
 *
 * The operations are defined by recursion and their properties are stated as
 * lemmas, so that a proof pays only for the facts it asks for.
 */
module Buckets {
  import opened Common

  datatype Entry<K, V> = Entry(key: K, val: V)

  type Bucket<K, V> = seq<Entry<K, V>>

  /** `Object.keys(b)`. */
  function Keys<K, V>(b: Bucket<K, V>): (ks: seq<K>)
    ensures |ks| == |b|
    ensures forall i :: 0 <= i < |b| ==> ks[i] == b[i].key
  {
    seq(|b|, i requires 0 <= i < |b| => b[i].key)
  }

  /** `b[k]`: the value stored under `k`, or `undefined`. */
  function Get<K(==), V>(b: Bucket<K, V>, k: K): Option<V> {
    if |b| == 0 then None
    else if b[0].key == k then Some(b[0].val)
    else Get(b[1..], k)
  }

  /** `b[k] = v`: overwrites the entry of an existing key in place, or appends a new key. */
  function Put<K(==), V>(b: Bucket<K, V>, k: K, v: V): Bucket<K, V> {
    if |b| == 0 then [Entry(k, v)]
    else if b[0].key == k then [Entry(k, v)] + b[1..]
    else [b[0]] + Put(b[1..], k, v)
  }

  /** `b[k] = (b[k] || 0) + x`: adds `x` to the running total of `k`. */
  function AddTo<K(==)>(b: Bucket<K, real>, k: K, x: real): Bucket<K, real> {
    Put(b, k, Get(b, k).GetOr(0.0) + x)
  }

  /** The sum of all totals in `b`. */
  function Total<K>(b: Bucket<K, real>): real {
    if |b| == 0 then 0.0 else Total(b[..|b| - 1]) + b[|b| - 1].val
  }

  // ---- Reading ----

  /** A key reads `undefined` exactly when it is not among the keys. */
  lemma {:induction false} GetNone<K, V>(b: Bucket<K, V>, k: K)
    ensures Get(b, k).None? <==> k !in Keys(b)
  {
    if |b| > 0 {
      GetNone(b[1..], k);
      assert Keys(b) == [b[0].key] + Keys(b[1..]);
    }
  }

  /** Distinct keys stay distinct without the first entry. */
  lemma {:induction false} DistinctTail<K, V>(b: Bucket<K, V>)
    requires Distinct(Keys(b)) && |b| > 0
    ensures Distinct(Keys(b[1..]))
  {
    forall p, q | 0 <= p < q < |b| - 1 ensures Keys(b[1..])[p] != Keys(b[1..])[q] {
      assert Keys(b)[p + 1] != Keys(b)[q + 1];
    }
  }

  /** Distinct keys stay distinct without the last entry, which no earlier entry shares. */
  lemma {:induction false} DistinctInit<K, V>(b: Bucket<K, V>)
    requires Distinct(Keys(b)) && |b| > 0
    ensures Distinct(Keys(b[..|b| - 1]))
    ensures forall j :: 0 <= j < |b| - 1 ==> b[j].key != b[|b| - 1].key
  {
    var n := |b| - 1;
    forall p, q | 0 <= p < q < n ensures Keys(b[..n])[p] != Keys(b[..n])[q] {
      assert Keys(b)[p] != Keys(b)[q];
    }
    forall j | 0 <= j < n ensures b[j].key != b[n].key {
      assert Keys(b)[j] != Keys(b)[n];
    }
  }

  /** With distinct keys, the entry at `i` is what its key reads. */
  lemma {:induction false} GetAt<K, V>(b: Bucket<K, V>, i: nat)
    requires Distinct(Keys(b)) && i < |b|
    ensures Get(b, b[i].key) == Some(b[i].val)
  {
    if i > 0 {
      assert Keys(b)[0] != Keys(b)[i];
      DistinctTail(b);
      GetAt(b[1..], i - 1);
    }
  }

  // ---- Writing ----

  /** Writing a key keeps the order of the keys and appends a new one. */
  lemma {:induction false} PutKeys<K, V>(b: Bucket<K, V>, k: K, v: V)
    ensures Keys(Put(b, k, v)) == if k in Keys(b) then Keys(b) else Keys(b) + [k]
  {
    if |b| > 0 {
      PutKeys(b[1..], k, v);
      assert Keys(b) == [b[0].key] + Keys(b[1..]);
      if b[0].key == k {
        assert Put(b, k, v)[1..] == b[1..];
      } else {
        assert Put(b, k, v)[1..] == Put(b[1..], k, v);
      }
    }
  }

  /** After `b[k] = v`, `k` reads `v` and every other key reads as before. */
  lemma {:induction false} PutGet<K, V>(b: Bucket<K, V>, k: K, v: V, y: K)
    ensures Get(Put(b, k, v), y) == if y == k then Some(v) else Get(b, y)
  {
    if |b| > 0 && b[0].key != k {
      PutGet(b[1..], k, v, y);
      assert Put(b, k, v)[1..] == Put(b[1..], k, v);
    } else if |b| > 0 {
      assert Put(b, k, v)[1..] == b[1..];
    }
  }

  /** Writing keeps the keys distinct. */
  lemma {:induction false} PutDistinct<K, V>(b: Bucket<K, V>, k: K, v: V)
    requires Distinct(Keys(b))
    ensures Distinct(Keys(Put(b, k, v)))
  {
    PutKeys(b, k, v);
  }

  /** A new key is appended. */
  lemma {:induction false} PutNew<K, V>(b: Bucket<K, V>, k: K, v: V)
    requires k !in Keys(b)
    ensures Put(b, k, v) == b + [Entry(k, v)]
  {
    if |b| > 0 {
      assert Keys(b) == [b[0].key] + Keys(b[1..]);
      PutNew(b[1..], k, v);
      assert b == [b[0]] + b[1..];
    }
  }

  /** An existing key's entry is overwritten where it stands. */
  lemma {:induction false} PutAt<K, V>(b: Bucket<K, V>, i: nat, v: V)
    requires Distinct(Keys(b)) && i < |b|
    ensures Put(b, b[i].key, v) == b[i := Entry(b[i].key, v)]
  {
    if i > 0 {
      assert Keys(b)[0] != Keys(b)[i];
      DistinctTail(b);
      PutAt(b[1..], i - 1, v);
      assert b[i := Entry(b[i].key, v)] == [b[0]] + b[1..][i - 1 := Entry(b[i].key, v)];
    }
  }

  // ---- Adding ----

  /** After `AddTo`, `k` reads its old total (0 when absent) plus `x`; other keys read as before. */
  lemma {:induction false} AddToGet<K>(b: Bucket<K, real>, k: K, x: real, y: K)
    ensures Get(AddTo(b, k, x), y) == if y == k then Some(Get(b, k).GetOr(0.0) + x) else Get(b, y)
  {
    PutGet(b, k, Get(b, k).GetOr(0.0) + x, y);
  }

  lemma {:induction false} AddToKeys<K>(b: Bucket<K, real>, k: K, x: real)
    ensures Keys(AddTo(b, k, x)) == if k in Keys(b) then Keys(b) else Keys(b) + [k]
  {
    PutKeys(b, k, Get(b, k).GetOr(0.0) + x);
  }

  /** Adding to a key keeps the keys distinct. */
  lemma {:induction false} AddToDistinct<K>(b: Bucket<K, real>, k: K, x: real)
    requires Distinct(Keys(b))
    ensures Distinct(Keys(AddTo(b, k, x)))
  {
    PutDistinct(b, k, Get(b, k).GetOr(0.0) + x);
  }

  /** After adding to `k`, the keys are the old keys and `k`. */
  lemma {:induction false} AddToHas<K>(b: Bucket<K, real>, k: K, x: real, y: K)
    ensures y in Keys(AddTo(b, k, x)) <==> y in Keys(b) || y == k
  {
    AddToKeys(b, k, x);
  }

  /** A property every key has survives adding to a key that has it too. */
  lemma {:induction false} AddToKeysHold<K>(b: Bucket<K, real>, k: K, x: real, P: K -> bool)
    requires forall y :: y in Keys(b) ==> P(y)
    requires P(k)
    ensures forall y :: y in Keys(AddTo(b, k, x)) ==> P(y)
  {
    AddToKeys(b, k, x);
  }

  /** A new key is appended with total `x`. */
  lemma {:induction false} AddToNew<K>(b: Bucket<K, real>, k: K, x: real)
    requires k !in Keys(b)
    ensures AddTo(b, k, x) == b + [Entry(k, x)]
  {
    GetNone(b, k);
    PutNew(b, k, Get(b, k).GetOr(0.0) + x);
  }

  /** An existing key's total is increased where it stands. */
  lemma {:induction false} AddToAt<K>(b: Bucket<K, real>, i: nat, x: real)
    requires Distinct(Keys(b)) && i < |b|
    ensures AddTo(b, b[i].key, x) == b[i := Entry(b[i].key, b[i].val + x)]
  {
    GetAt(b, i);
    PutAt(b, i, b[i].val + x);
  }

  // ---- Summing ----

  lemma {:induction false} TotalUpdate<K>(b: Bucket<K, real>, i: nat, e: Entry<K, real>)
    requires i < |b|
    ensures Total(b[i := e]) == Total(b) - b[i].val + e.val
  {
    var n := |b| - 1;
    if i < n {
      TotalUpdate(b[..n], i, e);
      assert b[i := e][..n] == b[..n][i := e];
    } else {
      assert b[i := e][..n] == b[..n];
    }
  }

  /** Adding `x` to one key's total adds `x` to the sum of all totals. */
  lemma {:induction false} TotalAddTo<K>(b: Bucket<K, real>, k: K, x: real)
    requires Distinct(Keys(b))
    ensures Total(AddTo(b, k, x)) == Total(b) + x
  {
    if k in Keys(b) {
      var i :| 0 <= i < |b| && Keys(b)[i] == k;
      AddToAt(b, i, x);
      TotalUpdate(b, i, Entry(k, b[i].val + x));
    } else {
      AddToNew(b, k, x);
      assert (b + [Entry(k, x)])[..|b|] == b;
    }
  }

  // ---- Writing in a loop ----

  /** `w` writes key `k`. */
  predicate Writes<K(==), V>(w: Option<Entry<K, V>>, k: K) {
    w.Some? && w.value.key == k
  }

  /** `b[key] = val` for each write in turn; `None` stands for an element that writes nothing. */
  function PutEach<K(==), V>(b: Bucket<K, V>, ws: seq<Option<Entry<K, V>>>): Bucket<K, V> {
    if |ws| == 0 then b
    else
      var rest := PutEach(b, ws[..|ws| - 1]);
      var w := ws[|ws| - 1];
      if w.Some? then Put(rest, w.value.key, w.value.val) else rest
  }

  /** One more write: the writes before it, then that write. */
  lemma {:induction false} PutEachStep<K, V>(b: Bucket<K, V>, ws: seq<Option<Entry<K, V>>>, i: nat)
    requires i < |ws|
    ensures PutEach(b, ws[..i + 1]) ==
      if ws[i].Some? then Put(PutEach(b, ws[..i]), ws[i].value.key, ws[i].value.val) else PutEach(b, ws[..i])
  {
    assert ws[..i + 1][..i] == ws[..i];
  }

  /** The position of the last write of `k`, or -1 when none writes it. */
  function LastWrite<K(==), V>(ws: seq<Option<Entry<K, V>>>, k: K): (r: int)
    ensures -1 <= r < |ws|
    ensures r >= 0 ==> Writes(ws[r], k)
    ensures forall j :: r < j < |ws| ==> !Writes(ws[j], k)
  {
    if |ws| == 0 then -1
    else if Writes(ws[|ws| - 1], k) then |ws| - 1
    else LastWrite(ws[..|ws| - 1], k)
  }

  /** After the loop, a key reads what its last write stored; a key never written reads as before. */
  lemma {:induction false} PutEachGet<K, V>(b: Bucket<K, V>, ws: seq<Option<Entry<K, V>>>, k: K)
    ensures Get(PutEach(b, ws), k) ==
      if LastWrite(ws, k) >= 0 then Some(ws[LastWrite(ws, k)].value.val) else Get(b, k)
  {
    if |ws| > 0 {
      var n := |ws| - 1;
      PutEachGet(b, ws[..n], k);
      var w := ws[n];
      if w.Some? {
        PutGet(PutEach(b, ws[..n]), w.value.key, w.value.val, k);
      }
    }
  }

  /** The loop keeps the keys distinct. */
  lemma {:induction false} PutEachDistinct<K, V>(b: Bucket<K, V>, ws: seq<Option<Entry<K, V>>>)
    requires Distinct(Keys(b))
    ensures Distinct(Keys(PutEach(b, ws)))
  {
    if |ws| > 0 {
      var n := |ws| - 1;
      PutEachDistinct(b, ws[..n]);
      if ws[n].Some? {
        PutDistinct(PutEach(b, ws[..n]), ws[n].value.key, ws[n].value.val);
      }
    }
  }
}

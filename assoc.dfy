/**
 * Ordered association lists: the model of a JSON object as the language manager
 * uses it. The JSON library is not part of this model, so its behaviour is an
 * assumption made here: an object is taken to keep its fields in insertion
 * order, reading `obj[key]` or `GetField` to yield the first field with that
 * key, writing `obj[key] = v` or `SetField` to replace that field in place (or
 * append a new one), and `RemoveField` to drop that first field.
 */
module AssocList {
  import opened Wrappers

  type Assoc<V> = seq<(string, V)>

  /** The keys in field order. */
  function Keys<V>(t: Assoc<V>): (ks: seq<string>)
    ensures |ks| == |t|
    ensures forall i :: 0 <= i < |t| ==> ks[i] == t[i].0
  {
    if t == [] then [] else [t[0].0] + Keys(t[1..])
  }

  /** `obj[key]`: the value of the first field named `k`, or None (C# null). */
  function Get<V>(t: Assoc<V>, k: string): (r: Option<V>)
  {
    if t == [] then None
    else if t[0].0 == k then Some(t[0].1)
    else Get(t[1..], k)
  }

  predicate HasKey<V>(t: Assoc<V>, k: string) {
    Get(t, k).Some?
  }

  /** No key occurs twice. */
  predicate UniqueKeys<V>(t: Assoc<V>) {
    t == [] || (t[0].0 !in Keys(t[1..]) && UniqueKeys(t[1..]))
  }

  /** `obj[key] = v`: overwrite the first field named `k`, or append one. */
  function Set<V>(t: Assoc<V>, k: string, v: V): (r: Assoc<V>)
    ensures |r| == if HasKey(t, k) then |t| else |t| + 1
  {
    if t == [] then [(k, v)]
    else if t[0].0 == k then [(k, v)] + t[1..]
    else [t[0]] + Set(t[1..], k, v)
  }

  /** `RemoveField(key)`: drop the first field named `k`, if any. */
  function RemoveFirst<V>(t: Assoc<V>, k: string): (r: Assoc<V>)
    ensures |r| == if HasKey(t, k) then |t| - 1 else |t|
  {
    if t == [] then []
    else if t[0].0 == k then t[1..]
    else [t[0]] + RemoveFirst(t[1..], k)
  }

  /** A key is found exactly when it is among the keys, and then the value found is paired with it. */
  lemma {:induction false} GetMeansPresent<V>(t: Assoc<V>, k: string)
    ensures HasKey(t, k) <==> k in Keys(t)
    ensures HasKey(t, k) ==> (k, Get(t, k).value) in t
  {
    if t != [] && t[0].0 != k {
      GetMeansPresent(t[1..], k);
      assert Keys(t) == [t[0].0] + Keys(t[1..]);
    }
  }

  /** Lookup returns the first field with the key: the value at the least such index. */
  lemma {:induction false} GetIsFirst<V>(t: Assoc<V>, k: string, i: nat)
    requires i < |t| && t[i].0 == k
    requires forall j :: 0 <= j < i ==> t[j].0 != k
    ensures Get(t, k) == Some(t[i].1)
  {
    if i > 0 {
      GetIsFirst(t[1..], k, i - 1);
    }
  }

  /** After writing k := v, reading k yields v. */
  lemma {:induction false} SetGetSame<V>(t: Assoc<V>, k: string, v: V)
    ensures Get(Set(t, k, v), k) == Some(v)
  {
    if t != [] && t[0].0 != k {
      SetGetSame(t[1..], k, v);
    }
  }

  /** Writing k leaves the value of every other key as it was. */
  lemma {:induction false} SetGetOther<V>(t: Assoc<V>, k: string, v: V, other: string)
    requires other != k
    ensures Get(Set(t, k, v), other) == Get(t, other)
  {
    if t != [] && t[0].0 != k {
      SetGetOther(t[1..], k, v, other);
    }
  }

  /** Writing keeps the key order, appending a new key at the end. */
  lemma {:induction false} SetKeys<V>(t: Assoc<V>, k: string, v: V)
    ensures Keys(Set(t, k, v)) == if k in Keys(t) then Keys(t) else Keys(t) + [k]
  {
    GetMeansPresent(t, k);
    if t != [] && t[0].0 != k {
      SetKeys(t[1..], k, v);
      GetMeansPresent(t[1..], k);
      assert Keys(t) == [t[0].0] + Keys(t[1..]);
      assert Keys(Set(t, k, v)) == [t[0].0] + Keys(Set(t[1..], k, v));
    } else if t != [] {
      assert Keys(Set(t, k, v)) == [k] + Keys(t[1..]);
    }
  }

  /** Writing never introduces a duplicate key. */
  lemma {:induction false} SetUnique<V>(t: Assoc<V>, k: string, v: V)
    requires UniqueKeys(t)
    ensures UniqueKeys(Set(t, k, v))
  {
    if t != [] && t[0].0 != k {
      SetUnique(t[1..], k, v);
      SetKeys(t[1..], k, v);
      assert Set(t, k, v)[1..] == Set(t[1..], k, v);
    } else if t != [] {
      assert Set(t, k, v)[1..] == t[1..];
    }
  }

  /** Removing k leaves the value of every other key as it was. */
  lemma {:induction false} RemoveGetOther<V>(t: Assoc<V>, k: string, other: string)
    requires other != k
    ensures Get(RemoveFirst(t, k), other) == Get(t, other)
  {
    if t != [] && t[0].0 != k {
      RemoveGetOther(t[1..], k, other);
    }
  }

  /** Removing drops exactly the first field named k and keeps the others in order. */
  lemma {:induction false} RemoveAt<V>(t: Assoc<V>, k: string, i: nat)
    requires i < |t| && t[i].0 == k
    requires forall j :: 0 <= j < i ==> t[j].0 != k
    ensures RemoveFirst(t, k) == t[..i] + t[i + 1..]
  {
    if i > 0 {
      RemoveAt(t[1..], k, i - 1);
      assert t[..i] == [t[0]] + t[1..][..i - 1];
      assert t[i + 1..] == t[1..][i..];
    }
  }

  /** Removing introduces no key, and removing an absent key changes nothing. */
  lemma {:induction false} RemoveKeys<V>(t: Assoc<V>, k: string)
    ensures forall x :: x in Keys(RemoveFirst(t, k)) ==> x in Keys(t)
    ensures k !in Keys(t) ==> RemoveFirst(t, k) == t
  {
    if t != [] && t[0].0 != k {
      RemoveKeys(t[1..], k);
      assert Keys(t) == [t[0].0] + Keys(t[1..]);
      assert Keys(RemoveFirst(t, k)) == [t[0].0] + Keys(RemoveFirst(t[1..], k));
    } else if t != [] {
      assert Keys(t) == [k] + Keys(t[1..]);
    }
  }

  /** In a table without duplicates, removing k leaves no field named k and no duplicates. */
  lemma {:induction false} RemoveUnique<V>(t: Assoc<V>, k: string)
    requires UniqueKeys(t)
    ensures k !in Keys(RemoveFirst(t, k))
    ensures UniqueKeys(RemoveFirst(t, k))
  {
    if t != [] && t[0].0 != k {
      RemoveUnique(t[1..], k);
      RemoveKeys(t[1..], k);
      var r := RemoveFirst(t, k);
      assert r[1..] == RemoveFirst(t[1..], k);
      assert Keys(r) == [t[0].0] + Keys(r[1..]);
    }
  }

  /** The same fields, in the same order, with every value transformed by `f`. */
  function MapValues<V, W>(t: Assoc<V>, f: V -> W): (r: Assoc<W>)
    ensures Keys(r) == Keys(t)
  {
    seq(|t|, i requires 0 <= i < |t| => (t[i].0, f(t[i].1)))
  }

  /** Looking up in a transformed object is transforming what the lookup finds. */
  lemma {:induction false} GetMapped<V, W>(t: Assoc<V>, f: V -> W, k: string)
    ensures Get(MapValues(t, f), k) == if HasKey(t, k) then Some(f(Get(t, k).value)) else None
  {
    if t != [] {
      assert MapValues(t, f)[1..] == MapValues(t[1..], f);
      if t[0].0 != k {
        GetMapped(t[1..], f, k);
      }
    }
  }
}

/** A JavaScript object as an ordered list of properties. Reading a property
    finds its first occurrence; assigning one overwrites it where it stands or
    appends it at the end; an object spread `{...base, ...extra}` assigns the
    properties of `extra` one by one, in order, onto a copy of `base`. */
module Props {
  import opened Basics

  type Props<V> = seq<(string, V)>

  /** `o[k]`, `undefined` when the property is absent. */
  function Get<V>(o: Props<V>, k: string): Option<V>
  {
    if o == [] then None
    else if o[0].0 == k then Some(o[0].1)
    else Get(o[1..], k)
  }

  /** A property reads as present exactly when some entry carries its name. */
  lemma {:induction false} HasIff<V>(o: Props<V>, k: string)
    ensures Has(o, k) <==> exists i :: 0 <= i < |o| && o[i].0 == k
  {
    if o != [] && o[0].0 != k {
      HasIff(o[1..], k);
      assert forall i :: 0 <= i < |o| - 1 ==> o[1..][i] == o[i + 1];
    }
  }

  predicate Has<V>(o: Props<V>, k: string) {
    Get(o, k).Some?
  }

  /** No property name occurs twice, as in every object `JSON.parse` builds. */
  predicate UniqueKeys<V>(o: Props<V>) {
    forall i, j :: 0 <= i < j < |o| ==> o[i].0 != o[j].0
  }

  /** `o[k] = v`. */
  function Put<V>(o: Props<V>, k: string, v: V): (r: Props<V>)
    ensures Get(r, k) == Some(v)
    ensures Has(o, k) ==> |r| == |o|
    ensures !Has(o, k) ==> r == o + [(k, v)]
  {
    if o == [] then [(k, v)]
    else if o[0].0 == k then [(k, v)] + o[1..]
    else [o[0]] + Put(o[1..], k, v)
  }

  /** Assigning one property leaves every other property as it was. */
  lemma {:induction false} PutOther<V>(o: Props<V>, k: string, v: V, k': string)
    requires k' != k
    ensures Get(Put(o, k, v), k') == Get(o, k')
  {
    if o != [] && o[0].0 != k {
      PutOther(o[1..], k, v, k');
    }
  }

  /** A property read is one of the object's entries. */
  lemma {:induction false} GetIn<V>(o: Props<V>, k: string)
    ensures Get(o, k).Some? ==> (k, Get(o, k).value) in o
  {
    if o != [] && o[0].0 != k {
      GetIn(o[1..], k);
    }
  }

  /** Assigning a property the value it already holds changes nothing. */
  lemma {:induction false} PutSame<V>(o: Props<V>, k: string, v: V)
    requires Get(o, k) == Some(v)
    ensures Put(o, k, v) == o
  {
    if o[0].0 != k {
      PutSame(o[1..], k, v);
    }
  }

  /** Assigning a property never duplicates a name. */
  lemma {:induction false} PutUnique<V>(o: Props<V>, k: string, v: V)
    requires UniqueKeys(o)
    ensures UniqueKeys(Put(o, k, v))
  {
    if o != [] && o[0].0 != k {
      PutUnique(o[1..], k, v);
      var r := Put(o, k, v);
      forall j | 0 < j < |r|
        ensures r[0].0 != r[j].0
      {
        var p := r[j];
        assert p in Put(o[1..], k, v);
        PutMembers(o[1..], k, v, p);
      }
    }
  }

  /** Every property after an assignment is the assigned one or an old one. */
  lemma {:induction false} PutMembers<V>(o: Props<V>, k: string, v: V, p: (string, V))
    requires p in Put(o, k, v)
    ensures p == (k, v) || p in o
  {
    if o != [] && o[0].0 != k {
      if p != o[0] {
        PutMembers(o[1..], k, v, p);
      }
    }
  }

  /** `{...base, ...extra}`. */
  function Spread<V>(base: Props<V>, extra: Props<V>): Props<V>
    decreases |extra|
  {
    if extra == [] then base
    else Spread(Put(base, extra[0].0, extra[0].1), extra[1..])
  }

  /** After a spread, a property of `extra` wins over the same property of
      `base`, and every other property reads as it did in `base`. */
  lemma {:induction false} SpreadGet<V>(base: Props<V>, extra: Props<V>, k: string)
    requires UniqueKeys(extra)
    ensures Has(extra, k) ==> Get(Spread(base, extra), k) == Get(extra, k)
    ensures !Has(extra, k) ==> Get(Spread(base, extra), k) == Get(base, k)
    decreases |extra|
  {
    if extra != [] {
      var rest := extra[1..];
      assert UniqueKeys(rest);
      var b' := Put(base, extra[0].0, extra[0].1);
      SpreadGet(b', rest, k);
      HasIff(rest, k);
      if k != extra[0].0 {
        PutOther(base, extra[0].0, extra[0].1, k);
      }
    }
  }

  /** Spreading keeps property names unique. */
  lemma {:induction false} SpreadUnique<V>(base: Props<V>, extra: Props<V>)
    requires UniqueKeys(base)
    ensures UniqueKeys(Spread(base, extra))
    decreases |extra|
  {
    if extra != [] {
      PutUnique(base, extra[0].0, extra[0].1);
      SpreadUnique(Put(base, extra[0].0, extra[0].1), extra[1..]);
    }
  }
}

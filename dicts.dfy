/**
 * An insertion-ordered dictionary, as a Python `dict` behaves: its items in the order
 * their keys were first inserted, each key at most once.
 */
module Dicts {

  datatype Dict<K(==), V> = Dict(items: seq<(K, V)>)
  {
    /** No key is listed twice. */
    ghost predicate Valid() {
      forall i, j | 0 <= i < j < |items| :: items[i].0 != items[j].0
    }

    /** The empty dictionary `{}`. */
    static function Empty(): (d: Dict<K, V>)
      ensures d.Valid() && |d.items| == 0
    {
      Dict([])
    }

    /** `d.keys()`, in insertion order. */
    function Keys(): (ks: seq<K>)
      ensures |ks| == |items| && forall i | 0 <= i < |items| :: ks[i] == items[i].0
    {
      seq(|items|, i requires 0 <= i < |items| => items[i].0)
    }

    /** `d.values()`: the value of each key, in the order of the keys. */
    function Values(): (vs: seq<V>)
      ensures |vs| == |items| && forall i | 0 <= i < |items| :: vs[i] == items[i].1
    {
      seq(|items|, i requires 0 <= i < |items| => items[i].1)
    }

    /**
     * `d[k] = v`: a key already present keeps its place and takes the new value; a new
     * key goes last. Every other entry keeps its key, its place and its value.
     */
    function Put(k: K, v: V): (d: Dict<K, V>)
      ensures Valid() ==> d.Valid()
      ensures d.Keys() == if k in Keys() then Keys() else Keys() + [k]
      ensures forall i | 0 <= i < |d.items| && d.items[i].0 == k :: d.items[i].1 == v
      ensures forall i | 0 <= i < |items| && items[i].0 != k :: d.items[i] == items[i]
    {
      if k in Keys() then
        Dict(seq(|items|, i requires 0 <= i < |items| => if items[i].0 == k then (k, v) else items[i]))
      else
        Dict(items + [(k, v)])
    }

    /**
     * `d.update(other)`: each item of `other`, in order, written into `d` as by `d[k] = v`.
     * The keys `d` had keep their places and every key of `other` ends up in `d`; that no
     * other key appears is `UpdateAddsNoKey`.
     */
    function Update(other: Dict<K, V>): (d: Dict<K, V>)
      ensures Valid() ==> d.Valid()
      ensures |d.items| >= |items| && forall i | 0 <= i < |items| :: d.items[i].0 == items[i].0
      ensures forall i | 0 <= i < |other.items| :: other.items[i].0 in d.Keys()
      decreases |other.items|
    {
      if |other.items| == 0 then this
      else
        var (k, v) := other.items[0];
        var once := Put(k, v);
        var d := once.Update(Dict(other.items[1..]));
        assert k in once.Keys();
        d
    }
  }

  /**
   * The values view after `d[k] = v` keeps insertion order: a new key's value goes last,
   * behind the values already there; an existing key's value changes in place and every
   * other value stays where it was.
   */
  lemma PutValues<K, V>(d: Dict<K, V>, k: K, v: V)
    ensures k !in d.Keys() ==> d.Put(k, v).Values() == d.Values() + [v]
    ensures k in d.Keys() ==> |d.Put(k, v).Values()| == |d.Values()|
    ensures k in d.Keys() ==> forall i | 0 <= i < |d.items| ::
      d.Put(k, v).Values()[i] == if d.items[i].0 == k then v else d.Values()[i]
  {
    var after := d.Put(k, v);
    if k !in d.Keys() {
      assert after.items == d.items + [(k, v)];
      assert after.Values() == d.Values() + [v];
    }
  }

  /**
   * `d.update(other)` leaves alone what `other` does not mention: every item of `d` whose
   * key is not a key of `other` keeps its place, its key and its value.
   */
  lemma {:induction false} UpdateKeepsUntouched<K, V>(d: Dict<K, V>, other: Dict<K, V>)
    ensures forall i | 0 <= i < |d.items| && d.items[i].0 !in other.Keys() :: d.Update(other).items[i] == d.items[i]
    decreases |other.items|
  {
    if |other.items| > 0 {
      var (k, v) := other.items[0];
      var rest := Dict(other.items[1..]);
      var once := d.Put(k, v);
      assert d.Update(other) == once.Update(rest);
      UpdateKeepsUntouched(once, rest);
      forall i | 0 <= i < |d.items| && d.items[i].0 !in other.Keys()
        ensures d.Update(other).items[i] == d.items[i]
      {
        assert d.items[i].0 != k;
        assert d.items[i].0 !in rest.Keys() by {
          forall j | 0 <= j < |rest.items| ensures rest.items[j].0 != d.items[i].0 {
            assert rest.items[j] == other.items[j + 1];
          }
        }
      }
    }
  }

  /**
   * `d.update(other)` for a dictionary `other` without repeated keys: every key of `other`
   * ends up holding the value `other` gives it.
   */
  lemma {:induction false} UpdateValues<K, V>(d: Dict<K, V>, other: Dict<K, V>)
    requires d.Valid() && other.Valid()
    ensures forall i, j | 0 <= i < |d.Update(other).items| && 0 <= j < |other.items| &&
      d.Update(other).items[i].0 == other.items[j].0 :: d.Update(other).items[i].1 == other.items[j].1
    decreases |other.items|
  {
    if |other.items| > 0 {
      var (k, v) := other.items[0];
      var rest := Dict(other.items[1..]);
      var once := d.Put(k, v);
      var after := d.Update(other);
      assert after == once.Update(rest);
      assert rest.Valid();
      assert k !in rest.Keys();
      UpdateValues(once, rest);
      UpdateKeepsUntouched(once, rest);
      assert k in once.Keys();
      var m :| 0 <= m < |once.items| && once.items[m].0 == k;
      assert after.items[m] == once.items[m];
      forall i, j | 0 <= i < |after.items| && 0 <= j < |other.items| && after.items[i].0 == other.items[j].0
        ensures after.items[i].1 == other.items[j].1
      {
        if j == 0 {
          assert after.items[i].0 == after.items[m].0;
        } else {
          assert other.items[j] == rest.items[j - 1];
        }
      }
    }
  }

  /** `d.update(other)` brings in no key that neither `d` nor `other` holds. */
  lemma {:induction false} UpdateAddsNoKey<K, V>(d: Dict<K, V>, other: Dict<K, V>)
    ensures forall i | 0 <= i < |d.Update(other).items| ::
      d.Update(other).items[i].0 in d.Keys() || d.Update(other).items[i].0 in other.Keys()
    decreases |other.items|
  {
    if |other.items| > 0 {
      var (k, v) := other.items[0];
      var rest := Dict(other.items[1..]);
      var once := d.Put(k, v);
      var after := d.Update(other);
      assert after == once.Update(rest);
      UpdateAddsNoKey(once, rest);
      forall i | 0 <= i < |after.items|
        ensures after.items[i].0 in d.Keys() || after.items[i].0 in other.Keys()
      {
        var key := after.items[i].0;
        if key in rest.Keys() {
          var j :| 0 <= j < |rest.items| && rest.items[j].0 == key;
          assert other.items[j + 1] == rest.items[j];
        } else if key != k {
          assert key in once.Keys();
          assert key in d.Keys() || key == k;
        } else {
          assert other.items[0].0 == key;
        }
      }
    }
  }

  /** Updating with a one-item dictionary is writing that one item. */
  lemma UpdateWithOne<K, V>(d: Dict<K, V>, k: K, v: V)
    ensures Dict([(k, v)]).Valid()
    ensures d.Update(Dict([(k, v)])) == d.Put(k, v)
  {
    assert [(k, v)][1..] == [];
  }

  /** Writing the same item twice is writing it once. */
  lemma PutTwice<K, V>(d: Dict<K, V>, k: K, v: V)
    ensures d.Put(k, v).Put(k, v) == d.Put(k, v)
  {
    var once := d.Put(k, v);
    assert k in once.Keys();
    assert once.Put(k, v).items == once.items;
  }
}

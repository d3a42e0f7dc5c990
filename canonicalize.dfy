/**
 * Canonicalisation of JSON values (src/kernel/canonicalize.ts): every
 * object's keys are put in code-unit order, recursively; arrays keep their
 * element order and only have their elements canonicalised; every other
 * value is returned as it is.
 */
module Canonicalize {
  import opened Json
  import opened CodeUnitOrder

  lemma SortedKeysPresent(ms: Members)
    ensures forall k :: k in SortKeys(KeysOf(ms)) ==> HasKey(ms, k)
  {
    forall k | k in SortKeys(KeysOf(ms))
      ensures HasKey(ms, k)
    {
      assert k in multiset(SortKeys(KeysOf(ms)));
    }
  }

  /** `canonicalize(value)`. */
  function Canonical(v: Json): Json
  {
    match v
    case JArr(items) => JArr(seq(|items|, i requires 0 <= i < |items| => Canonical(items[i])))
    case JObj(ms) =>
      var keys := SortKeys(KeysOf(ms));
      SortedKeysPresent(ms);
      JObj(seq(|keys|, i requires 0 <= i < |keys| => (keys[i], Canonical(ms[IndexOf(ms, keys[i])].1))))
    case _ => v
  }

  /**
   * The object branch in the source's imperative shape: sort the keys, then
   * fill a fresh object key by key with the canonicalised values. Each key
   * is added as an own member, which is the corrected assignment: the
   * source's plain assignment drops an own `__proto__` key, as
   * `FillAsWritten` and `CanonicalAsWritten` model.
   */
  method CanonicalizeObject(obj: Members) returns (sorted: Members)
    requires UniqueKeys(obj)
    ensures JObj(sorted) == Canonical(JObj(obj))
  {
    var keys := SortKeys(KeysOf(obj));
    SortedKeysPresent(obj);
    UniqueKeysDistinct(obj);
    SortKeysDistinct(KeysOf(obj));
    ghost var spec := Canonical(JObj(obj)).members;
    sorted := [];
    for n := 0 to |keys|
      invariant sorted == spec[..n]
      invariant KeysOf(sorted) == keys[..n]
    {
      var key := keys[n];
      var value := obj[IndexOf(obj, key)].1;
      assert !HasKey(sorted, key);
      SetAppends(sorted, key, Canonical(value));
      sorted := Set(sorted, key, Canonical(value));
      assert spec[..n + 1] == spec[..n] + [spec[n]];
      assert keys[..n + 1] == keys[..n] + [keys[n]];
    }
    assert spec[..|keys|] == spec;
  }

  /** Keys in strictly ascending code-unit order in every object, at every depth. */
  predicate IsCanonical(v: Json)
  {
    match v
    case JArr(items) => forall i :: 0 <= i < |items| ==> IsCanonical(items[i])
    case JObj(ms) => StrictlySorted(KeysOf(ms)) && forall i :: 0 <= i < |ms| ==> IsCanonical(ms[i].1)
    case _ => true
  }

  /**
   * Equal as JavaScript values up to the insertion order of object members:
   * same primitives, arrays equal position by position, objects with the same
   * names and, name by name, values equal up to order.
   */
  ghost predicate SameUpToOrder(a: Json, b: Json)
  {
    match a
    case JArr(xs) =>
      b.JArr? && |xs| == |b.items| && forall i :: 0 <= i < |xs| ==> SameUpToOrder(xs[i], b.items[i])
    case JObj(ms) =>
      && b.JObj?
      && multiset(KeysOf(ms)) == multiset(KeysOf(b.members))
      && forall k :: HasKey(ms, k) ==>
           assert k in multiset(KeysOf(b.members));
           SameUpToOrder(ms[IndexOf(ms, k)].1, b.members[IndexOf(b.members, k)].1)
    case _ => a == b
  }

  lemma UniqueKeysDistinct(ms: Members)
    requires UniqueKeys(ms)
    ensures Distinct(KeysOf(ms))
  {
  }

  lemma SetAppends(ms: Members, k: string, v: Json)
    requires !HasKey(ms, k)
    ensures Set(ms, k, v) == ms + [(k, v)]
    ensures KeysOf(ms + [(k, v)]) == KeysOf(ms) + [k]
  {
  }

  lemma SameKeys(ms: Members, ns: Members)
    requires multiset(KeysOf(ms)) == multiset(KeysOf(ns))
    ensures forall k :: HasKey(ms, k) <==> HasKey(ns, k)
  {
    forall k
      ensures HasKey(ms, k) <==> HasKey(ns, k)
    {
      assert k in multiset(KeysOf(ms)) <==> k in multiset(KeysOf(ns));
    }
  }

  /** Objects with the same names, each once, list them in the same sorted order. */
  lemma SameSortedKeys(ms: Members, ns: Members)
    requires UniqueKeys(ms) && UniqueKeys(ns)
    requires multiset(KeysOf(ms)) == multiset(KeysOf(ns))
    ensures SortKeys(KeysOf(ms)) == SortKeys(KeysOf(ns))
  {
    UniqueKeysDistinct(ms);
    UniqueKeysDistinct(ns);
    SortKeysStrict(KeysOf(ms));
    SortKeysStrict(KeysOf(ns));
    StrictlySortedUnique(SortKeys(KeysOf(ms)), SortKeys(KeysOf(ns)));
  }

  /**
   * An object's canonical form has exactly the input's keys, in strictly
   * ascending code-unit order, and under each key the canonical form of the
   * input's value there.
   */
  lemma CanonicalObject(ms: Members)
    requires UniqueKeys(ms)
    ensures Canonical(JObj(ms)).JObj?
    ensures var r := Canonical(JObj(ms)).members;
      && StrictlySorted(KeysOf(r))
      && UniqueKeys(r)
      && multiset(KeysOf(r)) == multiset(KeysOf(ms))
      && (forall k :: HasKey(r, k) <==> HasKey(ms, k))
      && (forall k :: HasKey(ms, k) ==> Get(r, k) == Some(Canonical(Get(ms, k).value)))
  {
    var keys := SortKeys(KeysOf(ms));
    var r := Canonical(JObj(ms)).members;
    assert KeysOf(r) == keys;
    UniqueKeysDistinct(ms);
    SortKeysStrict(KeysOf(ms));
    assert UniqueKeys(r) by {
      forall i, j | 0 <= i < j < |r|
        ensures r[i].0 != r[j].0
      {
        BelowIrreflexive(keys[i]);
      }
    }
    forall k
      ensures HasKey(r, k) <==> HasKey(ms, k)
    {
      assert k in multiset(KeysOf(r)) <==> k in multiset(KeysOf(ms));
    }
    forall k | HasKey(ms, k)
      ensures Get(r, k) == Some(Canonical(Get(ms, k).value))
    {
      var j := IndexOf(r, k);
      assert r[j] == (keys[j], Canonical(ms[IndexOf(ms, keys[j])].1));
    }
  }

  /**
   * Primitives are returned unchanged and arrays keep their length and
   * order with each element canonicalised; objects are described by
   * CanonicalObject.
   */
  lemma CanonicalShape(v: Json)
    requires WellFormed(v)
    ensures !v.JArr? && !v.JObj? ==> Canonical(v) == v
    ensures v.JArr? ==>
      && Canonical(v).JArr?
      && |Canonical(v).items| == |v.items|
      && forall i :: 0 <= i < |v.items| ==> Canonical(v).items[i] == Canonical(v.items[i])
    ensures v.JObj? ==>
      && Canonical(v).JObj?
      && StrictlySorted(KeysOf(Canonical(v).members))
      && forall k :: HasKey(Canonical(v).members, k) <==> HasKey(v.members, k)
  {
    if v.JObj? {
      CanonicalObject(v.members);
    }
  }

  /** The canonical form is canonical and still has unique keys everywhere. */
  lemma {:induction false} CanonicalIsCanonical(v: Json)
    requires WellFormed(v)
    ensures IsCanonical(Canonical(v)) && WellFormed(Canonical(v))
  {
    match v
    case JArr(items) =>
      forall i | 0 <= i < |items|
        ensures IsCanonical(Canonical(items[i])) && WellFormed(Canonical(items[i]))
      {
        CanonicalIsCanonical(items[i]);
      }
    case JObj(ms) =>
      CanonicalObject(ms);
      var keys := SortKeys(KeysOf(ms));
      SortedKeysPresent(ms);
      var r := Canonical(v).members;
      forall i | 0 <= i < |r|
        ensures IsCanonical(r[i].1) && WellFormed(r[i].1)
      {
        var child := ms[IndexOf(ms, keys[i])].1;
        assert r[i].1 == Canonical(child);
        CanonicalIsCanonical(child);
      }
    case _ =>
  }

  /** A value that is already canonical is its own canonical form. */
  lemma {:induction false} CanonicalFixpoint(v: Json)
    requires IsCanonical(v)
    ensures Canonical(v) == v
  {
    match v
    case JArr(items) =>
      forall i | 0 <= i < |items|
        ensures Canonical(items[i]) == items[i]
      {
        CanonicalFixpoint(items[i]);
      }
    case JObj(ms) =>
      var keys := SortKeys(KeysOf(ms));
      assert UniqueKeys(ms) by {
        forall a, b | 0 <= a < b < |ms|
          ensures ms[a].0 != ms[b].0
        {
          assert Below(KeysOf(ms)[a], KeysOf(ms)[b]);
          BelowIrreflexive(ms[a].0);
        }
      }
      UniqueKeysDistinct(ms);
      SortKeysStrict(KeysOf(ms));
      StrictlySortedUnique(keys, KeysOf(ms));
      forall i | 0 <= i < |ms|
        ensures (keys[i], Canonical(ms[IndexOf(ms, keys[i])].1)) == ms[i]
      {
        IndexOfUnique(ms, i);
        CanonicalFixpoint(ms[i].1);
      }
    case _ =>
  }

  /** canonicalize(canonicalize(v)) == canonicalize(v). */
  lemma CanonicalIdempotent(v: Json)
    requires WellFormed(v)
    ensures Canonical(Canonical(v)) == Canonical(v)
  {
    CanonicalIsCanonical(v);
    CanonicalFixpoint(Canonical(v));
  }

  lemma {:induction false} SameUpToOrderReflexive(a: Json)
    ensures SameUpToOrder(a, a)
  {
    match a
    case JArr(xs) =>
      forall i | 0 <= i < |xs|
        ensures SameUpToOrder(xs[i], xs[i])
      {
        SameUpToOrderReflexive(xs[i]);
      }
    case JObj(ms) =>
      forall k | HasKey(ms, k)
        ensures SameUpToOrder(ms[IndexOf(ms, k)].1, ms[IndexOf(ms, k)].1)
      {
        SameUpToOrderReflexive(ms[IndexOf(ms, k)].1);
      }
    case _ =>
  }

  lemma {:induction false} SameUpToOrderSymmetric(a: Json, b: Json)
    requires SameUpToOrder(a, b)
    ensures SameUpToOrder(b, a)
  {
    match a
    case JArr(xs) =>
      forall i | 0 <= i < |xs|
        ensures SameUpToOrder(b.items[i], xs[i])
      {
        SameUpToOrderSymmetric(xs[i], b.items[i]);
      }
    case JObj(ms) =>
      var ns := b.members;
      SameKeys(ms, ns);
      forall k | HasKey(ns, k)
        ensures SameUpToOrder(ns[IndexOf(ns, k)].1, ms[IndexOf(ms, k)].1)
      {
        SameUpToOrderSymmetric(ms[IndexOf(ms, k)].1, ns[IndexOf(ns, k)].1);
      }
    case _ =>
  }

  lemma {:induction false} SameUpToOrderTransitive(a: Json, b: Json, c: Json)
    requires SameUpToOrder(a, b) && SameUpToOrder(b, c)
    ensures SameUpToOrder(a, c)
  {
    match a
    case JArr(xs) =>
      forall i | 0 <= i < |xs|
        ensures SameUpToOrder(xs[i], c.items[i])
      {
        SameUpToOrderTransitive(xs[i], b.items[i], c.items[i]);
      }
    case JObj(ms) =>
      var ns, os := b.members, c.members;
      SameKeys(ms, ns);
      SameKeys(ns, os);
      forall k | HasKey(ms, k)
        ensures SameUpToOrder(ms[IndexOf(ms, k)].1, os[IndexOf(os, k)].1)
      {
        SameUpToOrderTransitive(ms[IndexOf(ms, k)].1, ns[IndexOf(ns, k)].1, os[IndexOf(os, k)].1);
      }
    case _ =>
  }

  /** Canonicalising changes a value only by reordering object members. */
  lemma {:induction false} CanonicalSameUpToOrder(v: Json)
    requires WellFormed(v)
    ensures SameUpToOrder(v, Canonical(v))
  {
    match v
    case JArr(items) =>
      forall i | 0 <= i < |items|
        ensures SameUpToOrder(items[i], Canonical(items[i]))
      {
        CanonicalSameUpToOrder(items[i]);
      }
    case JObj(ms) =>
      CanonicalObject(ms);
      var r := Canonical(v).members;
      forall k | HasKey(ms, k)
        ensures SameUpToOrder(ms[IndexOf(ms, k)].1, r[IndexOf(r, k)].1)
      {
        assert Get(r, k) == Some(Canonical(Get(ms, k).value));
        CanonicalSameUpToOrder(ms[IndexOf(ms, k)].1);
      }
    case _ =>
  }

  /**
   * Values that differ only in the insertion order of object members, at
   * any depth, have the same canonical form.
   */
  lemma {:induction false} CanonicalRespectsKeyOrder(a: Json, b: Json)
    requires WellFormed(a) && WellFormed(b) && SameUpToOrder(a, b)
    ensures Canonical(a) == Canonical(b)
  {
    match a
    case JArr(xs) =>
      forall i | 0 <= i < |xs|
        ensures Canonical(xs[i]) == Canonical(b.items[i])
      {
        CanonicalRespectsKeyOrder(xs[i], b.items[i]);
      }
    case JObj(ms) =>
      var ns := b.members;
      var keys := SortKeys(KeysOf(ms));
      SameSortedKeys(ms, ns);
      SortedKeysPresent(ms);
      SameKeys(ms, ns);
      forall i | 0 <= i < |keys|
        ensures Canonical(ms[IndexOf(ms, keys[i])].1) == Canonical(ns[IndexOf(ns, keys[i])].1)
      {
        var k := keys[i];
        CanonicalRespectsKeyOrder(ms[IndexOf(ms, k)].1, ns[IndexOf(ns, k)].1);
      }
      assert Canonical(a).members == Canonical(b).members;
    case _ =>
  }

  /** Assigning order-equivalent values under one name keeps two objects order-equivalent. */
  lemma SetSameUpToOrder(a: Members, b: Members, k: string, v: Json, w: Json)
    requires SameUpToOrder(JObj(a), JObj(b)) && SameUpToOrder(v, w)
    ensures SameUpToOrder(JObj(Set(a, k, v)), JObj(Set(b, k, w)))
  {
    var ra, rb := Set(a, k, v), Set(b, k, w);
    SameKeys(a, b);
    if HasKey(a, k) {
      assert KeysOf(ra) == KeysOf(ra)[..|a|] == KeysOf(a);
      assert KeysOf(rb) == KeysOf(rb)[..|b|] == KeysOf(b);
    } else {
      SetAppends(a, k, v);
      SetAppends(b, k, w);
    }
    forall k' | HasKey(ra, k')
      ensures SameUpToOrder(ra[IndexOf(ra, k')].1, rb[IndexOf(rb, k')].1)
    {
      assert Get(ra, k') == Some(ra[IndexOf(ra, k')].1);
      assert HasKey(rb, k') && Get(rb, k') == Some(rb[IndexOf(rb, k')].1);
      if k' != k {
        assert Get(a, k') == Some(a[IndexOf(a, k')].1);
        assert Get(b, k') == Some(b[IndexOf(b, k')].1);
      }
    }
  }

  /**
   * Two well-formed values have the same canonical form exactly when they
   * are equal up to member order.
   */
  lemma CanonicalEqualIff(a: Json, b: Json)
    requires WellFormed(a) && WellFormed(b)
    ensures Canonical(a) == Canonical(b) <==> SameUpToOrder(a, b)
  {
    if SameUpToOrder(a, b) {
      CanonicalRespectsKeyOrder(a, b);
    }
    if Canonical(a) == Canonical(b) {
      CanonicalSameUpToOrder(a);
      CanonicalSameUpToOrder(b);
      SameUpToOrderSymmetric(b, Canonical(b));
      SameUpToOrderTransitive(a, Canonical(b), b);
    }
  }

  // ---------------------------------------------------------------------------
  // The object branch as written: `sorted[key] = ...` is a [[Set]] on a
  // plain object, and for the name "__proto__" that runs the inherited
  // accessor (replacing the prototype, or doing nothing for a primitive)
  // instead of creating an own member.
  // ---------------------------------------------------------------------------

  function AssignAsWritten(obj: Members, k: string, v: Json): Members
  {
    if k == "__proto__" then obj else Set(obj, k, v)
  }

  /** The loop at lines 34-36 with the assignment as written. */
  function FillAsWritten(keys: seq<string>, values: seq<Json>): (r: Members)
    requires |keys| == |values|
    ensures !HasKey(r, "__proto__")
  {
    if keys == [] then []
    else
      var n := |keys| - 1;
      AssignAsWritten(FillAsWritten(keys[..n], values[..n]), keys[n], values[n])
  }

  /** `canonicalize` with the object branch as written. */
  function CanonicalAsWritten(v: Json): Json
  {
    match v
    case JArr(items) => JArr(seq(|items|, i requires 0 <= i < |items| => CanonicalAsWritten(items[i])))
    case JObj(ms) =>
      var keys := SortKeys(KeysOf(ms));
      SortedKeysPresent(ms);
      var values := seq(|keys|, i requires 0 <= i < |keys| => CanonicalAsWritten(ms[IndexOf(ms, keys[i])].1));
      JObj(FillAsWritten(keys, values))
    case _ => v
  }

  /**
   * As written, an own member named "__proto__" (which `JSON.parse` creates)
   * does not survive canonicalisation, so the key set is not preserved.
   */
  lemma ProtoMemberDroppedAsWritten(ms: Members)
    requires HasKey(ms, "__proto__")
    ensures CanonicalAsWritten(JObj(ms)).JObj?
    ensures !HasKey(CanonicalAsWritten(JObj(ms)).members, "__proto__")
    ensures HasKey(Canonical(JObj(ms)).members, "__proto__")
  {
    var keys := SortKeys(KeysOf(ms));
    assert "__proto__" in multiset(KeysOf(ms));
    assert "__proto__" in multiset(keys);
    var j :| 0 <= j < |keys| && keys[j] == "__proto__";
    HasKeyAt(Canonical(JObj(ms)).members, j);
  }
}

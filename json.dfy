/**
 * JSON values as the kernel receives them after parsing. An object is the
 * list of its members in insertion order, so that the order a caller built
 * an object in stays visible until the object is canonicalised.
 */
module Json {

  datatype Option<T> = None | Some(value: T)

  /** A JSON value; numbers are integers. */
  datatype Json =
    | JNull
    | JBool(b: bool)
    | JNum(n: int)
    | JStr(s: string)
    | JArr(items: seq<Json>)
    | JObj(members: seq<(string, Json)>)

  /** The own properties of an object, in insertion order. */
  type Members = seq<(string, Json)>

  function KeysOf(ms: Members): seq<string>
  {
    seq(|ms|, i requires 0 <= i < |ms| => ms[i].0)
  }

  /** `k in obj` for an object built from JSON (no inherited key is ever asked for). */
  predicate HasKey(ms: Members, k: string)
  {
    k in KeysOf(ms)
  }

  /** Position of the first member named `k`. */
  function IndexOf(ms: Members, k: string): (i: nat)
    requires HasKey(ms, k)
    ensures i < |ms| && ms[i].0 == k
    ensures forall j :: 0 <= j < i ==> ms[j].0 != k
  {
    if ms[0].0 == k then 0
    else
      assert HasKey(ms[1..], k) by {
        var j :| 0 <= j < |ms| && KeysOf(ms)[j] == k;
        assert KeysOf(ms[1..])[j - 1] == k;
      }
      1 + IndexOf(ms[1..], k)
  }

  /** Property read `obj[k]`: `None` stands for a missing property. */
  function Get(ms: Members, k: string): Option<Json>
  {
    if HasKey(ms, k) then Some(ms[IndexOf(ms, k)].1) else None
  }

  /** No two members share a name: every JavaScript object has this shape. */
  predicate UniqueKeys(ms: Members)
  {
    forall i, j :: 0 <= i < j < |ms| ==> ms[i].0 != ms[j].0
  }

  /** Unique member names in every object, at every depth. */
  predicate WellFormed(v: Json)
  {
    match v
    case JArr(items) => forall i :: 0 <= i < |items| ==> WellFormed(items[i])
    case JObj(ms) => UniqueKeys(ms) && forall i :: 0 <= i < |ms| ==> WellFormed(ms[i].1)
    case _ => true
  }

  lemma HasKeyAt(ms: Members, i: nat)
    requires i < |ms|
    ensures HasKey(ms, ms[i].0)
  {
    assert KeysOf(ms)[i] == ms[i].0;
  }

  /** With unique names, the member found under a name is the one at its position. */
  lemma IndexOfUnique(ms: Members, i: nat)
    requires UniqueKeys(ms) && i < |ms|
    ensures HasKey(ms, ms[i].0) && IndexOf(ms, ms[i].0) == i
  {
    HasKeyAt(ms, i);
  }

  /**
   * JavaScript assignment `obj[k] = v` on a plain object: an existing member
   * keeps its position and takes the new value, a new member goes last.
   */
  function Set(ms: Members, k: string, v: Json): (r: Members)
    ensures Get(r, k) == Some(v)
    ensures forall k' :: k' != k ==> Get(r, k') == Get(ms, k')
    ensures forall k' :: HasKey(r, k') <==> HasKey(ms, k') || k' == k
    ensures |ms| <= |r| <= |ms| + 1 && KeysOf(r)[..|ms|] == KeysOf(ms)
    ensures |r| == |ms| + 1 <==> !HasKey(ms, k)
    ensures UniqueKeys(ms) ==> UniqueKeys(r)
  {
    if HasKey(ms, k) then
      var i := IndexOf(ms, k);
      var r := ms[i := (k, v)];
      assert KeysOf(r) == KeysOf(ms);
      assert forall j :: 0 <= j < |r| ==> r[j].0 == ms[j].0;
      SetGetPreserved(ms, r, k, i);
      r
    else
      var r := ms + [(k, v)];
      assert KeysOf(r) == KeysOf(ms) + [k];
      assert HasKey(r, k) && IndexOf(r, k) == |ms| by {
        HasKeyAt(r, |ms|);
        var j := IndexOf(r, k);
        if j < |ms| {
          assert r[j] == ms[j];
          HasKeyAt(ms, j);
        }
      }
      SetGetAppended(ms, r, k, v);
      r
  }

  lemma SetGetPreserved(ms: Members, r: Members, k: string, i: nat)
    requires HasKey(ms, k) && i == IndexOf(ms, k)
    requires |r| == |ms| && (forall j :: 0 <= j < |r| ==> r[j].0 == ms[j].0)
    requires forall j :: 0 <= j < |r| && j != i ==> r[j] == ms[j]
    requires KeysOf(r) == KeysOf(ms)
    ensures Get(r, k) == Some(r[i].1)
    ensures forall k' :: k' != k ==> Get(r, k') == Get(ms, k')
  {
    IndexOfSameKeys(ms, r, k);
    forall k' | k' != k
      ensures Get(r, k') == Get(ms, k')
    {
      if HasKey(ms, k') {
        IndexOfSameKeys(ms, r, k');
      }
    }
  }

  lemma IndexOfSameKeys(ms: Members, r: Members, k: string)
    requires KeysOf(r) == KeysOf(ms) && HasKey(ms, k)
    ensures HasKey(r, k) && IndexOf(r, k) == IndexOf(ms, k)
  {
    var i, j := IndexOf(ms, k), IndexOf(r, k);
    assert KeysOf(r)[j] == k && KeysOf(ms)[i] == k;
  }

  lemma SetGetAppended(ms: Members, r: Members, k: string, v: Json)
    requires !HasKey(ms, k) && r == ms + [(k, v)]
    ensures forall k' :: k' != k ==> Get(r, k') == Get(ms, k')
  {
    forall k' | k' != k
      ensures Get(r, k') == Get(ms, k')
    {
      assert KeysOf(r) == KeysOf(ms) + [k];
      if HasKey(ms, k') {
        var i := IndexOf(ms, k');
        HasKeyAt(r, i);
        assert r[i] == ms[i];
        var j := IndexOf(r, k');
        assert j < |ms| ==> r[j] == ms[j];
      }
    }
  }

  /** Assigning a well-formed value keeps an object well-formed. */
  lemma SetWellFormed(ms: Members, k: string, v: Json)
    requires WellFormed(JObj(ms)) && WellFormed(v)
    ensures WellFormed(JObj(Set(ms, k, v)))
  {
    var r := Set(ms, k, v);
    if HasKey(ms, k) {
      assert r == ms[IndexOf(ms, k) := (k, v)];
    } else {
      assert r == ms + [(k, v)];
    }
  }

  /** Assigning the value a member already has changes nothing. */
  lemma SetUnchanged(ms: Members, k: string, v: Json)
    requires Get(ms, k) == Some(v)
    ensures Set(ms, k, v) == ms
  {
    var i := IndexOf(ms, k);
    assert ms[i := (k, v)] == ms;
  }

  /** A member of a well-formed object is well-formed. */
  lemma MemberWellFormed(ms: Members, k: string)
    requires WellFormed(JObj(ms)) && HasKey(ms, k)
    ensures WellFormed(ms[IndexOf(ms, k)].1)
  {
  }
}

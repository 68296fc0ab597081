/** The parsed JSON document, as `json.load` hands it to the script.

    Objects keep their members in document order, because the age join takes
    the FIRST qualifying demographic entry; a `map` would lose that order. */
module JsonValues {
  import opened Wrappers

  /** A JSON number that Python parsed as a float. Only what `int()` observes is
      kept: a finite float truncates toward zero, an infinity overflows, and
      NaN is rejected. */
  datatype FloatValue = Finite(truncated: int) | Infinite(negative: bool) | NaN

  datatype Json =
    | JNull
    | JBool(b: bool)
    | JInt(i: int)
    | JFloat(f: FloatValue)
    | JString(s: string)
    | JArray(items: seq<Json>)
    | JObject(members: Members)

  /** The members of a JSON object (a Python dict), in insertion order. */
  type Members = seq<(string, Json)>

  /** The keys of `m`, in order: the column order of a record. */
  function Keys(m: Members): (ks: seq<string>)
    ensures |ks| == |m| && forall i :: 0 <= i < |m| ==> ks[i] == m[i].0
  {
    if |m| == 0 then [] else [m[0].0] + Keys(m[1..])
  }

  /** Python's `k in d` for a dict `d`. */
  predicate HasKey(m: Members, k: string) {
    k in Keys(m)
  }

  /** No key occurs twice: every dict the script sees has this shape. */
  predicate Distinct(m: Members) {
    forall i, j :: 0 <= i < j < |m| ==> m[i].0 != m[j].0
  }

  /** Python's `d[k]` / `d.get(k)`: the value stored under `k`, if any. */
  function Get(m: Members, k: string): (r: Option<Json>)
    ensures r.Some? <==> HasKey(m, k)
  {
    if |m| == 0 then None
    else if m[0].0 == k then Some(m[0].1)
    else
      assert Keys(m) == [m[0].0] + Keys(m[1..]);
      Get(m[1..], k)
  }

  /** The value at position `i` is the one `Get` finds when no earlier member
      has the same key. */
  lemma {:induction false} GetAt(m: Members, i: nat)
    requires i < |m|
    requires forall j :: 0 <= j < i ==> m[j].0 != m[i].0
    ensures Get(m, m[i].0) == Some(m[i].1)
  {
    if i > 0 {
      assert m[1..][i - 1] == m[i];
      GetAt(m[1..], i - 1);
    }
  }

  /** Python's `d.get(k, default)`: the stored value when the key is present,
      even when that value is `null`, and `default` only when it is absent. */
  function GetOr(m: Members, k: string, default: Json): (r: Json)
    ensures HasKey(m, k) ==> Some(r) == Get(m, k)
    ensures !HasKey(m, k) ==> r == default
  {
    match Get(m, k)
    case Some(v) => v
    case None => default
  }

  /** Distinct keys: the head's key does not recur and the tail is distinct. */
  lemma DistinctCons(m: Members)
    requires |m| > 0
    ensures Distinct(m) <==> !HasKey(m[1..], m[0].0) && Distinct(m[1..])
  {
    var ks := Keys(m[1..]);
    if !HasKey(m[1..], m[0].0) && Distinct(m[1..]) {
      forall i, j | 0 <= i < j < |m| ensures m[i].0 != m[j].0 {
        if i == 0 {
          assert ks[j - 1] == m[j].0;
        } else {
          assert m[1..][i - 1].0 != m[1..][j - 1].0;
        }
      }
    }
  }

  /** Python's `d[k] = v`: a present key keeps its position and takes the new
      value; an absent key is appended at the end. */
  function Put(m: Members, k: string, v: Json): (r: Members)
    ensures Get(r, k) == Some(v)
    ensures forall k' :: k' != k ==> Get(r, k') == Get(m, k')
  {
    if |m| == 0 then [(k, v)]
    else if m[0].0 == k then [(k, v)] + m[1..]
    else
      var r := [m[0]] + Put(m[1..], k, v);
      assert r[1..] == Put(m[1..], k, v);
      r
  }

  /** `d[k] = v` keeps the column order: the keys are unchanged when `k` was
      present and gain `k` at the end otherwise. */
  lemma {:induction false} PutKeys(m: Members, k: string, v: Json)
    ensures HasKey(m, k) ==> Keys(Put(m, k, v)) == Keys(m)
    ensures !HasKey(m, k) ==> Keys(Put(m, k, v)) == Keys(m) + [k]
  {
    if |m| > 0 && m[0].0 != k {
      var r := Put(m, k, v);
      PutKeys(m[1..], k, v);
      assert r[1..] == Put(m[1..], k, v);
      assert Keys(r) == [m[0].0] + Keys(r[1..]);
      assert Keys(m) == [m[0].0] + Keys(m[1..]);
    }
  }

  /** `d[k] = v` never duplicates a key. */
  lemma PutDistinct(m: Members, k: string, v: Json)
    requires Distinct(m)
    ensures Distinct(Put(m, k, v))
  {
    var r := Put(m, k, v);
    PutKeys(m, k, v);
    forall i, j | 0 <= i < j < |r| ensures r[i].0 != r[j].0 {
      assert Keys(r)[i] == r[i].0 && Keys(r)[j] == r[j].0;
      if j < |m| {
        assert Keys(m)[i] != Keys(m)[j];
      } else {
        assert Keys(r)[j] == k && !HasKey(m, k);
      }
    }
  }

  /** Python's `d.update(u)`, and equally the display `{**d, **u}`: every member
      of `u` is put into `d` in order. */
  function Update(base: Members, upd: Members): (r: Members)
    decreases |upd|
  {
    if |upd| == 0 then base else Update(Put(base, upd[0].0, upd[0].1), upd[1..])
  }

  /** On a key clash the overlaid member wins; every other key reads through to
      the base. */
  lemma {:induction false} UpdateGet(base: Members, upd: Members, k: string)
    requires Distinct(upd)
    ensures Get(Update(base, upd), k) == if HasKey(upd, k) then Get(upd, k) else Get(base, k)
    decreases |upd|
  {
    if |upd| > 0 {
      var b' := Put(base, upd[0].0, upd[0].1);
      DistinctCons(upd);
      UpdateGet(b', upd[1..], k);
      assert Keys(upd) == [upd[0].0] + Keys(upd[1..]);
    }
  }

  /** Overlaying keeps the base's columns first and in order, and adds
      exactly the overlay's keys. */
  lemma {:induction false} UpdateKeys(base: Members, upd: Members)
    ensures Keys(base) <= Keys(Update(base, upd))
    ensures forall k :: HasKey(Update(base, upd), k) <==> HasKey(base, k) || HasKey(upd, k)
    decreases |upd|
  {
    if |upd| > 0 {
      PutKeys(base, upd[0].0, upd[0].1);
      UpdateKeys(Put(base, upd[0].0, upd[0].1), upd[1..]);
      assert Keys(upd) == [upd[0].0] + Keys(upd[1..]);
    }
  }

  /** Overlaying never duplicates a column. */
  lemma {:induction false} UpdateDistinct(base: Members, upd: Members)
    requires Distinct(base)
    ensures Distinct(Update(base, upd))
    decreases |upd|
  {
    if |upd| > 0 {
      PutDistinct(base, upd[0].0, upd[0].1);
      UpdateDistinct(Put(base, upd[0].0, upd[0].1), upd[1..]);
    }
  }

  /** A key the overlay does not hold reads through to the base, whatever
      keys the overlay repeats. */
  lemma {:induction false} UpdateGetAbsent(base: Members, upd: Members, k: string)
    requires !HasKey(upd, k)
    ensures Get(Update(base, upd), k) == Get(base, k)
    decreases |upd|
  {
    if |upd| > 0 {
      assert Keys(upd) == [upd[0].0] + Keys(upd[1..]);
      UpdateGetAbsent(Put(base, upd[0].0, upd[0].1), upd[1..], k);
    }
  }
}

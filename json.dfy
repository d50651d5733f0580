/**
 * Parsed JSON values as the plugin and the scripts see them after `json.load`.
 * An object keeps its members in insertion order, as a Python dict does:
 * assigning to an existing key keeps its position, a new key goes last.
 */
module JsonValue {
  import opened Wrappers
  import opened PyStr

  datatype Json =
    | JNull
    | JBool(b: bool)
    | JNumber(n: real)
    | JString(s: string)
    | JArray(items: seq<Json>)
    | JObject(members: seq<(string, Json)>)

  type Members = seq<(string, Json)>

  /** The outcome of `json.loads` on a text; the parser itself is not part of this model. */
  datatype Parsed = Parsed(value: Json) | ParseFailed(detail: string)

  /** Python truthiness: `bool(v)`. */
  predicate Truthy(v: Json) {
    match v
    case JNull => false
    case JBool(b) => b
    case JNumber(n) => n != 0.0
    case JString(s) => s != []
    case JArray(items) => items != []
    case JObject(members) => members != []
  }

  /** The falsy values are exactly None, False, 0, '', [] and {}. */
  lemma FalsyValues(v: Json)
    ensures !Truthy(v) <==> (v == JNull || v == JBool(false) || v == JNumber(0.0)
                             || v == JString([]) || v == JArray([]) || v == JObject([]))
  {
  }

  function Keys(m: Members): (ks: seq<string>)
    ensures |ks| == |m|
    ensures forall i :: 0 <= i < |m| ==> ks[i] == m[i].0
  {
    if m == [] then [] else [m[0].0] + Keys(m[1..])
  }

  predicate DistinctKeys(m: Members) {
    forall i, j :: 0 <= i < j < |m| ==> m[i].0 != m[j].0
  }

  /** `d[k]` when `k in d`, None otherwise. */
  function Get(m: Members, k: string): (r: Option<Json>)
    ensures r.Some? <==> k in Keys(m)
  {
    if m == [] then None else if m[0].0 == k then Some(m[0].1) else Get(m[1..], k)
  }

  /** `d.get(k, default)`. */
  function GetOr(m: Members, k: string, default: Json): Json {
    match Get(m, k)
    case Some(v) => v
    case None => default
  }

  /** `d[k] = v`: the value at an existing key is replaced in place, a new key is appended. */
  function Set(m: Members, k: string, v: Json): (r: Members)
    ensures SetResult(m, k, v, r)
  {
    if m == [] then [(k, v)]
    else if m[0].0 == k then
      ReplaceHead(m, v);
      [(k, v)] + m[1..]
    else
      var rest := Set(m[1..], k, v);
      KeepHead(m, k, v, rest);
      [m[0]] + rest
  }

  /** What `d[k] = v` leaves: `k` maps to `v`, every other key as before, a new key last. */
  ghost predicate SetResult(m: Members, k: string, v: Json, r: Members) {
    && Get(r, k) == Some(v)
    && (forall k' {:trigger Get(r, k')} :: k' != k ==> Get(r, k') == Get(m, k'))
    && Keys(r) == if k in Keys(m) then Keys(m) else Keys(m) + [k]
  }

  lemma ReplaceHead(m: Members, v: Json)
    requires m != []
    ensures SetResult(m, m[0].0, v, [(m[0].0, v)] + m[1..])
  {
    var r := [(m[0].0, v)] + m[1..];
    assert r[1..] == m[1..];
    assert Keys(r) == [m[0].0] + Keys(m[1..]) == Keys(m);
  }

  lemma KeepHead(m: Members, k: string, v: Json, rest: Members)
    requires m != [] && m[0].0 != k && SetResult(m[1..], k, v, rest)
    ensures SetResult(m, k, v, [m[0]] + rest)
  {
    var r := [m[0]] + rest;
    assert r[1..] == rest;
    assert Keys(m) == [m[0].0] + Keys(m[1..]);
    assert Keys(r) == [m[0].0] + Keys(rest);
  }

  /** `del d[k]` for a key that is present; the member list is unchanged otherwise. */
  function Delete(m: Members, k: string): (r: Members)
    ensures forall k' {:trigger Get(r, k')} :: k' != k ==> Get(r, k') == Get(m, k')
    ensures k !in Keys(m) ==> r == m
    ensures forall k' :: k' in Keys(r) ==> k' in Keys(m)
  {
    if m == [] then []
    else if m[0].0 == k then m[1..]
    else [m[0]] + Delete(m[1..], k)
  }

  /** In a dict (distinct keys), `del d[k]` leaves a dict without `k`. */
  lemma {:induction false} DeleteRemovesKey(m: Members, k: string)
    requires DistinctKeys(m)
    ensures DistinctKeys(Delete(m, k)) && Get(Delete(m, k), k) == None
  {
    if m != [] {
      DistinctTail(m);
      if m[0].0 != k {
        DeleteRemovesKey(m[1..], k);
        var t := Delete(m[1..], k);
        DistinctCons(m[0], t);
        assert ([m[0]] + t)[1..] == t;
      }
    }
  }

  /** The members after the first of a dict form a dict without the first key. */
  lemma DistinctTail(m: Members)
    requires m != [] && DistinctKeys(m)
    ensures DistinctKeys(m[1..]) && m[0].0 !in Keys(m[1..])
  {
    var t := m[1..];
    forall i, j | 0 <= i < j < |t| ensures t[i].0 != t[j].0 {
      assert t[i] == m[i + 1] && t[j] == m[j + 1];
    }
    forall i | 0 <= i < |t| ensures Keys(t)[i] != m[0].0 {
      assert t[i] == m[i + 1];
    }
  }

  /** A member in front of a dict that lacks its key gives a dict. */
  lemma DistinctCons(x: (string, Json), t: Members)
    requires DistinctKeys(t) && x.0 !in Keys(t)
    ensures DistinctKeys([x] + t)
  {
    var r := [x] + t;
    forall i, j | 0 <= i < j < |r| ensures r[i].0 != r[j].0 {
      assert r[j] == t[j - 1];
      if i == 0 {
        assert Keys(t)[j - 1] == r[j].0;
      } else {
        assert r[i] == t[i - 1];
      }
    }
  }

  lemma {:induction false} SetKeepsDistinct(m: Members, k: string, v: Json)
    requires DistinctKeys(m)
    ensures DistinctKeys(Set(m, k, v))
  {
    var r := Set(m, k, v);
    forall i, j | 0 <= i < j < |r| ensures r[i].0 != r[j].0 {
      assert Keys(r)[i] == r[i].0 && Keys(r)[j] == r[j].0;
    }
  }

  /** Assigning a key twice leaves what the second assignment alone would. */
  lemma {:induction false} SetTwice(m: Members, k: string, v1: Json, v2: Json)
    ensures Set(Set(m, k, v1), k, v2) == Set(m, k, v2)
  {
    if m != [] && m[0].0 != k {
      SetTwice(m[1..], k, v1, v2);
    }
  }

  /** Assigning a key the value it already holds changes nothing. */
  lemma {:induction false} SetSame(m: Members, k: string)
    requires k in Keys(m)
    ensures Set(m, k, Get(m, k).value) == m
  {
    if m[0].0 != k {
      assert k in Keys(m[1..]);
      SetSame(m[1..], k);
    }
  }

  /** Deleting a key just appended to a dict that lacked it gives the dict back. */
  lemma {:induction false} DeleteAfterAppend(m: Members, k: string, v: Json)
    requires k !in Keys(m)
    ensures Delete(Set(m, k, v), k) == m
  {
    if m != [] {
      assert Keys(m)[0] == m[0].0 && m[0].0 != k;
      assert k !in Keys(m[1..]);
      var rest := Set(m[1..], k, v);
      assert Set(m, k, v) == [m[0]] + rest;
      assert ([m[0]] + rest)[1..] == rest;
      DeleteAfterAppend(m[1..], k, v);
      assert Delete(Set(m, k, v), k) == [m[0]] + m[1..];
    }
  }

  /** Assigning a key the dict lacks appends it. */
  lemma {:induction false} SetAppends(m: Members, k: string, v: Json)
    requires k !in Keys(m)
    ensures Set(m, k, v) == m + [(k, v)]
  {
    if m != [] {
      KeysCons(m);
      SetAppends(m[1..], k, v);
      ConsSnoc(m, (k, v));
    } else {
      assert m + [(k, v)] == [(k, v)];
    }
  }

  /** The keys of a non-empty member list: the first key, then the keys of the rest. */
  lemma KeysCons(m: Members)
    requires m != []
    ensures Keys(m) == [m[0].0] + Keys(m[1..])
    ensures forall k :: k in Keys(m) <==> k == m[0].0 || k in Keys(m[1..])
  {
  }

  lemma ConsSnoc<T>(s: seq<T>, x: T)
    requires s != []
    ensures [s[0]] + (s[1..] + [x]) == s + [x]
  {
    assert s == [s[0]] + s[1..];
  }

  /** In a dict, looking up the key at a position finds the value at that position. */
  lemma {:induction false} GetAt(m: Members, i: int)
    requires DistinctKeys(m) && 0 <= i < |m|
    ensures Get(m, m[i].0) == Some(m[i].1)
  {
    if i > 0 {
      DistinctTail(m);
      assert m[1..][i - 1] == m[i];
      GetAt(m[1..], i - 1);
    }
  }

  /** `list.index(x)`: the position of the first occurrence of an element that is present. */
  function FirstIndex(items: seq<Json>, x: Json): (i: nat)
    requires x in items
    ensures i < |items| && items[i] == x && x !in items[..i]
  {
    if items[0] == x then 0
    else
      var j := FirstIndex(items[1..], x);
      assert items[..1 + j] == [items[0]] + items[1..][..j];
      1 + j
  }

  /** `list.remove(x)` for an element that is present: drops its first occurrence, the rest in order. */
  function RemoveFirst(items: seq<Json>, x: Json): (r: seq<Json>)
    requires x in items
    ensures |r| == |items| - 1
    ensures var i := FirstIndex(items, x); r == items[..i] + items[i + 1..]
  {
    if items[0] == x then items[1..]
    else
      var rest := RemoveFirst(items[1..], x);
      var j := FirstIndex(items[1..], x);
      assert items[..j + 1] == [items[0]] + items[1..][..j];
      assert items[j + 2..] == items[1..][j + 1..];
      [items[0]] + rest
  }

  lemma {:induction false} RemoveFirstAfterAppend(items: seq<Json>, x: Json)
    requires x !in items
    ensures RemoveFirst(items + [x], x) == items
  {
    if items != [] {
      assert (items + [x])[1..] == items[1..] + [x];
      RemoveFirstAfterAppend(items[1..], x);
    }
  }

  /** Python's `key in container` for a string key; None where Python raises TypeError. */
  function PyIn(container: Json, key: string): (r: Option<bool>)
    ensures r.None? <==> !(container.JObject? || container.JArray? || container.JString?)
    ensures container.JObject? ==> r == Some(Get(container.members, key).Some?)
    ensures container.JString? && key == [] ==> r == Some(true)
  {
    match container
    case JObject(m) => Some(key in Keys(m))
    case JArray(items) => Some(JString(key) in items)
    case JString(s) => Some(Occurs(key, s))
    case _ => None
  }
}

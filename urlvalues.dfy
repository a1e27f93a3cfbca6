/**
  Go's `url.Values`: a query string held as a map from each key to the
  list of its values, in the order they were added.
*/
module UrlValues {
  import opened Maps

  type Values = map<string, seq<string>>

  /** The whole list of values of `k`, Go's `q[k]`; a missing key has none
      (Go's nil slice). */
  function ValuesOf(q: Values, k: string): (vs: seq<string>)
    ensures k !in q ==> vs == []
    ensures k in q ==> vs == q[k]
  {
    if k in q then q[k] else []
  }

  /** `url.Values.Add`: `v` goes after the values `k` already has. */
  function Add(q: Values, k: string, v: string): (r: Values)
    ensures r.Keys == q.Keys + {k}
    ensures ValuesOf(r, k) == ValuesOf(q, k) + [v]
    ensures forall j :: j != k ==> ValuesOf(r, j) == ValuesOf(q, j)
  {
    q[k := ValuesOf(q, k) + [v]]
  }

  /** Every entry of `params` added to `q`, one value per key: each key
      keeps the values it had and gains the parameter's value after them;
      other keys are untouched. */
  function AddAll(q: Values, params: map<string, string>): (r: Values)
    ensures r.Keys == q.Keys + params.Keys
    ensures forall k :: k in params ==> ValuesOf(r, k) == ValuesOf(q, k) + [params[k]]
    ensures forall k :: k !in params ==> ValuesOf(r, k) == ValuesOf(q, k)
  {
    map k | k in q.Keys + params.Keys :: ValuesOf(q, k) + (if k in params then [params[k]] else [])
  }

  /** Adding no parameters leaves the query as it was. */
  lemma AddAllNothing(q: Values)
    ensures AddAll(q, map[]) == q
  {
    var r := AddAll(q, map[]);
    assert r.Keys == q.Keys;
    forall k | k in r ensures r[k] == q[k] {
      assert r[k] == ValuesOf(q, k) + [];
    }
  }

  /** Adding one more parameter is one more `Add`. */
  lemma AddAllStep(q: Values, params: map<string, string>, k: string, v: string)
    requires k !in params
    ensures AddAll(q, params[k := v]) == Add(AddAll(q, params), k, v)
  {
    var l := AddAll(q, params[k := v]);
    var r := Add(AddAll(q, params), k, v);
    assert l.Keys == r.Keys;
    forall j | j in l ensures l[j] == r[j] {
      if j == k {
        assert ValuesOf(AddAll(q, params), k) == ValuesOf(q, k);
      }
    }
  }

  /** Adding values under two different keys gives the same query in
      either order. */
  lemma AddCommutes(q: Values, k1: string, v1: string, k2: string, v2: string)
    requires k1 != k2
    ensures Add(Add(q, k1, v1), k2, v2) == Add(Add(q, k2, v2), k1, v1)
  {
  }
}

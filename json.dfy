/**
 * Decoded JSON values, as Python's `json` module produces them.
 * An object keeps its key/value pairs in insertion order, so that the order a
 * dict comprehension preserves is visible. Decoded objects have distinct keys;
 * lookups take the first pair with the key, which is the only one there.
 */
module JsonValues {
  import opened Wrappers

  datatype Json =
    | JNull
    | JBool(b: bool)
    | JNum(n: int)
    | JStr(s: string)
    | JArr(items: seq<Json>)
    | JObj(fields: seq<(string, Json)>)

  type Fields = seq<(string, Json)>

  /** Python truthiness: null, false, 0, "", [] and {} are false. */
  predicate Truthy(j: Json) {
    match j
    case JNull => false
    case JBool(b) => b
    case JNum(n) => n != 0
    case JStr(s) => s != ""
    case JArr(xs) => xs != []
    case JObj(fs) => fs != []
  }

  /** The keys of an object, in insertion order. */
  function Keys(fs: Fields): (ks: seq<string>)
    ensures |ks| == |fs| && forall i :: 0 <= i < |fs| ==> ks[i] == fs[i].0
  {
    if fs == [] then [] else [fs[0].0] + Keys(fs[1..])
  }

  predicate Distinct(ks: seq<string>) {
    forall i, j :: 0 <= i < j < |ks| ==> ks[i] != ks[j]
  }

  /** `d.get(k)` on a dict: the value stored under k, if any. */
  function Get(fs: Fields, k: string): (r: Option<Json>)
    ensures r.Some? <==> k in Keys(fs)
    ensures r.Some? ==> (k, r.value) in fs
  {
    if fs == [] then None
    else if fs[0].0 == k then
      assert Keys(fs)[0] == k;
      Some(fs[0].1)
    else
      assert Keys(fs) == [fs[0].0] + Keys(fs[1..]);
      Get(fs[1..], k)
  }

  /** With distinct keys, the pair holding k is the one Get finds. */
  lemma {:induction false} GetDistinct(fs: Fields, i: nat)
    requires Distinct(Keys(fs)) && i < |fs|
    ensures Get(fs, fs[i].0) == Some(fs[i].1)
  {
    if i > 0 {
      assert Keys(fs[1..]) == Keys(fs)[1..];
      assert fs[0].0 != fs[i].0 by { assert Keys(fs)[0] != Keys(fs)[i]; }
      GetDistinct(fs[1..], i - 1);
    }
  }

  /** `j[k]` where j is a dict that holds k; None where Python raises. */
  function Field(j: Json, k: string): Option<Json> {
    if j.JObj? then Get(j.fields, k) else None
  }

  /** `j[k1][k2]...[kn]`: None as soon as a step meets a non-dict or a missing key. */
  function Follow(j: Json, keys: seq<string>): (r: Option<Json>)
    ensures keys == [] ==> r == Some(j)
    ensures keys != [] && !j.JObj? ==> r.None?
    ensures |keys| == 1 ==> r == Field(j, keys[0])
    decreases |keys|
  {
    if keys == [] then Some(j)
    else
      match Field(j, keys[0])
      case None => None
      case Some(v) => Follow(v, keys[1..])
  }

  /** Following a path in two legs is following the first leg, then the second from where it ends. */
  lemma {:induction false} FollowAppend(j: Json, a: seq<string>, b: seq<string>)
    ensures Follow(j, a + b) == match Follow(j, a) { case None => None case Some(v) => Follow(v, b) }
    decreases |a|
  {
    if a == [] {
      assert a + b == b;
    } else {
      assert (a + b)[0] == a[0] && (a + b)[1..] == a[1..] + b;
      match Field(j, a[0])
      case None =>
      case Some(v) => FollowAppend(v, a[1..], b);
    }
  }

  /**
   * `{k: v for k, v in d.items() if k in wanted}`: the pairs of an object whose
   * key is whitelisted, in their original order and with their values.
   */
  function FilterKeys(fs: Fields, wanted: seq<string>): (r: Fields)
    ensures forall p :: p in r <==> p in fs && p.0 in wanted
    ensures |r| <= |fs|
  {
    if fs == [] then []
    else (if fs[0].0 in wanted then [fs[0]] else []) + FilterKeys(fs[1..], wanted)
  }

  /** a is obtained from b by deleting elements, without reordering. */
  predicate SubsequenceOf<T(==)>(a: seq<T>, b: seq<T>)
    decreases |b|
  {
    if a == [] then true
    else if b == [] then false
    else if a[0] == b[0] then SubsequenceOf(a[1..], b[1..])
    else SubsequenceOf(a, b[1..])
  }

  /** Filtering keeps the relative order of the pairs it keeps. */
  lemma {:induction false} FilterKeysOrder(fs: Fields, wanted: seq<string>)
    ensures SubsequenceOf(FilterKeys(fs, wanted), fs)
  {
    if fs != [] {
      var rest := FilterKeys(fs[1..], wanted);
      FilterKeysOrder(fs[1..], wanted);
      if fs[0].0 in wanted {
        assert ([fs[0]] + rest)[1..] == rest;
      } else {
        assert FilterKeys(fs, wanted) == rest;
        if rest != [] {
          // every kept pair has a wanted key, so none of them is fs[0]
          assert rest[0] in rest;
          assert rest[0] != fs[0];
        }
      }
    }
  }

  /** The filtered object holds exactly the whitelisted keys of the original, with their values. */
  lemma {:induction false} FilterKeysGet(fs: Fields, wanted: seq<string>, k: string)
    ensures Get(FilterKeys(fs, wanted), k) == if k in wanted then Get(fs, k) else None
  {
    if fs != [] {
      var rest := FilterKeys(fs[1..], wanted);
      FilterKeysGet(fs[1..], wanted, k);
      if fs[0].0 in wanted {
        assert FilterKeys(fs, wanted) == [fs[0]] + rest;
        assert ([fs[0]] + rest)[1..] == rest;
      } else {
        assert FilterKeys(fs, wanted) == rest;
      }
    }
  }

  /** Filtering an object with distinct keys leaves distinct keys. */
  lemma {:induction false} FilterKeysDistinct(fs: Fields, wanted: seq<string>)
    requires Distinct(Keys(fs))
    ensures Distinct(Keys(FilterKeys(fs, wanted)))
  {
    if fs != [] {
      assert Keys(fs[1..]) == Keys(fs)[1..];
      FilterKeysDistinct(fs[1..], wanted);
      var rest := FilterKeys(fs[1..], wanted);
      if fs[0].0 in wanted {
        forall i | 0 <= i < |rest| ensures rest[i].0 != fs[0].0 {
          assert rest[i] in fs[1..];
          var j :| 0 <= j < |fs| - 1 && fs[1..][j] == rest[i];
          assert Keys(fs)[j + 1] == rest[i].0 && Keys(fs)[0] == fs[0].0;
        }
        var ks := Keys([fs[0]] + rest);
        assert ks == [fs[0].0] + Keys(rest);
        forall i, j | 0 <= i < j < |ks| ensures ks[i] != ks[j] {
          if i > 0 {
            assert ks[i] == Keys(rest)[i - 1] && ks[j] == Keys(rest)[j - 1];
          } else {
            assert ks[j] in Keys(rest);
          }
        }
      } else {
        assert FilterKeys(fs, wanted) == rest;
      }
    }
  }

  /**
   * `d[k] = v` on a dict: replaces the value in place when k is present,
   * appends the pair otherwise.
   */
  function Put(fs: Fields, k: string, v: Json): (r: Fields)
    ensures Get(r, k) == Some(v)
    ensures Keys(r) == if k in Keys(fs) then Keys(fs) else Keys(fs) + [k]
  {
    if fs == [] then [(k, v)]
    else if fs[0].0 == k then
      assert ([(k, v)] + fs[1..])[1..] == fs[1..];
      [(k, v)] + fs[1..]
    else
      var rest := Put(fs[1..], k, v);
      assert ([fs[0]] + rest)[1..] == rest;
      assert Keys(fs) == [fs[0].0] + Keys(fs[1..]);
      assert k in Keys(fs) <==> k in Keys(fs[1..]);
      assert k !in Keys(fs) ==> Keys([fs[0]] + rest) == Keys(fs) + [k] by {
        if k !in Keys(fs) {
          SnocAssoc(fs[0].0, Keys(fs[1..]), k);
        }
      }
      [fs[0]] + rest
  }

  /** Proof step for Put: consing then appending is appending then consing. */
  lemma SnocAssoc(x: string, xs: seq<string>, y: string)
    ensures [x] + (xs + [y]) == ([x] + xs) + [y]
  {
  }

  /** `d[k] = v` leaves every other key's value alone. */
  lemma {:induction false} PutOther(fs: Fields, k: string, v: Json, k': string)
    requires k' != k
    ensures Get(Put(fs, k, v), k') == Get(fs, k')
  {
    if fs != [] && fs[0].0 != k {
      PutOther(fs[1..], k, v, k');
    }
  }
}

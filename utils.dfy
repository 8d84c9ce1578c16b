/** Nested dictionary lookup (`_deep_get` in libs/utils.py). */
module Utils {
  import opened Py

  /** What following `keys` from an already-checked dictionary `cur` yields:
      `.get` on every level, the default as soon as a key is missing, and the
      AttributeError that `.get` raises on a level that is not a dictionary. */
  function Follow(cur: Json, keys: seq<string>, default: Json): Result<Json>
    decreases |keys|
  {
    if keys == [] then Ok(cur)
    else if !cur.JDict? then Raised(AttributeError)
    else if keys[0] !in cur.fields then Ok(default)
    else Follow(cur.fields[keys[0]], keys[1..], default)
  }

  /** `_deep_get(dictionary, keys, default)`: a non-dictionary input gives the default. */
  function DeepGet(d: Json, keys: seq<string>, default: Json): Result<Json>
  {
    if !d.JDict? then Ok(default) else Follow(d, keys, default)
  }

  /** The loop of `_deep_get`, which reassigns `result` one key at a time. */
  method DeepGetLoop(d: Json, keys: seq<string>, default: Json) returns (r: Result<Json>)
    ensures r == DeepGet(d, keys, default)
  {
    if !d.JDict? {
      return Ok(default);
    }
    var result := d;
    var i := 0;
    while i < |keys|
      invariant 0 <= i <= |keys|
      invariant Follow(d, keys, default) == Follow(result, keys[i..], default)
    {
      if !result.JDict? {
        return Raised(AttributeError);
      }
      if keys[i] !in result.fields {
        return Ok(default);
      }
      assert keys[i..][1..] == keys[i + 1..];
      result := result.fields[keys[i]];
      i := i + 1;
    }
    return Ok(result);
  }

  /** `vals` is the walk of `keys` from `d` for its first `n` steps: `vals[0]` is
      `d` and each `vals[k + 1]` is the value of key `keys[k]` in the dictionary `vals[k]`. */
  ghost predicate Walk(d: Json, keys: seq<string>, vals: seq<Json>, n: nat)
  {
    && n <= |keys|
    && |vals| == n + 1
    && vals[0] == d
    && forall k :: 0 <= k < n ==> vals[k].JDict? && keys[k] in vals[k].fields && vals[k + 1] == vals[k].fields[keys[k]]
  }

  lemma {:induction false} WalkTail(d: Json, keys: seq<string>, vals: seq<Json>, n: nat)
    requires Walk(d, keys, vals, n) && n > 0
    ensures Walk(vals[1], keys[1..], vals[1..], n - 1)
  {
    forall k | 0 <= k < n - 1
      ensures vals[1..][k].JDict? && keys[1..][k] in vals[1..][k].fields
      ensures vals[1..][k + 1] == vals[1..][k].fields[keys[1..][k]]
    {
      assert vals[1..][k] == vals[k + 1] && vals[1..][k + 1] == vals[k + 2];
    }
  }

  /** With every key present, the result is the value reached by following them in order. */
  lemma {:induction false} DeepGetFollowsPath(d: Json, keys: seq<string>, vals: seq<Json>, default: Json)
    requires d.JDict? && Walk(d, keys, vals, |keys|)
    ensures DeepGet(d, keys, default) == Ok(vals[|keys|])
  {
    FollowAlongWalk(d, keys, vals, default);
  }

  lemma {:induction false} FollowAlongWalk(d: Json, keys: seq<string>, vals: seq<Json>, default: Json)
    requires Walk(d, keys, vals, |keys|)
    ensures Follow(d, keys, default) == Ok(vals[|keys|])
    decreases |keys|
  {
    if keys != [] {
      WalkTail(d, keys, vals, |keys|);
      FollowAlongWalk(vals[1], keys[1..], vals[1..], default);
    }
  }

  /** A key missing at any level gives the default. */
  lemma {:induction false} DeepGetMissingKey(d: Json, keys: seq<string>, vals: seq<Json>, n: nat, default: Json)
    requires d.JDict? && Walk(d, keys, vals, n) && n < |keys|
    requires vals[n].JDict? && keys[n] !in vals[n].fields
    ensures DeepGet(d, keys, default) == Ok(default)
  {
    FollowStops(d, keys, vals, n, default);
  }

  /** A level that is reached but is not a dictionary (None, a list, a string...)
      is not guarded: `.get` on it raises AttributeError. */
  lemma {:induction false} DeepGetNonDictLevel(d: Json, keys: seq<string>, vals: seq<Json>, n: nat, default: Json)
    requires d.JDict? && Walk(d, keys, vals, n) && n < |keys|
    requires !vals[n].JDict?
    ensures DeepGet(d, keys, default) == Raised(AttributeError)
  {
    FollowStops(d, keys, vals, n, default);
  }

  lemma {:induction false} FollowStops(d: Json, keys: seq<string>, vals: seq<Json>, n: nat, default: Json)
    requires Walk(d, keys, vals, n) && n < |keys|
    requires !vals[n].JDict? || keys[n] !in vals[n].fields
    ensures Follow(d, keys, default) == (if vals[n].JDict? then Ok(default) else Raised(AttributeError))
    decreases n
  {
    if n > 0 {
      WalkTail(d, keys, vals, n);
      FollowStops(vals[1], keys[1..], vals[1..], n - 1, default);
    }
  }
}

/**
 * Environment lists of the form `KEY=VALUE` (`envMap` and `newEnviron` in
 * `sh.go`). The inherited process environment is a parameter here.
 */
module Environ {
  import opened Wrappers
  import opened Text

  /**
   * An entry cut at its FIRST `=`: the key never contains `=`, the value may.
   * None when the entry has no `=` at all.
   */
  function SplitKV(kv: string): (r: Option<(string, string)>)
    ensures r.None? <==> '=' !in kv
    ensures r.Some? ==> '=' !in r.value.0 && kv == r.value.0 + "=" + r.value.1
  {
    var i := IndexByte(kv, '=');
    if i == -1 then None
    else
      assert kv == kv[..i] + "=" + kv[i + 1..];
      Some((kv[..i], kv[i + 1..]))
  }

  /** Writing a key without `=` and a value as `k=v` and cutting it again gives them back. */
  lemma SplitKVRoundTrip(k: string, v: string)
    requires '=' !in k
    ensures SplitKV(k + "=" + v) == Some((k, v))
  {
    var kv := k + "=" + v;
    assert kv[..|k|] == k;
    IndexByteAt(kv, '=', |k|);
    assert kv[|k| + 1..] == v;
  }

  /** Does entry `kv` define `key`? */
  predicate Defines(kv: string, key: string) {
    SplitKV(kv).Some? && SplitKV(kv).value.0 == key
  }

  /** The map `envMap` builds: entries in order, each later one overwriting. */
  function EnvOf(entries: seq<string>): map<string, string>
  {
    if entries == [] then map[]
    else
      var m := EnvOf(entries[..|entries| - 1]);
      match SplitKV(entries[|entries| - 1])
      case None => m
      case Some((k, v)) => m[k := v]
  }

  /** `envMap`: fill a map from the entries, skipping those without `=`. */
  method EnvMap(orig: seq<string>) returns (out: map<string, string>)
    ensures out == EnvOf(orig)
  {
    out := map[];
    var i := 0;
    while i < |orig|
      invariant 0 <= i <= |orig|
      invariant out == EnvOf(orig[..i])
    {
      var kv := orig[i];
      assert orig[..i + 1][..i] == orig[..i];
      var idx := IndexByte(kv, '=');
      if idx != -1 {
        var key := kv[..idx];
        var val := kv[idx + 1..];
        out := out[key := val];
      }
      i := i + 1;
    }
    assert orig[..i] == orig;
  }

  /** A key is present exactly when some entry defines it. */
  lemma {:induction false} EnvOfKeys(entries: seq<string>, key: string)
    ensures key in EnvOf(entries) <==> exists i :: 0 <= i < |entries| && Defines(entries[i], key)
  {
    if entries != [] {
      var n := |entries| - 1;
      var init := entries[..n];
      EnvOfKeys(init, key);
      if Defines(entries[n], key) {
        assert key in EnvOf(entries);
      } else {
        assert key in EnvOf(entries) <==> key in EnvOf(init);
        if key in EnvOf(init) {
          var i :| 0 <= i < |init| && Defines(init[i], key);
          assert entries[i] == init[i];
        }
        if exists i :: 0 <= i < |entries| && Defines(entries[i], key) {
          var i :| 0 <= i < |entries| && Defines(entries[i], key);
          assert i < n;
          assert init[i] == entries[i];
        }
      }
    }
  }

  /** The value of a key is the one given by the LAST entry that defines it. */
  lemma {:induction false} EnvOfLastWins(entries: seq<string>, i: nat, key: string, val: string)
    requires i < |entries| && SplitKV(entries[i]) == Some((key, val))
    requires forall j :: i < j < |entries| ==> !Defines(entries[j], key)
    ensures key in EnvOf(entries) && EnvOf(entries)[key] == val
  {
    var n := |entries| - 1;
    if i < n {
      var init := entries[..n];
      assert !Defines(entries[n], key);
      forall j | i < j < |init| ensures !Defines(init[j], key) {
        assert init[j] == entries[j];
      }
      assert init[i] == entries[i];
      EnvOfLastWins(init, i, key, val);
    }
  }

  /** Does a `KEY=VALUE` line set `key`? */
  predicate SetsKey(line: string, key: string) {
    HasPrefix(line, key + "=")
  }

  /** Is an inherited line overridden by one of the session's keys? */
  ghost predicate Overridden(line: string, env: map<string, string>) {
    exists k :: k in env && SetsKey(line, k)
  }

  /** The inherited lines that no session key overrides, in their original order. */
  ghost function Inherited(lines: seq<string>, env: map<string, string>): seq<string>
  {
    if lines == [] then []
    else
      var init := Inherited(lines[..|lines| - 1], env);
      if Overridden(lines[|lines| - 1], env) then init else init + [lines[|lines| - 1]]
  }

  /** An inherited line survives exactly when no session key overrides it. */
  lemma {:induction false} InheritedMembers(lines: seq<string>, env: map<string, string>, x: string)
    ensures x in Inherited(lines, env) <==> x in lines && !Overridden(x, env)
  {
    if lines != [] {
      var n := |lines| - 1;
      InheritedMembers(lines[..n], env, x);
      assert lines == lines[..n] + [lines[n]];
    }
  }

  /** The inner loop of `newEnviron`: does some session key override `line`? */
  method IsOverridden(line: string, env: map<string, string>) returns (overridden: bool)
    ensures overridden <==> Overridden(line, env)
  {
    overridden := false;
    var keys := env.Keys;
    while keys != {} && !overridden
      invariant keys <= env.Keys
      invariant overridden <==> exists k :: k in env.Keys - keys && SetsKey(line, k)
      decreases keys
    {
      var k :| k in keys;
      if HasPrefix(line, k + "=") {
        overridden := true;
      }
      keys := keys - {k};
      assert k in env.Keys - keys;
    }
  }

  /** Is `s` the `k=v` line of some key of `env`? */
  predicate IsLineOf(env: map<string, string>, s: string) {
    exists k :: k in env && s == k + "=" + env[k]
  }

  /**
   * The second loop of `newEnviron`: one `k=v` line per key, in map
   * iteration order. `order` is that order: every key exactly once.
   */
  method KeyValueLines(env: map<string, string>) returns (pairs: seq<string>, ghost order: seq<string>)
    ensures |order| == |pairs| == |env|
    ensures forall i, j :: 0 <= i < j < |order| ==> order[i] != order[j]
    ensures forall k :: k in env <==> k in order
    ensures forall i :: 0 <= i < |order| ==> order[i] in env && pairs[i] == order[i] + "=" + env[order[i]]
    ensures forall k :: k in env ==> k + "=" + env[k] in pairs
    ensures forall j :: 0 <= j < |pairs| ==> IsLineOf(env, pairs[j])
  {
    pairs := [];
    order := [];
    var keys := env.Keys;
    while keys != {}
      invariant keys <= env.Keys
      invariant |pairs| == |order| && |order| + |keys| == |env.Keys|
      invariant forall i :: 0 <= i < |order| ==> order[i] in env && order[i] !in keys && pairs[i] == order[i] + "=" + env[order[i]]
      invariant forall i, j :: 0 <= i < j < |order| ==> order[i] != order[j]
      invariant forall k :: k in env && k !in keys ==> k in order
      decreases keys
    {
      var k :| k in keys;
      pairs := pairs + [k + "=" + env[k]];
      order := order + [k];
      keys := keys - {k};
    }
    assert |env| == |env.Keys|;
    PairsCover(env, order, pairs);
    PairsOnly(env, order, pairs);
  }

  /** Lines built along an order that lists every key hold each key's `k=v` line. */
  lemma PairsCover(env: map<string, string>, order: seq<string>, pairs: seq<string>)
    requires |pairs| == |order|
    requires forall i :: 0 <= i < |order| ==> order[i] in env && pairs[i] == order[i] + "=" + env[order[i]]
    requires forall k :: k in env ==> k in order
    ensures forall k :: k in env ==> k + "=" + env[k] in pairs
  {
    forall k | k in env ensures k + "=" + env[k] in pairs {
      var i :| 0 <= i < |order| && order[i] == k;
      assert pairs[i] == k + "=" + env[k];
    }
  }

  /** Lines built along an order of keys are each some key's `k=v` line. */
  lemma PairsOnly(env: map<string, string>, order: seq<string>, pairs: seq<string>)
    requires |pairs| == |order|
    requires forall i :: 0 <= i < |order| ==> order[i] in env && pairs[i] == order[i] + "=" + env[order[i]]
    ensures forall j :: 0 <= j < |pairs| ==> IsLineOf(env, pairs[j])
  {
    forall j | 0 <= j < |pairs| ensures IsLineOf(env, pairs[j]) {
      var key := order[j];
      assert key in env && pairs[j] == key + "=" + env[key];
    }
  }

  /**
   * `newEnviron`: when `inherit` holds, the inherited lines that no session
   * key overrides, in order; then one `k=v` line per session key, in the
   * unspecified order of map iteration.
   */
  method NewEnviron(env: map<string, string>, inherit: bool, osEnviron: seq<string>)
    returns (environ: seq<string>, ghost order: seq<string>)
    ensures var kept := if inherit then Inherited(osEnviron, env) else [];
      && |environ| == |kept| + |env|
      && environ[..|kept|] == kept
      && (forall k :: k in env ==> k + "=" + env[k] in environ[|kept|..])
      && (forall j :: |kept| <= j < |environ| ==> IsLineOf(env, environ[j]))
      && |order| == |env|
      && (forall i, j :: 0 <= i < j < |order| ==> order[i] != order[j])
      && (forall k :: k in env <==> k in order)
      && (forall i :: 0 <= i < |order| ==> order[i] in env && environ[|kept| + i] == order[i] + "=" + env[order[i]])
  {
    environ := [];
    if inherit {
      var i := 0;
      while i < |osEnviron|
        invariant 0 <= i <= |osEnviron|
        invariant environ == Inherited(osEnviron[..i], env)
      {
        var line := osEnviron[i];
        assert osEnviron[..i + 1][..i] == osEnviron[..i];
        var overridden := IsOverridden(line, env);
        if !overridden {
          environ := environ + [line];
        }
        i := i + 1;
      }
      assert osEnviron[..i] == osEnviron;
    }
    ghost var kept := environ;
    var pairs;
    pairs, order := KeyValueLines(env);
    environ := environ + pairs;
    assert environ[..|kept|] == kept && environ[|kept|..] == pairs;
  }
}

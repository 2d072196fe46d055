/**
 * The shader catalogue and the rule that picks a transition shader from it
 * (`shaders.js` and `getRandomShader` in `gl/gl.js`).
 *
 * A shader is opaque apart from whether it carries its own vertex stage; the
 * catalogue is an object whose keys are enumerated in insertion order.
 * `Math.random()` is the parameter `rand`, a real in [0, 1).
 */
module Shaders {
  import opened Wrappers

  /** A transition shader: only the presence of a vertex stage matters to the driver. */
  datatype ShaderDef = ShaderDef(hasVertex: bool)

  /** The catalogue: `keys` is `Object.keys(shaders)` in order, `defs` the lookup. */
  datatype Table = Table(keys: seq<string>, defs: map<string, ShaderDef>)

  /** No name occurs twice. */
  ghost predicate Distinct(s: seq<string>) {
    forall i, j :: 0 <= i < j < |s| ==> s[i] != s[j]
  }

  /** `r` is `s` with some entries dropped and the rest kept in order. */
  ghost predicate IsSubsequence(r: seq<string>, s: seq<string>) {
    r == [] ||
    (s != [] &&
     ((r[|r| - 1] == s[|s| - 1] && IsSubsequence(r[..|r| - 1], s[..|s| - 1])) ||
      IsSubsequence(r, s[..|s| - 1])))
  }

  ghost predicate WellFormed(t: Table) {
    && (forall k :: k in t.keys <==> k in t.defs)
    && Distinct(t.keys)
  }

  type ShaderTable = t: Table | WellFormed(t) witness Table([], map[])

  /** The `shader` option: a catalogue name (possibly the word `random`) or an array of names. */
  datatype ShaderOption = Name(name: string) | List(names: seq<string>)

  /** The option asks for a random pick: `shader === 'random' || Array.isArray(shader)`. */
  predicate IsRandomPool(o: ShaderOption)
    ensures o.List? ==> IsRandomPool(o)
    ensures !IsRandomPool(o) ==> o.Name? && o.name != "random"
  {
    o.List? || o.name == "random"
  }

  /** `Math.random()` is a value in [0, 1). */
  predicate IsRandom(rand: real) {
    0.0 <= rand < 1.0
  }

  /** `Math.floor(rand * n)`: the index a random draw selects among n keys. */
  function DrawIndex(rand: real, n: nat): (k: int)
    requires IsRandom(rand)
    ensures n > 0 ==> 0 <= k < n
    ensures n == 0 ==> k == 0
  {
    if n == 0 then 0
    else
      var x := rand * n as real;
      assert 0.0 <= x < n as real by { ScaleBelow(rand, n as real); }
      x.Floor
  }

  lemma ScaleBelow(rand: real, m: real)
    requires 0.0 <= rand < 1.0 && m > 0.0
    ensures 0.0 <= rand * m < m
  {
    assert rand * m < 1.0 * m;
  }

  /** The catalogue keys that the list names, in catalogue order (see `FilterKeepsOrder`). */
  function Filter(keys: seq<string>, names: seq<string>): (r: seq<string>)
    ensures forall k :: k in r <==> k in keys && k in names
    ensures |r| <= |keys|
  {
    if keys == [] then []
    else
      var rest := Filter(keys[..|keys| - 1], names);
      var last := keys[|keys| - 1];
      assert keys == keys[..|keys| - 1] + [last];
      if last in names then rest + [last] else rest
  }

  /** The filtered keys keep the catalogue's order and, like the catalogue's keys, hold no name twice. */
  lemma {:induction false} FilterKeepsOrder(keys: seq<string>, names: seq<string>)
    ensures IsSubsequence(Filter(keys, names), keys)
    ensures Distinct(keys) ==> Distinct(Filter(keys, names))
  {
    if keys != [] {
      var init := keys[..|keys| - 1];
      var last := keys[|keys| - 1];
      var rest := Filter(init, names);
      FilterKeepsOrder(init, names);
      if Distinct(keys) {
        DistinctPrefix(keys);
      }
      if last in names {
        var r := rest + [last];
        assert Filter(keys, names) == r;
        assert r[..|r| - 1] == rest;
      } else {
        assert Filter(keys, names) == rest;
      }
    }
  }

  /** Dropping the last name keeps a list free of duplicates, and the dropped name is not among the rest. */
  lemma DistinctPrefix(s: seq<string>)
    requires Distinct(s) && s != []
    ensures Distinct(s[..|s| - 1]) && s[|s| - 1] !in s[..|s| - 1]
  {
    var init := s[..|s| - 1];
    forall i, j | 0 <= i < j < |init|
      ensures init[i] != init[j]
    {
      assert init[i] == s[i] && init[j] == s[j];
    }
  }

  /** `allShaders[Object.keys(allShaders)[keyIndex]]`: undefined when there are no keys. */
  function DrawKey(keys: seq<string>, rand: real): (r: Option<string>)
    requires IsRandom(rand)
    ensures r.Some? <==> keys != []
    ensures r.Some? ==> r.value in keys
  {
    if keys == [] then None else Some(keys[DrawIndex(rand, |keys|)])
  }

  /**
   * The key of the catalogue entry `getRandomShader(option, opts)` returns, or
   * `None` when it returns `undefined`; `index` is `realIndex` in loop mode and
   * `activeIndex` otherwise.
   */
  function PickShader(t: ShaderTable, option: ShaderOption, perSlide: bool, index: nat, rand: real): (r: Option<string>)
    requires IsRandom(rand)
    ensures r.Some? ==> r.value in t.defs
  {
    if option.List? && |option.names| > 0 then
      if perSlide then
        var key := if index < |option.names| then option.names[index] else option.names[0];
        if key in t.defs then Some(key) else None
      else
        DrawKey(Filter(t.keys, option.names), rand)
    else
      DrawKey(t.keys, rand)
  }

  /**
   * The shader the constructor and `replaceShader` pick for an option: a
   * random pick for a random pool, else the named entry; `None` is the
   * `undefined` on which the source then throws.
   */
  function Resolve(t: ShaderTable, option: ShaderOption, perSlide: bool, index: nat, rand: real): (r: Option<ShaderDef>)
    requires IsRandom(rand)
    ensures IsRandomPool(option) ==>
              r == (var k := PickShader(t, option, perSlide, index, rand); if k.Some? then Some(t.defs[k.value]) else None)
    ensures !IsRandomPool(option) ==>
              (r.Some? <==> option.name in t.defs) && (r.Some? ==> r.value == t.defs[option.name])
  {
    if IsRandomPool(option) then
      match PickShader(t, option, perSlide, index, rand)
      case None => None
      case Some(k) => Some(t.defs[k])
    else if option.name in t.defs then Some(t.defs[option.name])
    else None
  }

  /**
   * `getRandomShader`: the per-slide lookup, or a random draw from the keys the
   * `forEach` over the catalogue collects.
   */
  method GetRandomShader(t: ShaderTable, option: ShaderOption, perSlide: bool, index: nat, rand: real)
    returns (r: Option<string>)
    requires IsRandom(rand)
    ensures r == PickShader(t, option, perSlide, index, rand)
  {
    var allKeys := t.keys;
    if option.List? && |option.names| > 0 {
      var arr := option.names;
      if perSlide {
        if index >= |arr| {
          return if arr[0] in t.defs then Some(arr[0]) else None;
        }
        return if arr[index] in t.defs then Some(arr[index]) else None;
      }
      allKeys := [];
      var i := 0;
      while i < |t.keys|
        invariant 0 <= i <= |t.keys|
        invariant allKeys == Filter(t.keys[..i], arr)
      {
        var key := t.keys[i];
        assert t.keys[..i + 1][..i] == t.keys[..i];
        if key in arr {
          allKeys := allKeys + [key];
        }
        i := i + 1;
      }
      assert t.keys[..i] == t.keys;
    }
    var keyIndex := DrawIndex(rand, |allKeys|);
    r := if keyIndex < |allKeys| then Some(allKeys[keyIndex]) else None;
  }

  /** The expression `shader === 'random' || Array.isArray(shader) ? getRandomShader(shader, opts) : shaders[shader]`. */
  method ResolveShader(t: ShaderTable, option: ShaderOption, perSlide: bool, index: nat, rand: real)
    returns (r: Option<ShaderDef>)
    requires IsRandom(rand)
    ensures r == Resolve(t, option, perSlide, index, rand)
  {
    if IsRandomPool(option) {
      var key := GetRandomShader(t, option, perSlide, index, rand);
      r := if key.Some? then Some(t.defs[key.value]) else None;
    } else {
      r := if option.name in t.defs then Some(t.defs[option.name]) else None;
    }
  }

  /** With `shaderPerSlide` and a non-empty list, slide `index` gets the list entry at `index`, or the first entry past the end. */
  lemma PerSlidePick(t: ShaderTable, names: seq<string>, index: nat, rand: real)
    requires IsRandom(rand) && |names| > 0
    ensures var key := if index < |names| then names[index] else names[0];
            PickShader(t, List(names), true, index, rand) == if key in t.defs then Some(key) else None
  {
  }

  /** Without `shaderPerSlide`, a list pick is defined exactly when some listed name is in the catalogue, and lies in both. */
  lemma ListPickIsListedAndKnown(t: ShaderTable, names: seq<string>, index: nat, rand: real)
    requires IsRandom(rand) && |names| > 0
    ensures var r := PickShader(t, List(names), false, index, rand);
            && (r.Some? <==> exists k :: k in names && k in t.defs)
            && (r.Some? ==> r.value in names && r.value in t.defs)
  {
    var r := PickShader(t, List(names), false, index, rand);
    if exists k :: k in names && k in t.defs {
      var k :| k in names && k in t.defs;
      assert k in t.keys;
      assert k in Filter(t.keys, names);
    }
  }

  /** The draw `i / n` selects index `i` among n keys. */
  lemma DrawIndexAt(i: nat, n: nat)
    requires i < n
    ensures IsRandom(i as real / n as real) && DrawIndex(i as real / n as real, n) == i
  {
    var rand := i as real / n as real;
    assert rand * n as real == i as real;
  }

  /** Every key of a non-empty key list is drawn by some value of `Math.random()`. */
  lemma DrawKeyReachable(keys: seq<string>, k: string)
    requires k in keys
    ensures exists rand :: IsRandom(rand) && DrawKey(keys, rand) == Some(k)
  {
    var i :| 0 <= i < |keys| && keys[i] == k;
    DrawIndexAt(i, |keys|);
    assert DrawKey(keys, i as real / |keys| as real) == Some(k);
  }

  /** Every candidate of a random pick is drawn by some value of `Math.random()`. */
  lemma EveryCandidateReachable(t: ShaderTable, option: ShaderOption, index: nat, k: string)
    requires IsRandomPool(option)
    requires if option.List? && |option.names| > 0 then k in option.names && k in t.defs else k in t.defs
    ensures exists rand :: IsRandom(rand) && PickShader(t, option, false, index, rand) == Some(k)
  {
    var keys := if option.List? && |option.names| > 0 then Filter(t.keys, option.names) else t.keys;
    assert k in keys;
    DrawKeyReachable(keys, k);
    var rand :| IsRandom(rand) && DrawKey(keys, rand) == Some(k);
    assert PickShader(t, option, false, index, rand) == Some(k);
  }
}

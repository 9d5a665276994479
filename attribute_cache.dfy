/**
 * The attribute-validity cache of a driver session: a map from cache key to
 * a flag saying whether the driver's copy of that attribute is current.  A
 * cached property's getter `_get_x` and setter `_set_x` both name the entry
 * `x`; a repeated capability adds `_<index>`.  The tag is always given
 * explicitly here.
 */
module AttributeCache {
  import opened Errors
  import Decimal

  predicate StartsWith(s: string, p: string) {
    |p| <= |s| && s[..|p|] == p
  }

  /** `if s[0:len(p)] == p: s = s[len(p):]`: s unchanged, or s without its
      leading p. */
  function DropPrefix(s: string, p: string): (r: string)
    ensures r == s || p + r == s
  {
    if StartsWith(s, p) then s[|p|..] else s
  }

  /** _get_cache_tag (ivi/ivi.py) for an explicit tag: drop a leading `_get`,
      then a leading `_set`, then one leading `_`; looking at the first
      character of an empty remainder raises IndexError. */
  function CacheTag(tag: string): (r: Result<string>)
    ensures r.Err? ==> r.error == IndexError
    ensures r.Ok? ==> |r.value| <= |tag| && r.value == tag[|tag| - |r.value|..]
  {
    var t := DropPrefix(DropPrefix(tag, "_get"), "_set");
    if t == [] then Err(IndexError)
    else if t[0] == '_' then Ok(t[1..])
    else Ok(t)
  }

  /** The tags _get_cache_tag fails on are those that are nothing but the
      prefixes it strips ... */
  lemma CacheTagErrors(tag: string)
    ensures CacheTag(tag).Err? ==> tag in {"", "_get", "_set", "_get_set"}
  {
    if CacheTag(tag).Err? {
      EmptyRemainder(tag);
    }
  }

  /** ... and it fails on each of them. */
  lemma PrefixOnlyTagsFail()
    ensures CacheTag("").Err? && CacheTag("_get").Err?
    ensures CacheTag("_set").Err? && CacheTag("_get_set").Err?
  {
    assert DropPrefix("_get", "_get") == [];
    SetFails();
    GetSetFails();
  }

  lemma GetSetFails()
    ensures CacheTag("_get_set").Err?
  {
    var tag := "_get_set";
    assert tag[..4] == "_get";
    assert DropPrefix(tag, "_get") == "_set";
    assert DropPrefix("_set", "_set") == [];
  }

  lemma SetFails()
    ensures CacheTag("_set").Err?
  {
    var tag := "_set";
    assert tag[1] != "_get"[1];
    assert !StartsWith(tag, "_get");
    assert StartsWith(tag, "_set");
  }

  lemma EmptyRemainder(tag: string)
    requires DropPrefix(DropPrefix(tag, "_get"), "_set") == []
    ensures tag in {"", "_get", "_set", "_get_set"}
  {
    var a := DropPrefix(tag, "_get");
    if StartsWith(a, "_set") {
      assert |a| == 4 && a == a[..4] == "_set";
    } else {
      assert a == [];
    }
    if StartsWith(tag, "_get") {
      assert tag == tag[..4] + tag[4..] == "_get" + a;
      assert tag == "_get" || tag == "_get_set";
    } else {
      assert tag == a;
    }
  }

  /** A setter `_set_<n>` names entry n, whatever n is. */
  lemma SetterTag(n: string)
    ensures CacheTag("_set_" + n) == Ok(n)
  {
    var t := "_set_" + n;
    assert t[1] == 's';
    assert "_get"[1] == 'g';
    assert !StartsWith(t, "_get");
    assert t[..4] == "_set";
    assert t[4..] == "_" + n;
  }

  /** A getter `_get_<n>` names entry n exactly when n does not begin with
      `set`: otherwise the `_set` strip also applies and eats three more
      characters of the name. */
  lemma GetterTag(n: string)
    ensures CacheTag("_get_" + n) == Ok(n) <==> !StartsWith(n, "set")
  {
    var t := "_get_" + n;
    assert t[..4] == "_get";
    var u := t[4..];
    assert u == "_" + n;
    if StartsWith(n, "set") {
      assert u[..4] == "_set";
      var r := CacheTag(t);
      assert r.Ok? ==> |r.value| < |n|;
    } else if |u| >= 4 {
      assert u[1..4] == n[..3];
      assert u[..4] != "_set";
    }
  }

  /** A getter for a name `set<m>` gives the entry `_get_cache_tag` gives
      for m, which drops at most one more `_`. */
  lemma GetterSuffix(m: string)
    requires |m| > 0 && m[0] != '_'
    ensures CacheTag("_get_set" + m) == Ok(m)
  {
    var t := "_get_set" + m;
    assert t[..4] == "_get";
    var u := t[4..];
    assert u == "_set" + m;
    assert u[..4] == "_set";
    assert u[4..] == m;
  }

  /** The accessor pair of an attribute whose name begins with `set`
      (say `settling_time`, m being `tling_time`) lands on two different
      cache entries. */
  lemma SetAttributeEntriesDiffer(m: string)
    requires |m| > 0 && m[0] != '_'
    ensures CacheTag("_get_set" + m) == Ok(m)
    ensures CacheTag("_set_set" + m) == Ok("set" + m)
    ensures m != "set" + m
  {
    GetterSuffix(m);
    SetterTag("set" + m);
    assert "_set_" + ("set" + m) == "_set_set" + m;
  }

  /** The tag with `_get` and `_set` as alternatives (only one of them is
      dropped), so that both accessors of every attribute share an entry. */
  function CacheTagFixed(tag: string): (r: Result<string>)
    ensures r.Err? ==> r.error == IndexError && |tag| <= 4
    ensures r.Ok? ==> |r.value| <= |tag| && r.value == tag[|tag| - |r.value|..]
  {
    var t := if StartsWith(tag, "_get") then tag[4..] else DropPrefix(tag, "_set");
    if t == [] then Err(IndexError)
    else if t[0] == '_' then Ok(t[1..])
    else Ok(t)
  }

  /** Both accessors of any attribute n name entry n. */
  lemma FixedAccessorTags(n: string)
    ensures CacheTagFixed("_get_" + n) == Ok(n)
    ensures CacheTagFixed("_set_" + n) == Ok(n)
  {
    var g, s := "_get_" + n, "_set_" + n;
    assert g[..4] == "_get" && g[4..] == "_" + n;
    assert s[..4] != "_get" && s[..4] == "_set" && s[4..] == "_" + n;
  }

  /** The fix changes nothing unless the tag begins with `_get_set`
      (`_get` followed by `_set`). */
  lemma FixedAgrees(tag: string)
    requires !(StartsWith(tag, "_get") && StartsWith(tag[4..], "_set"))
    ensures CacheTagFixed(tag) == CacheTag(tag)
  {
    if StartsWith(tag, "_get") {
      var a := tag[4..];
      assert DropPrefix(tag, "_get") == a;
      assert DropPrefix(a, "_set") == a;
    } else {
      assert DropPrefix(tag, "_get") == tag;
    }
  }

  /** The key _get_cache_valid and _set_cache_valid use: `tag + '_%d' % index`
      for a non-negative index, the bare tag otherwise. */
  function CacheKey(tag: string, index: int): (k: string)
    ensures index < 0 ==> k == tag
    ensures index >= 0 ==> |k| > |tag| + 1 && k[..|tag| + 1] == tag + "_"
  {
    if index >= 0 then tag + "_" + Decimal.Digits(index) else tag
  }

  /** Distinct indices of one tag give distinct keys, and none of them is the
      bare tag. */
  lemma CacheKeyInjective(tag: string, i: int, j: int)
    requires i >= -1 && j >= -1 && i != j
    ensures CacheKey(tag, i) != CacheKey(tag, j)
  {
    if i >= 0 && j >= 0 && CacheKey(tag, i) == CacheKey(tag, j) {
      var p := tag + "_";
      assert CacheKey(tag, i)[|p|..] == Decimal.Digits(i);
      assert CacheKey(tag, j)[|p|..] == Decimal.Digits(j);
      Decimal.DigitsInjective(i, j);
    }
  }

  /** `_get_cache_valid(tag, index, skip_disable)`: the answer and the map
      afterwards.  With the cache switched off (and not skipped) the answer
      is false; a key never seen is entered as invalid. */
  function Lookup(m: map<string, bool>, cacheOn: bool, tag: string, index: int, skipDisable: bool)
    : (r: (Result<bool>, map<string, bool>))
    ensures !skipDisable && !cacheOn ==> r == (Ok(false), m)
    ensures r.0.Err? ==> r.0.error == IndexError && r.1 == m
    ensures forall k :: k in m ==> k in r.1 && r.1[k] == m[k]
    ensures r.0 == Ok(true) ==> r.1 == m && true in m.Values
  {
    if !skipDisable && !cacheOn then (Ok(false), m)
    else
      match CacheTag(tag)
      case Err(e) => (Err(e), m)
      case Ok(t) =>
        var key := CacheKey(t, index);
        if key in m then (Ok(m[key]), m) else (Ok(false), m[key := false])
  }

  /** `_set_cache_valid(valid, tag, index)`: the map afterwards. */
  function Store(m: map<string, bool>, valid: bool, tag: string, index: int)
    : (r: Result<map<string, bool>>)
    ensures r.Err? ==> r.error == IndexError
    ensures r.Ok? ==> m.Keys <= r.value.Keys && |r.value.Keys - m.Keys| <= 1
  {
    match CacheTag(tag)
    case Err(e) => Err(e)
    case Ok(t) => Ok(m[CacheKey(t, index) := valid])
  }

  /** A key absent from the map reads as invalid and is entered as such. */
  lemma LookupAbsent(m: map<string, bool>, cacheOn: bool, tag: string, index: int, skipDisable: bool)
    requires skipDisable || cacheOn
    requires CacheTag(tag).Ok? && CacheKey(CacheTag(tag).value, index) !in m
    ensures var key := CacheKey(CacheTag(tag).value, index);
      Lookup(m, cacheOn, tag, index, skipDisable) == (Ok(false), m[key := false])
  {
  }

  /** After `_set_cache_valid(v, t, i)`, `_get_cache_valid(t, i)` answers v
      (with the cache on) and changes nothing. */
  lemma LookupAfterStore(m: map<string, bool>, valid: bool, tag: string, index: int, skipDisable: bool)
    requires Store(m, valid, tag, index).Ok?
    ensures var m' := Store(m, valid, tag, index).value;
      Lookup(m', true, tag, index, skipDisable) == (Ok(valid), m')
  {
  }

  /** Storing under one key leaves what every other key reads unchanged. */
  lemma StoreFrame(m: map<string, bool>, valid: bool, tag: string, index: int,
                   tag': string, index': int, skipDisable: bool)
    requires Store(m, valid, tag, index).Ok? && CacheTag(tag').Ok?
    requires CacheKey(CacheTag(tag).value, index) != CacheKey(CacheTag(tag').value, index')
    ensures Lookup(Store(m, valid, tag, index).value, true, tag', index', skipDisable).0
         == Lookup(m, true, tag', index', skipDisable).0
  {
  }

  /** Both accessors of an attribute whose name does not begin with `set`,
      on any one index, share the entry: what the setter stores, the getter
      reads. */
  lemma AccessorsShareEntry(m: map<string, bool>, valid: bool, n: string, index: int, skipDisable: bool)
    requires !StartsWith(n, "set")
    ensures Store(m, valid, "_set_" + n, index).Ok?
    ensures var m' := Store(m, valid, "_set_" + n, index).value;
      Lookup(m', true, "_get_" + n, index, skipDisable) == (Ok(valid), m')
  {
    GetterTag(n);
    SetterTag(n);
  }

  /** For an attribute `set<m>` the getter misses what the setter stored:
      after `_set_cache_valid` from the setter, the getter still finds its
      own entry absent and reads invalid. */
  lemma SetterMissedByGetter(m: map<string, bool>, x: string, index: int, skipDisable: bool)
    requires |x| > 0 && x[0] != '_'
    requires CacheKey(x, index) !in m
    ensures Store(m, true, "_set_set" + x, index).Ok?
    ensures Lookup(Store(m, true, "_set_set" + x, index).value, true, "_get_set" + x, index, skipDisable).0 == Ok(false)
  {
    SetAttributeEntriesDiffer(x);
    assert |CacheKey("set" + x, index)| != |CacheKey(x, index)|;
  }
}

/** `AppConf`: the environment name and one configuration snapshot per scope
    key, read back with dotted keys compared case- and separator-insensitively. */
module AppConf {
  import opened PhpCore
  import opened PhpStrings
  import opened SwooleRuntime
  import opened Swoole

  /** The scope key of `setData` and `getData`: `'worker' . getWorkerId()`
      with a server set outside a task worker, `'noworker'` otherwise. Unlike
      `buildGlobalVarKey` it does not test the id, so a server without a
      worker id gives "worker-1". */
  function ScopeKey(server: Server?, conv: Conversions): (key: string)
    ensures key == "noworker" <==> server == null || InTaskWorker(server, conv)
    ensures StartsWith(key, "worker") <==> server != null && !InTaskWorker(server, conv)
    ensures server != null && !InTaskWorker(server, conv) ==>
      key == "worker" + IntToDecimal(GetWorkerId(server, conv))
  {
    if server != null && !InTaskWorker(server, conv) then
      var key := "worker" + IntToDecimal(GetWorkerId(server, conv));
      assert key[..6] == "worker" && key[0] != 'n';
      key
    else
      assert "noworker"[0] != 'w';
      "noworker"
  }

  /** Outside a task worker and with a worker id, the scope key is the global
      variable key; without a server both are "noworker". */
  lemma ScopeKeyAgreesWithGlobalVarKey(server: Server?, conv: Conversions)
    ensures server != null && !InTaskWorker(server, conv) && GetWorkerId(server, conv) >= 0 ==>
      ScopeKey(server, conv) == BuildGlobalVarKey(None, server, conv)
    ensures server == null ==> ScopeKey(server, conv) == BuildGlobalVarKey(None, server, conv) == "noworker"
  {
  }

  /** A server whose worker id is negative (no `worker_id` property, or one
      whose cast is negative): the snapshot scope is "worker-1" while the
      global variable key is "noworker". */
  lemma ScopeKeyDiffersFromGlobalVarKey(server: Server, conv: Conversions)
    requires GetWorkerId(server, conv) < 0
    ensures ScopeKey(server, conv) == "worker-1"
    ensures BuildGlobalVarKey(None, server, conv) == "noworker"
  {
    assert IntToDecimal(-1) == "-1";
  }

  /** A key of the snapshot matches the normalised lookup key `nk`: it is a
      non-empty string key whose normal form is `nk`. */
  predicate KeyMatches(k: Key, nk: string) {
    k.StrKey? && k.s != "" && NormalizeKey(k.s) == nk
  }

  /** Index of the first entry of `d` at or after `from` whose key matches
      `nk`. */
  function FirstMatchFrom(d: PhpArray, nk: string, from: nat): (r: Option<nat>)
    ensures r.None? <==> forall j :: from <= j < |d| ==> !KeyMatches(d[j].0, nk)
    ensures r.Some? ==> (from <= r.value < |d| && KeyMatches(d[r.value].0, nk) &&
                         forall j :: from <= j < r.value ==> !KeyMatches(d[j].0, nk))
    decreases |d| - from
  {
    if from >= |d| then None
    else if KeyMatches(d[from].0, nk) then Some(from)
    else FirstMatchFrom(d, nk, from + 1)
  }

  function FirstMatch(d: PhpArray, nk: string): Option<nat> {
    FirstMatchFrom(d, nk, 0)
  }

  /** The search loop of `getValueInternal`, with its early return. */
  method FindEntry(d: PhpArray, nk: string) returns (r: Option<nat>)
    ensures r == FirstMatch(d, nk)
  {
    var i := 0;
    while i < |d|
      invariant 0 <= i <= |d|
      invariant forall j :: 0 <= j < i ==> !KeyMatches(d[j].0, nk)
    {
      var k := d[i].0;
      if !k.StrKey? || k.s == "" {
        assert !KeyMatches(d[i].0, nk);
        i := i + 1;
        continue;
      }
      if NormalizeKey(k.s) == nk {
        FirstMatchAt(d, nk, i);
        return Some(i);
      }
      assert !KeyMatches(d[i].0, nk);
      i := i + 1;
    }
    FirstMatchNone(d, nk);
    return None;
  }

  lemma FirstMatchNone(d: PhpArray, nk: string)
    requires forall j :: 0 <= j < |d| ==> !KeyMatches(d[j].0, nk)
    ensures FirstMatch(d, nk).None?
  {
  }

  lemma FirstMatchAt(d: PhpArray, nk: string, i: nat)
    requires i < |d| && KeyMatches(d[i].0, nk)
    requires forall j :: 0 <= j < i ==> !KeyMatches(d[j].0, nk)
    ensures FirstMatch(d, nk) == Some(i)
  {
  }

  /** The map `getValueInternal` searches: the one passed in, or the root
      snapshot when that is null or empty. */
  function SearchedMap(from: Option<PhpArray>, root: PhpArray): PhpArray {
    if from.None? || from.value == [] then root else from.value
  }

  /** `getValueInternal($mapKey, $data)` with `root` the current snapshot. */
  function ValueInternal(mapKey: string, from: Option<PhpArray>, root: PhpArray): Value {
    var d := SearchedMap(from, root);
    match FirstMatch(d, NormalizeKey(mapKey))
    case None => Null
    case Some(i) => d[i].1
  }

  /** The value found is that of the first entry, in order, whose key equals
      the lookup key after lower-casing and dropping `-` and `_` on both sides;
      non-string and empty keys never match; no match gives null. */
  lemma ValueInternalIsFirstMatch(mapKey: string, from: Option<PhpArray>, root: PhpArray, i: nat)
    requires var d := SearchedMap(from, root);
      i < |d| && KeyMatches(d[i].0, NormalizeKey(mapKey)) &&
      forall j :: 0 <= j < i ==> !KeyMatches(d[j].0, NormalizeKey(mapKey))
    ensures ValueInternal(mapKey, from, root) == SearchedMap(from, root)[i].1
  {
    FirstMatchAt(SearchedMap(from, root), NormalizeKey(mapKey), i);
  }

  lemma ValueInternalNoMatch(mapKey: string, from: Option<PhpArray>, root: PhpArray)
    requires forall j :: 0 <= j < |SearchedMap(from, root)| ==>
      !KeyMatches(SearchedMap(from, root)[j].0, NormalizeKey(mapKey))
    ensures ValueInternal(mapKey, from, root) == Null
  {
  }

  /** A null or empty map is never searched: the lookup goes to the root. */
  lemma EmptyMapFallsBackToRoot(mapKey: string, root: PhpArray)
    ensures ValueInternal(mapKey, Some([]), root) == ValueInternal(mapKey, None, root)
    ensures root == [] ==> ValueInternal(mapKey, Some([]), root) == Null
  {
  }

  /** The result of `get`: a value, or the `TypeError` PHP raises when a
      non-array is passed for the `?array $data` parameter. */
  datatype Outcome = Found(value: Value) | TypeError

  /** The walk of `get` over the leading segments once `$map1` holds `map1`:
      stop at a value that is not a non-empty array, else descend. */
  function WalkRest(keys: seq<string>, map1: Value, root: PhpArray): Value {
    if keys == [] || !IsNonEmptyArray(map1) then map1
    else WalkRest(keys[1..], ValueInternal(keys[0], Some(map1.entries), root), root)
  }

  /** The walk descends into a non-empty array by the next segment. */
  lemma WalkRestStep(keys: seq<string>, i: nat, map1: Value, root: PhpArray)
    requires i < |keys| && IsNonEmptyArray(map1)
    ensures WalkRest(keys[i..], map1, root) ==
      WalkRest(keys[i + 1..], ValueInternal(keys[i], Some(map1.entries), root), root)
  {
    assert keys[i..][0] == keys[i] && keys[i..][1..] == keys[i + 1..];
  }

  /** The walk stops at any value that is not a non-empty array. */
  lemma WalkRestStops(keys: seq<string>, map1: Value, root: PhpArray)
    requires !IsNonEmptyArray(map1)
    ensures WalkRest(keys, map1, root) == map1
  {
  }

  /** The walk from its first segment, which is looked up in the root. */
  function Walk(keys: seq<string>, root: PhpArray): Value
    requires keys != []
  {
    WalkRest(keys[1..], ValueInternal(keys[0], None, root), root)
  }

  /** The final `getValueInternal($lastKey, $map1)`. */
  function Finish(map1: Value, lastKey: string, root: PhpArray): Outcome {
    match map1
    case Arr(es) => Found(ValueInternal(lastKey, Some(es), root))
    case Null => Found(ValueInternal(lastKey, None, root))
    case _ => TypeError
  }

  /** `AppConf::get($key)` against the snapshot `root`. */
  function GetSpec(root: PhpArray, key: string): Outcome {
    if '.' !in key then Found(ValueInternal(key, None, root))
    else
      var keys := Split(SubstringBeforeLast(key, '.'), '.');
      Finish(Walk(keys, root), SubstringAfterLast(key, '.'), root)
  }

  /** `get` in terms of all the segments of the key. */
  function GetSegments(root: PhpArray, segs: seq<string>): Outcome
    requires segs != []
  {
    if |segs| == 1 then Found(ValueInternal(segs[0], None, root))
    else Finish(Walk(segs[..|segs| - 1], root), segs[|segs| - 1], root)
  }

  /** The normal forms of a list of segments. */
  function NormalizeAll(segs: seq<string>): (r: seq<string>)
    ensures |r| == |segs|
    ensures forall i :: 0 <= i < |segs| ==> r[i] == NormalizeKey(segs[i])
  {
    if segs == [] then [] else [NormalizeKey(segs[0])] + NormalizeAll(segs[1..])
  }

  // ----- the `_ENV_` constant -----

  /** PHP's `define('_ENV_', $v)` on the constant's current value (`None`
      while undefined): it defines an undefined constant and succeeds; an
      existing constant keeps its value and the call fails. */
  function Define(constant: Option<string>, v: string): (r: (Option<string>, bool))
    ensures r.1 <==> constant.None?
    ensures r.0.Some? && (constant.Some? ==> r.0 == constant)
  {
    if constant.None? then (Some(v), true) else (constant, false)
  }

  /** `defined('_ENV_') && define('_ENV_', $env)` as written: `define` runs
      only when the constant already exists, so it never takes effect. */
  function DefineEnvAsWritten(constant: Option<string>, e: string): (r: Option<string>)
    ensures r == constant
  {
    if constant.Some? then Define(constant, e).0 else constant
  }

  /** The evidently intended guard, `defined('_ENV_') || define('_ENV_', $env)`:
      the first `setEnv` defines the constant, later ones keep it. */
  function DefineEnvOnce(constant: Option<string>, e: string): (r: Option<string>)
    ensures r.Some?
    ensures constant.Some? ==> r == constant
    ensures constant.None? ==> r == Some(e)
  {
    if constant.Some? then constant else Define(constant, e).0
  }

  /** As written, `setEnv("prod")` leaves `_ENV_` undefined; with the guard
      corrected it defines `_ENV_` as "prod". */
  lemma EnvNeverDefinedAsWritten()
    ensures DefineEnvAsWritten(None, "prod") == None
    ensures DefineEnvOnce(None, "prod") == Some("prod")
  {
  }

  /** With the corrected guard the first environment set wins. */
  lemma {:induction false} FirstEnvWins(constant: Option<string>, envs: seq<string>)
    requires envs != []
    ensures DefineAll(constant, envs) == DefineEnvOnce(constant, envs[0])
    decreases |envs|
  {
    if |envs| > 1 {
      FirstEnvWins(DefineEnvOnce(constant, envs[0]), envs[1..]);
    }
  }

  /** The constant after a sequence of `setEnv` calls. */
  function DefineAll(constant: Option<string>, envs: seq<string>): Option<string>
    decreases |envs|
  {
    if envs == [] then constant else DefineAll(DefineEnvOnce(constant, envs[0]), envs[1..])
  }

  /** The configuration store; `envConstant` is the process-wide `_ENV_`
      constant, `None` while it is undefined. */
  class AppConf {
    var env: string
    var envConstant: Option<string>
    var data: map<string, PhpArray>

    constructor ()
      ensures env == "dev" && envConstant.None? && data == map[]
    {
      env := "dev";
      envConstant := None;
      data := map[];
    }

    /** `setEnv($env)`, with the `_ENV_` guard corrected. */
    method SetEnv(e: string)
      modifies this`env, this`envConstant
      ensures env == e
      ensures envConstant == DefineEnvOnce(old(envConstant), e)
    {
      envConstant := DefineEnvOnce(envConstant, e);
      env := e;
    }

    /** `getEnv()`. */
    function GetEnv(): string
      reads this
    {
      env
    }

    /** `getData()`: the current scope's snapshot, `[]` when it has none. */
    function Snapshot(server: Server?, conv: Conversions): (r: PhpArray)
      reads this
    {
      var key := ScopeKey(server, conv);
      if key in data then data[key] else []
    }

    /** `setData($data)`: replaces the current scope's snapshot and no other. */
    method SetData(d: PhpArray, server: Server?, conv: Conversions)
      modifies this`data
      ensures data == old(data)[ScopeKey(server, conv) := d]
      ensures Snapshot(server, conv) == d
      ensures forall k :: k in old(data) && k != ScopeKey(server, conv) ==> k in data && data[k] == old(data)[k]
    {
      data := data[ScopeKey(server, conv) := d];
    }

    /** `getValueInternal($mapKey, $data)`. */
    method GetValueInternal(mapKey: string, from: Option<PhpArray>, server: Server?, conv: Conversions)
      returns (v: Value)
      ensures v == ValueInternal(mapKey, from, Snapshot(server, conv))
    {
      ghost var root := Snapshot(server, conv);
      var d := if from.None? || from.value == [] then Snapshot(server, conv) else from.value;
      assert d == SearchedMap(from, root);
      if d == [] {
        return Null;
      }
      var i := FindEntry(d, NormalizeKey(mapKey));
      if i.None? {
        return Null;
      }
      return d[i.value].1;
    }

    /** `get($key)`. */
    method Get(key: string, server: Server?, conv: Conversions) returns (r: Outcome)
      ensures r == GetSpec(Snapshot(server, conv), key)
    {
      if '.' !in key {
        var v := GetValueInternal(key, None, server, conv);
        return Found(v);
      }
      var lastKey := SubstringAfterLast(key, '.');
      var keys := Split(SubstringBeforeLast(key, '.'), '.');
      var map1 := WalkSegments(keys, server, conv);
      r := FinishLookup(map1, lastKey, server, conv);
    }

    /** The `foreach` of `get` over the leading segments, reassigning `$map1`
        and leaving the loop at a value that is not a non-empty array. */
    method WalkSegments(keys: seq<string>, server: Server?, conv: Conversions) returns (map1: Value)
      requires keys != []
      ensures map1 == Walk(keys, Snapshot(server, conv))
    {
      ghost var root := Snapshot(server, conv);
      map1 := GetValueInternal(keys[0], None, server, conv);
      var i := 1;
      while i < |keys|
        invariant 1 <= i <= |keys|
        invariant WalkRest(keys[i..], map1, root) == Walk(keys, root)
      {
        if !IsNonEmptyArray(map1) {
          WalkRestStops(keys[i..], map1, root);
          break;
        }
        WalkRestStep(keys, i, map1, root);
        map1 := GetValueInternal(keys[i], Some(map1.entries), server, conv);
        i := i + 1;
      }
    }

    /** The last lookup of `get`: in the array reached, in the root for null,
        and a `TypeError` for any other value. */
    method FinishLookup(map1: Value, lastKey: string, server: Server?, conv: Conversions) returns (r: Outcome)
      ensures r == Finish(map1, lastKey, Snapshot(server, conv))
    {
      match map1
      case Arr(es) =>
        var v := GetValueInternal(lastKey, Some(es), server, conv);
        r := Found(v);
      case Null =>
        var v := GetValueInternal(lastKey, None, server, conv);
        r := Found(v);
      case _ =>
        r := TypeError;
    }
  }

  // ----- `get` ignores case and separators in the whole key -----

  lemma {:induction false} SplitWithout(s: string, c: char)
    requires c !in s
    ensures Split(s, c) == [s]
    decreases |s|
  {
    if s != [] {
      SplitWithout(s[1..], c);
      assert [s[0]] + s[1..] == s;
    }
  }

  /** Splitting at a separator splits the two sides independently. */
  lemma {:induction false} SplitAround(s: string, c: char, t: string)
    ensures Split(s + [c] + t, c) == Split(s, c) + Split(t, c)
    decreases |s|
  {
    if s == [] {
      assert s + [c] + t == [c] + t;
      assert ([c] + t)[1..] == t;
    } else {
      var u := s + [c] + t;
      assert u[0] == s[0];
      assert u[1..] == s[1..] + [c] + t;
      SplitAround(s[1..], c, t);
    }
  }

  /** `get` on the segments of the key: the leading ones are walked, the last
      one is looked up in what the walk reached. */
  lemma GetSpecBySegments(root: PhpArray, key: string)
    ensures GetSpec(root, key) == GetSegments(root, Split(key, '.'))
  {
    if '.' !in key {
      SplitWithout(key, '.');
    } else {
      var i := LastIndexOf(key, '.').value;
      var before, after := key[..i], key[i + 1..];
      assert key == before + ['.'] + after;
      SplitAround(before, '.', after);
      SplitWithout(after, '.');
      var keys := Split(before, '.');
      var segs := Split(key, '.');
      assert segs == keys + [after];
      assert segs[..|segs| - 1] == keys;
    }
  }

  lemma NormalizeCons(x: char, r: string)
    ensures NormalizeKey([x] + r) ==
      (if x == '-' || x == '_' then NormalizeKey(r) else [ToLower(x)] + NormalizeKey(r))
  {
    var s := [x] + r;
    assert s[0] == x && s[1..] == r;
    if !(x == '-' || x == '_') {
      var t := [x] + StripSeparators(r);
      assert t[0] == x && t[1..] == StripSeparators(r);
    }
  }

  lemma SplitCons(y: char, t: string, c: char)
    ensures Split([y] + t, c) ==
      (if y == c then [""] + Split(t, c) else [[y] + Split(t, c)[0]] + Split(t, c)[1..])
  {
    var s := [y] + t;
    assert s[0] == y && s[1..] == t;
  }

  /** Normalising a key and splitting it at `.` gives the normal forms of
      its segments. */
  lemma {:induction false} NormalizeSplit(s: string)
    ensures Split(NormalizeKey(s), '.') == NormalizeAll(Split(s, '.'))
    decreases |s|
  {
    if s == [] {
      assert NormalizeKey(s) == "";
    } else {
      var x, r := s[0], s[1..];
      assert s == [x] + r;
      NormalizeSplit(r);
      NormalizeCons(x, r);
      SplitCons(x, r, '.');
      var R := Split(r, '.');
      if x == '.' {
        SplitCons(ToLower(x), NormalizeKey(r), '.');
      } else if x == '-' || x == '_' {
        NormalizeCons(x, R[0]);
        assert NormalizeAll(Split(s, '.')) == [NormalizeKey(R[0])] + NormalizeAll(R[1..]);
      } else {
        SplitCons(ToLower(x), NormalizeKey(r), '.');
        NormalizeCons(x, R[0]);
        assert NormalizeAll(Split(s, '.')) == [[ToLower(x)] + NormalizeKey(R[0])] + NormalizeAll(R[1..]);
      }
    }
  }

  predicate SameNormalized(s1: seq<string>, s2: seq<string>) {
    |s1| == |s2| && forall i :: 0 <= i < |s1| ==> NormalizeKey(s1[i]) == NormalizeKey(s2[i])
  }

  lemma {:induction false} WalkRestNormalized(k1: seq<string>, k2: seq<string>, map1: Value, root: PhpArray)
    requires SameNormalized(k1, k2)
    ensures WalkRest(k1, map1, root) == WalkRest(k2, map1, root)
    decreases |k1|
  {
    if k1 != [] && IsNonEmptyArray(map1) {
      assert NormalizeKey(k1[0]) == NormalizeKey(k2[0]);
      var next := ValueInternal(k1[0], Some(map1.entries), root);
      assert next == ValueInternal(k2[0], Some(map1.entries), root);
      assert SameNormalized(k1[1..], k2[1..]) by {
        forall i | 0 <= i < |k1| - 1
          ensures NormalizeKey(k1[1..][i]) == NormalizeKey(k2[1..][i])
        {
          assert k1[1..][i] == k1[i + 1] && k2[1..][i] == k2[i + 1];
        }
      }
      WalkRestNormalized(k1[1..], k2[1..], next, root);
    }
  }

  lemma GetSegmentsNormalized(root: PhpArray, s1: seq<string>, s2: seq<string>)
    requires s1 != [] && SameNormalized(s1, s2)
    ensures GetSegments(root, s1) == GetSegments(root, s2)
  {
    var n := |s1|;
    if n == 1 {
      ValueInternalNormalized(s1[0], s2[0], None, root);
    } else {
      var p1, p2 := s1[..n - 1], s2[..n - 1];
      WalkNormalized(root, p1, p2);
      FinishNormalized(Walk(p1, root), s1[n - 1], s2[n - 1], root);
    }
  }

  /** The lookup depends on the key only through its normal form. */
  lemma ValueInternalNormalized(k1: string, k2: string, from: Option<PhpArray>, root: PhpArray)
    requires NormalizeKey(k1) == NormalizeKey(k2)
    ensures ValueInternal(k1, from, root) == ValueInternal(k2, from, root)
  {
  }

  lemma FinishNormalized(map1: Value, k1: string, k2: string, root: PhpArray)
    requires NormalizeKey(k1) == NormalizeKey(k2)
    ensures Finish(map1, k1, root) == Finish(map1, k2, root)
  {
    if map1.Arr? {
      ValueInternalNormalized(k1, k2, Some(map1.entries), root);
    } else if map1.Null? {
      ValueInternalNormalized(k1, k2, None, root);
    }
  }

  lemma WalkNormalized(root: PhpArray, p1: seq<string>, p2: seq<string>)
    requires p1 != [] && SameNormalized(p1, p2)
    ensures Walk(p1, root) == Walk(p2, root)
  {
    assert NormalizeKey(p1[0]) == NormalizeKey(p2[0]);
    ValueInternalNormalized(p1[0], p2[0], None, root);
    assert SameNormalized(p1[1..], p2[1..]) by {
      forall i | 0 <= i < |p1| - 1
        ensures NormalizeKey(p1[1..][i]) == NormalizeKey(p2[1..][i])
      {
        assert p1[1..][i] == p1[i + 1] && p2[1..][i] == p2[i + 1];
      }
    }
    WalkRestNormalized(p1[1..], p2[1..], ValueInternal(p1[0], None, root), root);
  }

  /** Two keys with the same normal form (lower-cased, `-` and `_` removed)
      read the same value: `get("a_b.c")` and `get("A-B.C")` agree. */
  lemma GetIgnoresCaseAndSeparators(root: PhpArray, k1: string, k2: string)
    requires NormalizeKey(k1) == NormalizeKey(k2)
    ensures GetSpec(root, k1) == GetSpec(root, k2)
  {
    GetSpecBySegments(root, k1);
    GetSpecBySegments(root, k2);
    NormalizeSplit(k1);
    NormalizeSplit(k2);
    var s1, s2 := Split(k1, '.'), Split(k2, '.');
    assert NormalizeAll(s1) == NormalizeAll(s2);
    assert SameNormalized(s1, s2) by {
      forall i | 0 <= i < |s1|
        ensures NormalizeKey(s1[i]) == NormalizeKey(s2[i])
      {
        assert NormalizeAll(s1)[i] == NormalizeAll(s2)[i];
      }
    }
    GetSegmentsNormalized(root, s1, s2);
  }

  /** An empty snapshot reads null for every key. */
  lemma EmptySnapshotReadsNull(key: string)
    ensures GetSpec([], key) == Found(Null)
  {
  }

  /** `get("x.c")` where no root key matches `x` reads `c` from the root. */
  lemma {:induction false} MissingPrefixFallsBackToRoot(root: PhpArray, a: string, b: string)
    requires '.' !in a && '.' !in b
    requires FirstMatch(root, NormalizeKey(a)).None?
    ensures GetSpec(root, a + "." + b) == GetSpec(root, b)
  {
    GetSpecBySegments(root, a + "." + b);
    SplitAround(a, '.', b);
    SplitWithout(a, '.');
    SplitWithout(b, '.');
    var segs := Split(a + "." + b, '.');
    assert segs == [a, b];
    assert segs[..1] == [a];
  }

  /** A key with exactly one `.`: the first segment is looked up in the root
      and the second in what that gave. */
  lemma {:induction false} TwoSegments(root: PhpArray, a: string, b: string)
    requires '.' !in a && '.' !in b
    ensures GetSpec(root, a + "." + b) == Finish(ValueInternal(a, None, root), b, root)
  {
    GetSpecBySegments(root, a + "." + b);
    SplitAround(a, '.', b);
    SplitWithout(a, '.');
    SplitWithout(b, '.');
    var segs := Split(a + "." + b, '.');
    assert segs == [a, b];
    assert segs[..1] == [a];
  }

  /** A key with exactly two `.`s. */
  lemma {:induction false} ThreeSegments(root: PhpArray, a: string, b: string, c: string)
    requires '.' !in a && '.' !in b && '.' !in c
    ensures GetSpec(root, a + "." + b + "." + c) ==
      Finish(WalkRest([b], ValueInternal(a, None, root), root), c, root)
  {
    var key := a + "." + b + "." + c;
    GetSpecBySegments(root, key);
    SplitThree(a, b, c);
    var segs := [a, b, c];
    assert segs[..2] == [a, b];
    assert segs[..2][1..] == [b];
  }

  /** The three segments of `a.b.c`. */
  lemma SplitThree(a: string, b: string, c: string)
    requires '.' !in a && '.' !in b && '.' !in c
    ensures Split(a + "." + b + "." + c, '.') == [a, b, c]
  {
    assert a + "." + b + "." + c == (a + "." + b) + ['.'] + c;
    SplitAround(a + "." + b, '.', c);
    SplitTwo(a, b);
    SplitWithout(c, '.');
  }

  /** The two segments of `a.b`. */
  lemma SplitTwo(a: string, b: string)
    requires '.' !in a && '.' !in b
    ensures Split(a + "." + b, '.') == [a, b]
  {
    SplitAround(a, '.', b);
    SplitWithout(a, '.');
    SplitWithout(b, '.');
  }

  /** A map with one entry whose key has the normal form of the lookup key
      gives that entry's value, as the map searched or as the root. */
  lemma LookupSingle(k: string, v: Value, mapKey: string, root: PhpArray)
    requires k != "" && NormalizeKey(k) == NormalizeKey(mapKey)
    ensures ValueInternal(mapKey, Some([(StrKey(k), v)]), root) == v
    ensures ValueInternal(mapKey, None, [(StrKey(k), v)]) == v
  {
    FirstMatchAt([(StrKey(k), v)], NormalizeKey(mapKey), 0);
  }

  /** A two-level lookup: `get("a.c")` on `{k1: {k2: v}}` is `v` whenever
      `k1` and `a`, and `k2` and `c`, agree up to case, `-` and `_` (so
      `get("a_b.c")` on `{"A-B": {"C": 5}}` is 5). */
  lemma NestedLookup(k1: string, k2: string, a: string, c: string, v: Value)
    requires k1 != "" && k2 != "" && '.' !in a && '.' !in c
    requires NormalizeKey(k1) == NormalizeKey(a) && NormalizeKey(k2) == NormalizeKey(c)
    ensures GetSpec([(StrKey(k1), Arr([(StrKey(k2), v)]))], a + "." + c) == Found(v)
  {
    var inner := [(StrKey(k2), v)];
    var root := [(StrKey(k1), Arr(inner))];
    LookupSingle(k1, Arr(inner), a, root);
    LookupSingle(k2, v, c, root);
    ArrayAtFirstSegment(root, a, c, inner, v);
  }

  /** When the first segment leads to an array, the second is looked up in
      it. */
  lemma ArrayAtFirstSegment(root: PhpArray, a: string, c: string, inner: PhpArray, v: Value)
    requires '.' !in a && '.' !in c
    requires ValueInternal(a, None, root) == Arr(inner) && ValueInternal(c, Some(inner), root) == v
    ensures GetSpec(root, a + "." + c) == Found(v)
  {
    TwoSegments(root, a, c);
    FinishInArray(inner, c, root);
  }

  /** The last lookup in an array reached by the walk searches that array. */
  lemma FinishInArray(inner: PhpArray, c: string, root: PhpArray)
    ensures Finish(Arr(inner), c, root) == Found(ValueInternal(c, Some(inner), root))
  {
  }

  /** When the first two segments lead to a value that is neither an array
      nor null, `get` raises a type error. */
  lemma {:induction false} ScalarAtSecondSegment(root: PhpArray, a: string, b: string, c: string,
                                                 inner: PhpArray, w: Value)
    requires '.' !in a && '.' !in b && '.' !in c
    requires ValueInternal(a, None, root) == Arr(inner) && inner != []
    requires ValueInternal(b, Some(inner), root) == w && !w.Arr? && !w.Null?
    ensures GetSpec(root, a + "." + b + "." + c) == TypeError
  {
    ThreeSegments(root, a, b, c);
    WalkOneSegment(b, inner, root);
  }

  /** One step of the walk from a non-empty array. */
  lemma WalkOneSegment(b: string, inner: PhpArray, root: PhpArray)
    requires inner != []
    ensures WalkRest([b], Arr(inner), root) == ValueInternal(b, Some(inner), root)
  {
    assert [b][1..] == [];
  }

  /** `get("a.b.c")` on `{a: {b: n}}` reaches the scalar `n` before the last
      segment and raises a type error. */
  lemma ScalarBeforeLastSegment(a: string, b: string, c: string, n: int)
    requires a != "" && b != "" && '.' !in a && '.' !in b && '.' !in c
    ensures GetSpec([(StrKey(a), Arr([(StrKey(b), Int(n))]))], a + "." + b + "." + c) == TypeError
  {
    var inner := [(StrKey(b), Int(n))];
    var root := [(StrKey(a), Arr(inner))];
    LookupSingle(a, Arr(inner), a, root);
    LookupSingle(b, Int(n), b, root);
    ScalarAtSecondSegment(root, a, b, c, inner, Int(n));
  }
}

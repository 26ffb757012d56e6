/** PHP values as the core sees them: scalars, null and ordered arrays whose
    keys are integers or strings, plus the conversions the core borrows from
    helper classes that are not part of this model. */
module PhpCore {

  datatype Option<+T> = None | Some(value: T)

  /** A PHP array key. PHP turns canonical decimal strings into integer keys
      when an array is built; arrays here are taken with their keys already typed. */
  datatype Key = IntKey(i: int) | StrKey(s: string)

  /** A PHP value. `Other` stands for objects and resources, which the core only
      passes through. */
  datatype Value =
    | Null
    | Bool(b: bool)
    | Int(i: int)
    | Float(f: real)
    | Str(s: string)
    | Arr(entries: seq<(Key, Value)>)
    | Other(tag: string)

  /** An ordered PHP array: entries in insertion order. */
  type PhpArray = seq<(Key, Value)>

  /** PHP's `empty()` on a string. */
  predicate IsEmptyString(s: string) {
    s == "" || s == "0"
  }

  /** A non-empty PHP array: `is_array($v) && !empty($v)`. */
  predicate IsNonEmptyArray(v: Value) {
    v.Arr? && v.entries != []
  }

  /** `array_key_exists($k, $a)`. */
  predicate HasKey(a: PhpArray, k: Key) {
    a != [] && (a[0].0 == k || HasKey(a[1..], k))
  }

  /** Keys of a PHP array are unique. */
  predicate UniqueKeys(a: PhpArray) {
    a == [] || (!HasKey(a[1..], a[0].0) && UniqueKeys(a[1..]))
  }

  /** `$a[$k]`, with a missing key read as null. */
  function Lookup(a: PhpArray, k: Key): (v: Value)
    ensures !HasKey(a, k) ==> v == Null
  {
    if a == [] then Null
    else if a[0].0 == k then a[0].1
    else Lookup(a[1..], k)
  }

  /** `$a[$k] = $v`: an existing key keeps its position and gets the new value,
      a new key is appended. */
  function Put(a: PhpArray, k: Key, v: Value): (r: PhpArray)
    ensures forall k' :: HasKey(r, k') <==> HasKey(a, k') || k' == k
    ensures Lookup(r, k) == v
    ensures forall k' :: k' != k ==> Lookup(r, k') == Lookup(a, k')
    ensures UniqueKeys(a) ==> UniqueKeys(r)
  {
    if a == [] then [(k, v)]
    else if a[0].0 == k then [(k, v)] + a[1..]
    else [a[0]] + Put(a[1..], k, v)
  }
  /** Assigning to an existing key changes no key and no position. */
  lemma {:induction false} PutKeepsPositions(a: PhpArray, k: Key, v: Value)
    requires HasKey(a, k)
    ensures |Put(a, k, v)| == |a|
    ensures forall i :: 0 <= i < |a| ==> Put(a, k, v)[i].0 == a[i].0
  {
    if a[0].0 != k {
      PutKeepsPositions(a[1..], k, v);
    }
  }


  /** `unset($a[$k])`: every entry under `k` is removed, the others keep their order. */
  function Unset(a: PhpArray, k: Key): (r: PhpArray)
    ensures forall k' :: HasKey(r, k') <==> HasKey(a, k') && k' != k
    ensures UniqueKeys(a) ==> UniqueKeys(r)
    ensures UniqueKeys(a) ==> forall k' :: k' != k ==> Lookup(r, k') == Lookup(a, k')
  {
    if a == [] then []
    else if a[0].0 == k then Unset(a[1..], k)
    else [a[0]] + Unset(a[1..], k)
  }

  /** Index of the first `true` at or after `from`: the shape of every
      first-match search of the model. */
  function FirstTrue(bs: seq<bool>, from: nat): (r: Option<nat>)
    ensures r.None? <==> forall j :: from <= j < |bs| ==> !bs[j]
    ensures r.Some? ==> (from <= r.value < |bs| && bs[r.value] && forall j :: from <= j < r.value ==> !bs[j])
    decreases |bs| - from
  {
    if from >= |bs| then None
    else if bs[from] then Some(from)
    else FirstTrue(bs, from + 1)
  }

  /** The conversion helpers the core calls but that are not part of this
      model (`Cast::toInt`, `Cast::toBoolean`, `Cast::toString`,
      `StringUtils::toDuration`, `StringUtils::toDataSize`): arbitrary total
      functions, so every result here holds whatever they do. */
  datatype Conversions = Conversions(
    toInt: Value -> int,
    toBoolean: Value -> bool,
    toString: Value -> string,
    toDuration: string -> int,
    toDataSize: string -> int)
}

/** The PHP string built-ins the core uses, with ASCII semantics, and the
    helpers of `StringUtils`, which is not part of this model, written out as
    the behaviour the core relies on:
    `ensureLeft(s, p)` is `s` when `s` starts with `p` and `p . s` otherwise;
    `substringAfterLast` / `substringAfter` give the text after the last / first
    separator ("" when there is none); `substringBeforeLast` gives the text
    before the last separator (the whole string when there is none). */
module PhpStrings {
  import opened PhpCore

  predicate IsUpper(c: char) { 'A' <= c <= 'Z' }

  predicate IsLowerLetter(c: char) { 'a' <= c <= 'z' }

  /** ASCII lower-casing of one character. */
  function ToLower(c: char): (r: char)
    ensures !IsUpper(r)
    ensures IsUpper(c) ==> IsLowerLetter(r) && r as int == c as int + 32
    ensures !IsUpper(c) ==> r == c
  {
    if IsUpper(c) then (c as int + 32) as char else c
  }

  /** ASCII upper-casing of one character. */
  function ToUpper(c: char): (r: char)
    ensures !IsLowerLetter(r)
    ensures IsLowerLetter(c) ==> IsUpper(r) && r as int == c as int - 32
    ensures !IsLowerLetter(c) ==> r == c
  {
    if IsLowerLetter(c) then (c as int - 32) as char else c
  }

  /** `strtolower`. */
  function Lower(s: string): (r: string)
    ensures |r| == |s|
    ensures forall i :: 0 <= i < |s| ==> r[i] == ToLower(s[i])
  {
    if s == [] then [] else [ToLower(s[0])] + Lower(s[1..])
  }

  /** `lcfirst`. */
  function Lcfirst(s: string): (r: string)
    ensures |r| == |s|
    ensures s != [] ==> r[0] == ToLower(s[0]) && r[1..] == s[1..]
  {
    if s == [] then s else [ToLower(s[0])] + s[1..]
  }

  /** The default word delimiters of `ucwords`. */
  predicate IsWordDelimiter(c: char) {
    c == ' ' || c == '\t' || c == '\r' || c == '\n' || c == '\U{000C}' || c == '\U{000B}'
  }

  /** `ucwords` with its default delimiters: the first character and every
      character that follows a delimiter are upper-cased. */
  function Ucwords(s: string): (r: string)
    ensures |r| == |s|
    ensures forall i :: 0 <= i < |s| ==>
      r[i] == (if i == 0 || IsWordDelimiter(s[i - 1]) then ToUpper(s[i]) else s[i])
  {
    UcwordsFromAt(s, true);
    UcwordsFrom(s, true)
  }

  /** `ucwords` on a suffix; `up` says whether its first character follows a
      delimiter (or starts the string). */
  function UcwordsFrom(s: string, up: bool): (r: string)
    ensures |r| == |s|
  {
    if s == [] then []
    else [if up then ToUpper(s[0]) else s[0]] + UcwordsFrom(s[1..], IsWordDelimiter(s[0]))
  }

  /** Character by character: the first is upper-cased when `up`, every
      later one when it follows a delimiter. */
  lemma {:induction false} UcwordsFromAt(s: string, up: bool)
    ensures var r := UcwordsFrom(s, up);
      (s != [] ==> r[0] == (if up then ToUpper(s[0]) else s[0])) &&
      forall i :: 0 < i < |s| ==> r[i] == (if IsWordDelimiter(s[i - 1]) then ToUpper(s[i]) else s[i])
    decreases |s|
  {
    if s != [] {
      UcwordsFromAt(s[1..], IsWordDelimiter(s[0]));
    }
  }

  /** A delimiter splits the work of `ucwords`: the text after it starts a
      new word. */
  lemma {:induction false} UcwordsFromSplit(a: string, d: char, b: string, up: bool)
    requires IsWordDelimiter(d)
    ensures UcwordsFrom(a + [d] + b, up) == UcwordsFrom(a, up) + [ToUpper(d)] + UcwordsFrom(b, true)
    decreases |a|
  {
    if a == [] {
      UcwordsFromCons(d, b, up);
      assert a + [d] + b == [d] + b;
    } else {
      var up' := IsWordDelimiter(a[0]);
      assert a + [d] + b == [a[0]] + (a[1..] + [d] + b);
      assert a == [a[0]] + a[1..];
      UcwordsFromCons(a[0], a[1..] + [d] + b, up);
      UcwordsFromCons(a[0], a[1..], up);
      UcwordsFromSplit(a[1..], d, b, up');
      ConcatRegroup([if up then ToUpper(a[0]) else a[0]], UcwordsFrom(a[1..], up'), [ToUpper(d)], UcwordsFrom(b, true));
    }
  }

  lemma ConcatRegroup<T>(p: seq<T>, q: seq<T>, r: seq<T>, t: seq<T>)
    ensures p + (q + r + t) == (p + q) + r + t
  {
  }

  /** `ucwords` on a suffix, one character at a time. */
  lemma UcwordsFromCons(x: char, rest: string, up: bool)
    ensures UcwordsFrom([x] + rest, up) == [if up then ToUpper(x) else x] + UcwordsFrom(rest, IsWordDelimiter(x))
  {
    assert ([x] + rest)[1..] == rest;
  }

  /** Inside a word `ucwords` changes at most the first character. */
  lemma {:induction false} UcwordsFromWord(w: string, up: bool)
    requires forall i :: 0 <= i < |w| ==> !IsWordDelimiter(w[i])
    ensures UcwordsFrom(w, up) == if w == [] then [] else [if up then ToUpper(w[0]) else w[0]] + w[1..]
    decreases |w|
  {
    if w != [] {
      UcwordsFromWord(w[1..], false);
    }
  }

  /** `str_replace($a, $b, $s)` for one-character `$a` and `$b`. */
  function ReplaceChar(s: string, a: char, b: char): (r: string)
    ensures |r| == |s|
    ensures forall i :: 0 <= i < |s| ==> r[i] == (if s[i] == a then b else s[i])
  {
    if s == [] then [] else [if s[0] == a then b else s[0]] + ReplaceChar(s[1..], a, b)
  }

  /** `str_replace($c, '', $s)` for a one-character `$c`. */
  function RemoveChar(s: string, c: char): (r: string)
    ensures c !in r
    ensures forall x :: x in r <==> x in s && x != c
  {
    if s == [] then [] else (if s[0] == c then [] else [s[0]]) + RemoveChar(s[1..], c)
  }

  /** Replacing works piece by piece. */
  lemma ReplaceCharConcat(s: string, t: string, a: char, b: char)
    ensures ReplaceChar(s + t, a, b) == ReplaceChar(s, a, b) + ReplaceChar(t, a, b)
  {
    var l, r := ReplaceChar(s + t, a, b), ReplaceChar(s, a, b) + ReplaceChar(t, a, b);
    forall i | 0 <= i < |l|
      ensures l[i] == r[i]
    {
      if i < |s| {
        assert (s + t)[i] == s[i];
      } else {
        assert (s + t)[i] == t[i - |s|];
      }
    }
  }

  /** Replacing a character that does not occur changes nothing. */
  lemma ReplaceCharAbsent(s: string, a: char, b: char)
    requires a !in s
    ensures ReplaceChar(s, a, b) == s
  {
    var r := ReplaceChar(s, a, b);
    forall i | 0 <= i < |s|
      ensures r[i] == s[i]
    {
      assert s[i] != a;
    }
  }

  /** Removing works piece by piece. */
  lemma {:induction false} RemoveCharConcat(s: string, t: string, c: char)
    ensures RemoveChar(s + t, c) == RemoveChar(s, c) + RemoveChar(t, c)
    decreases |s|
  {
    if s == [] {
      assert s + t == t;
    } else {
      assert (s + t)[0] == s[0];
      assert (s + t)[1..] == s[1..] + t;
      RemoveCharConcat(s[1..], t, c);
    }
  }

  /** Removing a character that does not occur changes nothing. */
  lemma {:induction false} RemoveCharAbsent(s: string, c: char)
    requires c !in s
    ensures RemoveChar(s, c) == s
    decreases |s|
  {
    if s != [] {
      assert s[0] != c;
      assert c !in s[1..] by {
        forall i | 0 <= i < |s[1..]|
          ensures s[1..][i] != c
        {
          assert s[1..][i] == s[i + 1];
        }
      }
      RemoveCharAbsent(s[1..], c);
      assert s == [s[0]] + s[1..];
    }
  }

  /** Replacing around one occurrence of the replaced character. */
  lemma ReplaceCharAround(x: string, y: string, a: char, b: char)
    ensures ReplaceChar(x + [a] + y, a, b) == ReplaceChar(x, a, b) + [b] + ReplaceChar(y, a, b)
  {
    ReplaceCharConcat(x + [a], y, a, b);
    ReplaceCharConcat(x, [a], a, b);
    ReplaceCharSingle(a, b);
  }

  lemma ReplaceCharSingle(a: char, b: char)
    ensures ReplaceChar([a], a, b) == [b]
  {
    assert [a][1..] == [];
  }

  /** Removing around one occurrence of the removed character. */
  lemma RemoveCharAround(x: string, y: string, c: char)
    ensures RemoveChar(x + [c] + y, c) == RemoveChar(x, c) + RemoveChar(y, c)
  {
    RemoveCharConcat(x + [c], y, c);
    RemoveCharConcat(x, [c], c);
    RemoveCharSingle(c);
  }

  lemma RemoveCharSingle(c: char)
    ensures RemoveChar([c], c) == []
  {
    assert [c][1..] == [];
  }

  /** `ucwords` splits at a delimiter: the text after it is a fresh start. */
  lemma UcwordsSplit(a: string, d: char, b: string)
    requires IsWordDelimiter(d)
    ensures Ucwords(a + [d] + b) == Ucwords(a) + [d] + Ucwords(b)
  {
    UcwordsFromSplit(a, d, b, true);
    UcwordsFromAt(a + [d] + b, true);
    UcwordsFromAt(a, true);
    UcwordsFromAt(b, true);
  }

  /** On a single word `ucwords` upper-cases the first character only. */
  lemma UcwordsWord(w: string)
    requires forall i :: 0 <= i < |w| ==> !IsWordDelimiter(w[i])
    ensures Ucwords(w) == if w == [] then [] else [ToUpper(w[0])] + w[1..]
  {
    UcwordsFromWord(w, true);
    UcwordsFromAt(w, true);
  }

  /** `strtr($s, ['-' => '', '_' => ''])`. */
  function StripSeparators(s: string): (r: string)
    ensures '-' !in r && '_' !in r
    ensures forall x :: x in r <==> x in s && x != '-' && x != '_'
  {
    if s == [] then []
    else (if s[0] == '-' || s[0] == '_' then [] else [s[0]]) + StripSeparators(s[1..])
  }

  /** The key comparison form used by the config store and by map-value
      matching: `strtolower(strtr($k, ['-' => '', '_' => '']))`. */
  function NormalizeKey(s: string): string {
    Lower(StripSeparators(s))
  }

  predicate StartsWith(s: string, p: string) {
    |p| <= |s| && s[..|p|] == p
  }

  predicate EndsWith(s: string, p: string) {
    |p| <= |s| && s[|s| - |p|..] == p
  }

  /** `strpos($s, $p) !== false`. */
  predicate Contains(s: string, p: string) {
    StartsWith(s, p) || (s != [] && Contains(s[1..], p))
  }

  /** `StringUtils::ensureLeft`. */
  function EnsureLeft(s: string, p: string): (r: string)
    ensures StartsWith(r, p)
    ensures EndsWith(r, s)
    ensures StartsWith(s, p) ==> r == s
    ensures !StartsWith(s, p) ==> r == p + s
  {
    if StartsWith(s, p) then s else p + s
  }

  /** Index of the first occurrence of `c`. */
  function IndexOf(s: string, c: char): (r: Option<nat>)
    ensures r.None? <==> c !in s
    ensures r.Some? ==> r.value < |s| && s[r.value] == c && c !in s[..r.value]
  {
    if s == [] then None
    else if s[0] == c then Some(0)
    else match IndexOf(s[1..], c)
      case None => None
      case Some(i) => Some(i + 1)
  }

  /** Index of the last occurrence of `c`. */
  function LastIndexOf(s: string, c: char): (r: Option<nat>)
    ensures r.None? <==> c !in s
    ensures r.Some? ==> r.value < |s| && s[r.value] == c && c !in s[r.value + 1..]
  {
    if s == [] then None
    else if s[|s| - 1] == c then Some(|s| - 1)
    else LastIndexOf(s[..|s| - 1], c)
  }

  /** `StringUtils::substringAfterLast($s, $c)`. */
  function SubstringAfterLast(s: string, c: char): string {
    match LastIndexOf(s, c)
    case None => ""
    case Some(i) => s[i + 1..]
  }

  /** `StringUtils::substringBeforeLast($s, $c)`. */
  function SubstringBeforeLast(s: string, c: char): string {
    match LastIndexOf(s, c)
    case None => s
    case Some(i) => s[..i]
  }

  /** `StringUtils::substringAfter($s, $c)`. */
  function SubstringAfter(s: string, c: char): string {
    match IndexOf(s, c)
    case None => ""
    case Some(i) => s[i + 1..]
  }

  /** `explode($c, $s)`: the pieces between separators, empty ones included. */
  function Split(s: string, c: char): (r: seq<string>)
    ensures |r| >= 1
    ensures forall k :: 0 <= k < |r| ==> c !in r[k]
  {
    if s == [] then [""]
    else
      var rest := Split(s[1..], c);
      if s[0] == c then [""] + rest else [[s[0]] + rest[0]] + rest[1..]
  }

  /** `implode('', $parts)`. */
  function Concat(parts: seq<string>): string {
    if parts == [] then "" else parts[0] + Concat(parts[1..])
  }

  /** The characters `trim` removes by default. */
  predicate IsTrimmed(c: char) {
    c == ' ' || c == '\t' || c == '\n' || c == '\r' || c == '\0' || c == '\U{000B}'
  }

  function TrimLeft(s: string): (r: string)
    ensures r != [] ==> !IsTrimmed(r[0])
    ensures |r| <= |s| && r == s[|s| - |r|..]
  {
    if s != [] && IsTrimmed(s[0]) then TrimLeft(s[1..]) else s
  }

  function TrimRight(s: string): (r: string)
    ensures r != [] ==> !IsTrimmed(r[|r| - 1])
    ensures |r| <= |s| && r == s[..|r|]
  {
    if s != [] && IsTrimmed(s[|s| - 1]) then TrimRight(s[..|s| - 1]) else s
  }

  /** `trim` with its default character list. */
  function Trim(s: string): (r: string)
    ensures r != [] ==> !IsTrimmed(r[0]) && !IsTrimmed(r[|r| - 1])
  {
    TrimRight(TrimLeft(s))
  }

  /** `rtrim($s, $c)` for a one-character list. */
  function RtrimChar(s: string, c: char): (r: string)
    ensures r != [] ==> r[|r| - 1] != c
    ensures |r| <= |s| && r == s[..|r|]
    ensures forall k :: |r| <= k < |s| ==> s[k] == c
  {
    if s != [] && s[|s| - 1] == c then RtrimChar(s[..|s| - 1], c) else s
  }

  /** `str_replace($p, '', $s)`: every non-overlapping occurrence of `p`,
      scanning from the left, is removed. */
  function RemoveAll(s: string, p: string): string
    requires p != ""
    decreases |s|
  {
    if s == [] then []
    else if StartsWith(s, p) then RemoveAll(s[|p|..], p)
    else [s[0]] + RemoveAll(s[1..], p)
  }

  function DigitChar(d: nat): char
    requires d < 10
  {
    "0123456789"[d]
  }

  /** Decimal digits of a natural number. */
  function NatToDecimal(n: nat): (r: string)
    ensures r != [] && '-' !in r
    decreases n
  {
    if n < 10 then [DigitChar(n)] else NatToDecimal(n / 10) + [DigitChar(n % 10)]
  }

  /** PHP's string form of an int, as interpolated in `"worker$id"`. */
  function IntToDecimal(i: int): (r: string)
    ensures r != []
    ensures i < 0 <==> r[0] == '-'
  {
    if i < 0 then "-" + NatToDecimal(-i) else NatToDecimal(i)
  }
}

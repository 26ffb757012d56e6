/** `MapAbleTrait::fromMap`: the keys of an input map are turned from
    kebab-case or snake_case into camelCase, marker-prefixed values are
    converted, and the entries are assigned to the declared properties of the
    object. */
module MapAble {
  import opened PhpCore
  import opened PhpStrings

  // ----- key renaming -----

  /** The property name for a key: with a `-`, every `-` becomes a space;
      otherwise with a `_`, every `_` becomes a space; after either, the words
      are capitalised and the spaces dropped; finally the first character is
      lower-cased. */
  function ConvertName(key: string): (p: string)
    ensures p != [] ==> !IsUpper(p[0])
  {
    var needUcwords := '-' in key || '_' in key;
    var spaced := if '-' in key then ReplaceChar(key, '-', ' ')
                  else if '_' in key then ReplaceChar(key, '_', ' ')
                  else key;
    var joined := if needUcwords then RemoveChar(Ucwords(spaced), ' ') else spaced;
    Lcfirst(joined)
  }

  /** A character that is not an ASCII letter. */
  predicate IsNonLetter(c: char) {
    !IsUpper(c) && !IsLowerLetter(c)
  }

  lemma UcwordsKeepsNonLetters(s: string, c: char)
    requires IsNonLetter(c)
    ensures c in Ucwords(s) <==> c in s
  {
    var r := Ucwords(s);
    if c in r {
      var i :| 0 <= i < |r| && r[i] == c;
      ToUpperKeepsNonLetter(s[i], c);
      assert r[i] == (if i == 0 || IsWordDelimiter(s[i - 1]) then ToUpper(s[i]) else s[i]);
    }
    if c in s {
      var i :| 0 <= i < |s| && s[i] == c;
      ToUpperKeepsNonLetter(s[i], c);
      assert r[i] == (if i == 0 || IsWordDelimiter(s[i - 1]) then ToUpper(s[i]) else s[i]);
    }
  }

  lemma ToUpperKeepsNonLetter(x: char, c: char)
    requires IsNonLetter(c)
    ensures ToUpper(x) == c <==> x == c
  {
  }

  lemma LcfirstKeepsNonLetters(s: string, c: char)
    requires IsNonLetter(c)
    ensures c in Lcfirst(s) <==> c in s
  {
    if s != [] {
      assert Lcfirst(s) == [ToLower(s[0])] + s[1..];
      assert s == [s[0]] + s[1..];
    }
  }

  lemma LcfirstIdempotent(s: string)
    ensures Lcfirst(Lcfirst(s)) == Lcfirst(s)
  {
  }

  lemma ReplaceCharMembers(s: string, a: char, b: char, c: char)
    requires c != a && c != b
    ensures c in ReplaceChar(s, a, b) <==> c in s
  {
    var r := ReplaceChar(s, a, b);
    if c in r {
      var i :| 0 <= i < |r| && r[i] == c;
      assert s[i] == c;
    }
    if c in s {
      var i :| 0 <= i < |s| && s[i] == c;
      assert r[i] == c;
    }
  }

  lemma ReplaceCharRemoves(s: string, a: char, b: char)
    requires a != b
    ensures a !in ReplaceChar(s, a, b)
  {
  }

  /** A key with a `-` loses every `-` and every space. */
  lemma ConvertNameWithDash(key: string)
    requires '-' in key
    ensures '-' !in ConvertName(key) && ' ' !in ConvertName(key)
  {
    var spaced := ReplaceChar(key, '-', ' ');
    ReplaceCharRemoves(key, '-', ' ');
    UcwordsKeepsNonLetters(spaced, '-');
    var joined := RemoveChar(Ucwords(spaced), ' ');
    LcfirstKeepsNonLetters(joined, '-');
    LcfirstKeepsNonLetters(joined, ' ');
  }

  /** A key with a `_` but no `-` loses every `_` and every space, and gains
      no `-`. */
  lemma ConvertNameWithUnderscore(key: string)
    requires '-' !in key && '_' in key
    ensures '_' !in ConvertName(key) && ' ' !in ConvertName(key) && '-' !in ConvertName(key)
  {
    var spaced := ReplaceChar(key, '_', ' ');
    ReplaceCharRemoves(key, '_', ' ');
    ReplaceCharMembers(key, '_', ' ', '-');
    UcwordsKeepsNonLetters(spaced, '_');
    UcwordsKeepsNonLetters(spaced, '-');
    var joined := RemoveChar(Ucwords(spaced), ' ');
    LcfirstKeepsNonLetters(joined, '_');
    LcfirstKeepsNonLetters(joined, ' ');
    LcfirstKeepsNonLetters(joined, '-');
  }

  /** A key without `-` and `_` only has its first character lower-cased. */
  lemma ConvertNamePlain(key: string)
    requires '-' !in key && '_' !in key
    ensures ConvertName(key) == Lcfirst(key)
  {
  }

  /** Converting twice changes nothing, unless the key has both a `-` and a
      `_` (the `_` survives the first conversion). */
  lemma ConvertNameIdempotent(key: string)
    requires !('-' in key && '_' in key)
    ensures ConvertName(ConvertName(key)) == ConvertName(key)
  {
    var p := ConvertName(key);
    if '-' in key {
      ConvertNameWithDash(key);
      assert '_' !in key;
      // the `_`s are all gone: none was in the key, and none is created
      var spaced := ReplaceChar(key, '-', ' ');
      ReplaceCharMembers(key, '-', ' ', '_');
      UcwordsKeepsNonLetters(spaced, '_');
      LcfirstKeepsNonLetters(RemoveChar(Ucwords(spaced), ' '), '_');
      ConvertNamePlain(p);
      LcfirstIdempotent(RemoveChar(Ucwords(spaced), ' '));
    } else if '_' in key {
      ConvertNameWithUnderscore(key);
      ConvertNamePlain(p);
      LcfirstIdempotent(RemoveChar(Ucwords(ReplaceChar(key, '_', ' ')), ' '));
    } else {
      LcfirstKeepsNonLetters(key, '-');
      LcfirstKeepsNonLetters(key, '_');
      LcfirstIdempotent(key);
    }
  }

  /** With both separators the first conversion keeps the `_` (only the
      `-`s are turned into word breaks), so a second conversion changes the
      name again. */
  lemma ConvertNameNotIdempotentWithBoth(key: string)
    requires '-' in key && '_' in key
    ensures '_' in ConvertName(key)
    ensures ConvertName(ConvertName(key)) != ConvertName(key)
  {
    var spaced := ReplaceChar(key, '-', ' ');
    ReplaceCharMembers(key, '-', ' ', '_');
    UcwordsKeepsNonLetters(spaced, '_');
    var joined := RemoveChar(Ucwords(spaced), ' ');
    LcfirstKeepsNonLetters(joined, '_');
    ConvertNameWithDash(key);
    ConvertNameWithUnderscore(ConvertName(key));
  }

  /** Snake case and kebab case give the same name: for a key without `-`,
      writing every `_` as `-` does not change the conversion. */
  lemma SnakeAndKebabAgree(key: string)
    requires '-' !in key
    ensures ConvertName(ReplaceChar(key, '_', '-')) == ConvertName(key)
  {
    var kebab := ReplaceChar(key, '_', '-');
    if '_' in key {
      var i :| 0 <= i < |key| && key[i] == '_';
      assert kebab[i] == '-';
      KebabSpacing(key);
      ConvertNameDashForm(kebab);
      ConvertNameUnderscoreForm(key);
    } else {
      assert kebab == key;
    }
  }

  /** Spacing the `-`s of the kebab form is spacing the `_`s of the key. */
  lemma KebabSpacing(key: string)
    requires '-' !in key
    ensures ReplaceChar(ReplaceChar(key, '_', '-'), '-', ' ') == ReplaceChar(key, '_', ' ')
  {
  }

  lemma ConvertNameDashForm(key: string)
    requires '-' in key
    ensures ConvertName(key) == Lcfirst(RemoveChar(Ucwords(ReplaceChar(key, '-', ' ')), ' '))
  {
  }

  lemma ConvertNameUnderscoreForm(key: string)
    requires '-' !in key && '_' in key
    ensures ConvertName(key) == Lcfirst(RemoveChar(Ucwords(ReplaceChar(key, '_', ' ')), ' '))
  {
  }

  // ----- camel case -----

  /** A character that can sit inside a word: no separator and no `ucwords`
      delimiter. */
  predicate IsWordChar(c: char) {
    c != '-' && c != '_' && !IsWordDelimiter(c)
  }

  predicate IsWord(w: string) {
    forall i :: 0 <= i < |w| ==> IsWordChar(w[i])
  }

  /** A word with its first character upper-cased. */
  function Capital(w: string): (r: string)
    ensures |r| == |w|
  {
    if w == [] then [] else [ToUpper(w[0])] + w[1..]
  }

  /** The words, each capitalised, run together. */
  function Capitals(words: seq<string>): string {
    if words == [] then [] else Capital(words[0]) + Capitals(words[1..])
  }

  /** The words joined by the separator, as in `foo_bar_baz`. */
  function JoinWords(words: seq<string>, sep: char): string
    requires words != []
  {
    if |words| == 1 then words[0] else words[0] + [sep] + JoinWords(words[1..], sep)
  }

  /** The conversion once the separator is known: separators become spaces,
      words are capitalised and the spaces dropped. */
  function CapitalizeWords(s: string, sep: char): string {
    RemoveChar(Ucwords(ReplaceChar(s, sep, ' ')), ' ')
  }

  /** A separator splits the conversion into independent halves. */
  lemma CapitalizeWordsSplit(a: string, sep: char, b: string)
    ensures CapitalizeWords(a + [sep] + b, sep) == CapitalizeWords(a, sep) + CapitalizeWords(b, sep)
  {
    var ra, rb := ReplaceChar(a, sep, ' '), ReplaceChar(b, sep, ' ');
    ReplaceCharAround(a, b, sep, ' ');
    UcwordsSplit(ra, ' ', rb);
    RemoveCharAround(Ucwords(ra), Ucwords(rb), ' ');
  }

  /** A single word is only capitalised. */
  lemma CapitalizeOneWord(w: string, sep: char)
    requires IsWord(w) && (sep == '-' || sep == '_')
    ensures CapitalizeWords(w, sep) == Capital(w)
  {
    assert sep !in w by {
      forall i | 0 <= i < |w|
        ensures w[i] != sep
      {
        assert IsWordChar(w[i]);
      }
    }
    ReplaceCharAbsent(w, sep, ' ');
    UcwordsWord(w);
    var c := Capital(w);
    assert ' ' !in c by {
      forall i | 0 <= i < |c|
        ensures c[i] != ' '
      {
        assert IsWordChar(w[i]);
      }
    }
    RemoveCharAbsent(c, ' ');
  }

  /** Words joined by a separator convert to the capitalised words. */
  lemma {:induction false} CapitalizeJoined(words: seq<string>, sep: char)
    requires words != [] && (sep == '-' || sep == '_')
    requires forall k :: 0 <= k < |words| ==> IsWord(words[k])
    ensures CapitalizeWords(JoinWords(words, sep), sep) == Capitals(words)
    decreases |words|
  {
    CapitalizeOneWord(words[0], sep);
    if |words| == 1 {
      assert Capitals(words) == Capital(words[0]) + Capitals([]);
    } else {
      CapitalizeWordsSplit(words[0], sep, JoinWords(words[1..], sep));
      CapitalizeJoined(words[1..], sep);
    }
  }

  /** The separator occurs in a join of two or more words, and the other
      separator does not. */
  lemma {:induction false} JoinedSeparators(words: seq<string>, sep: char, other: char)
    requires words != [] && (sep == '-' || sep == '_') && (other == '-' || other == '_')
    requires forall k :: 0 <= k < |words| ==> IsWord(words[k])
    ensures other != sep ==> other !in JoinWords(words, sep)
    ensures |words| >= 2 ==> sep in JoinWords(words, sep)
    decreases |words|
  {
    var w := words[0];
    assert other !in w by {
      forall i | 0 <= i < |w|
        ensures w[i] != other
      {
        assert IsWordChar(w[i]);
      }
    }
    if |words| >= 2 {
      var j := JoinWords(words, sep);
      assert j == w + [sep] + JoinWords(words[1..], sep);
      assert j[|w|] == sep;
      JoinedSeparators(words[1..], sep, other);
    }
  }

  /** With its separator known, the conversion is `lcfirst` of the
      capitalised words. */
  lemma ConvertNameBySeparator(key: string, sep: char)
    requires (sep == '-' && '-' in key) || (sep == '_' && '-' !in key && '_' in key)
    ensures ConvertName(key) == Lcfirst(CapitalizeWords(key, sep))
  {
    if sep == '-' {
      ConvertNameDashForm(key);
    } else {
      ConvertNameUnderscoreForm(key);
    }
  }

  /** `lcfirst` undoes the capital of a first word. */
  lemma LcfirstOfCapital(w: string, rest: string)
    requires w != []
    ensures Lcfirst(Capital(w) + rest) == Lcfirst(w) + rest
  {
    var c := Capital(w) + rest;
    assert c[0] == ToUpper(w[0]);
    assert c[1..] == w[1..] + rest;
    assert Lcfirst(w) + rest == [ToLower(w[0])] + (w[1..] + rest);
  }

  /** The camel-case promise: words joined by `_` or by `-` become the words
      capitalised and run together, with the first character lower-cased;
      `foo_bar_baz` and `foo-bar-baz` both give `fooBarBaz`. */
  lemma CamelCase(words: seq<string>, sep: char)
    requires |words| >= 2 && (sep == '-' || sep == '_')
    requires forall k :: 0 <= k < |words| ==> IsWord(words[k])
    ensures ConvertName(JoinWords(words, sep)) == Lcfirst(Capitals(words))
    ensures words[0] != [] ==>
      ConvertName(JoinWords(words, sep)) == Lcfirst(words[0]) + Capitals(words[1..])
  {
    var key := JoinWords(words, sep);
    JoinedSeparators(words, sep, '-');
    JoinedSeparators(words, sep, '_');
    ConvertNameBySeparator(key, sep);
    CapitalizeJoined(words, sep);
    if words[0] != [] {
      LcfirstOfCapital(words[0], Capitals(words[1..]));
    }
  }

  lemma CamelCaseTwoWordsBy(a: string, b: string, sep: char)
    requires a != [] && b != [] && IsWord(a) && IsWord(b) && (sep == '-' || sep == '_')
    ensures ConvertName(a + [sep] + b) == Lcfirst(a) + [ToUpper(b[0])] + b[1..]
  {
    var words := [a, b];
    assert words[1..] == [b];
    assert JoinWords(words, sep) == a + [sep] + b;
    assert Capitals([b]) == Capital(b) + Capitals([]);
    CamelCase(words, sep);
  }

  /** Two words: `a_b` and `a-b` give `lcfirst(a)` followed by `b` with its
      first character upper-cased. */
  lemma CamelCaseTwoWords(a: string, b: string)
    requires a != [] && b != [] && IsWord(a) && IsWord(b)
    ensures ConvertName(a + "_" + b) == Lcfirst(a) + [ToUpper(b[0])] + b[1..]
    ensures ConvertName(a + "-" + b) == Lcfirst(a) + [ToUpper(b[0])] + b[1..]
  {
    CamelCaseTwoWordsBy(a, b, '_');
    CamelCaseTwoWordsBy(a, b, '-');
  }

  lemma FooBarSpelling()
    ensures "foo" + "_" + "bar" == "foo_bar" && "foo" + "-" + "bar" == "foo-bar"
    ensures Lcfirst("foo") + [ToUpper("bar"[0])] + "bar"[1..] == "fooBar"
    ensures IsWord("foo") && IsWord("bar")
  {
  }

  /** `foo_bar` and `foo-bar` both become `fooBar`. */
  lemma FooBarIsCamel()
    ensures ConvertName("foo_bar") == "fooBar"
    ensures ConvertName("foo-bar") == "fooBar"
  {
    FooBarSpelling();
    CamelCaseTwoWords("foo", "bar");
  }

  /** `fooBar` is already a property name. */
  lemma FooBarStays()
    ensures ConvertName("fooBar") == "fooBar"
  {
    ConvertNamePlain("fooBar");
    assert Lcfirst("fooBar") == "fooBar";
  }

  // ----- marker values -----

  const DURATION_MARKER := "@Duration:"
  const DATA_SIZE_MARKER := "@DataSize:"

  /** The value after the marker check, and whether it was rewritten: a string
      starting with `@Duration:` or `@DataSize:` becomes the conversion of the
      string with every occurrence of that marker removed. */
  function RewriteValue(v: Value, conv: Conversions): (r: (Value, bool))
    ensures !r.1 ==> r.0 == v
    ensures r.1 <==> v.Str? && (StartsWith(v.s, DURATION_MARKER) || StartsWith(v.s, DATA_SIZE_MARKER))
    ensures v.Str? && StartsWith(v.s, DURATION_MARKER) ==>
      r.0 == Int(conv.toDuration(RemoveAll(v.s, DURATION_MARKER)))
    ensures v.Str? && !StartsWith(v.s, DURATION_MARKER) && StartsWith(v.s, DATA_SIZE_MARKER) ==>
      r.0 == Int(conv.toDataSize(RemoveAll(v.s, DATA_SIZE_MARKER)))
  {
    if v.Str? && StartsWith(v.s, DURATION_MARKER) then
      (Int(conv.toDuration(RemoveAll(v.s, DURATION_MARKER))), true)
    else if v.Str? && StartsWith(v.s, DATA_SIZE_MARKER) then
      (Int(conv.toDataSize(RemoveAll(v.s, DATA_SIZE_MARKER))), true)
    else (v, false)
  }

  /** The marker itself is gone from what the conversion receives: for
      `"@Duration:" + rest` it is `rest` with the marker removed. */
  lemma MarkerPrefixRemoved(marker: string, rest: string)
    requires marker != ""
    ensures RemoveAll(marker + rest, marker) == RemoveAll(rest, marker)
  {
    var s := marker + rest;
    assert StartsWith(s, marker) by { assert s[..|marker|] == marker; }
    assert s[|marker|..] == rest;
  }

  /** The key conversion steps of the first loop of `fromMap`. */
  method ConvertKey(key: string) returns (pname: string)
    ensures pname == ConvertName(key)
  {
    pname := key;
    var needUcwords := false;
    if '-' in pname {
      pname := ReplaceChar(pname, '-', ' ');
      needUcwords := true;
    } else if '_' in pname {
      pname := ReplaceChar(pname, '_', ' ');
      needUcwords := true;
    }
    if needUcwords {
      pname := Ucwords(pname);
      pname := RemoveChar(pname, ' ');
    }
    pname := Lcfirst(pname);
  }

  /** The marker check of the first loop of `fromMap`. */
  method RewriteMarked(value0: Value, conv: Conversions) returns (value: Value, isNewValue: bool)
    ensures (value, isNewValue) == RewriteValue(value0, conv)
  {
    value := value0;
    isNewValue := false;
    if value.Str? {
      if StartsWith(value.s, DURATION_MARKER) {
        value := Int(conv.toDuration(RemoveAll(value.s, DURATION_MARKER)));
        isNewValue := true;
      } else if StartsWith(value.s, DATA_SIZE_MARKER) {
        value := Int(conv.toDataSize(RemoveAll(value.s, DATA_SIZE_MARKER)));
        isNewValue := true;
      }
    }
  }

  /** One iteration of the first loop of `fromMap`. */
  method RenameEntry(data0: PhpArray, key: Key, value: Value, conv: Conversions) returns (data: PhpArray)
    ensures data == RenameStep(data0, key, value, conv)
  {
    data := data0;
    if !key.StrKey? || key.s == "" {
      data := Unset(data, key);
      return;
    }
    var pname := ConvertKey(key.s);
    var value', isNewValue := RewriteMarked(value, conv);
    if key.s != pname {
      data := Put(data, StrKey(pname), value');
      data := Unset(data, key);
    } else if isNewValue {
      data := Put(data, key, value');
    }
  }

  /** The first loop of `fromMap`: each original entry, in order, applied to
      a working copy of the map. */
  method RenameEntries(data0: PhpArray, conv: Conversions) returns (data: PhpArray)
    ensures data == Renamed(data0, conv)
  {
    data := data0;
    var i := 0;
    while i < |data0|
      invariant 0 <= i <= |data0|
      invariant RenameAll(data, data0[i..], conv) == Renamed(data0, conv)
    {
      assert data0[i..][1..] == data0[i + 1..];
      data := RenameEntry(data, data0[i].0, data0[i].1, conv);
      i := i + 1;
    }
  }

  // ----- the renaming loop -----

  /** One iteration of the first loop of `fromMap` on the working copy `data`
      for the original entry `(key, value)`. */
  function RenameStep(data: PhpArray, key: Key, value: Value, conv: Conversions): PhpArray {
    if !key.StrKey? || key.s == "" then Unset(data, key)
    else
      var pname := ConvertName(key.s);
      var rv := RewriteValue(value, conv);
      if key.s != pname then Unset(Put(data, StrKey(pname), rv.0), key)
      else if rv.1 then Put(data, key, rv.0)
      else data
  }

  /** The step removes a non-string or empty key; moves a renamed entry,
      overwriting the new name and removing the old one; stores a rewritten
      value under an unchanged key, at the position the key already has;
      leaves the map as it is for an unchanged key with an unmarked value;
      and touches no other key. */
  lemma RenameStepEffect(data: PhpArray, key: Key, value: Value, conv: Conversions)
    requires UniqueKeys(data)
    ensures var r := RenameStep(data, key, value, conv);
      UniqueKeys(r) &&
      (!key.StrKey? || key.s == "" ==> !HasKey(r, key)) &&
      (key.StrKey? && key.s != "" && ConvertName(key.s) != key.s ==>
        !HasKey(r, key) && Lookup(r, StrKey(ConvertName(key.s))) == RewriteValue(value, conv).0) &&
      (key.StrKey? && key.s != "" && ConvertName(key.s) == key.s && RewriteValue(value, conv).1 ==>
        Lookup(r, key) == RewriteValue(value, conv).0 &&
        (HasKey(data, key) ==> |r| == |data| && forall i :: 0 <= i < |data| ==> r[i].0 == data[i].0)) &&
      (key.StrKey? && key.s != "" && ConvertName(key.s) == key.s && !RewriteValue(value, conv).1 ==>
        r == data) &&
      (forall k :: k != key && !(key.StrKey? && k == StrKey(ConvertName(key.s))) ==>
        HasKey(r, k) == HasKey(data, k) && Lookup(r, k) == Lookup(data, k))
  {
    if key.StrKey? && key.s != "" && ConvertName(key.s) == key.s && HasKey(data, key) {
      PutKeepsPositions(data, key, RewriteValue(value, conv).0);
    }
  }

  /** The first loop: every entry of the original map, in order, applied to
      the working copy. */
  function RenameAll(data: PhpArray, entries: PhpArray, conv: Conversions): PhpArray
    decreases |entries|
  {
    if entries == [] then data
    else RenameAll(RenameStep(data, entries[0].0, entries[0].1, conv), entries[1..], conv)
  }

  /** The renamed map of `fromMap`. */
  function Renamed(data: PhpArray, conv: Conversions): PhpArray {
    RenameAll(data, data, conv)
  }

  lemma {:induction false} RenameAllUnique(data: PhpArray, entries: PhpArray, conv: Conversions)
    requires UniqueKeys(data)
    ensures UniqueKeys(RenameAll(data, entries, conv))
    decreases |entries|
  {
    if entries != [] {
      RenameStepEffect(data, entries[0].0, entries[0].1, conv);
      RenameAllUnique(RenameStep(data, entries[0].0, entries[0].1, conv), entries[1..], conv);
    }
  }

  lemma {:induction false} RenameAllDropsIntKeys(data: PhpArray, entries: PhpArray, conv: Conversions, i: int)
    requires UniqueKeys(data) && UniqueKeys(entries)
    requires HasKey(data, IntKey(i)) ==> HasKey(entries, IntKey(i))
    ensures !HasKey(RenameAll(data, entries, conv), IntKey(i))
    decreases |entries|
  {
    if entries == [] {
    } else {
      var next := RenameStep(data, entries[0].0, entries[0].1, conv);
      RenameStepEffect(data, entries[0].0, entries[0].1, conv);
      if HasKey(next, IntKey(i)) {
        assert entries[0].0 != IntKey(i);
        assert HasKey(entries[1..], IntKey(i));
      }
      RenameAllDropsIntKeys(next, entries[1..], conv, i);
    }
  }

  /** The renamed map has unique keys and no integer key: every non-string
      key of the input is removed. */
  lemma RenamedShape(data: PhpArray, conv: Conversions)
    requires UniqueKeys(data)
    ensures UniqueKeys(Renamed(data, conv))
    ensures forall i :: !HasKey(Renamed(data, conv), IntKey(i))
  {
    RenameAllUnique(data, data, conv);
    forall i
      ensures !HasKey(Renamed(data, conv), IntKey(i))
    {
      RenameAllDropsIntKeys(data, data, conv, i);
    }
  }

  /** A key renamed onto a key that comes later in the map overwrites that
      entry in place and removes itself; the later visit of the target sees
      its original value and, its name being unchanged and the value not
      rewritten, writes nothing. So `{"foo_bar": 1, "fooBar": 2}` ends as
      `{"fooBar": 1}`: the earlier entry wins. */
  lemma RenameOverwritesLater(k1: string, k2: string, v1: Value, v2: Value, conv: Conversions)
    requires k1 != "" && k2 != "" && k1 != k2
    requires ConvertName(k1) == k2 && ConvertName(k2) == k2
    requires !RewriteValue(v2, conv).1
    ensures Renamed([(StrKey(k1), v1), (StrKey(k2), v2)], conv) == [(StrKey(k2), RewriteValue(v1, conv).0)]
  {
    var d := [(StrKey(k1), v1), (StrKey(k2), v2)];
    var nv := RewriteValue(v1, conv).0;
    PutLaterKey(StrKey(k1), StrKey(k2), v1, v2, nv);
    UnsetFirstKey(StrKey(k1), StrKey(k2), v1, nv);
    var step1 := RenameStep(d, StrKey(k1), v1, conv);
    assert step1 == [(StrKey(k2), nv)];
    var step2 := RenameStep(step1, StrKey(k2), v2, conv);
    assert step2 == step1;
    assert d[1..] == [(StrKey(k2), v2)];
    assert RenameAll(d, d, conv) == RenameAll(step1, d[1..], conv);
    assert d[1..][1..] == [];
  }

  /** The example: `{"foo_bar": v1, "fooBar": v2}` ends as `{"fooBar": v1}`
      (with `v1` rewritten when it carries a marker). */
  lemma FooBarOverwritesLater(v1: Value, v2: Value, conv: Conversions)
    requires !RewriteValue(v2, conv).1
    ensures Renamed([(StrKey("foo_bar"), v1), (StrKey("fooBar"), v2)], conv) ==
      [(StrKey("fooBar"), RewriteValue(v1, conv).0)]
  {
    FooBarIsCamel();
    FooBarStays();
    assert "foo_bar"[3] != "fooBar"[3];
    RenameOverwritesLater("foo_bar", "fooBar", v1, v2, conv);
  }

  lemma PutLaterKey(k1: Key, k2: Key, v1: Value, v2: Value, nv: Value)
    requires k1 != k2
    ensures Put([(k1, v1), (k2, v2)], k2, nv) == [(k1, v1), (k2, nv)]
  {
    var d := [(k1, v1), (k2, v2)];
    assert d[1..] == [(k2, v2)];
    assert d[1..][1..] == [];
  }

  lemma UnsetFirstKey(k1: Key, k2: Key, v1: Value, nv: Value)
    requires k1 != k2
    ensures Unset([(k1, v1), (k2, nv)], k1) == [(k2, nv)]
  {
    var d := [(k1, v1), (k2, nv)];
    var t := [(k2, nv)];
    assert d[1..] == t;
    assert t[1..] == [];
    assert Unset(t, k1) == [(k2, nv)] + Unset([], k1);
  }

  // ----- assignment to declared properties -----

  /** The second loop of `fromMap` for one entry: only a string key naming a
      declared property is assigned. `assign(name, value)` is what PHP's
      property assignment stores, after the coercion the property's type
      applies in the default (non-strict) typing mode, or `None` when it
      throws a `TypeError`, which the loop swallows. */
  function AssignOne(props: map<string, Value>, key: Key, value: Value,
                     declared: set<string>, assign: (string, Value) -> Option<Value>): map<string, Value> {
    if key.StrKey? && key.s in declared && assign(key.s, value).Some? then props[key.s := assign(key.s, value).value]
    else props
  }

  function AssignAll(props: map<string, Value>, entries: PhpArray,
                     declared: set<string>, assign: (string, Value) -> Option<Value>): map<string, Value>
    decreases |entries|
  {
    if entries == [] then props
    else AssignAll(AssignOne(props, entries[0].0, entries[0].1, declared, assign), entries[1..], declared, assign)
  }

  /** Undeclared names are never assigned, and a property named by no entry
      keeps its value. */
  lemma {:induction false} AssignAllFrame(props: map<string, Value>, entries: PhpArray,
                                         declared: set<string>, assign: (string, Value) -> Option<Value>, n: string)
    requires n !in declared || !HasKey(entries, StrKey(n))
    ensures var r := AssignAll(props, entries, declared, assign);
      (n in r <==> n in props) && (n in r ==> r[n] == props[n])
    decreases |entries|
  {
    if entries != [] {
      AssignAllFrame(AssignOne(props, entries[0].0, entries[0].1, declared, assign), entries[1..], declared, assign, n);
    }
  }

  /** A declared property named by an entry holds what the assignment of
      that entry's value stores, coercion included; when the assignment
      throws, the property keeps its value (keys being unique). */
  lemma {:induction false} AssignAllSets(props: map<string, Value>, entries: PhpArray,
                                        declared: set<string>, assign: (string, Value) -> Option<Value>, n: string)
    requires UniqueKeys(entries) && n in declared && HasKey(entries, StrKey(n))
    ensures var r := AssignAll(props, entries, declared, assign);
      var stored := assign(n, Lookup(entries, StrKey(n)));
      (stored.Some? ==> n in r && r[n] == stored.value) &&
      (stored.None? ==> (n in r <==> n in props) && (n in r ==> r[n] == props[n]))
    decreases |entries|
  {
    var next := AssignOne(props, entries[0].0, entries[0].1, declared, assign);
    if entries[0].0 == StrKey(n) {
      AssignAllFrame(next, entries[1..], declared, assign, n);
    } else {
      AssignAllSets(next, entries[1..], declared, assign, n);
    }
  }

  /** An object using the trait: the names of its declared properties, what
      an assignment to each of them stores, and the property values. */
  class MapAbleObject {
    const declared: set<string>
    const assign: (string, Value) -> Option<Value>
    var props: map<string, Value>

    constructor (declared: set<string>, assign: (string, Value) -> Option<Value>, props: map<string, Value>)
      ensures this.declared == declared && this.assign == assign && this.props == props
    {
      this.declared := declared;
      this.assign := assign;
      this.props := props;
    }

    /** `fromMap($data)`. */
    method FromMap(data0: PhpArray, conv: Conversions)
      modifies this`props
      ensures props == AssignAll(old(props), Renamed(data0, conv), declared, assign)
    {
      var data := RenameEntries(data0, conv);
      var j := 0;
      ghost var props0 := props;
      while j < |data|
        invariant 0 <= j <= |data|
        invariant AssignAll(props, data[j..], declared, assign) == AssignAll(props0, data, declared, assign)
      {
        var pname, value := data[j].0, data[j].1;
        assert data[j..][1..] == data[j + 1..];
        if pname.StrKey? && pname.s in declared {
          var stored := assign(pname.s, value);
          if stored.Some? {
            props := props[pname.s := stored.value];
          }
        }
        j := j + 1;
      }
    }
  }
}

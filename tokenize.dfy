/** `TokenizeUtils`: the namespace, the imported classes and the class name of
    a PHP file, read from its token stream. The PHP version decides which of two
    scanning rules applies; it is the parameter `php8` here. */
module TokenizeUtils {
  import opened PhpCore
  import opened PhpStrings

  /** The token kinds the scanners test; every other kind is `OtherKind`. */
  datatype TokenKind = TNamespace | TNameQualified | TString | TNsSeparator | TUse | TClass | OtherKind(code: int)

  /** An element of the token stream: a single-character token, given as a
      plain string, or a `[kind, text, line]` triple. */
  datatype Token = Chr(text: string) | Tok(kind: TokenKind, text: string, line: int)

  // ----- isToken -----

  /** `isToken($arg0)`: an array of at least three elements whose elements 0,
      1 and 2 are an int, a string and an int. */
  predicate IsToken(v: Value) {
    v.Arr? && |v.entries| >= 3 &&
    Lookup(v.entries, IntKey(0)).Int? && Lookup(v.entries, IntKey(1)).Str? && Lookup(v.entries, IntKey(2)).Int?
  }

  /** A token as the tokenizer hands it over, with `code` the numbering of
      the kinds. */
  function TokenValue(t: Token, code: TokenKind -> int): Value {
    match t
    case Chr(s) => Str(s)
    case Tok(k, s, l) => Arr([(IntKey(0), Int(code(k))), (IntKey(1), Str(s)), (IntKey(2), Int(l))])
  }

  /** Exactly the triples of the stream are tokens, whatever the numbering. */
  lemma IsTokenExactlyTriples(t: Token, code: TokenKind -> int)
    ensures IsToken(TokenValue(t, code)) <==> t.Tok?
  {
    if t.Tok? {
      var es := [(IntKey(0), Int(code(t.kind))), (IntKey(1), Str(t.text)), (IntKey(2), Int(t.line))];
      assert es[1..][1..] == [(IntKey(2), Int(t.line))];
      assert Lookup(es[1..][1..], IntKey(2)) == Int(t.line);
      assert Lookup(es[1..], IntKey(2)) == Int(t.line);
      assert Lookup(es, IntKey(0)) == Int(code(t.kind));
      assert Lookup(es, IntKey(1)) == Str(t.text);
      assert Lookup(es, IntKey(2)) == Int(t.line);
    }
  }

  /** An array with fewer than three elements, or one whose element 1 is not
      a string, is not a token. */
  lemma NotTokenShapes(v: Value)
    ensures v.Arr? && |v.entries| < 3 ==> !IsToken(v)
    ensures v.Arr? && !Lookup(v.entries, IntKey(1)).Str? ==> !IsToken(v)
    ensures !v.Arr? ==> !IsToken(v)
  {
  }

  // ----- first-match searches -----

  /** `t` is a triple of the given kind, on the given line when one is given. */
  predicate IsKindOnLine(t: Token, kind: TokenKind, line: Option<int>) {
    t.Tok? && t.kind == kind && (line.None? || t.line == line.value)
  }

  /** Index of the first token at or after `from` of that kind (and line). */
  function FirstFrom(tokens: seq<Token>, kind: TokenKind, line: Option<int>, from: nat): (r: Option<nat>)
    ensures r.None? <==> forall j :: from <= j < |tokens| ==> !IsKindOnLine(tokens[j], kind, line)
    ensures r.Some? ==> (from <= r.value < |tokens| && IsKindOnLine(tokens[r.value], kind, line) &&
                         forall j :: from <= j < r.value ==> !IsKindOnLine(tokens[j], kind, line))
    decreases |tokens| - from
  {
    if from >= |tokens| then None
    else if IsKindOnLine(tokens[from], kind, line) then Some(from)
    else FirstFrom(tokens, kind, line, from + 1)
  }

  /** The search gives the first matching index. */
  lemma FirstFromAt(tokens: seq<Token>, kind: TokenKind, line: Option<int>, from: nat, i: nat)
    requires from <= i < |tokens| && IsKindOnLine(tokens[i], kind, line)
    requires forall j :: from <= j < i ==> !IsKindOnLine(tokens[j], kind, line)
    ensures FirstFrom(tokens, kind, line, from) == Some(i)
  {
  }

  /** The rule shared by `getNamespace` (PHP 8) and both forms of
      `getSimpleClassName`: find the first `anchor` token; give "" when there
      is none or its line is negative; otherwise give the text of the first
      `target` token on that line, searched from the start of the stream or,
      when `afterAnchor`, from just after the anchor; "" when there is none. */
  function TextOnAnchorLine(tokens: seq<Token>, anchor: TokenKind, target: TokenKind, afterAnchor: bool): string {
    match FirstFrom(tokens, anchor, None, 0)
    case None => ""
    case Some(i) =>
      var n1 := tokens[i].line;
      if n1 < 0 then ""
      else match FirstFrom(tokens, target, Some(n1), if afterAnchor then i + 1 else 0)
        case None => ""
        case Some(j) => tokens[j].text
  }

  /** Without an anchor token, or with it on a negative line, the result is "". */
  lemma TextOnAnchorLineEmpty(tokens: seq<Token>, anchor: TokenKind, target: TokenKind, afterAnchor: bool)
    ensures (forall k :: 0 <= k < |tokens| ==> !IsKindOnLine(tokens[k], anchor, None)) ==>
      TextOnAnchorLine(tokens, anchor, target, afterAnchor) == ""
    ensures forall i :: (0 <= i < |tokens| && IsKindOnLine(tokens[i], anchor, None) && tokens[i].line < 0 &&
                         forall k :: 0 <= k < i ==> !IsKindOnLine(tokens[k], anchor, None)) ==>
      TextOnAnchorLine(tokens, anchor, target, afterAnchor) == ""
  {
  }

  /** With the first anchor at `i` on line `n1 >= 0` and the first target on
      that line (after `i` when `afterAnchor`) at `j`, the result is the
      text of token `j`. */
  lemma TextOnAnchorLineFound(tokens: seq<Token>, anchor: TokenKind, target: TokenKind, afterAnchor: bool, i: nat, j: nat)
    requires i < |tokens| && IsKindOnLine(tokens[i], anchor, None) && tokens[i].line >= 0
    requires forall k :: 0 <= k < i ==> !IsKindOnLine(tokens[k], anchor, None)
    requires j < |tokens| && (afterAnchor ==> i < j) && IsKindOnLine(tokens[j], target, Some(tokens[i].line))
    requires forall k :: (if afterAnchor then i < k else 0 <= k) && k < j ==> !IsKindOnLine(tokens[k], target, Some(tokens[i].line))
    ensures TextOnAnchorLine(tokens, anchor, target, afterAnchor) == tokens[j].text
  {
    FirstFromAt(tokens, anchor, None, 0, i);
    FirstFromAt(tokens, target, Some(tokens[i].line), if afterAnchor then i + 1 else 0, j);
  }

  /** The search loops of the scanners: the first triple at or after `from`
      of that kind, and on that line when one is given. */
  method SearchFrom(tokens: seq<Token>, kind: TokenKind, line: Option<int>, from: nat) returns (r: Option<nat>)
    ensures r == FirstFrom(tokens, kind, line, from)
  {
    var i := from;
    while i < |tokens|
      invariant from <= i
      invariant forall k :: from <= k < i && k < |tokens| ==> !IsKindOnLine(tokens[k], kind, line)
    {
      var token := tokens[i];
      if token.Tok? && token.kind == kind && (line.None? || token.line == line.value) {
        FirstFromAt(tokens, kind, line, from, i);
        return Some(i);
      }
      i := i + 1;
    }
    return None;
  }

  /** The two loops of the anchor-line rule. */
  method FindTextOnAnchorLine(tokens: seq<Token>, anchor: TokenKind, target: TokenKind, afterAnchor: bool)
    returns (r: string)
    ensures r == TextOnAnchorLine(tokens, anchor, target, afterAnchor)
  {
    var a := SearchFrom(tokens, anchor, None, 0);
    if a.None? {
      return "";
    }
    var idx := a.value;
    var n1 := tokens[idx].line;
    if n1 < 0 {
      return "";
    }
    var b := SearchFrom(tokens, target, Some(n1), if afterAnchor then idx + 1 else 0);
    AnchorLineSteps(tokens, anchor, target, afterAnchor, idx, b);
    r := if b.None? then "" else tokens[b.value].text;
  }

  /** `TextOnAnchorLine` once the anchor search has given `idx` on a
      non-negative line and the target search has given `b`. */
  lemma AnchorLineSteps(tokens: seq<Token>, anchor: TokenKind, target: TokenKind, afterAnchor: bool, idx: nat, b: Option<nat>)
    requires FirstFrom(tokens, anchor, None, 0) == Some(idx)
    requires tokens[idx].line >= 0
    requires b == FirstFrom(tokens, target, Some(tokens[idx].line), if afterAnchor then idx + 1 else 0)
    ensures TextOnAnchorLine(tokens, anchor, target, afterAnchor) == if b.None? then "" else tokens[b.value].text
  {
  }

  // ----- getNamespacePhp7 -----

  predicate IsNamePart(kind: TokenKind) {
    kind == TString || kind == TNsSeparator
  }

  /** The second loop of `getNamespacePhp7` from index `k`: the name-part
      texts, up to the first triple on a line after `n1`. */
  function NameRun(tokens: seq<Token>, k: nat, n1: int): seq<string>
    decreases |tokens| - k
  {
    if k >= |tokens| then []
    else match tokens[k]
      case Chr(_) => NameRun(tokens, k + 1, n1)
      case Tok(kind, text, line) =>
        if line > n1 then []
        else (if IsNamePart(kind) then [text] else []) + NameRun(tokens, k + 1, n1)
  }

  /** The name-part texts of a stretch of tokens, in order. */
  function NameParts(ts: seq<Token>): seq<string> {
    if ts == [] then []
    else (if ts[0].Tok? && IsNamePart(ts[0].kind) then [ts[0].text] else []) + NameParts(ts[1..])
  }

  /** `getNamespacePhp7`: after the first `T_NAMESPACE`, the name parts up to
      the first triple on a later line, concatenated. */
  function NamespacePhp7Spec(tokens: seq<Token>): string {
    match FirstFrom(tokens, TNamespace, None, 0)
    case None => ""
    case Some(i) =>
      if tokens[i].line < 0 then "" else Concat(NameRun(tokens, i + 1, tokens[i].line))
  }

  /** The run from `k` is the name parts of the tokens before the first
      triple on a later line (`m`, or the end of the stream). */
  lemma {:induction false} NameRunStopsAtLaterLine(tokens: seq<Token>, k: nat, m: nat, n1: int)
    requires k <= m <= |tokens|
    requires forall x :: k <= x < m && tokens[x].Tok? ==> tokens[x].line <= n1
    requires m < |tokens| ==> tokens[m].Tok? && tokens[m].line > n1
    ensures NameRun(tokens, k, n1) == NameParts(tokens[k..m])
    decreases m - k
  {
    if k == m {
      assert tokens[k..m] == [];
    } else {
      NameRunStopsAtLaterLine(tokens, k + 1, m, n1);
      assert tokens[k..m][0] == tokens[k];
      assert tokens[k..m][1..] == tokens[k + 1..m];
    }
  }

  /** One step of the run: a triple on a later line ends it, a name part
      is kept, anything else is skipped. */
  lemma NameRunAt(tokens: seq<Token>, i: nat, n1: int)
    requires i < |tokens|
    ensures NameRun(tokens, i, n1) ==
      if tokens[i].Tok? && tokens[i].line > n1 then []
      else (if tokens[i].Tok? && IsNamePart(tokens[i].kind) then [tokens[i].text] else []) + NameRun(tokens, i + 1, n1)
  {
  }

  /** The second loop of `getNamespacePhp7`. */
  method CollectNameRun(tokens: seq<Token>, start: nat, n1: int) returns (sb: seq<string>)
    ensures sb == NameRun(tokens, start, n1)
  {
    sb := [];
    var i := start;
    while i < |tokens|
      invariant start <= i
      invariant sb + NameRun(tokens, i, n1) == NameRun(tokens, start, n1)
      decreases |tokens| - i
    {
      var token := tokens[i];
      NameRunAt(tokens, i, n1);
      if token.Tok? && token.line > n1 {
        assert sb + [] == sb;
        break;
      }
      if token.Tok? && (token.kind == TString || token.kind == TNsSeparator) {
        assert sb + NameRun(tokens, i, n1) == (sb + [token.text]) + NameRun(tokens, i + 1, n1);
        sb := sb + [token.text];
      }
      i := i + 1;
    }
    if i >= |tokens| {
      assert sb + [] == sb;
    }
  }

  method NamespacePhp7(tokens: seq<Token>) returns (r: string)
    ensures r == NamespacePhp7Spec(tokens)
  {
    var a := SearchFrom(tokens, TNamespace, None, 0);
    if a.None? {
      return "";
    }
    var idx := a.value;
    var n1 := tokens[idx].line;
    if n1 < 0 {
      return "";
    }
    var sb := CollectNameRun(tokens, idx + 1, n1);
    r := if sb == [] then "" else Concat(sb);
  }

  // ----- getUsedClasses -----

  /** The lines of the `T_USE` triples, in order, one per triple. */
  function UseLines(ts: seq<Token>): seq<int> {
    if ts == [] then []
    else UseLines(ts[..|ts| - 1]) + (if IsKindOnLine(ts[|ts| - 1], TUse, None) then [ts[|ts| - 1].line] else [])
  }

  /** A line is a use line exactly when some `T_USE` triple sits on it. */
  lemma {:induction false} UseLinesMembers(ts: seq<Token>, n: int)
    ensures n in UseLines(ts) <==> exists u :: 0 <= u < |ts| && IsKindOnLine(ts[u], TUse, Some(n))
  {
    if ts != [] {
      var init := ts[..|ts| - 1];
      UseLinesMembers(init, n);
      if n in UseLines(init) {
        var u :| 0 <= u < |init| && IsKindOnLine(init[u], TUse, Some(n));
        assert ts[u] == init[u];
      } else if exists u :: 0 <= u < |ts| && IsKindOnLine(ts[u], TUse, Some(n)) {
        var u :| 0 <= u < |ts| && IsKindOnLine(ts[u], TUse, Some(n));
        if u < |init| {
          assert init[u] == ts[u];
        }
      }
    }
  }

  /** The texts of the `T_NAME_QUALIFIED` triples on one of the `nums` lines. */
  function QualifiedOnLines(ts: seq<Token>, nums: seq<int>): seq<string> {
    if ts == [] then []
    else
      var t := ts[|ts| - 1];
      QualifiedOnLines(ts[..|ts| - 1], nums) + (if IsKindOnLine(t, TNameQualified, None) && t.line in nums then [t.text] else [])
  }

  /** `getUsedClasses` under PHP 8. */
  function UsedClassesPhp8Spec(tokens: seq<Token>): seq<string> {
    var nums := UseLines(tokens);
    if nums == [] then [] else QualifiedOnLines(tokens, nums)
  }

  lemma {:induction false} QualifiedOnLinesMembers(ts: seq<Token>, nums: seq<int>, x: string)
    ensures x in QualifiedOnLines(ts, nums) <==>
      exists j :: 0 <= j < |ts| && IsKindOnLine(ts[j], TNameQualified, None) && ts[j].line in nums && ts[j].text == x
  {
    if ts != [] {
      var init := ts[..|ts| - 1];
      QualifiedOnLinesMembers(init, nums, x);
      if x in QualifiedOnLines(init, nums) {
        var j :| 0 <= j < |init| && IsKindOnLine(init[j], TNameQualified, None) && init[j].line in nums && init[j].text == x;
        assert ts[j] == init[j];
      } else if exists j :: 0 <= j < |ts| && IsKindOnLine(ts[j], TNameQualified, None) && ts[j].line in nums && ts[j].text == x {
        var j :| 0 <= j < |ts| && IsKindOnLine(ts[j], TNameQualified, None) && ts[j].line in nums && ts[j].text == x;
        if j < |init| {
          assert init[j] == ts[j];
        }
      }
    }
  }

  /** Under PHP 8 a name is reported exactly when it is the text of a
      `T_NAME_QUALIFIED` triple on a line that holds a `T_USE` triple. */
  lemma UsedClassesPhp8Members(tokens: seq<Token>, x: string)
    ensures x in UsedClassesPhp8Spec(tokens) <==>
      exists j :: 0 <= j < |tokens| && IsKindOnLine(tokens[j], TNameQualified, None) && tokens[j].text == x &&
        exists u :: 0 <= u < |tokens| && IsKindOnLine(tokens[u], TUse, Some(tokens[j].line))
  {
    QualifiedOnLinesMembers(tokens, UseLines(tokens), x);
    forall j | 0 <= j < |tokens|
      ensures tokens[j].Tok? ==> (tokens[j].line in UseLines(tokens) <==>
        exists u :: 0 <= u < |tokens| && IsKindOnLine(tokens[u], TUse, Some(tokens[j].line)))
    {
      if tokens[j].Tok? {
        UseLinesMembers(tokens, tokens[j].line);
      }
    }
  }

  /** The texts of the name-part triples on line `ln`, in order. */
  function LineParts(ts: seq<Token>, ln: int): seq<string> {
    if ts == [] then []
    else
      var t := ts[|ts| - 1];
      LineParts(ts[..|ts| - 1], ln) + (if t.Tok? && t.line == ln && IsNamePart(t.kind) then [t.text] else [])
  }

  /** The entries of `getUsedClassesPhp7` for the use lines `lines`: one per
      line with name parts, their concatenation with a leading `\`. */
  function UseEntries(tokens: seq<Token>, lines: seq<int>): (r: seq<string>)
    ensures |r| <= |lines|
    ensures forall k :: 0 <= k < |r| ==> StartsWith(r[k], "\\")
  {
    if lines == [] then []
    else
      var sb := LineParts(tokens, lines[|lines| - 1]);
      UseEntries(tokens, lines[..|lines| - 1]) + (if sb == [] then [] else [EnsureLeft(Concat(sb), "\\")])
  }

  /** `getUsedClassesPhp7`. */
  function UsedClassesPhp7Spec(tokens: seq<Token>): seq<string> {
    UseEntries(tokens, UseLines(tokens))
  }

  /** At most one entry per `T_USE` triple, each starting with `\`. */
  lemma UsedClassesPhp7Shape(tokens: seq<Token>)
    ensures |UsedClassesPhp7Spec(tokens)| <= |UseLines(tokens)| <= |tokens|
    ensures forall k :: 0 <= k < |UsedClassesPhp7Spec(tokens)| ==> StartsWith(UsedClassesPhp7Spec(tokens)[k], "\\")
  {
    UseLinesLength(tokens);
  }

  lemma {:induction false} UseLinesLength(ts: seq<Token>)
    ensures |UseLines(ts)| <= |ts|
  {
    if ts != [] {
      UseLinesLength(ts[..|ts| - 1]);
    }
  }

  method CollectUseLines(tokens: seq<Token>) returns (nums: seq<int>)
    ensures nums == UseLines(tokens)
  {
    nums := [];
    var i := 0;
    while i < |tokens|
      invariant 0 <= i <= |tokens|
      invariant nums == UseLines(tokens[..i])
    {
      assert tokens[..i + 1][..i] == tokens[..i];
      if tokens[i].Tok? && tokens[i].kind == TUse {
        nums := nums + [tokens[i].line];
      }
      i := i + 1;
    }
    assert tokens[..|tokens|] == tokens;
  }

  method UsedClassesPhp8(tokens: seq<Token>) returns (classes: seq<string>)
    ensures classes == UsedClassesPhp8Spec(tokens)
  {
    var nums := CollectUseLines(tokens);
    if nums == [] {
      return [];
    }
    classes := [];
    var i := 0;
    while i < |tokens|
      invariant 0 <= i <= |tokens|
      invariant classes == QualifiedOnLines(tokens[..i], nums)
    {
      assert tokens[..i + 1][..i] == tokens[..i];
      var token := tokens[i];
      if token.Tok? && token.kind == TNameQualified && token.line in nums {
        classes := classes + [token.text];
      }
      i := i + 1;
    }
    assert tokens[..|tokens|] == tokens;
  }

  /** The inner loop of `getUsedClassesPhp7`: the name-part texts on one line. */
  method CollectLineParts(tokens: seq<Token>, lineNumber: int) returns (sb: seq<string>)
    ensures sb == LineParts(tokens, lineNumber)
  {
    sb := [];
    var i := 0;
    while i < |tokens|
      invariant 0 <= i <= |tokens|
      invariant sb == LineParts(tokens[..i], lineNumber)
    {
      assert tokens[..i + 1][..i] == tokens[..i];
      var token := tokens[i];
      if token.Tok? && token.line == lineNumber && (token.kind == TString || token.kind == TNsSeparator) {
        sb := sb + [token.text];
      }
      i := i + 1;
    }
    assert tokens[..|tokens|] == tokens;
  }

  method UsedClassesPhp7(tokens: seq<Token>) returns (classes: seq<string>)
    ensures classes == UsedClassesPhp7Spec(tokens)
  {
    var lineNumbers := CollectUseLines(tokens);
    classes := [];
    var k := 0;
    while k < |lineNumbers|
      invariant 0 <= k <= |lineNumbers|
      invariant classes == UseEntries(tokens, lineNumbers[..k])
    {
      var lineNumber := lineNumbers[k];
      var sb := CollectLineParts(tokens, lineNumber);
      assert lineNumbers[..k + 1][..k] == lineNumbers[..k];
      if sb != [] {
        classes := classes + [EnsureLeft(Concat(sb), "\\")];
      }
      k := k + 1;
    }
    assert lineNumbers[..|lineNumbers|] == lineNumbers;
  }

  // ----- version dispatch and getQualifiedClassName -----

  function NamespaceSpec(tokens: seq<Token>, php8: bool): string {
    if php8 then TextOnAnchorLine(tokens, TNamespace, TNameQualified, false) else NamespacePhp7Spec(tokens)
  }

  /** PHP 8 looks for the class name anywhere on the `T_CLASS` line, PHP 7
      only after the `T_CLASS` token. */
  function SimpleClassNameSpec(tokens: seq<Token>, php8: bool): string {
    TextOnAnchorLine(tokens, TClass, TString, !php8)
  }

  /** `getNamespace`. */
  method GetNamespace(tokens: seq<Token>, php8: bool) returns (r: string)
    ensures r == NamespaceSpec(tokens, php8)
  {
    if !php8 {
      r := NamespacePhp7(tokens);
    } else {
      r := FindTextOnAnchorLine(tokens, TNamespace, TNameQualified, false);
    }
  }

  /** `getUsedClasses`. */
  method GetUsedClasses(tokens: seq<Token>, php8: bool) returns (r: seq<string>)
    ensures r == (if php8 then UsedClassesPhp8Spec(tokens) else UsedClassesPhp7Spec(tokens))
  {
    if !php8 {
      r := UsedClassesPhp7(tokens);
    } else {
      r := UsedClassesPhp8(tokens);
    }
  }

  /** `getSimpleClassName`. */
  method GetSimpleClassName(tokens: seq<Token>, php8: bool) returns (r: string)
    ensures r == SimpleClassNameSpec(tokens, php8)
  {
    r := FindTextOnAnchorLine(tokens, TClass, TString, !php8);
  }

  /** `getQualifiedClassName`: "" when the simple class name is empty in
      PHP's sense ("" or "0"); otherwise a `\`-prefixed result ending with
      the class name, prefixed in turn by the `\`-prefixed namespace when that
      is not empty. */
  method GetQualifiedClassName(tokens: seq<Token>, php8: bool) returns (r: string)
    ensures r == "" <==> IsEmptyString(SimpleClassNameSpec(tokens, php8))
    ensures r != "" ==> StartsWith(r, "\\") && EndsWith(r, SimpleClassNameSpec(tokens, php8))
    ensures r != "" && IsEmptyString(NamespaceSpec(tokens, php8)) ==>
      r == EnsureLeft(SimpleClassNameSpec(tokens, php8), "\\")
    ensures r != "" && !IsEmptyString(NamespaceSpec(tokens, php8)) ==>
      r == EnsureLeft(NamespaceSpec(tokens, php8), "\\") + EnsureLeft(SimpleClassNameSpec(tokens, php8), "\\")
  {
    var namespace := GetNamespace(tokens, php8);
    var className := GetSimpleClassName(tokens, php8);
    if IsEmptyString(className) {
      return "";
    }
    var cls := EnsureLeft(className, "\\");
    if IsEmptyString(namespace) {
      return cls;
    }
    var ns := EnsureLeft(namespace, "\\");
    r := ns + cls;
    JoinKeepsEnds(ns, cls, className);
  }

  /** Joining a `\`-prefixed namespace to a class part keeps the leading `\`
      and the class name at the end. */
  lemma JoinKeepsEnds(ns: string, cls: string, name: string)
    requires StartsWith(ns, "\\") && EndsWith(cls, name)
    ensures StartsWith(ns + cls, "\\") && EndsWith(ns + cls, name)
  {
    var r := ns + cls;
    assert r[..1] == ns[..1];
    assert r[|r| - |name|..] == cls[|cls| - |name|..];
  }
}

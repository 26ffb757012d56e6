/** `ReflectUtils`: choosing the getter and the setter of a property among a
    class's methods, finding an annotation by class name, and resolving the
    map key and the map value that belong to a property. Reflection objects
    are plain records here. */
module ReflectUtils {
  import opened PhpCore
  import opened PhpStrings

  /** A declared type: a `ReflectionNamedType` with its name, no type at all,
      or any other kind of type (a union or an intersection). */
  datatype TypeRef = Untyped | Named(name: string) | Composite

  /** A public method: its name, the types of its parameters and its return
      type. */
  datatype MethodInfo = MethodInfo(name: string, params: seq<TypeRef>, returnType: TypeRef)

  /** A property: its name and declared type. */
  datatype PropertyInfo = PropertyInfo(name: string, ptype: TypeRef)

  /** An annotation (PHP 7) or attribute (PHP 8): its class name, whether it
      has a `getValue` method, and what that method returns. From PHP 8 on the
      record stands for a `ReflectionAttribute`, and the last two fields
      describe only the object `buildAnno` makes of it. */
  datatype Annotation = Annotation(className: string, hasGetValue: bool, value: Value)

  /** The method list a selection scans: the given one, or, when it is empty,
      the public methods of the declaring class. */
  function Candidates(methods: seq<MethodInfo>, declared: seq<MethodInfo>): seq<MethodInfo> {
    if methods == [] then declared else methods
  }

  /** The strict-mode type test: both types are named and the names agree. */
  predicate SameNamedType(fieldType: TypeRef, t: TypeRef) {
    fieldType.Named? && t.Named? && t.name == fieldType.name
  }

  // ----- getters -----

  /** The name test of a getter for the lower-cased field name `field`: the
      lower-cased method name is `get` + `field`, or the two names agree once
      both carry the prefix `is`. */
  predicate IsGetterName(field: string, methodName: string) {
    Lower(methodName) == "get" + field || EnsureLeft(field, "is") == EnsureLeft(Lower(methodName), "is")
  }

  predicate GetterMatches(p: PropertyInfo, m: MethodInfo, strict: bool) {
    (!strict || SameNamedType(p.ptype, m.returnType)) && IsGetterName(Lower(p.name), m.name)
  }

  /** Index of the first method at or after `from` that is a getter of `p`. */
  function GetterHits(p: PropertyInfo, ms: seq<MethodInfo>, strict: bool): (bs: seq<bool>)
    ensures |bs| == |ms|
    ensures forall j :: 0 <= j < |ms| ==> bs[j] == GetterMatches(p, ms[j], strict)
  {
    seq(|ms|, j requires 0 <= j < |ms| => GetterMatches(p, ms[j], strict))
  }

  function FirstGetter(p: PropertyInfo, ms: seq<MethodInfo>, strict: bool, from: nat): (r: Option<nat>)
    ensures r.None? <==> forall j :: from <= j < |ms| ==> !GetterMatches(p, ms[j], strict)
    ensures r.Some? ==> (from <= r.value < |ms| && GetterMatches(p, ms[r.value], strict) &&
                         forall j :: from <= j < r.value ==> !GetterMatches(p, ms[j], strict))
  {
    FirstTrue(GetterHits(p, ms, strict), from)
  }

  lemma FirstGetterAt(p: PropertyInfo, ms: seq<MethodInfo>, strict: bool, i: nat)
    requires i < |ms| && GetterMatches(p, ms[i], strict)
    requires forall j :: 0 <= j < i ==> !GetterMatches(p, ms[j], strict)
    ensures FirstGetter(p, ms, strict, 0) == Some(i)
  {
  }

  /** The method at an index found by a search, or null. */
  function At(ms: seq<MethodInfo>, i: Option<nat>): Option<MethodInfo>
    requires i.Some? ==> i.value < |ms|
  {
    if i.None? then None else Some(ms[i.value])
  }

  /** The getter `getGetter` returns: the first candidate passing the tests.
      Before PHP 8 strict mode is not looked at. */
  function GetterSpec(p: PropertyInfo, methods: seq<MethodInfo>, declared: seq<MethodInfo>,
                      strict: bool, php8: bool): Option<MethodInfo>
  {
    var ms := Candidates(methods, declared);
    At(ms, FirstGetter(p, ms, php8 && strict, 0))
  }

  /** The `foreach` of `getGetter` and `getGetterPhp7`, with its `break`. */
  method ScanGetter(p: PropertyInfo, ms: seq<MethodInfo>, strict: bool) returns (getter: Option<MethodInfo>)
    ensures getter == At(ms, FirstGetter(p, ms, strict, 0))
  {
    var fieldName := Lower(p.name);
    getter := None;
    var i := 0;
    while i < |ms|
      invariant 0 <= i <= |ms|
      invariant forall j :: 0 <= j < i ==> !GetterMatches(p, ms[j], strict)
      invariant getter == None
    {
      var m := ms[i];
      if strict && !SameNamedType(p.ptype, m.returnType) {
        i := i + 1;
        continue;
      }
      if Lower(m.name) == "get" + fieldName {
        FirstGetterAt(p, ms, strict, i);
        getter := Some(m);
        break;
      }
      var s1 := EnsureLeft(fieldName, "is");
      var s2 := EnsureLeft(Lower(m.name), "is");
      if s1 == s2 {
        FirstGetterAt(p, ms, strict, i);
        getter := Some(m);
        break;
      }
      i := i + 1;
    }
  }

  /** `getGetterPhp7($property, $methods)`. */
  method GetGetterPhp7(p: PropertyInfo, methods: seq<MethodInfo>, declared: seq<MethodInfo>)
    returns (getter: Option<MethodInfo>)
    ensures getter == GetterSpec(p, methods, declared, false, false)
  {
    var ms := if methods == [] then declared else methods;
    if ms == [] {
      return None;
    }
    getter := ScanGetter(p, ms, false);
  }

  /** `getGetter($property, $methods, $strictMode)`. */
  method GetGetter(p: PropertyInfo, methods: seq<MethodInfo>, declared: seq<MethodInfo>,
                   strict: bool, php8: bool)
    returns (getter: Option<MethodInfo>)
    ensures getter == GetterSpec(p, methods, declared, strict, php8)
  {
    if !php8 {
      getter := GetGetterPhp7(p, methods, declared);
      return;
    }
    var ms := if methods == [] then declared else methods;
    if ms == [] {
      return None;
    }
    getter := ScanGetter(p, ms, strict);
  }

  /** The getter found is the earliest candidate passing the tests: none
      before it passes, and there is none exactly when no candidate passes. */
  lemma GetterIsEarliest(p: PropertyInfo, methods: seq<MethodInfo>, declared: seq<MethodInfo>,
                         strict: bool, php8: bool)
    ensures var ms := Candidates(methods, declared);
      var g := GetterSpec(p, methods, declared, strict, php8);
      (g.None? <==> forall j :: 0 <= j < |ms| ==> !GetterMatches(p, ms[j], php8 && strict)) &&
      (g.Some? ==> exists i :: 0 <= i < |ms| && ms[i] == g.value &&
                              GetterMatches(p, ms[i], php8 && strict) &&
                              forall j :: 0 <= j < i ==> !GetterMatches(p, ms[j], php8 && strict))
  {
    var ms := Candidates(methods, declared);
    var r := FirstGetter(p, ms, php8 && strict, 0);
    if r.Some? {
      assert ms[r.value] == GetterSpec(p, methods, declared, strict, php8).value;
    }
  }

  /** Strict mode only narrows the choice: without a loose getter there is no
      strict one, and a strict getter passes the loose name test. */
  lemma StrictGetterIsLooseGetter(p: PropertyInfo, ms: seq<MethodInfo>, from: nat)
    ensures FirstGetter(p, ms, false, from).None? ==> FirstGetter(p, ms, true, from).None?
    ensures FirstGetter(p, ms, true, from).Some? ==>
      GetterMatches(p, ms[FirstGetter(p, ms, true, from).value], false)
    ensures FirstGetter(p, ms, true, from).Some? ==>
      FirstGetter(p, ms, false, from).value <= FirstGetter(p, ms, true, from).value
  {
    var strictFirst := FirstGetter(p, ms, true, from);
    if strictFirst.Some? {
      assert GetterMatches(p, ms[strictFirst.value], false);
    }
  }

  /** A method named like the field (ignoring case) always passes the name
      test, as does `get` + the field name. */
  lemma GetterNameForms(field: string, methodName: string)
    ensures Lower(methodName) == Lower(field) ==> IsGetterName(Lower(field), methodName)
    ensures Lower(methodName) == "get" + Lower(field) ==> IsGetterName(Lower(field), methodName)
  {
  }

  /** The `is` rule in both directions: `isActive()` is a getter of a field
      `active`, and `active()` is a getter of a field `isActive`. */
  lemma IsPrefixGetter(field: string, methodName: string)
    requires field == Lower(field)
    requires (Lower(methodName) == "is" + field && !StartsWith(field, "is")) ||
             (field == "is" + Lower(methodName) && !StartsWith(Lower(methodName), "is"))
    ensures IsGetterName(field, methodName)
  {
    var lm := Lower(methodName);
    if lm == "is" + field {
      assert StartsWith(lm, "is") by { assert lm[..2] == "is"; }
    } else {
      assert StartsWith(field, "is") by { assert field[..2] == "is"; }
    }
  }

  // ----- setters -----

  /** A setter of `p`: exactly one parameter, in strict mode of the field's
      named type, and the lower-cased name `set` + the lower-cased field name. */
  predicate SetterMatches(p: PropertyInfo, m: MethodInfo, strict: bool) {
    |m.params| == 1 &&
    (!strict || SameNamedType(p.ptype, m.params[0])) &&
    Lower(m.name) == "set" + Lower(p.name)
  }

  function SetterHits(p: PropertyInfo, ms: seq<MethodInfo>, strict: bool): (bs: seq<bool>)
    ensures |bs| == |ms|
    ensures forall j :: 0 <= j < |ms| ==> bs[j] == SetterMatches(p, ms[j], strict)
  {
    seq(|ms|, j requires 0 <= j < |ms| => SetterMatches(p, ms[j], strict))
  }

  function FirstSetter(p: PropertyInfo, ms: seq<MethodInfo>, strict: bool, from: nat): (r: Option<nat>)
    ensures r.None? <==> forall j :: from <= j < |ms| ==> !SetterMatches(p, ms[j], strict)
    ensures r.Some? ==> (from <= r.value < |ms| && SetterMatches(p, ms[r.value], strict) &&
                         forall j :: from <= j < r.value ==> !SetterMatches(p, ms[j], strict))
  {
    FirstTrue(SetterHits(p, ms, strict), from)
  }

  lemma FirstSetterAt(p: PropertyInfo, ms: seq<MethodInfo>, strict: bool, i: nat)
    requires i < |ms| && SetterMatches(p, ms[i], strict)
    requires forall j :: 0 <= j < i ==> !SetterMatches(p, ms[j], strict)
    ensures FirstSetter(p, ms, strict, 0) == Some(i)
  {
  }

  function SetterSpec(p: PropertyInfo, methods: seq<MethodInfo>, declared: seq<MethodInfo>,
                      strict: bool, php8: bool): Option<MethodInfo>
  {
    var ms := Candidates(methods, declared);
    At(ms, FirstSetter(p, ms, php8 && strict, 0))
  }

  /** The `foreach` of `getSetter` and `getSetterPhp7`. */
  method ScanSetter(p: PropertyInfo, ms: seq<MethodInfo>, strict: bool) returns (setter: Option<MethodInfo>)
    ensures setter == At(ms, FirstSetter(p, ms, strict, 0))
  {
    var fieldName := Lower(p.name);
    setter := None;
    var i := 0;
    while i < |ms|
      invariant 0 <= i <= |ms|
      invariant forall j :: 0 <= j < i ==> !SetterMatches(p, ms[j], strict)
      invariant setter == None
    {
      var m := ms[i];
      var args := m.params;
      if |args| != 1 {
        i := i + 1;
        continue;
      }
      if strict && !SameNamedType(p.ptype, args[0]) {
        i := i + 1;
        continue;
      }
      if Lower(m.name) == "set" + fieldName {
        FirstSetterAt(p, ms, strict, i);
        setter := Some(m);
        break;
      }
      i := i + 1;
    }
  }

  /** `getSetterPhp7($property, $methods)`. */
  method GetSetterPhp7(p: PropertyInfo, methods: seq<MethodInfo>, declared: seq<MethodInfo>)
    returns (setter: Option<MethodInfo>)
    ensures setter == SetterSpec(p, methods, declared, false, false)
  {
    var ms := if methods == [] then declared else methods;
    if ms == [] {
      return None;
    }
    setter := ScanSetter(p, ms, false);
  }

  /** `getSetter($property, $methods, $strictMode)`. */
  method GetSetter(p: PropertyInfo, methods: seq<MethodInfo>, declared: seq<MethodInfo>,
                   strict: bool, php8: bool)
    returns (setter: Option<MethodInfo>)
    ensures setter == SetterSpec(p, methods, declared, strict, php8)
  {
    if !php8 {
      setter := GetSetterPhp7(p, methods, declared);
      return;
    }
    var ms := if methods == [] then declared else methods;
    if ms == [] {
      return None;
    }
    setter := ScanSetter(p, ms, strict);
  }

  /** The setter found takes exactly one argument, is named `set` + the field
      name up to case, and is the earliest such candidate. */
  lemma SetterIsEarliest(p: PropertyInfo, methods: seq<MethodInfo>, declared: seq<MethodInfo>,
                         strict: bool, php8: bool)
    ensures var ms := Candidates(methods, declared);
      var s := SetterSpec(p, methods, declared, strict, php8);
      (s.None? <==> forall j :: 0 <= j < |ms| ==> !SetterMatches(p, ms[j], php8 && strict)) &&
      (s.Some? ==> |s.value.params| == 1 && Lower(s.value.name) == "set" + Lower(p.name) &&
                   exists i :: 0 <= i < |ms| && ms[i] == s.value &&
                               forall j :: 0 <= j < i ==> !SetterMatches(p, ms[j], php8 && strict))
  {
    var ms := Candidates(methods, declared);
    var r := FirstSetter(p, ms, php8 && strict, 0);
    if r.Some? {
      assert ms[r.value] == SetterSpec(p, methods, declared, strict, php8).value;
    }
  }

  /** The name test ignores case: two methods whose names agree up to case
      and whose parameters agree are both setters or neither is. */
  lemma SetterIgnoresCase(p: PropertyInfo, m1: MethodInfo, m2: MethodInfo, strict: bool)
    requires Lower(m1.name) == Lower(m2.name) && m1.params == m2.params
    ensures SetterMatches(p, m1, strict) <==> SetterMatches(p, m2, strict)
  {
  }

  // ----- annotation lookup -----

  /** `strpos(ensureLeft($className, '\\'), $annoClass) !== false`. Before
      PHP 8 an empty needle gives `false` (with a warning); from PHP 8 on it
      is found at 0. */
  predicate AnnotationMatches(a: Annotation, annoClass: string, php8: bool) {
    (annoClass == "" && php8) || (annoClass != "" && Contains(EnsureLeft(a.className, "\\"), annoClass))
  }

  /** Which annotations match, in order. */
  function Hits(annos: seq<Annotation>, annoClass: string, php8: bool): (bs: seq<bool>)
    ensures |bs| == |annos|
    ensures forall j :: 0 <= j < |annos| ==> bs[j] == AnnotationMatches(annos[j], annoClass, php8)
  {
    seq(|annos|, j requires 0 <= j < |annos| => AnnotationMatches(annos[j], annoClass, php8))
  }

  function FirstAnnotation(annos: seq<Annotation>, annoClass: string, php8: bool, from: nat): (r: Option<nat>)
    ensures r.None? <==> forall j :: from <= j < |annos| ==> !AnnotationMatches(annos[j], annoClass, php8)
    ensures r.Some? ==> (from <= r.value < |annos| && AnnotationMatches(annos[r.value], annoClass, php8) &&
                         forall j :: from <= j < r.value ==> !AnnotationMatches(annos[j], annoClass, php8))
  {
    FirstTrue(Hits(annos, annoClass, php8), from)
  }

  lemma FirstAnnotationAt(annos: seq<Annotation>, annoClass: string, php8: bool, i: nat)
    requires i < |annos| && AnnotationMatches(annos[i], annoClass, php8)
    requires forall j :: 0 <= j < i ==> !AnnotationMatches(annos[j], annoClass, php8)
    ensures FirstAnnotation(annos, annoClass, php8, 0) == Some(i)
  {
  }

  /** What the lookup returns: the first matching annotation itself before
      PHP 8; from PHP 8 on what `buildAnno` makes of the first matching
      attribute (instantiation is not part of this model, so `build` is a
      parameter), which may be null. */
  function AnnotationSpec(annos: seq<Annotation>, annoClass: string, php8: bool,
                          build: Annotation -> Option<Annotation>): Option<Annotation>
  {
    match FirstAnnotation(annos, annoClass, php8, 0)
    case None => None
    case Some(i) => if php8 then build(annos[i]) else Some(annos[i])
  }

  /** The loop shared by `getClassAnnotation`, `getMethodAnnotation`,
      `getPropertyAnnotation` and their PHP 7 forms, with its early return. */
  method FindAnnotation(annos: seq<Annotation>, annoClass: string, php8: bool,
                        build: Annotation -> Option<Annotation>)
    returns (r: Option<Annotation>)
    ensures r == AnnotationSpec(annos, annoClass, php8, build)
  {
    if !php8 && annos == [] {
      return None;
    }
    var i := 0;
    while i < |annos|
      invariant 0 <= i <= |annos|
      invariant forall j :: 0 <= j < i ==> !AnnotationMatches(annos[j], annoClass, php8)
    {
      var anno := annos[i];
      var clazz := EnsureLeft(anno.className, "\\");
      var found := if annoClass == "" then php8 else Contains(clazz, annoClass);
      if found {
        FirstAnnotationAt(annos, annoClass, php8, i);
        if php8 {
          return build(anno);
        }
        return Some(anno);
      }
      i := i + 1;
    }
    return None;
  }

  /** `getParameterAnnotation`: always null before PHP 8. */
  method FindParameterAnnotation(annos: seq<Annotation>, annoClass: string, php8: bool,
                                 build: Annotation -> Option<Annotation>)
    returns (r: Option<Annotation>)
    ensures !php8 ==> r.None?
    ensures php8 ==> r == AnnotationSpec(annos, annoClass, true, build)
  {
    if !php8 {
      return None;
    }
    r := FindAnnotation(annos, annoClass, true, build);
  }

  /** The match is a substring test on the `\`-prefixed class name: a short
      name finds a namespaced annotation, and so does any fragment of it;
      before PHP 8 the empty name finds nothing. */
  lemma AnnotationMatchIsSubstring(a: Annotation, annoClass: string, php8: bool)
    ensures annoClass != "" ==>
      (AnnotationMatches(a, annoClass, php8) <==> Contains(EnsureLeft(a.className, "\\"), annoClass))
    ensures annoClass == "" ==> (AnnotationMatches(a, annoClass, php8) <==> php8)
  {
  }

  /** A needle at the end of a text is contained in it. */
  lemma {:induction false} ContainsSuffix(s: string, p: string)
    requires EndsWith(s, p)
    ensures Contains(s, p)
    decreases |s|
  {
    if StartsWith(s, p) {
    } else {
      assert s != [];
      assert s[1..][|s[1..]| - |p|..] == s[|s| - |p|..];
      ContainsSuffix(s[1..], p);
    }
  }

  /** An annotation finds itself by its unqualified class name, whatever
      namespace precedes it. */
  lemma AnnotationFoundByShortName(ns: string, short: string, php8: bool)
    requires short != ""
    ensures AnnotationMatches(Annotation(ns + "\\" + short, false, Null), short, php8)
  {
    var name := ns + "\\" + short;
    var full := EnsureLeft(name, "\\");
    assert EndsWith(name, short) by {
      assert name[|name| - |short|..] == short;
    }
    EndsWithTransitive(full, name, short);
    ContainsSuffix(full, short);
  }

  lemma EndsWithTransitive(a: string, b: string, c: string)
    requires EndsWith(a, b) && EndsWith(b, c)
    ensures EndsWith(a, c)
  {
    assert a[|a| - |c|..] == a[|a| - |b|..][|b| - |c|..];
  }

  // ----- map keys and map values -----

  /** The annotation test of `getMapKeyByProperty`: a non-empty class name
      ending in `MapKey`. */
  predicate IsMapKeyAnnotation(a: Annotation) {
    a.className != "" && EndsWith(a.className, "MapKey")
  }

  function MapKeyHits(annos: seq<Annotation>): (bs: seq<bool>)
    ensures |bs| == |annos|
    ensures forall j :: 0 <= j < |annos| ==> bs[j] == IsMapKeyAnnotation(annos[j])
  {
    seq(|annos|, j requires 0 <= j < |annos| => IsMapKeyAnnotation(annos[j]))
  }

  function FirstMapKeyAnnotation(annos: seq<Annotation>, from: nat): (r: Option<nat>)
    ensures r.None? <==> forall j :: from <= j < |annos| ==> !IsMapKeyAnnotation(annos[j])
    ensures r.Some? ==> (from <= r.value < |annos| && IsMapKeyAnnotation(annos[r.value]) &&
                         forall j :: from <= j < r.value ==> !IsMapKeyAnnotation(annos[j]))
  {
    FirstTrue(MapKeyHits(annos), from)
  }

  lemma FirstMapKeyAnnotationAt(annos: seq<Annotation>, i: nat)
    requires i < |annos| && IsMapKeyAnnotation(annos[i])
    requires forall j :: 0 <= j < i ==> !IsMapKeyAnnotation(annos[j])
    ensures FirstMapKeyAnnotation(annos, 0) == Some(i)
  {
  }

  /** `method_exists($annoMapKey, 'getValue')` as written: before PHP 8 the
      record is the annotation object itself; from PHP 8 on it is the
      `ReflectionAttribute`, which has no `getValue` method (only what
      `buildAnno` makes of it would). */
  predicate ProvidesGetValue(anno: Annotation, php8: bool) {
    !php8 && anno.hasGetValue
  }

  /** The key the annotation supplies as written: the cast value of the first
      `MapKey` annotation when it has `getValue` and the value is not empty. */
  function AnnotatedMapKey(annos: seq<Annotation>, php8: bool, conv: Conversions): Option<string> {
    match FirstMapKeyAnnotation(annos, 0)
    case None => None
    case Some(i) =>
      if ProvidesGetValue(annos[i], php8) && conv.toString(annos[i].value) != "" then Some(conv.toString(annos[i].value))
      else None
  }

  /** The tail of `getMapKeyByProperty`: the annotated key when there is one;
      else "" for an unnamed property; else the non-empty cast of
      `propertyNameToMapKey[field]`; else the field name. */
  function KeyOrFallback(annotated: Option<string>, fieldName: string, nameToKey: PhpArray, conv: Conversions): string {
    match annotated
    case Some(k) => k
    case None =>
      if fieldName == "" then ""
      else
        var k := conv.toString(Lookup(nameToKey, StrKey(fieldName)));
        if k == "" then fieldName else k
  }

  /** `getMapKeyByProperty` as written. */
  function MapKeySpec(annos: seq<Annotation>, fieldName: string, nameToKey: PhpArray, php8: bool,
                      conv: Conversions): (r: string)
    ensures AnnotatedMapKey(annos, php8, conv).Some? ==> r == AnnotatedMapKey(annos, php8, conv).value
    ensures r == "" <==> AnnotatedMapKey(annos, php8, conv).None? && fieldName == ""
    ensures AnnotatedMapKey(annos, php8, conv).None? && fieldName != "" ==>
      r == (if conv.toString(Lookup(nameToKey, StrKey(fieldName))) == "" then fieldName
            else conv.toString(Lookup(nameToKey, StrKey(fieldName))))
  {
    KeyOrFallback(AnnotatedMapKey(annos, php8, conv), fieldName, nameToKey, conv)
  }

  /** The method form, with the annotation loop and its `break`. */
  method MapKeyByProperty(annos: seq<Annotation>, fieldName: string, nameToKey: PhpArray, php8: bool,
                          conv: Conversions)
    returns (r: string)
    ensures r == MapKeySpec(annos, fieldName, nameToKey, php8, conv)
  {
    var annoMapKey: Option<Annotation> := None;
    var i := 0;
    while i < |annos|
      invariant 0 <= i <= |annos|
      invariant forall j :: 0 <= j < i ==> !IsMapKeyAnnotation(annos[j])
      invariant annoMapKey.None?
    {
      var anno := annos[i];
      if anno.className == "" {
        i := i + 1;
        continue;
      }
      if EndsWith(anno.className, "MapKey") {
        FirstMapKeyAnnotationAt(annos, i);
        annoMapKey := Some(anno);
        break;
      }
      i := i + 1;
    }
    if annoMapKey.None? {
      assert FirstMapKeyAnnotation(annos, 0).None?;
    }
    if annoMapKey.Some? && ProvidesGetValue(annoMapKey.value, php8) {
      var mapKey := conv.toString(annoMapKey.value.value);
      if mapKey != "" {
        return mapKey;
      }
    }
    if fieldName == "" {
      return "";
    }
    var mapKey := conv.toString(Lookup(nameToKey, StrKey(fieldName)));
    r := if mapKey == "" then fieldName else mapKey;
  }

  /** Annotations after the first `MapKey` annotation are never consulted. */
  lemma MapKeyIgnoresLaterAnnotations(annos: seq<Annotation>, more: seq<Annotation>, fieldName: string,
                                      nameToKey: PhpArray, php8: bool, conv: Conversions)
    requires FirstMapKeyAnnotation(annos, 0).Some?
    ensures MapKeySpec(annos + more, fieldName, nameToKey, php8, conv) == MapKeySpec(annos, fieldName, nameToKey, php8, conv)
  {
    var i := FirstMapKeyAnnotation(annos, 0).value;
    FirstMapKeyAnnotationAt(annos + more, i);
  }

  /** As written, from PHP 8 on the attributes are never consulted: a
      property gets the key an unannotated one would. */
  lemma MapKeyIgnoresAttributesOnPhp8(annos: seq<Annotation>, fieldName: string, nameToKey: PhpArray,
                                      conv: Conversions)
    ensures MapKeySpec(annos, fieldName, nameToKey, true, conv) == MapKeySpec([], fieldName, nameToKey, true, conv)
  {
  }

  /** The same property under the same `MapKey('user_name')` annotation: before
      PHP 8 its key is `user_name`, from PHP 8 on it is the field name. */
  lemma MapKeyAttributeIgnoredAsWritten(conv: Conversions)
    requires conv.toString(Str("user_name")) == "user_name" && conv.toString(Null) == ""
    ensures var annos := [Annotation("MapKey", true, Str("user_name"))];
      MapKeySpec(annos, "userName", [], false, conv) == "user_name" &&
      MapKeySpec(annos, "userName", [], true, conv) == "userName"
  {
    var annos := [Annotation("MapKey", true, Str("user_name"))];
    FirstMapKeyAnnotationAt(annos, 0);
  }

  /** The key the annotation evidently should supply: the first `MapKey`
      annotation itself before PHP 8, and from PHP 8 on the object `buildAnno`
      makes of the attribute, when that has `getValue` and the cast value is
      not empty. */
  function IntendedAnnotatedMapKey(annos: seq<Annotation>, php8: bool,
                                   build: Annotation -> Option<Annotation>, conv: Conversions): Option<string>
  {
    match FirstMapKeyAnnotation(annos, 0)
    case None => None
    case Some(i) =>
      var obj := if php8 then build(annos[i]) else Some(annos[i]);
      if obj.Some? && obj.value.hasGetValue && conv.toString(obj.value.value) != "" then
        Some(conv.toString(obj.value.value))
      else None
  }

  /** `getMapKeyByProperty` with the attribute instantiated on PHP 8: before
      PHP 8 it is the code as written; from PHP 8 on a built `MapKey`
      attribute with a non-empty value supplies the key. */
  function IntendedMapKey(annos: seq<Annotation>, fieldName: string, nameToKey: PhpArray, php8: bool,
                          build: Annotation -> Option<Annotation>, conv: Conversions): (r: string)
    ensures !php8 ==> r == MapKeySpec(annos, fieldName, nameToKey, false, conv)
    ensures php8 && FirstMapKeyAnnotation(annos, 0).Some? ==>
      var obj := build(annos[FirstMapKeyAnnotation(annos, 0).value]);
      obj.Some? && obj.value.hasGetValue && conv.toString(obj.value.value) != "" ==>
        r == conv.toString(obj.value.value)
    ensures php8 && FirstMapKeyAnnotation(annos, 0).None? ==>
      r == MapKeySpec(annos, fieldName, nameToKey, true, conv)
  {
    KeyOrFallback(IntendedAnnotatedMapKey(annos, php8, build, conv), fieldName, nameToKey, conv)
  }

  /** A map key matches the normalised key `nk` when it is a non-empty string
      whose normal form equals `nk`, or does so once both carry `is`. */
  predicate MapKeyMatches(k: Key, nk: string) {
    k.StrKey? && k.s != "" &&
    (NormalizeKey(k.s) == nk || EnsureLeft(NormalizeKey(k.s), "is") == EnsureLeft(nk, "is"))
  }

  function EntryHits(map1: PhpArray, nk: string): (bs: seq<bool>)
    ensures |bs| == |map1|
    ensures forall j :: 0 <= j < |map1| ==> bs[j] == MapKeyMatches(map1[j].0, nk)
  {
    seq(|map1|, j requires 0 <= j < |map1| => MapKeyMatches(map1[j].0, nk))
  }

  function FirstMapEntry(map1: PhpArray, nk: string, from: nat): (r: Option<nat>)
    ensures r.None? <==> forall j :: from <= j < |map1| ==> !MapKeyMatches(map1[j].0, nk)
    ensures r.Some? ==> (from <= r.value < |map1| && MapKeyMatches(map1[r.value].0, nk) &&
                         forall j :: from <= j < r.value ==> !MapKeyMatches(map1[j].0, nk))
  {
    FirstTrue(EntryHits(map1, nk), from)
  }

  lemma FirstMapEntryAt(map1: PhpArray, nk: string, i: nat)
    requires i < |map1| && MapKeyMatches(map1[i].0, nk)
    requires forall j :: 0 <= j < i ==> !MapKeyMatches(map1[j].0, nk)
    ensures FirstMapEntry(map1, nk, 0) == Some(i)
  {
  }

  /** `getMapValueByProperty`: null for an empty map or when the normalised
      map key is PHP-empty ("" or "0"); otherwise the value of the first
      matching entry, null when there is none. */
  function MapValueSpec(map1: PhpArray, annos: seq<Annotation>, fieldName: string,
                        nameToKey: PhpArray, php8: bool, conv: Conversions): Value
  {
    var nk := NormalizeKey(MapKeySpec(annos, fieldName, nameToKey, php8, conv));
    if map1 == [] || IsEmptyString(nk) then Null
    else match FirstMapEntry(map1, nk, 0)
      case None => Null
      case Some(i) => map1[i].1
  }

  method MapValueByProperty(map1: PhpArray, annos: seq<Annotation>, fieldName: string,
                            nameToKey: PhpArray, php8: bool, conv: Conversions)
    returns (v: Value)
    ensures v == MapValueSpec(map1, annos, fieldName, nameToKey, php8, conv)
  {
    if map1 == [] {
      return Null;
    }
    var mapKey := MapKeyByProperty(annos, fieldName, nameToKey, php8, conv);
    mapKey := NormalizeKey(mapKey);
    if IsEmptyString(mapKey) {
      return Null;
    }
    var i := 0;
    while i < |map1|
      invariant 0 <= i <= |map1|
      invariant forall j :: 0 <= j < i ==> !MapKeyMatches(map1[j].0, mapKey)
    {
      var key, val := map1[i].0, map1[i].1;
      if !key.StrKey? || key.s == "" {
        i := i + 1;
        continue;
      }
      var k := NormalizeKey(key.s);
      if k == mapKey {
        FirstMapEntryAt(map1, mapKey, i);
        return val;
      }
      if EnsureLeft(k, "is") == EnsureLeft(mapKey, "is") {
        FirstMapEntryAt(map1, mapKey, i);
        return val;
      }
      i := i + 1;
    }
    return Null;
  }

  /** The value found is that of the earliest matching entry; integer keys
      and entries before it never match. */
  lemma MapValueIsFirstMatch(map1: PhpArray, annos: seq<Annotation>, fieldName: string,
                             nameToKey: PhpArray, php8: bool, conv: Conversions, i: nat)
    requires var nk := NormalizeKey(MapKeySpec(annos, fieldName, nameToKey, php8, conv));
      !IsEmptyString(nk) && i < |map1| && MapKeyMatches(map1[i].0, nk) &&
      forall j :: 0 <= j < i ==> !MapKeyMatches(map1[j].0, nk)
    ensures MapValueSpec(map1, annos, fieldName, nameToKey, php8, conv) == map1[i].1
  {
    FirstMapEntryAt(map1, NormalizeKey(MapKeySpec(annos, fieldName, nameToKey, php8, conv)), i);
  }

  /** Map keys are compared ignoring case, `-` and `_`: a key whose normal
      form is the normalised map key always matches. */
  lemma MapKeyMatchesNormalForm(k: string, nk: string)
    requires k != "" && NormalizeKey(k) == nk
    ensures MapKeyMatches(StrKey(k), nk)
  {
  }

  /** The `is` rule: a key `is` + name matches the map key name and, the
      other way round, a key name matches the map key `is` + name. */
  lemma MapKeyIsPrefix(k: string, nk: string)
    requires k != ""
    requires (NormalizeKey(k) == "is" + nk && !StartsWith(nk, "is")) ||
             (nk == "is" + NormalizeKey(k) && !StartsWith(NormalizeKey(k), "is"))
    ensures MapKeyMatches(StrKey(k), nk)
  {
    var n := NormalizeKey(k);
    if n == "is" + nk {
      assert StartsWith(n, "is") by { assert n[..2] == "is"; }
    } else {
      assert StartsWith(nk, "is") by { assert nk[..2] == "is"; }
    }
  }
}

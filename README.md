# mgboot-common core, modelled in Dafny

This project models the sequential core of the `mgboot-common` PHP library:

- the shared-table registry and store of the Swoole runtime (`SwooleTable`);
- the worker / task-worker / coroutine context and table attachment (`Swoole`);
- the per-scope configuration store (`AppConf`);
- four utilities:
  - token-stream scanning for namespace, imports and class name (`TokenizeUtils`);
  - map-to-object key normalisation (`MapAbleTrait::fromMap`);
  - getter, setter, annotation and map-key resolution (`ReflectUtils`);
  - path helpers (`FileUtils`).

Modules:

| file | module | models |
|---|---|---|
| php_core.dfy | `PhpCore` | PHP values, ordered arrays (`Put`, `Unset`, `Lookup`), `empty()`, the abstract `Cast` / `StringUtils` conversions |
| php_strings.dfy | `PhpStrings` | ASCII `strtolower`, `lcfirst`, `ucwords`, `str_replace`, `trim`, `rtrim`, `explode`, and the `StringUtils` helpers taken as assumptions (below) |
| swoole_runtime.dfy | `SwooleRuntime` | the server handle (a class whose `members` map holds attached tables) and `\Swoole\Table` (a class with mutable `rows`) |
| swoole_table.dfy | `SwooleTable` | the three overridable table names, `buildTable`, `getTable`, the fail-soft row operations, `parseColumnType` |
| swoole.dfy | `Swoole` | `setServer`, `getWorkerId`, `inTaskWorker`, `getCoroutineId`, `inCoroutineMode`, `buildGlobalVarKey`, `withTable` |
| appconf.dfy | `AppConf` | `setEnv`/`getEnv`, `setData`, `getData`, `getValueInternal`, `get` |
| tokenize.dfy | `TokenizeUtils` | `isToken`, `getNamespace`, `getUsedClasses`, `getSimpleClassName` (PHP 8 and PHP 7 forms), `getQualifiedClassName` |
| mapable.dfy | `MapAble` | `fromMap`: key renaming, marker values, assignment to declared properties |
| reflect.dfy | `ReflectUtils` | `getGetter`, `getSetter` (both forms), the annotation lookups, `getMapKeyByProperty`, `getMapValueByProperty` |
| fileutils.dfy | `FileUtils` | `getExtension`, `getRealpath` |

Modelling choices:

- State the source keeps in static fields becomes a class instance:
  - the table names: `SwooleTable.SwooleTable`;
  - the server handle: `Swoole.Swoole`, which models only the storage of `setServer` / `getServer`; the functions of `Swoole` and `AppConf` that read the server take it as an explicit `server` parameter, the value `getServer()` would return;
  - the environment and the snapshots: `AppConf.AppConf`.
- Every search loop of the source is a `method` with a `while` loop. It is proved equal to a first-match specification function. Lemmas about that function state what the source promises.
- Where the source asks the runtime for something, the model takes it as a parameter:
  - the coroutine id probe (`CidProbe`);
  - whether shared memory can be allocated (`allocates`);
  - the PHP version (`php8`);
  - the root path of `getRealpath`;
  - the public methods of a declaring class (`declared`);
  - the attribute instantiation of `buildAnno` (`build`).
- Helpers from `StringUtils`, whose file is not part of this model, are assumed to behave as follows:
  - `startsWith(s, p)` holds when the first `|p|` characters of `s` are `p`, compared case-sensitively (src/util/FileUtils.php:82-84);
  - `endsWith(s, p)` holds when the last `|p|` characters of `s` are `p`, compared case-sensitively (src/util/ReflectUtils.php:434);
  - `ensureLeft(s, p)` is `s` when `s` starts with `p`, else `p . s`;
  - `substringAfterLast` / `substringAfter` give the text after the last / first separator, or `""` without one;
  - `substringBeforeLast` gives the text before the last separator, or the whole string without one.
- A property assignment in `fromMap` (src/traits/MapAbleTrait.php:64) is an arbitrary function of the property name and the value, a field of `MapAble.MapAbleObject`: it gives what PHP stores after the coercion of the property's type (no file declares `strict_types`, so `"5"` assigned to an `int` property stores `5`), or nothing when the assignment throws a `TypeError`.
- `Cast::toInt`, `Cast::toBoolean`, `Cast::toString`, `toDuration` and `toDataSize` are arbitrary functions, the fields of `PhpCore.Conversions`. Every result holds whatever they do.
- The primitives of `\Swoole\Table` (`exist`, `get`, `set`, `del`, `incr`, `decr`) are arbitrary functions of the rows, the fields of `SwooleRuntime.Engine`. The wrappers are proved for every engine. Round trips such as set-then-get are proved only under a stated law on the engine.

Behaviour of the code that the model reproduces:

- `get` reads `null` or the type error below. It never returns a caller default: the typed accessors that take a default are not part of this model.
- `withTable` has no idempotence guard: a second call replaces the attached table.
- `withTable` has no schema for the lock or rate-limiter tables.
- `withTable`'s cache column is 4096 bytes, a constant.
- Two quirks of `AppConf` are reproduced:
  - The snapshot scope key is `'worker' . getWorkerId()` (src/AppConf.php:35). It does not test the id, so a server without a worker id, or with a negative one, reads the scope `"worker-1"`, while `buildGlobalVarKey` gives `"noworker"`.
  - A lookup whose map is null or empty searches the root snapshot (src/AppConf.php:130-132). So `get("x.c")` with no `x` reads the root's `c`.
- A scalar reached just before the last segment is passed to the `?array` parameter of `getValueInternal`, which raises a `TypeError` in PHP. The model returns the outcome `TypeError` instead of a value.

## Model

| member | source | states |
|---|---|---|
| `SwooleTable.SwooleTable.constructor` | src/swoole/SwooleTable.php:14-24 | the names start as `tblCache`, `tblDistributeLock`, `tblRatelimiter` |
| `SwooleTable.SwooleTable.CacheTableName` | src/swoole/SwooleTable.php:30-38 | a non-empty name is stored and `''` returned; otherwise the stored name is returned unchanged; the other two names never change |
| `SwooleTable.SwooleTable.DistributeLockTableName` | src/swoole/SwooleTable.php:40-48 | the same rule for the lock table name, leaving the cache and limiter names unchanged |
| `SwooleTable.SwooleTable.RatelimiterTableName` | src/swoole/SwooleTable.php:50-58 | the same rule for the rate-limiter name, leaving the other two unchanged |
| `SwooleTable.OverrideThenRead` | src/swoole/SwooleTable.php:30-58 | overriding the cache name then reading it back gives the new name, the other names are as before, and no name becomes empty |
| `SwooleTable.ParseColumnType` | src/swoole/SwooleTable.php:163-176 | code 1 is int, 2 is float, every other code is string (each an if-and-only-if) |
| `SwooleTable.DeclaredSize` | src/swoole/SwooleTable.php:70-74 | a column size is passed exactly when the third element is a positive int, and it is that int |
| `SwooleTable.DeclareColumns` | src/swoole/SwooleTable.php:66-75 | one column per spec, in order, with its name, parsed type and declared size |
| `SwooleTable.BuildTable` | src/swoole/SwooleTable.php:62-79 | a fresh empty table of the given capacity with those columns, or nothing when allocation fails |
| `SwooleTable.GetTable` | src/swoole/SwooleTable.php:83-93 | null exactly when there is no server, no member of that name, or a member that is not a table; otherwise that member's table |
| `SwooleTable.Exists` | src/swoole/SwooleTable.php:95-100 | false with the table absent, otherwise the table's `exist` |
| `SwooleTable.GetValue` | src/swoole/SwooleTable.php:150-161 | null with the table absent; otherwise the row exactly when the table yields an array |
| `SwooleTable.Remove` | src/swoole/SwooleTable.php:102-112 | `del` on the named table only; every other attached table keeps its rows |
| `SwooleTable.SetValue` | src/swoole/SwooleTable.php:114-124 | `set` on the named table only; every other attached table keeps its rows |
| `SwooleTable.Incr` | src/swoole/SwooleTable.php:126-136 | `incr` on the named table only; every other attached table keeps its rows |
| `SwooleTable.Decr` | src/swoole/SwooleTable.php:138-148 | `decr` on the named table only; every other attached table keeps its rows |
| `SwooleTable.AbsentTableIsEmpty` | src/swoole/SwooleTable.php:95-161 | with the table absent, `exists` is false, `getValue` is null and the four writes change no table |
| `SwooleTable.SetThenGet` | src/swoole/SwooleTable.php:114-161 | if the table's `get` returns what `set` stored, `getValue` after `setValue` on an attached table returns the row |
| `SwooleTable.IncrThenDecr` | src/swoole/SwooleTable.php:126-148 | if the table's `decr` undoes its `incr`, the pair leaves the rows as they were |
| `Swoole.Swoole.SetServer` | src/swoole/Swoole.php:17-25 | the stored server is the one set, and `getServer` returns it |
| `Swoole.GetWorkerId` | src/swoole/Swoole.php:94-104 | always at least -1; non-negative exactly when a server has `worker_id` whose cast is non-negative, and then that cast |
| `Swoole.InTaskWorker` | src/swoole/Swoole.php:106-121 | true exactly when the worker id is non-negative, the `taskworker` property exists and its boolean cast is true |
| `Swoole.GetCoroutineId` | src/swoole/Swoole.php:125-133 | at least -1; non-negative exactly when the runtime returned a non-negative int, an exception giving -1 |
| `Swoole.InCoroutineMode` | src/swoole/Swoole.php:135-142 | inside a coroutine and, when asked, not in a task worker; without the flag, exactly inside a coroutine |
| `Swoole.BuildGlobalVarKey` | src/swoole/Swoole.php:291-298 | `"worker"+n` for a given n at least 0; otherwise `"noworker"` exactly when the current worker id is negative, else `"worker"+id` |
| `Swoole.SchemaFor` | src/swoole/Swoole.php:33-73 | cases tried in order: cache name, then pool name, then ws name; no schema exactly when the name matches none |
| `Swoole.WithTable` | src/swoole/Swoole.php:27-73 | with a server, a non-empty selected name and allocation, attaches a fresh table with the schema's capacity and columns under the name and changes no other member; otherwise changes nothing |
| `Swoole.CacheSchemaColumns` | src/swoole/Swoole.php:34-41 | the cache table has capacity 4096, a 4096-byte string column `value` and an unsized int column `expiry` |
| `Swoole.DispatchAsWritten` | src/swoole/Swoole.php:33-60 | as written, exactly the cache name selects a schema, the cache schema; every other name reaches the undefined `poolTableName()` |
| `Swoole.PoolNameUnreachableAsWritten` | src/swoole/Swoole.php:46 | `withTable($server, 'tblPool')` fails as written, while the dispatch with the pool name supplied selects the pool schema |
| `AppConf.ScopeKey` | src/AppConf.php:34-38 | `"noworker"` exactly without a server or in a task worker; otherwise `"worker"` followed by the decimal worker id, which may be `-1` |
| `AppConf.ScopeKeyAgreesWithGlobalVarKey` | src/AppConf.php:157-161 | outside a task worker with a worker id, and without a server, the snapshot scope equals `buildGlobalVarKey()` |
| `AppConf.ScopeKeyDiffersFromGlobalVarKey` | src/AppConf.php:35 | a server whose worker id is negative (no `worker_id`, or a negative cast) gives the scope `"worker-1"` while `buildGlobalVarKey()` gives `"noworker"` |
| `AppConf.AppConf.constructor` | src/AppConf.php:14-19 | the environment starts as `dev`, `_ENV_` is undefined and there are no snapshots |
| `AppConf.AppConf.SetEnv` | src/AppConf.php:21-25 | `getEnv` returns the last value set; the `_ENV_` constant is defined by the first call and kept afterwards (corrected guard, see Findings) |
| `AppConf.DefineEnvAsWritten` | src/AppConf.php:23 | as written, the guarded `define` never changes the `_ENV_` constant |
| `AppConf.DefineEnvOnce` | src/AppConf.php:23 | with the guard corrected, an undefined constant becomes the environment and a defined one is kept |
| `AppConf.EnvNeverDefinedAsWritten` | src/AppConf.php:23 | `setEnv("prod")` on an undefined `_ENV_` leaves it undefined as written and defines it as `prod` once corrected |
| `AppConf.FirstEnvWins` | src/AppConf.php:23 | with the guard corrected, after any sequence of `setEnv` calls the constant holds the first environment set (or its earlier value) |
| `AppConf.AppConf.SetData` | src/AppConf.php:32-41 | the current scope's snapshot becomes the data; every other scope's snapshot is unchanged |
| `AppConf.FirstMatchFrom` | src/AppConf.php:140-152 | no match exactly when no non-empty string key normalises to the lookup key; otherwise the earliest such entry |
| `AppConf.FindEntry` | src/AppConf.php:140-152 | the search loop returns the first matching entry, skipping non-string and empty keys |
| `AppConf.AppConf.GetValueInternal` | src/AppConf.php:128-153 | the value of the first entry matching the normalised key, in the given map or, when that is null or empty, in the root snapshot |
| `AppConf.ValueInternalIsFirstMatch` | src/AppConf.php:138-149 | the value found is the earliest entry whose key matches after lower-casing and dropping `-`/`_` on both sides |
| `AppConf.ValueInternalNoMatch` | src/AppConf.php:152 | no matching key gives null |
| `AppConf.EmptyMapFallsBackToRoot` | src/AppConf.php:130-132 | a lookup in an empty map is a lookup in the root, and null for an empty root |
| `AppConf.AppConf.Get` | src/AppConf.php:43-67 | `get` on the current scope's snapshot: without `.` a root lookup; otherwise the walk over the leading segments, then the last segment |
| `AppConf.AppConf.WalkSegments` | src/AppConf.php:53-64 | the loop over the leading segments stops at the first value that is not a non-empty array |
| `AppConf.AppConf.FinishLookup` | src/AppConf.php:66 | the last lookup searches the array reached, the root for null, and is a type error for any other value |
| `AppConf.GetSpecBySegments` | src/AppConf.php:49-50 | `get` splits the key at its last `.`: the segments before it are walked and the last one looked up |
| `AppConf.GetIgnoresCaseAndSeparators` | src/AppConf.php:45-66 | two keys with the same normal form read the same outcome |
| `AppConf.EmptySnapshotReadsNull` | src/AppConf.php:163-164 | with no snapshot for the scope every key reads null |
| `AppConf.MissingPrefixFallsBackToRoot` | src/AppConf.php:53-66 | `get("x.c")` with no root key matching `x` reads `c` from the root |
| `AppConf.TwoSegments` | src/AppConf.php:49-66 | a key with one `.` looks the first segment up in the root and the second in the result |
| `AppConf.ThreeSegments` | src/AppConf.php:49-66 | a key with two `.`s walks one further segment before the last lookup |
| `AppConf.LookupSingle` | src/AppConf.php:138-149 | a one-entry map whose key normalises to the lookup key yields its value |
| `AppConf.NestedLookup` | src/AppConf.php:49-66 | `get("a_b.c")` on `{"A-B": {"C": 5}}` is 5, for any keys equal up to case, `-` and `_` |
| `AppConf.ArrayAtFirstSegment` | src/AppConf.php:55-66 | when the first segment yields an array, the second is looked up in it |
| `AppConf.ScalarAtSecondSegment` | src/AppConf.php:59-66 | a non-array non-null value reached before the last segment gives a type error |
| `AppConf.ScalarBeforeLastSegment` | src/AppConf.php:66 | `get("a.b.c")` on `{"a": {"b": 7}}` gives a type error, not null |
| `TokenizeUtils.IsTokenExactlyTriples` | src/util/TokenizeUtils.php:267-270 | a stream element passes `isToken` exactly when it is a (kind, text, line) triple |
| `TokenizeUtils.NotTokenShapes` | src/util/TokenizeUtils.php:267-270 | non-arrays, arrays of fewer than three elements and arrays whose element 1 is not a string fail `isToken` |
| `TokenizeUtils.FirstFrom` | src/util/TokenizeUtils.php:35-44 | the first triple of a kind (and line) at or after an index, none exactly when there is no such triple |
| `TokenizeUtils.SearchFrom` | src/util/TokenizeUtils.php:35-44 | the scanning loop returns that first index |
| `TokenizeUtils.TextOnAnchorLineEmpty` | src/util/TokenizeUtils.php:46-48 | without an anchor token, or with it on a negative line, the result is `''` |
| `TokenizeUtils.TextOnAnchorLineFound` | src/util/TokenizeUtils.php:50-59 | otherwise the text of the first target token on the anchor's line |
| `TokenizeUtils.FindTextOnAnchorLine` | src/util/TokenizeUtils.php:197-224 | the two loops compute the anchor-line rule |
| `TokenizeUtils.NameRunStopsAtLaterLine` | src/util/TokenizeUtils.php:88-102 | the PHP 7 namespace is the `T_STRING`/`T_NS_SEPARATOR` texts before the first triple on a later line |
| `TokenizeUtils.NamespacePhp7` | src/util/TokenizeUtils.php:64-105 | the PHP 7 loop computes that concatenation after the first `T_NAMESPACE` |
| `TokenizeUtils.CollectNameRun` | src/util/TokenizeUtils.php:88-102 | the second loop collects exactly the name-part texts from the start index up to the first triple on a later line |
| `TokenizeUtils.UseLinesMembers` | src/util/TokenizeUtils.php:115-125 | a line is collected exactly when a `T_USE` triple sits on it |
| `TokenizeUtils.QualifiedOnLinesMembers` | src/util/TokenizeUtils.php:133-144 | a name is collected exactly when it is a `T_NAME_QUALIFIED` text on a collected line |
| `TokenizeUtils.UsedClassesPhp8Members` | src/util/TokenizeUtils.php:107-147 | under PHP 8 a name is reported exactly when it is a `T_NAME_QUALIFIED` text on a line holding a `T_USE` |
| `TokenizeUtils.UseEntries` | src/util/TokenizeUtils.php:166-186 | at most one entry per use line, each starting with `\` |
| `TokenizeUtils.UsedClassesPhp7Shape` | src/util/TokenizeUtils.php:149-189 | under PHP 7 at most one entry per `T_USE` triple, each starting with `\` |
| `TokenizeUtils.UseLinesLength` | src/util/TokenizeUtils.php:154-164 | there are no more use lines than tokens |
| `TokenizeUtils.CollectUseLines` | src/util/TokenizeUtils.php:113-125 | the loop collects the lines of the `T_USE` triples in order |
| `TokenizeUtils.UsedClassesPhp8` | src/util/TokenizeUtils.php:107-147 | the PHP 8 loops compute the qualified names on use lines |
| `TokenizeUtils.UsedClassesPhp7` | src/util/TokenizeUtils.php:149-189 | the PHP 7 nested loops compute one `\`-prefixed entry per use line with name parts |
| `TokenizeUtils.CollectLineParts` | src/util/TokenizeUtils.php:169-179 | the inner loop collects exactly the `T_STRING`/`T_NS_SEPARATOR` texts on the given line, in stream order |
| `TokenizeUtils.GetNamespace` | src/util/TokenizeUtils.php:27-62 | PHP 8: the first `T_NAME_QUALIFIED` text on the `T_NAMESPACE` line; PHP 7: the name-part run |
| `TokenizeUtils.GetUsedClasses` | src/util/TokenizeUtils.php:107-111 | dispatches on the PHP version |
| `TokenizeUtils.GetSimpleClassName` | src/util/TokenizeUtils.php:191-265 | the first `T_STRING` on the `T_CLASS` line, anywhere under PHP 8 and after the `T_CLASS` token under PHP 7 |
| `TokenizeUtils.GetQualifiedClassName` | src/util/TokenizeUtils.php:11-25 | `''` exactly when the class name is empty; otherwise `\`-prefixed, ending with the class name, led by the `\`-prefixed namespace when there is one |
| `MapAble.ConvertName` | src/traits/MapAbleTrait.php:21-37 | the converted name never starts with an upper-case letter (its camel-case result is the lemma `MapAble.CamelCase`) |
| `MapAble.ConvertNameWithDash` | src/traits/MapAbleTrait.php:24-35 | a key with `-` loses every `-` and every space |
| `MapAble.ConvertNameWithUnderscore` | src/traits/MapAbleTrait.php:27-35 | a key with `_` and no `-` loses every `_` and space and gains no `-` |
| `MapAble.ConvertNamePlain` | src/traits/MapAbleTrait.php:37 | a key without `-` and `_` only has its first character lower-cased |
| `MapAble.ConvertNameIdempotent` | src/traits/MapAbleTrait.php:21-37 | converting a converted name changes nothing, unless the key holds both `-` and `_` |
| `MapAble.ConvertNameNotIdempotentWithBoth` | src/traits/MapAbleTrait.php:24-30 | with both `-` and `_`, the `_` survives and a second conversion changes the name |
| `MapAble.SnakeAndKebabAgree` | src/traits/MapAbleTrait.php:24-37 | `foo_bar` and `foo-bar` convert to the same name |
| `MapAble.CamelCase` | src/traits/MapAbleTrait.php:21-37 | words (free of `-`, `_` and whitespace) joined by `_` or by `-` convert to the words with first letters upper-cased, run together, with the first character then lower-cased: `lcfirst(w0) . ucfirst(w1) . …` |
| `MapAble.CamelCaseTwoWords` | src/traits/MapAbleTrait.php:21-37 | `a_b` and `a-b` both convert to `lcfirst(a)` followed by `b` with its first letter upper-cased |
| `MapAble.FooBarIsCamel` | src/traits/MapAbleTrait.php:21-37 | `foo_bar` and `foo-bar` both convert to `fooBar` |
| `MapAble.FooBarStays` | src/traits/MapAbleTrait.php:37 | `fooBar` converts to itself |
| `MapAble.RewriteValue` | src/traits/MapAbleTrait.php:40-48 | a string starting with `@Duration:` or `@DataSize:` becomes the conversion of the string with the marker removed; other values are unchanged |
| `MapAble.ConvertKey` | src/traits/MapAbleTrait.php:21-37 | the in-loop key conversion steps compute the converted property name of the key |
| `MapAble.RewriteMarked` | src/traits/MapAbleTrait.php:38-48 | the in-loop marker check computes the rewritten value and the rewritten flag |
| `MapAble.RenameEntry` | src/traits/MapAbleTrait.php:16-55 | one iteration drops a non-string or empty key, moves a renamed entry, or stores a rewritten value, as the step function says |
| `MapAble.RenameEntries` | src/traits/MapAbleTrait.php:15-56 | the first loop, run over the original entries on a working copy, yields the renamed map |
| `MapAble.MarkerPrefixRemoved` | src/traits/MapAbleTrait.php:42-45 | the leading marker is not part of what the conversion receives |
| `MapAble.RenameStepEffect` | src/traits/MapAbleTrait.php:16-55 | one step drops a non-string or empty key; moves a renamed entry over any entry under the new name; under an unchanged key stores a rewritten value at the key's existing position, and leaves the map as it is when the value carries no marker; touches no other key |
| `MapAble.RenamedShape` | src/traits/MapAbleTrait.php:15-19 | the renamed map keeps unique keys and holds no integer key |
| `MapAble.RenameOverwritesLater` | src/traits/MapAbleTrait.php:50-52 | iteration runs over the original copy: an entry renamed onto a later key overwrites that entry in place and removes itself, and the later visit writes nothing, so the earlier entry wins |
| `MapAble.FooBarOverwritesLater` | src/traits/MapAbleTrait.php:15-56 | `{"foo_bar": v1, "fooBar": v2}` ends as `{"fooBar": v1}` (`v1` rewritten when it carries a marker) |
| `MapAble.AssignAllFrame` | src/traits/MapAbleTrait.php:58-67 | undeclared names are never assigned and properties not named in the map keep their values |
| `MapAble.AssignAllSets` | src/traits/MapAbleTrait.php:58-67 | a declared property named in the map holds what PHP's assignment stores for that entry's value, after the property type's coercion; when the assignment throws, the property keeps its value |
| `MapAble.MapAbleObject.FromMap` | src/traits/MapAbleTrait.php:13-68 | the properties become the coerced assignment of the renamed map to the old properties |
| `ReflectUtils.FirstGetter` | src/util/ReflectUtils.php:152-175 | the first method passing the getter tests, none exactly when no method passes |
| `ReflectUtils.ScanGetter` | src/util/ReflectUtils.php:152-175 | the getter loop returns that first method |
| `ReflectUtils.GetGetter` | src/util/ReflectUtils.php:124-178 | the first candidate passing the type test (strict mode, PHP 8) and the name test; null for an empty list |
| `ReflectUtils.GetGetterPhp7` | src/util/ReflectUtils.php:185-219 | the first candidate passing the name test, with no type test |
| `ReflectUtils.GetterIsEarliest` | src/util/ReflectUtils.php:163-176 | the getter returned is a passing candidate and no earlier candidate passes; null exactly when none passes |
| `ReflectUtils.StrictGetterIsLooseGetter` | src/util/ReflectUtils.php:155-161 | strict mode only removes candidates: the strict getter is never earlier than the loose one |
| `ReflectUtils.GetterNameForms` | src/util/ReflectUtils.php:163-174 | `get`+field and the field's own name (any case) pass the getter name test |
| `ReflectUtils.IsPrefixGetter` | src/util/ReflectUtils.php:168-172 | `isActive` is a getter of `active`, and `active` of `isActive` |
| `ReflectUtils.FirstSetter` | src/util/ReflectUtils.php:255-280 | the first method passing the setter tests, none exactly when no method passes |
| `ReflectUtils.ScanSetter` | src/util/ReflectUtils.php:255-282 | the setter loop returns that first method |
| `ReflectUtils.GetSetter` | src/util/ReflectUtils.php:227-283 | the first candidate with one parameter, of the field's named type in strict mode, named `set`+field |
| `ReflectUtils.GetSetterPhp7` | src/util/ReflectUtils.php:290-326 | the first candidate with one parameter named `set`+field |
| `ReflectUtils.SetterIsEarliest` | src/util/ReflectUtils.php:255-282 | the setter returned has one parameter and the name `set`+field, and no earlier candidate qualifies |
| `ReflectUtils.SetterIgnoresCase` | src/util/ReflectUtils.php:276 | the setter name test ignores case |
| `ReflectUtils.FirstAnnotation` | src/util/ReflectUtils.php:33-42 | the first annotation whose `\`-prefixed class name contains the needle |
| `ReflectUtils.FindAnnotation` | src/util/ReflectUtils.php:58-66 | the annotation loop returns that first annotation (built, from PHP 8 on), else null |
| `ReflectUtils.FindParameterAnnotation` | src/util/ReflectUtils.php:377-400 | null before PHP 8; otherwise the same lookup |
| `ReflectUtils.AnnotationMatchIsSubstring` | src/util/ReflectUtils.php:35-37 | the match is a substring test; the empty needle matches only from PHP 8 on |
| `ReflectUtils.AnnotationFoundByShortName` | src/util/ReflectUtils.php:84-86 | an annotation is found by its unqualified class name |
| `ReflectUtils.FirstMapKeyAnnotation` | src/util/ReflectUtils.php:422-438 | the first annotation with a non-empty class name ending in `MapKey` |
| `ReflectUtils.MapKeySpec` | src/util/ReflectUtils.php:440-455 | the non-empty annotated key first, which needs a `getValue` method and so never applies to a PHP 8 attribute; else `''` for an unnamed field; else the non-empty mapped key; else the field name |
| `ReflectUtils.MapKeyByProperty` | src/util/ReflectUtils.php:402-456 | the loop and the fallbacks compute that key, on either PHP version |
| `ReflectUtils.MapKeyIgnoresLaterAnnotations` | src/util/ReflectUtils.php:434-437 | annotations after the first `MapKey` one are never consulted |
| `ReflectUtils.MapKeyIgnoresAttributesOnPhp8` | src/util/ReflectUtils.php:409-412 | from PHP 8 on, a property's attributes never change its key: it is the key of an unannotated property |
| `ReflectUtils.MapKeyAttributeIgnoredAsWritten` | src/util/ReflectUtils.php:440 | the same `MapKey('user_name')` property gets `user_name` before PHP 8 and its field name from PHP 8 on |
| `ReflectUtils.IntendedMapKey` | src/util/ReflectUtils.php:440-455 | with the attribute instantiated on PHP 8: the code as written before PHP 8; from PHP 8 on the built `MapKey` object's non-empty value; the as-written fallbacks without a `MapKey` attribute |
| `ReflectUtils.FirstMapEntry` | src/util/ReflectUtils.php:475-489 | the first string key equal to the map key after normalisation or after `is`-prefixing |
| `ReflectUtils.MapValueByProperty` | src/util/ReflectUtils.php:458-492 | null for an empty map or an empty normalised key; otherwise the value of the first matching entry, else null |
| `ReflectUtils.MapValueIsFirstMatch` | src/util/ReflectUtils.php:475-489 | the value returned is that of the earliest matching entry |
| `ReflectUtils.MapKeyMatchesNormalForm` | src/util/ReflectUtils.php:480-484 | a key with the map key's normal form always matches |
| `ReflectUtils.MapKeyIsPrefix` | src/util/ReflectUtils.php:486-488 | `isX` matches `x` and `x` matches `isX` |
| `FileUtils.GetExtension` | src/util/FileUtils.php:41-48 | `''` without a `.`; the result holds no `.` and no upper-case letter and is shorter than the path |
| `FileUtils.ExtensionOfNamedFile` | src/util/FileUtils.php:47 | the extension of `base.ext` is `ext` lower-cased, whatever dots `base` holds |
| `FileUtils.ExtensionIsStable` | src/util/FileUtils.php:41-48 | a file named after an extension has that extension |
| `FileUtils.GetRealpath` | src/util/FileUtils.php:80-98 | a path without a root prefix is returned unchanged; otherwise its relative part placed under the root |
| `FileUtils.RootRelative` | src/util/FileUtils.php:85-86 | the relative part starts with `/` |
| `FileUtils.UnderRoot` | src/util/FileUtils.php:93-97 | the relative part alone for the root `''` or `/`, else after the root with trailing `/`s removed |
| `FileUtils.UnderRootEndsWithRelative` | src/util/FileUtils.php:93-97 | a resolved path always ends with the relative part |
| `FileUtils.UnderRootStartsWithRoot` | src/util/FileUtils.php:97 | a resolved path starts with the trimmed root; an absolute root gives an absolute path |
| `FileUtils.RootTrailingSlashIgnored` | src/util/FileUtils.php:97 | a trailing `/` on the root does not change the result |
| `FileUtils.RealpathOfPrefixed` | src/util/FileUtils.php:82-86 | for `prefix:rest` the relative part is `rest` trimmed and `/`-prefixed |

## Left out

- Concurrency is not modelled:
  - cross-process atomicity of `incr`/`decr` and the no-lost-update property;
  - coroutines, atomics, channels, timers, wait groups, `defer`, `runInCoroutine` and `sleep` (src/swoole/Swoole.php:146-289).
- The internals of `\Swoole\Table` are not modelled: row merge versus replace on `set`, `incr` on a missing row, string truncation, capacity limits. The table is an abstract engine.
- `SwooleTable.SetThenGet`: proved only for engines whose `get` returns what `set` stored, because the engine's behaviour is not visible in the source.
- `SwooleTable.IncrThenDecr`: proved only for engines whose `decr` undoes `incr`, for the same reason.
- `isSwooleHttpRequest` / `isSwooleHttpResponse` depend on `get_class` of runtime objects.
- The typed accessors of `AppConf` (src/AppConf.php:69-126) are left out. They rely on `Cast`, `ArrayUtils` and `StringUtils`, which are not part of this model, and `getFloat` is floating point.
- The `_ENV_` constant is process-wide state; the model keeps it as a field of `AppConf.AppConf`. PHP's warning when `define` meets an existing constant is not modelled.
- The PHP `switch` in `withTable` compares loosely. The model compares names as strings, so numeric-string table names that PHP would equate are told apart.
- PHP turns canonical decimal strings into integer keys. The model takes arrays with their keys already typed. A name produced by `fromMap`'s renaming is always kept as a string key, even when PHP would store it as an integer key (such as `"1"` from `"1_"`).
- Reflection itself is not modelled: `buildAnno`, `AnnotationReader`, `version_compare(PHP_VERSION, …)` and `getDeclaringClass()->getMethods()`. Methods, properties and annotations are plain records, and the PHP version and the declaring class's methods are inputs.
- `MapAbleTrait::toMap` is reflection-driven. The duration and data-size parsers are abstract functions.
- `scanFiles`, `getMimeType`, `getMimeTypeByExtension` and `getRootPath` are filesystem and library I/O. The root path of `getRealpath` is an input.
- `SerializeUtils`, `CollectionUtils`, `HtmlPurifier` and `RequestParamSecurityMode` are thin wrappers over other libraries or constants.

## Findings

| source | as written | input that shows it | evidently intended | confidence | as-written member | corrected member |
|---|---|---|---|---|---|---|
| src/swoole/Swoole.php:46 | the second `case` calls `SwooleTable::poolTableName()`, and the third `SwooleTable::wsTableName()`; neither method exists in `SwooleTable`, so every name other than the cache name raises an undefined-method error | `withTable($server, 'tblPool')` with the default cache name `tblCache` | the pool and websocket names select the pool and websocket schemas | not executed; high (neither method is declared in src/swoole/SwooleTable.php) | `Swoole.PoolNameUnreachableAsWritten` | `Swoole.SchemaFor` |
| src/util/ReflectUtils.php:440 | from PHP 8 on `$annoMapKey` is the `ReflectionAttribute` itself, which has no `getValue` method, so the `MapKey` attribute is never used | `#[MapKey('user_name')]` on property `userName`, PHP 8: the key is `userName` | the attribute is instantiated first, as `buildAnno` does for the other lookups, and its `getValue()` supplies the key | not executed; high (`ReflectionAttribute` declares no `getValue`; the other lookups call `buildAnno`) | `ReflectUtils.MapKeyAttributeIgnoredAsWritten` | `ReflectUtils.IntendedMapKey` |
| src/AppConf.php:23 | `defined('_ENV_') && define('_ENV_', $env)` calls `define` only when `_ENV_` already exists, where it fails, so `setEnv` never defines the constant | `setEnv('prod')` while `_ENV_` is undefined leaves it undefined | `defined('_ENV_') \|\| define('_ENV_', $env)`: the first `setEnv` defines `_ENV_` | not executed; high (PHP's `&&` short-circuits and `define` fails on an existing constant) | `AppConf.DefineEnvAsWritten` | `AppConf.DefineEnvOnce` |

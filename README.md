# confab, modelled in Dafny

confab builds a configuration object from a list of transforms. `confab(transforms)` starts from
an empty object and passes each transform the value the previous one returned. The library's
transforms cover four jobs:

- loading JSON or YAML from the first candidate file that exists;
- choosing candidate files from the environment (`loadEnvConfigFile`);
- copying environment variables into keys, decoding their values as JSON (`loadEnvironment`);
- merging objects (`assign`), checking for required fields (`required`), filling in defaults
  (`defaults`) and freezing the result (`freeze`).

An older filter module keeps variants of `required`, `defaults` and `freeze`. That module is not
in strict mode, and its `defaults` treats falsy values as missing.

The model has six modules:

- `Values`:
  - JSON-like values and JavaScript truthiness, including the members every object inherits
    from `Object.prototype`;
  - the error kinds;
  - decimal notation of natural numbers.
- `ConfigObject`:
  - the configuration object as a class `Config` whose `data` and `frozen` fields the
    transforms update in place;
  - its reference state `State` (`Undefined`, or an object);
  - `Object.assign` as a specification function (`AssignResult`) and a method.
- `Utils`: the candidate-file loader `load` (the selection fold, reading, parsing, merging) and
  `getEnv`.
- `Transforms`: the library's transforms:
  - `loadEnvConfigFile` (base names, candidate lists, the JSON/YAML choice);
  - the YAML loader;
  - `loadEnvironment` with `translate`;
  - `required`, `defaults`, `freeze`.
- `Filters`: the legacy variants.
- `Confab`: the pipeline:
  - a `Transform` datatype with one case for each transform kind, plus the two hand-written
    functions the pipeline is exercised with (one returns a fixed object, one doubles every
    number);
  - `Fold`/`RunResult` as the reference semantics;
  - `Apply`/`Run` as the method that threads one `Config` reference through the transforms.

State-changing methods each have a specification function over `State`:

- Every such method ensures that the state it leaves, or the error it returns, is what that
  function computes from the old state.
- Each method states whether it returns its argument or another object.
- A method that fails leaves the object as it found it, except `defaults`: its loop may have
  written earlier keys before a later key throws, and the model keeps those writes.

The outside world is passed in as a parameter (`Confab.World`): the environment variables, the
filesystem, the working directory, the OS host name, the JSON parser and the optional YAML parser.

Where the documentation and the code disagree, the model follows the code:

- `load` overwrites existing keys with the loaded file's values (`Object.assign(config, parsed)`).
  The test titled "does not clobber existing config" (test/confab_spec.js:86-95) checks only a key
  the file lacks.
- A missing file makes `load` return the configuration unchanged; a test expects it to throw.
- `loadEnvironment()` without a map passes the configuration through; a test expects a
  `ReferenceError`.
- `assign()` with no objects returns the configuration unchanged; a test expects it to throw.
- `resolveBooleans` is never read: `translate` decodes every set variable as JSON when it can.
- Without js-yaml, `loadYaml` returns `undefined`, which the next transform receives. The YAML
  tests expect exactly this.

## Model

| member | source | states |
|---|---|---|
| ConfigObject.Config.Put | lib/transforms.js:137 | an assignment to a frozen object changes nothing and reports failure; otherwise exactly that key takes the new value |
| ConfigObject.Config.Freeze | lib/transforms.js:241 | freezing keeps every property and sets the frozen flag |
| ConfigObject.ObjectAssign | lib/transforms.js:164-171 | the state after `Object.assign` is `AssignResult` of the old state (TypeError on `undefined`, TypeError on a frozen target that would be written, else the merge); it returns the target; failure leaves it untouched |
| ConfigObject.MergedKeys | lib/transforms.js:169 | a key is in the merge of the sources exactly when some source has it |
| ConfigObject.MergedLastWins | lib/transforms.js:169 | a merged key holds the value of the last source that has it |
| ConfigObject.AssignOverwritesAndRetains | lib/transforms.js:164-171 | on a writable object, assign keeps keys no source has, adds every source key, and late sources win over early ones and over existing values |
| Utils.ScanAfterChoice | lib/utils.js:27-32 | once a file is chosen no later candidate is probed and the choice stands |
| Utils.ScanFindsFirstHit | lib/utils.js:27-32 | the fold chooses the first existing non-empty candidate in list order and probes exactly the candidates up to it |
| Utils.ScanWithoutHit | lib/utils.js:27-32 | with no existing candidate nothing is chosen and every candidate is probed |
| Utils.ScanChoosesIffHit | lib/utils.js:27-32 | a file is chosen if and only if some candidate exists |
| Utils.Load | lib/utils.js:20-41 | the state after the loader is `LoadResult` of the old state; it returns the same object; failure leaves it untouched |
| Utils.LoadWithoutHit | lib/utils.js:34-37 | when no candidate exists the configuration is returned unchanged, whatever the parser |
| Utils.LoadIgnoresLaterCandidates | lib/utils.js:27-32 | candidates after the first existing one do not affect the result |
| Utils.LoadMerges | lib/utils.js:39 | a found and parsed file is merged in: its keys overwrite, keys it lacks survive, no other key appears |
| Utils.LoadPropagatesParseError | lib/utils.js:39 | a parse failure of the chosen file is the transform's error |
| Utils.NormalizeSingleAndAbsent | lib/utils.js:21-24 | a single path acts as a one-element list, and absent files pass the configuration through |
| Utils.GetEnv | lib/utils.js:43-45 | the result is the variable's value when it is set and non-empty, and the default when it is unset or empty |
| Transforms.SettingsDefaults | lib/transforms.js:64-67 | the config directory defaults to `cwd/config` and the environment to `development`; the host name falls back from `HOST` to `HOSTNAME` to the OS name |
| Transforms.BaseNamesOrder | lib/transforms.js:69-90 | the base names, most specific first; host-and-instance names only when both are set; always ending with the environment and `default` |
| Transforms.PushBaseNames | lib/transforms.js:75-90 | the conditional pushes build exactly `BaseNames` |
| Transforms.CandidatesLayout | lib/transforms.js:92-96 | base name k gives JSON candidate k and YAML candidates 2k (`.yaml`) and 2k+1 (`.yml`) |
| Transforms.PushCandidates | lib/transforms.js:92-96 | the `forEach` over the base names builds exactly the JSON and YAML candidate lists |
| Transforms.LoadEnvConfigFile | lib/transforms.js:61-103 | the method returns the loader `EnvConfigLoader` specifies |
| Transforms.EnvConfigLoaderChoice | lib/transforms.js:98-102 | JSON is chosen if and only if some JSON candidate exists, and then its loader finds a file; otherwise the YAML candidates are used |
| Transforms.LoadYaml | lib/yaml.js:16-25 | with js-yaml it is the loader with the YAML parser; without, it returns `undefined` and changes nothing |
| Transforms.TranslateEncodeRoundTrip | lib/transforms.js:125-132 | decoding the JSON text of any boolean, null, integer or plain string gives it back |
| Transforms.TranslateKeepsWords | lib/transforms.js:125-132 | a word of lower-case letters other than `true`, `false` and `null` is not JSON and stays the raw string; the empty string too |
| Transforms.TranslateExamples | lib/transforms.js:125-132 | `"true"` becomes `true`, `"yes"` stays a string, `" 42 "` becomes 42 |
| Transforms.LoadEnvironment | lib/transforms.js:134-142 | the state after the transform is `LoadEnvironmentResult` of the old state: a variable named `hasOwnProperty` in the environment makes the first check throw, a write into `undefined` or a frozen object throws, otherwise every set variable is written; it returns the same object; failure leaves it untouched |
| Transforms.ApplyEnvFrame | lib/transforms.js:135-139 | keys after the mapping are the old ones plus the targets of set variables; untargeted keys keep their values |
| Transforms.ApplyEnvLastWins | lib/transforms.js:135-139 | a targeted key holds the translated value of the last set variable mapped to it |
| Transforms.LoadEnvironmentAbsentMap | lib/transforms.js:122 | an absent map passes any configuration through |
| Transforms.LoadEnvironmentExample | test/confab_spec.js:115-159 | a set author is copied as a string, a set boolean is decoded, an unset variable adds no key |
| Transforms.AssignWithoutObjects | lib/transforms.js:166-169 | `assign()` with no objects returns the configuration unchanged |
| Transforms.Missing | lib/transforms.js:187-189 | a field is reported missing exactly when it is listed and `config[field]` is falsy |
| Transforms.MissingCounts | lib/transforms.js:187-189 | a falsy field is reported as often as it is listed, a truthy one never |
| Transforms.MissingInOrder | lib/transforms.js:187-189 | the missing fields keep their listed order |
| Transforms.Required | lib/transforms.js:183-197 | the method's outcome is `RequiredResult`; it returns the same object and changes nothing |
| Transforms.RequiredThrowsIff | lib/transforms.js:187-195 | `required` throws exactly when some listed field is falsy, with a message naming the missing fields in order; otherwise it passes through |
| Transforms.RequiredExamples | test/confab_spec.js:242-261 | a present author passes; a missing `foo` throws `Missing required fields: foo` |
| Transforms.DefaultsWalk | lib/transforms.js:219-226 | the loop over the defaults never changes an existing property, leaves a frozen object as it was, and throws only TypeErrors |
| Transforms.DefaultsWalkStops | lib/transforms.js:219-226 | once the loop has thrown, later defaults play no part |
| Transforms.Defaults | lib/transforms.js:215-229 | the state after the transform is `DefaultsResult` of the old state; it returns the same object; the object keeps its frozen flag and holds what the loop wrote, also when a later key throws |
| Transforms.EntriesMapLookup | lib/transforms.js:219-226 | the first default for a key gives its value |
| Transforms.EntriesMapKeys | lib/transforms.js:219-226 | a key is among the defaults' keys exactly when some default names it |
| Transforms.DefaultsWalkFills | lib/transforms.js:219-226 | without a `hasOwnProperty` key on either side, the loop on a writable object puts the defaults under the existing properties and does not throw |
| Transforms.DefaultsFills | lib/transforms.js:219-226 | without a `hasOwnProperty` key on either side: existing keys keep their values (falsy ones too), an absent key gets its first default, no other key appears |
| Transforms.DefaultsThrowsWhenShadowed | lib/transforms.js:220 | an own `hasOwnProperty` property makes non-empty defaults throw a TypeError, frozen or not |
| Transforms.DefaultsIdempotent | lib/transforms.js:219-226 | applying the same defaults twice equals applying them once, when none of them is named `hasOwnProperty` |
| Transforms.DefaultsShadowingExample | lib/transforms.js:219-226 | a default named `hasOwnProperty` is written by the first run and makes the second run throw |
| Transforms.DefaultsExample | test/confab_spec.js:264-282 | `foo` is filled in and `untrue: false` is not clobbered |
| Transforms.Freeze | lib/transforms.js:239-243 | the object is frozen in place with its properties intact, and returned |
| Transforms.FrozenWalkFails | lib/transforms.js:224 | on a frozen object the loop throws once some default names an absent key |
| Transforms.FrozenRejectsWrites | lib/transforms.js:239-243 | on a frozen object every writing transform (assign, a default for an absent key, a set variable) throws a TypeError |
| Filters.LegacyRequired | lib/filters.js:55-67 | the method's outcome is `LegacyRequiredResult`; it returns the same object |
| Filters.LegacyRequiredAgainstStandard | lib/filters.js:55-67 | with a list, legacy `required` equals the standard one; with no list it throws where the standard one passes |
| Filters.LegacyDefaults | lib/filters.js:84-96 | the state after the transform is `LegacyDefaultsResult` of the old state: an absent argument throws, writes to a frozen object are dropped, falsy keys are filled |
| Filters.FillFalsyEffect | lib/filters.js:86-93 | absent or falsy keys of the defaults take the default; truthy values and keys outside the defaults are kept |
| Filters.FillFalsyIdempotent | lib/filters.js:86-93 | filling falsy keys twice equals filling them once |
| Filters.LegacyDefaultsIdempotent | lib/filters.js:84-96 | the legacy transform applied twice equals applying it once |
| Filters.DefaultsVariantsDiffer | lib/filters.js:87 | on `untrue: false` the standard defaults keep `false` and the legacy ones write `true` |
| Filters.LegacyFreeze | lib/filters.js:105-110 | the object is frozen in place and returned, as by the standard `freeze` |
| Confab.ApplyTimesTwo | test/confab_spec.js:21-27 | every number is doubled in place; `undefined` and a frozen object holding a number throw, leaving it unchanged |
| Confab.Apply | index.js:33 | running a transform on a reference gives `Step` of its state; an error from any transform but `defaults` leaves the object unchanged; a returned object other than the argument is new |
| Confab.Run | index.js:30-35 | the loop threading the configuration gives `RunResult`, and a returned object is new |
| Confab.RunEmpty | index.js:31-34 | an absent or empty list gives an empty object |
| Confab.RunSingle | index.js:32-34 | the first transform receives `{}` |
| Confab.FoldAppend | index.js:32-34 | running two lists in sequence is running their concatenation |
| Confab.RunSnoc | index.js:32-34 | the last transform receives what the earlier ones produced |
| Confab.ErrorStopsPipeline | index.js:32-34 | after an error no later transform runs; the error is the result |
| Confab.PopulateDiscards | test/confab_spec.js:9-13 | a transform that ignores its input discards all earlier state |
| Confab.LoaderOnFrozen | lib/transforms.js:241 | a loader on a frozen object or on `undefined` throws, returns it unchanged, or returns `undefined` |
| Confab.TransformOnFrozen | lib/transforms.js:241 | every other transform except the fixed-object one does the same |
| Confab.StepOnFrozen | lib/transforms.js:241 | every transform except the fixed-object one either throws, returns the frozen object unchanged, or returns `undefined` |
| Confab.FrozenIsFinal | index.js:32-34 | after a freeze, a pipeline without a fixed-object transform cannot change the configuration |
| Confab.TimesTwoExample | test/confab_spec.js:33-40 | `{a: 4}` then the doubling function gives `a == 8` |
| Confab.FreezeExample | test/confab_spec.js:301-310 | `{a: 4}`, doubling and `freeze()` give the frozen object with `a == 8` |
| Confab.FreezeThenWrite | test/confab_spec.js:301-315 | on that frozen result the assignment `config.a = '14'` fails (a TypeError in strict mode) and `a` stays 8 |
| Confab.AssignTwoObjects | test/confab_spec.js:197-231 | `Object.assign` of the two test objects over `{a: 4, isClobbered: false}` gives the expected merge |
| Confab.AssignExample | test/confab_spec.js:197-231 | assign adds new keys, clobbers duplicates and retains the rest |
| Confab.YamlWithoutFilesExample | test/yaml_spec.js:16-26 | `loadYaml()` gives `{}` with js-yaml and `undefined` without |

## Left out

- Transforms.Translate: decodes only the scalar JSON texts (`true`, `false`, `null`, integers, strings without escapes). Floats, exponents, escape sequences, arrays and objects stay raw strings, where `JSON.parse` would decode them. Numbers are integers throughout the model.
- The JSON and YAML parsers are parameters (`World.parseJson`, `World.yaml`); js-yaml and `JSON.parse` on file contents are not modelled.
- The filesystem, `process.env`, `process.cwd()` and `os.hostname()` are fixed data in `World`. The same world serves both `loadEnvConfigFile`, which reads the environment when the transform is built, and `loadEnvironment`, which reads it when the transform runs.
- `path.join` is plain concatenation with `/`; its normalisation of `.`, `..` and repeated separators is not modelled.
- Object.assign's writes to `__proto__` (which set the prototype instead of adding a key) are not modelled; every key is an own property.
- Transforms.DefaultsIdempotent: holds only when no default is named `hasOwnProperty`. The source itself breaks idempotence there: the first run writes that key, and the second run's `config.hasOwnProperty(key)` throws (`DefaultsShadowingExample`).
- Of the `Object.prototype` methods the code calls, only shadowing of `hasOwnProperty` is modelled (on the configuration in `defaults`, on `process.env` in `loadEnvironment`). Other own properties named like inherited members are plain data.
- ConfigObject.OwnProps: a string source of `Object.assign` gets one key per Unicode scalar value of the model's string, where JavaScript indexes UTF-16 code units; the two differ for characters outside the Basic Multilingual Plane.
- The reasons carried by `TypeError` and `ReferenceError` are placeholders that name the failure. The model does not reproduce V8's message texts, except the `Missing required fields: …` message, which the library builds itself.
- Object.assign and the in-place methods write every key as one map update; the order in which properties are written is not observable in the model, since a frozen target fails before any write.
- Confab.Apply: the fixed-object transform returns a new object with the given properties, where the hand-written test function returns the same captured object on every call; aliasing between calls is not modelled.
- The `warn` flag of `defaults` and its output (`console.warn`, `process.stdout.write`) and all `debuglog` diagnostics are left out; they do not affect the configuration.
- `mapEnvironment` is `loadEnvironment` behind a deprecation warning; the warning is left out and the transform is the same.
- The legacy `filters.loadJSON` (lib/filters.js:25-44) is not modelled: it is unreachable from the pipeline and calls a non-existent `fs.existSync`.
- lib/config.js and the `create` wrapper (index.js:39-41) are not part of this model: they delegate to lodash path lookups.
- The stale test expectations (a missing file throwing, `loadEnvironment()` throwing, `assign()` throwing) are not modelled; the model follows the code, which passes the configuration through in each case.

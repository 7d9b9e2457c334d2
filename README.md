# Neutrino API object — a verified Dafny model

This project models the behaviour of Neutrino's API object (`Neutrino(options)`), which its API tests pin down. The object has four parts:

- **A derived-path options store.**
  - `root` starts as the working directory.
  - `source`, `output`, `tests` and `node_modules` each hold a raw value: a default suffix (`src`, `build`, `test`, `node_modules`) or the last assigned string. Each reads as that value normalized under `root`.
  - Every entry of `mains` (by default `index` → `index`) reads as its raw value normalized under `source`.
  - Normalizing means: an absolute value is read verbatim, and a relative one is POSIX-joined under its base.
  - A relative value therefore keeps following later changes to `root` and `source`; only an absolute value stops following them.
  - Every other option is stored as given, and `mergeOptions` merges updates into them.
- **`mergeOptions` over JSON-like values.** Two objects merge key by key, recursively. Any other update replaces the target value.
- **The event bus and the command registry.**
  - `on` appends a handler to an event's list.
  - `emitForAll` settles all of an event's handlers like `Promise.all`. The values come back in registration order, or the emission fails with a rejecting handler's own error.
  - `register` stores a command under its name, replacing any earlier one.
  - `call` and `run` look a command up and fail with a "was not registered" error when it is missing.
  - `use(middleware, opts)` calls the middleware at once with `opts`, which is absent when not given.
- **`regexFromExtensions`.** It builds the source `\.ext$` for one extension and `\.(a|b|…)$` for several, with dots inside an extension escaped.

Modules:

| file | module | contents |
|---|---|---|
| `wrappers.dfy` | `Wrappers` | `Option` and `Result` |
| `strings.dfy` | `Strings` | splitting on and joining with a separator; substring search |
| `paths.dfy` | `Paths` | Node's `path.normalize` and `path.join` at segment level; the store's `normalize(base, value)` |
| `values.dfy` | `Values` | option values and `mergeOptions` |
| `options.dfy` | `Options` | the options store, as class `Store` |
| `events.dfy` | `Events` | handlers, errors, the settling of an emission, the trace of calls made |
| `api.dfy` | `Api` | class `Neutrino`: the store, listeners, commands, middleware |
| `regex.dfy` | `Regex` | `regexFromExtensions` and a decoder that reads the extensions back |
| `scenarios.dfy` | `Scenarios` | each API test replayed against the model |

Some inputs come from outside the object, and the model takes them as parameters:

- `process.cwd()` is a parameter `cwd`, required to be absolute.
- Handler functions are represented by the outcome their call would settle to.
- Middleware functions are represented by a name.

## Model

| member | source | states |
|---|---|---|
| `Paths.Normalize` | packages/neutrino/test/api_test.js:3 | Node's `path.normalize`: an absolute path stays absolute |
| `Paths.Join` | packages/neutrino/test/api_test.js:3 | Node's `path.join` of two paths: a join under an absolute path is absolute |
| `Paths.NormalizePath` | packages/neutrino/test/api_test.js:34-42 | an absolute value reads verbatim; under an absolute base every reading is absolute |
| `Paths.JoinDot` | packages/neutrino/test/api_test.js:38-39 | joining `./v` under any non-empty base equals joining `v`, for non-empty `v` |
| `Paths.JoinJoin` | packages/neutrino/test/api_test.js:92-104 | joining `c` under `join(a, b)` equals joining `b/c` under `a`, for absolute `a` |
| `Paths.NormalizePathNested` | packages/neutrino/test/api_test.js:98-101 | a relative value under a relative `source` under `root` reads as `root` joined with `source/value` |
| `Paths.NormalizeIdempotent` | packages/neutrino/test/api_test.js:3 | normalizing a normalized path changes nothing |
| `Paths.NormalizeAbsolute` | packages/neutrino/test/api_test.js:3 | a normalized path is absolute exactly when the input was |
| `Values.MergeValue` | packages/neutrino/test/api_test.js:22-32 | an update that is not an object merged with an object replaces the target outright; the result is an object exactly when the update is |
| `Values.MergeOptions` | packages/neutrino/test/api_test.js:22-32 | the keys are the union of both maps; keys absent from the update keep the target's value; an updated key holds the update's value unless both sides are objects |
| `Values.MergeSubsumesUpdate` | packages/neutrino/test/api_test.js:22-32 | everything in the update is present in the merge result, at any depth |
| `Values.MergeKeepsTarget` | packages/neutrino/test/api_test.js:22-32 | the merge keeps every target key; a key the update does not name keeps its value; where both sides hold objects the result is an object that keeps the target's fields the same way, at every depth |
| `Values.NestedMergeKeeps` | packages/neutrino/test/api_test.js:22-32 | merging `{o: {y: b}}` into `{o: {x: a}}` gives `{o: {x: a, y: b}}`: the nested `x` survives |
| `Values.MergeSubsumed` | packages/neutrino/test/api_test.js:22-32 | merging an update that the target already contains changes nothing |
| `Values.MergeIdempotent` | packages/neutrino/test/api_test.js:22-32 | merging the same update twice is the same as merging it once |
| `Values.MergeSelf` | packages/neutrino/test/api_test.js:22-32 | merging a map into itself gives the map |
| `Values.MergeReplaces` | packages/neutrino/test/api_test.js:22-32 | an update that names every target key and never puts an object over an object replaces the target entirely |
| `Options.DefaultRaw` | packages/neutrino/test/api_test.js:37-47 | `root` starts as the working directory; each derived key starts as a non-empty relative suffix with no separator, so it reads under `root` |
| `Options.KeyOf` | packages/neutrino/test/api_test.js:34-90 | the property names `root`, `source`, `output`, `tests`, `node_modules` are exactly the path keys, in both directions |
| `Options.CustomOnly` | packages/neutrino/test/api_test.js:13-20 | options that name no path key and not `mains` are all stored as custom options, unchanged |
| `Options.Store.constructor` | packages/neutrino/test/api_test.js:5-20 | the store starts with raw path values from the given options or the defaults, the given `mains` or `{index: 'index'}`, and every other option verbatim |
| `Options.Store.Get` | packages/neutrino/test/api_test.js:34-90 | every path key reads as an absolute path |
| `Options.Store.Main` | packages/neutrino/test/api_test.js:92-104 | an entry reads as a value exactly when it exists, and then as an absolute path |
| `Options.Store.MainJoined` | packages/neutrino/test/api_test.js:92-133 | a relative entry (with or without a leading `./`) under a relative `source` reads as `root` joined with `source/entry` |
| `Options.Store.Read` | packages/neutrino/test/api_test.js:13-133 | a path key reads as an absolute path; `mains` reads as an object with exactly the entry names; any other property is present exactly when it is a custom option |
| `Options.Store.ReadCustom` | packages/neutrino/test/api_test.js:13-32 | a property that is neither a path key nor `mains` reads as the custom option of that name, or is absent |
| `Options.Store.SetPath` | packages/neutrino/test/api_test.js:34-90 | only that raw value changes. The key then reads as the value normalized under its base. Assigning a derived key changes no other key. Assigning `root` leaves every absolute key and entry as it was. Assigning a key other than `root` or `source` changes no entry |
| `Options.Store.SetMain` | packages/neutrino/test/api_test.js:96-103 | only that entry changes, and it reads as the value normalized under `source` |
| `Options.Store.Merge` | packages/neutrino/test/api_test.js:22-32 | path keys and `mains` entries that the update names are assigned; every other option becomes `mergeOptions` of the old ones and the update |
| `Events.NotRegistered` | packages/neutrino/test/api_test.js:240-246 | the error message contains `was not registered` and the command's name |
| `Events.Settle` | packages/neutrino/test/api_test.js:169-199 | the settled outcome of an emission; a success carries one value per handler |
| `Events.SettleSnoc` | packages/neutrino/test/api_test.js:169-199 | settling one more handler extends the values or keeps the earlier failure, as `emitForAll`'s loop does |
| `Events.SettleSucceeds` | packages/neutrino/test/api_test.js:169-199 | an emission succeeds exactly when every handler succeeds, and then yields each handler's value at its registration position (none for no handlers) |
| `Events.SettleFails` | packages/neutrino/test/api_test.js:179-187 | a failed emission carries, unchanged, the error of the first handler in registration order that failed |
| `Api.Neutrino.constructor` | packages/neutrino/test/api_test.js:5-20 | a fresh store built from the options; no listeners, commands or calls |
| `Api.Neutrino.On` | packages/neutrino/test/api_test.js:189-194 | the handler is appended to its event's list; other events are unchanged |
| `Api.Neutrino.EmitForAll` | packages/neutrino/test/api_test.js:162-219 | the result is the settled outcome of the event's handlers in registration order; each handler is called once, in that order |
| `Api.Neutrino.Register` | packages/neutrino/test/api_test.js:252-255 | the command is stored under its name, replacing an earlier one |
| `Api.Neutrino.Call` | packages/neutrino/test/api_test.js:240-246 | a missing command fails with the not-registered error and calls nothing; otherwise the command runs once and its outcome is returned |
| `Api.Neutrino.Run` | packages/neutrino/test/api_test.js:248-250 | emits `pre<name>`, calls the command, then emits `<name>`, each only after the previous step succeeded; the result is the command's outcome or the first failure; a missing command always fails |
| `Api.Neutrino.Use` | packages/neutrino/test/api_test.js:139-160 | the middleware is called at once with the given options, or with none |
| `Regex.RegexFromExtensions` | packages/neutrino/test/api_test.js:263-269 | the source begins with an escaped dot `\.` and ends with `$` |
| `Regex.ToString` | packages/neutrino/test/api_test.js:266-268 | `String(regex)`: the source between two slashes, for sources with no `/` and no line terminator |
| `Regex.RegexFromPair` | packages/neutrino/test/api_test.js:267-268 | two extensions give `\.(a|b)$`, with each extension escaped, in input order |
| `Regex.EscapeDotted` | packages/neutrino/test/api_test.js:268 | the dot between a name and an extension is escaped, and nothing else changes |
| `Regex.UnescapeEscape` | packages/neutrino/test/api_test.js:268 | unescaping undoes the dot escaping |
| `Regex.ExtensionsRoundTrip` | packages/neutrino/test/api_test.js:263-269 | the extensions read back from the generated source are exactly the given ones, in the given order, for any extensions free of `|` and `(` |
| `Scenarios.InitializationStoresOptions` | packages/neutrino/test/api_test.js:13-20 | `alpha`, `beta`, `gamma` read back as `a`, `b`, `c` |
| `Scenarios.MergeCase` | packages/neutrino/test/api_test.js:22-26 | the test's options and update are well-formed, and their merge is the update |
| `Scenarios.MergesCustomPrimitiveOptionProperties` | packages/neutrino/test/api_test.js:22-32 | after the merge, `alpha`, `beta`, `gamma`, `delta` read as `'d'`, `3`, `/.*/`, `true` |
| `Scenarios.MergedReadings` | packages/neutrino/test/api_test.js:28-31 | the four readings once the custom options equal the update |
| `Scenarios.OptionsRoot` | packages/neutrino/test/api_test.js:34-42 | `root` reads `cwd`, then `join(cwd, 'alpha')`, then `'/alpha'` |
| `Scenarios.DerivedPathOption` | packages/neutrino/test/api_test.js:44-90 | `source`, `output`, `tests`, `node_modules` read `join(cwd, 'src')`, `join(cwd, 'build')`, `join(cwd, 'test')`, `join(cwd, 'node_modules')`; then each reads `join(cwd, 'alpha')`, then `join('/beta', 'alpha')`, then `'/alpha'` |
| `Scenarios.DerivedPathOptionMoved` | packages/neutrino/test/api_test.js:50-53 | a derived key assigned `./alpha` follows `root` to `/beta`, then reads an absolute assignment verbatim |
| `Scenarios.OptionsMains` | packages/neutrino/test/api_test.js:92-104 | `mains.index` reads the five values the test expects |
| `Scenarios.OptionsMainsMoved` | packages/neutrino/test/api_test.js:98-103 | `mains.index` follows `source` and then `root`, then reads an absolute assignment verbatim |
| `Scenarios.OverriddenMains` | packages/neutrino/test/api_test.js:107-112 | the constructor's `mains` override is well-formed and gives the entries `alpha` → `beta` and `gamma` → `delta` |
| `Scenarios.OverrideOptionsMains` | packages/neutrino/test/api_test.js:106-133 | `mains.alpha` and `mains.gamma` read the ten values the test expects |
| `Scenarios.OverrideOptionsMainsFirst` | packages/neutrino/test/api_test.js:115-122 | `mains.alpha` follows `source` and `root` without moving `mains.gamma` off its suffix |
| `Scenarios.OverrideOptionsMainsContinued` | packages/neutrino/test/api_test.js:124-132 | the untouched `mains.gamma` followed every earlier move, then follows the later ones |
| `Scenarios.MiddlewareReceivesOptions` | packages/neutrino/test/api_test.js:145-160 | middleware runs at once, first with no options and then with the given defaults |
| `Scenarios.TriggersEventHandlers` | packages/neutrino/test/api_test.js:162-167 | emitting an event calls its handler |
| `Scenarios.EventsHandlePromises` | packages/neutrino/test/api_test.js:169-177 | one resolving handler gives `['alpha']` |
| `Scenarios.EventsHandlePromiseRejection` | packages/neutrino/test/api_test.js:179-187 | a rejecting handler fails the emission with the message `beta` |
| `Scenarios.EventsHandleMultiplePromises` | packages/neutrino/test/api_test.js:189-199 | three resolving handlers give `['alpha', 'beta', 'gamma']` |
| `Scenarios.CommandEmitsEventsAroundExecution` | packages/neutrino/test/api_test.js:208-219 | the handlers of `prebuild` and then of `build` run in that order |
| `Scenarios.NonRegisteredCommand` | packages/neutrino/test/api_test.js:240-250 | `call` fails with a message containing `was not registered`, and `run` fails |
| `Scenarios.RegexFromOneExtension` | packages/neutrino/test/api_test.js:266 | `['js']` gives `/\.js$/` |
| `Scenarios.PlainPair` | packages/neutrino/test/api_test.js:267 | two dot-free extensions give `/\.(a|b)$/` |
| `Scenarios.RegexFromTwoExtensions` | packages/neutrino/test/api_test.js:267 | `['js', 'css']` gives `/\.(js|css)$/` |
| `Scenarios.DottedPair` | packages/neutrino/test/api_test.js:268 | two dotted names with a shared stem give the source with both inner dots escaped |
| `Scenarios.RegexFromDottedExtensions` | packages/neutrino/test/api_test.js:268 | `['worker.js', 'worker.jsx']` gives `/\.(worker\.js|worker\.jsx)$/` |

## Modelling choices

- **Relative assignments keep following their base.** A path option stores the value last assigned and is resolved on every read. A relative value therefore follows later changes to `root` or `source`: `source = './alpha'` followed by `root = '/beta'` reads `join('/beta', 'alpha')` (packages/neutrino/test/api_test.js:48-51, and 98-101 for `mains`). Only an absolute value is independent of later changes.
- **A relative `root` resolves under the working directory.** `Options.Store.Get` reads `root` as its raw value normalized under `cwd`. The tests cannot tell whether the base is `cwd` or the previous root, because the root is still the working directory when they assign it (packages/neutrino/test/api_test.js:38).
- **Constructor `mains` replace the defaults.** When the constructor is given `mains`, its entries replace the default `{index: 'index'}` rather than adding to it, and each entry's value becomes that entry's suffix. The tests leave this open: after passing `mains` (packages/neutrino/test/api_test.js:106-112) they never read `mains.index`.

## Left out

- `api.config` and `toConfig()` (packages/neutrino/test/api_test.js:135-137, 230-238): the webpack-chain builder is an external library and is not part of this model.
- The real `build` command and its webpack error text (packages/neutrino/test/api_test.js:252-261): commands are represented by the outcome their call settles to.
- Loading middleware from module paths (packages/neutrino/test/api_test.js:201-206): it needs module resolution and the file system.
- Writing `env` options into `process.env` (packages/neutrino/test/api_test.js:221-228): a process-wide side effect.
- Promise scheduling: handlers run in sequence, and only the settled outcome of `emitForAll` and `run` is modelled. A handler's result settles at once, and the arguments passed to handlers are not modelled.
- `Api.Neutrino.Use`: the middleware's first argument, the instance itself (packages/neutrino/test/api_test.js:139-143), is not recorded. Only the call and its options are recorded, and what the middleware does is not modelled.
- `Events.NotRegistered`: the whole message text is a model choice. Only its containing `was not registered` and the command name is stated.
- `Regex.ExtensionsRoundTrip`: extensions containing `|` or `(` are excluded, since they would read back as regex syntax. The default argument of `regexFromExtensions` is not modelled.
- `Options.Store.constructor` and `Options.Store.Merge`: path options and `mains` entries must be strings (`Options.WellFormed`). The input-validation error for other values is not modelled.
- `Regex.ToString`: JavaScript's `source` escapes `/` (as `\/`) and line terminators, and the model writes the source without that escaping. The model also returns a source for every extension, while `new RegExp` throws a `SyntaxError` when an extension makes the pattern invalid (an unbalanced `(`, `)` or `[`). Both cases are outside the extensions the tests use.
- Option values: JavaScript numbers are integers here, and a regular expression is its source text.
- Node's `path.join` of more than two arguments, and Windows paths: the model joins two POSIX paths.

# Blueprint router builder and event listeners, in Dafny

This project models two parts of a Node.js web framework. Each part is written with its contracts and the proofs of those contracts.

**The router builder (`lib/router-builder.js`).** It compiles a nested route specification into Express routers.
- The specification is an insertion-ordered object. Each key is classified by its first character:
  - `/x` is a nested route, compiled at the joined path.
  - `:x` binds a parameter handler.
  - `resource` always throws.
  - Any other key names an HTTP verb.
- A verb leaf is compiled into one ordered stack of stages:
  - an action string is resolved to a controller method, which is invoked;
  - an array is used as it is;
  - an options object wraps an action or a view in `before` and `after`.
- The controller method's result is normalised into schema, validate, sanitize, validation gate, policy gate and execute stages, in that order.
- Policies are resolved from a registry. A `?` prefix makes a missing policy optional.
- `build` pushes one child router per definition and compiles that definition onto it. The first error stops the build.

**The listener registry (`lib/messaging/event-listeners.js`).** It holds the persistent and the one-shot listeners of a named event.

## How the model is organised

- `JsValues`: the JavaScript values the builder inspects. It covers truthiness, lodash `isObjectLike`, `.length`, `flattenDeep` and the own entries `forOwn` visits. A function value carries its arity (`Function.length`).
- `Routes`: the parts shared by the other modules:
  - the stage datatype and the fixed phase order of stages;
  - registrations and routers;
  - compile errors;
  - `Trace` (the registrations a compilation made, and the error that stopped it, if any).
- `Resolvers`: `_resolveControllerAction`, `_createPolicyFromName`, and the pure decision inside `_makePolicyMiddleware`.
- `Normaliser`: `_actionStringToMiddleware` as a function from an action to its stage list.
- `Compiler`: `_processRouterSpecification`, `_processToken`, `_addRoute`, `_addParameter`, `_defineVerb`, `_defineResource` and `build`, as functions from a specification to the registrations it makes. This module also holds the lemmas about the whole compilation.
- `Builder.RouterBuilder`: the builder object as a class.
  - Its `stack` field is `this._routers`.
  - Its methods do what the source does, push by push and loop by loop. The one exception is `_defineVerb`'s emptiness guard, where they follow the corrected guard (see "## Findings").
  - Each method is proved to produce what the `Compiler` and `Normaliser` functions specify.
- `Gates`: the request-time decisions of `handleValidationResult`, `applyPolicy` and `executePromise`.
- `Messaging.EventListeners`: the listener registry as a class with `on` and `once` sequence fields.

## Model

| member | source | states |
|---|---|---|
| Resolvers.ResolveControllerAction | lib/router-builder.js:431-455 | A non-string action is a TypeError. An empty controller name is an error. Without `@` the method is `__invoke`. On success the controller name is non-empty and registered, and the controller object and the method are both truthy, so success never yields a null reference. |
| Resolvers.ResolveQualified | lib/router-builder.js:431-454 | `c@m` resolves method `m` of controller `c`. An unknown controller and a controller lacking the method are the two distinct errors. |
| Resolvers.ResolveBare | lib/router-builder.js:28 | A bare `c` resolves method `__invoke` of controller `c`, with the same two errors. |
| Resolvers.JoinSplit | lib/router-builder.js:432 | Splitting the action on `@` loses nothing: joining the parts gives the action back. |
| Resolvers.SplitPartsFree | lib/router-builder.js:432 | No part of the split holds the separator. |
| Resolvers.SplitQualified | lib/router-builder.js:432-436 | `c@m` with no `@` in either part splits into exactly `c` and `m`. |
| Resolvers.CreatePolicyFromName | lib/router-builder.js:494-506 | An absent `?name` gives no policy and no error. An absent plain name is PolicyNotFound. An empty name fails. A missing policy happens only for an optional name. A present policy is a function in the registry, and the policy is what constructing it without arguments returns. The name resolves iff that constructor does not throw, and its exception is the error otherwise. |
| Resolvers.Invoke | lib/router-builder.js:64-66 | Calling a resolved method that is not a function is a TypeError. Calling a function returns its answer, or fails with the exception it throws. |
| Resolvers.Construct | lib/router-builder.js:302 | `new` on a non-function is a TypeError. A constructor returns the instance, or fails with the exception it throws. |
| Resolvers.OptionalMarker | lib/router-builder.js:494-506 | For an absent name, the `?` prefix alone decides between being skipped and being an error. |
| Resolvers.PolicyStages | lib/router-builder.js:463-485 | A spec that is neither a string nor an array is BadPolicySpecification, and an empty array or a null or undefined head fails. For a string or a string head, the spec compiles iff `_createPolicyFromName` succeeds, and otherwise fails with its error. There is no gate exactly when the policy is optional and absent. A gate, at most one, carries the policy `_createPolicyFromName` constructs. In the array form the head is the name and the tail elements are the gate's parameters. |
| Resolvers.OptionalPolicySkipped | lib/router-builder.js:463-506 | An absent policy named `?name` compiles to no gate and no error, as a string and as the head of an array. The same name without `?` fails with PolicyNotFound in both forms. |
| Normaliser.PolicyPart | lib/router-builder.js:285-286 | A falsy policy option adds no stage. |
| Normaliser.ValidateStages | lib/router-builder.js:324-358 | A falsy `validate` adds nothing. A 2-argument function becomes one legacy validator stage, a 3-argument function one middleware stage. Any other arity is an error. An array contributes its flattened leaves as validate stages, and an object one schema check. A truthy value that is neither a function nor object-like is an error. |
| Normaliser.SanitizeStages | lib/router-builder.js:362-386 | A falsy `sanitize` adds nothing. A 2-argument function becomes one legacy sanitizer stage, a 3-argument function one middleware stage. Any other arity is an error. An array contributes its flattened leaves as sanitize stages. An object runs the *validate* schema. Any other non-function, non-object value is ignored. |
| Normaliser.ExecuteStages | lib/router-builder.js:405-416 | An `execute` of length 2 is wrapped as a promise executor. Arity 3 is used as middleware. Any other length adds no stage. |
| Normaliser.HandlerStages | lib/router-builder.js:300-416 | A handler object without `execute` is an error naming the path. With `execute` it compiles iff its validate, sanitize and policy parts do, whatever `schema` holds. Errors surface in the order validate, sanitize, policy. |
| Normaliser.LegacyStages | lib/router-builder.js:278-299 | A legacy result compiles exactly when its policy option does. |
| Normaliser.ResultStages | lib/router-builder.js:278-420 | A legacy result (a 2- or 3-argument function, or an array) compiles as `LegacyStages`. A plain object compiles as a handler object. A zero-arity function compiles as a handler built from the instance it constructs with the parameter bag, and a throwing constructor fails with its exception. Any other function arity is BadActionResult. A null, undefined, boolean, number or string result fails, and so does an object with a zero `length`. |
| Normaliser.ActionStages | lib/router-builder.js:265-276 | A failed resolution is passed on as the action's error. |
| Normaliser.ActionDispatch | lib/router-builder.js:265-311 | Once resolved, the controller method is called with the parameter bag `ActionParams(path, options)`, and its answer decides the stages. A non-function method fails with a TypeError, and a method that throws fails with its exception. A legacy answer compiles as `LegacyStages`. A handler object, or the instance a zero-arity class constructs from the same bag, compiles as `HandlerStages`, and fails with MissingExecute without `execute`. A throwing constructor fails with its exception. |
| Normaliser.ActionParams | lib/router-builder.js:271-274 | The controller method receives `{path}`, plus `options` exactly when the route's options are truthy. |
| Normaliser.HandlerStagesShape | lib/router-builder.js:308-416 | A handler object compiles to schema?, validate, sanitize, gate?, policy?, execute?, in phase order with the execute stages last. Its schema-phase stage is exactly `checkSchema(schema)` when present. Its validate-phase stages are exactly `ValidateStages`, its sanitize-phase stages exactly `SanitizeStages`, its gate phase exactly `GateStages`, and its policy-phase stages exactly the policy part. The schema stage is present iff `schema` is. The validation gate is present iff any of schema, validate and sanitize is. The policy gate is present iff the policy resolves. |
| Normaliser.AssemblePresence | lib/router-builder.js:315-400 | In the assembled stack: the schema stage iff `schema`; the gate iff any of schema, validate and sanitize; the policy gate iff the policy part is non-empty. |
| Normaliser.AssembleParts | lib/router-builder.js:315-416 | In the assembled stack, each of the schema, validate, sanitize, gate, policy and execute parts is exactly the stages of its own phase, in its order. |
| Normaliser.AssemblePhase | lib/router-builder.js:315-416 | The stages of any one phase in the assembled stack are exactly the one part pushed for that phase. |
| Normaliser.LegacyResultStages | lib/router-builder.js:278-299 | A 2- or 3-argument function or an array result compiles to the policy gate, if any, then the result's leaves, with no validation stages. It succeeds iff the policy does. |
| Normaliser.ActionStagesOrdered | lib/router-builder.js:265-423 | Every stage list an action compiles to is in phase order, within the schema-to-execute phases. |
| Normaliser.NoPolicyWithoutOption | lib/router-builder.js:397-400 | Without a truthy policy option, an action compiles to no policy gate. |
| Compiler.VerbPieces | lib/router-builder.js:147-197 | An unsupported verb is an error. A string leaf is one piece: the stages `_actionStringToMiddleware` builds for that action with no options, and the leaf fails iff the action does, with its error. An array leaf is pushed as one piece, used verbatim. A successful leaf pushes at least one piece, under a supported verb. |
| Compiler.VerbTrace | lib/router-builder.js:147-205 | With the corrected guard, `_defineVerb` fails iff its pieces do. It installs at most one route: under the lowercased verb, at the given path, with the non-empty flattening of its pieces as the stack. |
| Compiler.VerbTraceAsWritten | lib/router-builder.js:201-204 | As written, `_defineVerb` fails iff its pieces do, and otherwise always installs exactly one route at the given path. |
| Compiler.OptionsPieces | lib/router-builder.js:172-195 | An object leaf without exactly one of `action` and `view` is an error. |
| Compiler.MiddlePieces | lib/router-builder.js:182-190 | The action's or view's pieces flatten to exactly the middle stages: the action stack, or the optional policy gate followed by the render stage. |
| Compiler.ObjectLeafStack | lib/router-builder.js:164-195 | An object leaf's stack is the `before` leaves, then the action stack or the policy-and-render pair, then the `after` leaves. `before` comes ahead of the whole action stack, validation and policy included. |
| Compiler.ViewMiddleShape | lib/router-builder.js:185-190 | A view route has at most one policy gate, the configured policy's, and ends with the render stage. Without a policy it is the render stage alone. |
| Compiler.StringLeafNoPolicy | lib/router-builder.js:164-166 | A string leaf's stack is exactly the action's stages compiled with no options, so it has no policy gate. |
| Compiler.ArrayLeafVerbatim | lib/router-builder.js:167-170 | A non-empty array leaf is installed as its flattened functions, in order. |
| Compiler.VerbStackOrdered | lib/router-builder.js:164-204 | Every stack `_defineVerb` builds is in phase order. |
| Compiler.VerbTraceOk | lib/router-builder.js:147-205 | `_defineVerb` installs at most one route: at the given path, under a supported verb, with a non-empty stack in phase order. An empty flattened stack is never installed. |
| Compiler.ParamRegistration | lib/router-builder.js:227-254 | Key `:id` registers under `id`. A function is the handler itself. An object-like value with a truthy `action` registers iff the action resolves to a function and calling it without arguments does not throw; the handler is what that call returns. A resolution error, a non-function method and a thrown exception each fail the registration. An object without `action` is an error, and so is any other value. |
| Compiler.NestedEntryPath | lib/router-builder.js:212-218 | A nested `/x` below `/` is compiled at `/x`, and below any other path `p` at `p/x`. Every route it installs lies under that path. |
| Compiler.JoinPath | lib/router-builder.js:215 | The nested key always ends the joined path. Below `/` the key is the whole path; below any other path, that path is its prefix. |
| Compiler.CompileSpec | lib/router-builder.js:107-125 | A specification with no own entries (neither object, array nor string) registers nothing and does not fail. |
| Compiler.CompileEntries | lib/router-builder.js:110-124 | No entries register nothing and do not fail. |
| Compiler.CompileOneEntry | lib/router-builder.js:110-124 | A single entry compiles to exactly what that entry registers. |
| Compiler.EntryTraces | lib/router-builder.js:110-124 | One trace per entry, in entry order: the i-th is the i-th entry compiled on its own. |
| Compiler.EntryTrace | lib/router-builder.js:110-137 | A `resource` key fails with ResourceUnsupported and registers nothing. A `:x` key registers exactly one parameter, named without its `:`, iff it does not fail. |
| Compiler.CompileEntriesAppend | lib/router-builder.js:110-124 | Entries are processed in specification order: compiling `xs + ys` compiles `xs`, then, unless that threw, `ys`. |
| Compiler.NoResourceWithoutFailure | lib/router-builder.js:207-210 | A `resource` key always throws, so a specification that compiles cleanly has none. |
| Compiler.SpecRegsOk | lib/router-builder.js:107-137 | Every route a specification installs has a supported verb, a non-empty stack in phase order, and a path under the path it is compiled at. |
| Compiler.BuildRouters | lib/router-builder.js:88-105 | `build` mounts at most one router per definition, and one for each when nothing throws. |
| Compiler.MountedLogs | lib/router-builder.js:92-101 | The k-th mounted router holds exactly what the k-th definition registered. |
| Compiler.BuildRoutersOk | lib/router-builder.js:88-105 | On every router `build` mounts, every route has a supported verb, a non-empty stack in phase order and a path under the base path. |
| Compiler.AsWrittenInstallsEmptyStack | lib/router-builder.js:201-204 | As written, `get: []` installs a route with an empty stack. The corrected guard installs nothing. |
| Routes.ThenAllAppend | lib/router-builder.js:110-124 | Running the steps `a + b` runs `a`, then `b` unless `a` threw. |
| Routes.ThenAllStops | lib/router-builder.js:110-124 | Once a step throws, no later step runs. |
| Routes.Concat | lib/router-builder.js:201-202 | Flattening no pieces gives no stage, and one piece flattens to itself. |
| Routes.ConcatAppend | lib/router-builder.js:201-202 | Flattening a concatenation of pieces flattens each part in order. |
| Builder.RouterBuilder.constructor | lib/router-builder.js:72-80 | `init` requires the listeners and the router definitions. It starts with no child routers. |
| Builder.RouterBuilder.ActiveRouter | lib/router-builder.js:81-85 | The active router exists iff a router has been pushed, and it is the last one pushed. |
| Builder.RouterBuilder.Build | lib/router-builder.js:88-105 | Pushes exactly the routers `BuildRouters` mounts. Returns them when no definition throws, and the first error otherwise. |
| Builder.RouterBuilder.Mount | lib/router-builder.js:95-98 | Pushes a fresh router holding what the definition registers, and reports its error. |
| Builder.RouterBuilder.ProcessRouterSpecification | lib/router-builder.js:107-125 | Extends the active router with the specification's registrations and reports its error. Earlier routers are unchanged. |
| Builder.RouterBuilder.ProcessEntry | lib/router-builder.js:110-123 | One `forOwn` step: the entry classified by its key's first character. |
| Builder.RouterBuilder.AddRoute | lib/router-builder.js:212-218 | Compiles the definition at the joined path onto the active router. |
| Builder.RouterBuilder.ProcessToken | lib/router-builder.js:127-137 | `resource` fails; any other token is a verb. |
| Builder.RouterBuilder.DefineResource | lib/router-builder.js:207-210 | Always fails with ResourceUnsupported. |
| Builder.RouterBuilder.AddParameter | lib/router-builder.js:227-254 | Registers the parameter handler on the active router, or reports the error. |
| Builder.RouterBuilder.DefineVerb | lib/router-builder.js:147-205 | Installs the verb's route on the active router, as `VerbTrace` specifies, or reports the error. |
| Builder.RouterBuilder.VerbMiddleware | lib/router-builder.js:150-171 | Pushes exactly the pieces `VerbPieces` specifies. |
| Builder.RouterBuilder.OptionsMiddleware | lib/router-builder.js:172-195 | Pushes exactly the pieces `OptionsPieces` specifies. |
| Builder.RouterBuilder.WrapMiddleware | lib/router-builder.js:179-195 | `before` is pushed first and `after` last, each only when truthy. |
| Builder.RouterBuilder.ActionOrView | lib/router-builder.js:182-190 | Pushes exactly the middle pieces. |
| Builder.RouterBuilder.ActionStringToMiddleware | lib/router-builder.js:265-423 | Builds exactly the stage list `ActionStages` specifies. `ActionDispatch` gives the dispatch on the controller's answer to the parameter bag; `HandlerStagesShape` and `LegacyResultStages` give the resulting order and contents. |
| Builder.RouterBuilder.ResultMiddleware | lib/router-builder.js:278-420 | Classifies the controller method's result exactly as `ResultStages` does: legacy, handler object, zero-arity class, or error. |
| Builder.RouterBuilder.LegacyMiddleware | lib/router-builder.js:278-299 | Pushes the policy gate, if any, and then the legacy result. |
| Builder.RouterBuilder.HandlerMiddleware | lib/router-builder.js:300-416 | Builds exactly the handler object's `HandlerStages`: the validate and sanitize stages their functions specify, in the order `HandlerStagesShape` proves. |
| Builder.RouterBuilder.AssembleMiddleware | lib/router-builder.js:315-416 | Pushes schema, validate, sanitize, gate, policy and execute in that order. Each of the validate, sanitize, policy and execute parts is the whole of its phase (`AssembleParts`). |
| Builder.RouterBuilder.ExecuteMiddleware | lib/router-builder.js:405-416 | Pushes the execute stage chosen by `execute.length`. |
| Builder.RouterBuilder.CheckMiddleware | lib/router-builder.js:324-386 | Succeeds iff both validate and sanitize do. A validate error comes before a sanitize error. |
| Builder.RouterBuilder.MakePolicyMiddleware | lib/router-builder.js:463-485 | Builds exactly the policy stages `PolicyStages` specifies, errors included: an absent optional policy gives no gate and no error. |
| Gates.HandleValidationResult | lib/router-builder.js:517-525 | Continues iff there are no validation errors. Otherwise raises 400 `validation_failed` carrying the errors. |
| Gates.PolicyCheckOutcome | lib/router-builder.js:543-563 | Strictly `true` continues. `false` raises 403 with the policy's failure code and message. An object raises 403 with its own code and message. Any other value raises 500 `bad_result`. A rejection is passed on unchanged. |
| Gates.PolicyErrorsSlot | lib/router-builder.js:540-541 | `req._policyErrors` always ends up an array. An existing array is kept; anything else becomes `[]`. |
| Gates.ExecuteOutcome | lib/router-builder.js:574-580 | Continues iff the promise resolves. A rejection is passed on unchanged. |
| Messaging.Wrap | lib/messaging/event-listeners.js:29-30 | A `Listener` is stored as it is; anything else is wrapped in a `LegacyListener`. |
| Messaging.RemoveAtValid | lib/messaging/event-listeners.js:80-82 | Removing a valid index drops exactly that element: the length drops by one, the others keep their order, and the multiset loses only that element. |
| Messaging.SpliceStart | lib/messaging/event-listeners.js:81 | `splice`'s start index: an index within the list is kept, a negative one counts from the end and is clamped at 0, one beyond the end is clamped to the length. |
| Messaging.RemoveAt | lib/messaging/event-listeners.js:81 | `splice(index, 1)` shortens the list by one when the start index falls inside it, and leaves it unchanged otherwise. |
| Messaging.RemoveLastOn | lib/messaging/event-listeners.js:28-82 | Removing at the index `on` returned undoes that `on`. |
| Messaging.OnceListenersFireOnce | lib/messaging/event-listeners.js:53-73 | An emit calls the `on` listeners and then the `once` listeners. A second emit calls the `on` listeners alone. |
| Messaging.EventListeners.constructor | lib/messaging/event-listeners.js:14-21 | An event needs a non-empty name. Both lists start empty. |
| Messaging.EventListeners.On | lib/messaging/event-listeners.js:28-34 | Appends exactly the wrapped listener to `_on`. Returns a handle whose index is the old length. `_once` is unchanged. |
| Messaging.EventListeners.Once | lib/messaging/event-listeners.js:42-47 | Appends exactly the wrapped listener to `_once`. `_on` is unchanged. |
| Messaging.EventListeners.Emit | lib/messaging/event-listeners.js:53-73 | Calls the `_on` listeners in index order, then the pre-emit `_once` listeners, one pending result per call. Afterwards `_once` is empty and `_on` is unchanged. |
| Messaging.EventListeners.RemoveListenerAt | lib/messaging/event-listeners.js:80-82 | `_on` loses the element `splice(index, 1)` removes. `_once` is untouched. |

## Left out

- `object-path`'s dotted lookup into the controller and policy registries is modelled as a flat map lookup. A name containing `.` is looked up literally.
- Controller methods and registry entries are looked up among own fields only. JavaScript property access also finds inherited members, so `c@toString` resolves a method in the source (and later fails as a bad result); here it is MethodNotFound.
- The verbs an Express router supports are the fixed set `HttpVerbs`: Node's HTTP methods plus `all`. Any other router member (`use`, `param`, `route`) is treated as unsupported.
- Verb names are lowercased in ASCII only (`Lower`). JavaScript's `toLowerCase` also folds other characters (the Kelvin sign in `LOC\u212A` becomes `k`), so such a key is an unsupported verb here.
- DefineVerb, VerbTrace, Build, SpecRegsOk, BuildRoutersOk and VerbTraceOk follow the corrected guard of `_defineVerb`: a leaf whose pieces flatten to no stage (`get: []`) installs nothing. The source as written installs a route with an empty stack; VerbTraceAsWritten and AsWrittenInstallsEmptyStack state that behaviour (see "## Findings").
- `forOwn` visits the fields of an object in their given order. JavaScript's ordering of integer-like keys and the own properties of functions are not modelled.
- A policy array whose head is neither a string nor null/undefined fails with UnsupportedPolicyName. The source would look such a head (a number, say) up in the registry as a key.
- `checkSchema`, the `validator`/`sanitizer` wrappers and `render` are stage tags. What they do at request time is not modelled.
- Express's own checks on what `router.param` and `router[verb]` receive are not modelled.
- Promises (`runCheck`, `executePromise`, `Promise.all` in `emit`) are modelled by the value they settle to. Their asynchrony is not modelled.
- A listener that re-enters `emit`, `on` or `once` while `emit` runs is not modelled.
- `console.warn` deprecation notices, the `console.error` for a policy's bad result (lib/router-builder.js:560) and `debug` logging are left out.
- The errors carried by the validation failure are kept as the list express-validator reports. `errors.mapped()` is not modelled.
- `removeListenerAt` takes an integer index. Non-integer and string indices are not modelled.
- The internals of `Listener`, `LegacyListener` and `ListenerHandle` are not modelled. A listener is an opaque value.
- `executor` (lib/router-builder.js:40-52) is never used and is not modelled.
- `new` on a controller or policy class is a host function. A constructor returning a non-object is not modelled.
- The policy registry is always a map here, so the assertion that it exists has no counterpart.
- Mounting each built router on the application (`router.use`) is not modelled. `build` returns the routers it pushed.
- Controller methods and policy constructors are foreign code, given to the model as the host functions `apply` and `construct`. Each returns a value or throws one; a thrown value fails the build as `Thrown` with that value.
- lib/framework.js, lib/abstract-action.js and the tests are not part of this model.
- The comment at lib/router-builder.js:155-160 orders `before` just before `execute`. The code pushes `before` ahead of the whole action stack (lib/router-builder.js:179-183), and the model follows the code.

## Findings

| source | as written | input that shows it | evidently intended | confidence | as-written member | corrected member |
|---|---|---|---|---|---|---|
| lib/router-builder.js:201 | The guard tests the number of pieces pushed, which is at least one on every path that does not throw, so it never stops an installation. | The verb leaf `get: []` flattens to no stage, yet the route is installed with an empty stack. | The comment says no empty middleware should be added: install only when the flattened stack is non-empty. | not executed; medium | Compiler.AsWrittenInstallsEmptyStack | Compiler.VerbTraceOk |

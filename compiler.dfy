/// The route-specification compiler: `_processRouterSpecification`,
/// `_processToken`, `_addRoute`, `_addParameter`, `_defineVerb`,
/// `_defineResource` and `build`, stated as functions from a specification to
/// the registrations it makes. `Builder.RouterBuilder` performs the same walk
/// step by step on a stack of routers.
module Compiler {
  import opened Results
  import opened JsValues
  import opened Routes
  import opened Resolvers
  import opened Normaliser

  /** The verbs an Express router has a method for: Node's HTTP methods in
      lower case, plus `all`. */
  const HttpVerbs: set<string> := {
    "acl", "bind", "checkout", "connect", "copy", "delete", "get", "head", "link",
    "lock", "m-search", "merge", "mkactivity", "mkcalendar", "mkcol", "move",
    "notify", "options", "patch", "post", "propfind", "proppatch", "purge", "put",
    "rebind", "report", "search", "subscribe", "trace", "unbind", "unlink",
    "unlock", "unsubscribe", "all"
  }

  /** How `_processRouterSpecification` classifies a key: by its first character. */
  predicate IsNested(key: string) { |key| > 0 && key[0] == '/' }
  predicate IsParam(key: string) { |key| > 0 && key[0] == ':' }

  /** `param.slice(1)`. */
  function DropFirst(s: string): (r: string)
    ensures |s| > 0 ==> s == [s[0]] + r
  {
    if |s| == 0 then "" else s[1..]
  }

  /** `_addRoute`'s path: a nested key under `/` is the path itself, under any
      other path it is appended. */
  function JoinPath(current: string, route: string): (r: string)
    ensures |route| <= |r| && r[|r| - |route|..] == route
    ensures current != "/" ==> |current| <= |r| && r[..|current|] == current
    ensures current == "/" ==> r == route
  {
    if current != "/" then current + route else route
  }

  /** The middleware pieces `_defineVerb` pushes for a leaf, each already
      flattened: an action string, an array used as it is, or an options object. */
  function VerbPieces(env: Env, route: string, verb: string, opts: Value): (r: Result<seq<seq<Stage>>, CompileError>)
    ensures Lower(verb) !in HttpVerbs ==> r == Failure(UnsupportedVerb(verb))
    ensures Lower(verb) in HttpVerbs && opts.Arr? ==> r == Success([Pushed(AsRaw, opts)])
    ensures Lower(verb) in HttpVerbs && opts.Str? ==>
      var a := ActionStages(env, opts, route, Obj([]));
      && (r.Success? <==> a.Success?)
      && (r.Success? ==> r.value == [a.value])
      && (r.Failure? ==> r.error == a.error)
    ensures r.Success? ==> |r.value| > 0 && Lower(verb) in HttpVerbs
  {
    if Lower(verb) !in HttpVerbs then Failure(UnsupportedVerb(verb))
    else if opts.Str? then
      var a :- ActionStages(env, opts, route, Obj([]));
      Success([a])
    else if opts.Arr? then Success([Pushed(AsRaw, opts)])
    else OptionsPieces(env, route, verb, opts)
  }

  /** The pieces for an options object: it needs exactly one of `action` and
      `view`; its `before` and `after` wrap the action's or view's pieces. */
  function OptionsPieces(env: Env, route: string, verb: string, opts: Value): (r: Result<seq<seq<Stage>>, CompileError>)
    ensures (&& !opts.Null? && !opts.Undefined?
             && Truthy(FieldOf(opts, "action")) == Truthy(FieldOf(opts, "view")))
            ==> r == Failure(MissingActionOrView(verb, route))
    ensures r.Success? ==> |r.value| > 0
  {
    if opts.Null? || opts.Undefined? then Failure(TypeError("cannot read property 'action'"))
    else
      var action := FieldOf(opts, "action");
      var view := FieldOf(opts, "view");
      if !((Truthy(action) && !Truthy(view)) || (!Truthy(action) && Truthy(view))) then
        Failure(MissingActionOrView(verb, route))
      else
        var middle :- MiddlePieces(env, route, opts);
        Success(Optional(AsBefore, FieldOf(opts, "before")) + middle + Optional(AsAfter, FieldOf(opts, "after")))
  }

  /** `if (v) middleware.push(v)` for `before` and `after`. */
  function Optional(role: Role, v: Value): (r: seq<seq<Stage>>)
    ensures Concat(r) == OptionalStages(role, v)
  {
    if Truthy(v) then [Pushed(role, v)] else []
  }

  /** The stages `Optional` contributes once flattened. */
  function OptionalStages(role: Role, v: Value): seq<Stage> {
    if Truthy(v) then Pushed(role, v) else []
  }

  /** The pieces between `before` and `after`: the action's stages, or the
      optional policy gate followed by the render stage. */
  function MiddlePieces(env: Env, route: string, opts: Value): (r: Result<seq<seq<Stage>>, CompileError>)
    ensures r.Success? <==> MiddleStages(env, route, opts).Success?
    ensures r.Success? ==> |r.value| > 0 && Concat(r.value) == MiddleStages(env, route, opts).value
  {
    var action := FieldOf(opts, "action");
    var policy := FieldOf(opts, "policy");
    if Truthy(action) then
      var a :- ActionStages(env, action, route, opts);
      ConcatSingle(a);
      Success([a])
    else
      var p :- if Truthy(policy) then PolicyStages(env, policy) else Success([]);
      var gate := if Truthy(policy) then [p] else [];
      ConcatAppend(gate, [[Render(FieldOf(opts, "view"))]]);
      ConcatSingle(p);
      ConcatSingle([Render(FieldOf(opts, "view"))]);
      Success(gate + [[Render(FieldOf(opts, "view"))]])
  }

  /** The stages `MiddlePieces` contributes once flattened. */
  function MiddleStages(env: Env, route: string, opts: Value): Result<seq<Stage>, CompileError> {
    var action := FieldOf(opts, "action");
    var policy := FieldOf(opts, "policy");
    if Truthy(action) then ActionStages(env, action, route, opts)
    else
      var p :- PolicyPart(env, policy);
      Success(p + [Render(FieldOf(opts, "view"))])
  }

  /** `_defineVerb`: install the flattened stack on the active router unless it
      is empty. */
  function VerbTrace(env: Env, route: string, verb: string, opts: Value): (r: Trace)
    ensures r.failure.Some? <==> VerbPieces(env, route, verb, opts).Failure?
    ensures |r.regs| <= 1 && (r.failure.Some? ==> r.regs == [])
    ensures r.regs != [] ==>
      && r.regs[0].Route? && r.regs[0].verb == Lower(verb) && r.regs[0].path == route
      && |r.regs[0].stages| > 0 && r.regs[0].stages == Concat(VerbPieces(env, route, verb, opts).value)
  {
    match VerbPieces(env, route, verb, opts)
    case Failure(e) => Trace([], Some(e))
    case Success(pieces) =>
      var stack := Concat(pieces);
      if |stack| > 0 then Trace([Route(Lower(verb), route, stack)], None) else Trace([], None)
  }

  /** `_defineVerb` as written: the guard counts the pieces pushed rather than
      the stages they flatten to. */
  function VerbTraceAsWritten(env: Env, route: string, verb: string, opts: Value): (r: Trace)
    ensures r.failure.Some? <==> VerbPieces(env, route, verb, opts).Failure?
    ensures r.failure.None? ==> |r.regs| == 1 && r.regs[0].Route? && r.regs[0].path == route
  {
    match VerbPieces(env, route, verb, opts)
    case Failure(e) => Trace([], Some(e))
    case Success(pieces) =>
      if |pieces| > 0 then Trace([Route(Lower(verb), route, Concat(pieces))], None) else Trace([], None)
  }

  /** `_addParameter`: a function is the handler itself; an object-like value
      names a controller action, which is invoked without arguments to obtain the
      handler; anything else is an error. The parameter is registered without
      its leading `:`. */
  function ParamRegistration(env: Env, key: string, opts: Value): (r: Result<Registration, CompileError>)
    ensures r.Success? ==> r.value.Param? && r.value.name == DropFirst(key)
    ensures opts.Fn? ==> r == Success(Param(DropFirst(key), opts))
    ensures !opts.Fn? && !IsObjectLike(opts) ==> r == Failure(ParameterNotCallable(key))
    ensures IsObjectLike(opts) && !Truthy(FieldOf(opts, "action")) ==> r == Failure(InvalidParameter(key))
    ensures IsObjectLike(opts) && Truthy(FieldOf(opts, "action")) ==>
      var call := ResolveControllerAction(env.controllers, FieldOf(opts, "action"));
      && (r.Success? <==> call.Success? && call.value.fn.Fn? && env.host.apply(call.value, Undefined).Success?)
      && (call.Failure? ==> r == Failure(call.error))
      && (call.Success? && !call.value.fn.Fn? ==> r.Failure? && r.error.TypeError?)
      && (call.Success? && call.value.fn.Fn? && env.host.apply(call.value, Undefined).Failure? ==>
            r == Failure(Thrown(env.host.apply(call.value, Undefined).error)))
      && (r.Success? ==> env.host.apply(call.value, Undefined) == Success(r.value.handler))
  {
    if opts.Fn? then Success(Param(DropFirst(key), opts))
    else if IsObjectLike(opts) then
      var action := FieldOf(opts, "action");
      if Truthy(action) then
        var call :- ResolveControllerAction(env.controllers, action);
        var handler :- Invoke(env.host, call, Undefined);
        Success(Param(DropFirst(key), handler))
      else Failure(InvalidParameter(key))
    else Failure(ParameterNotCallable(key))
  }

  function Registered(r: Result<Registration, CompileError>): Trace {
    match r
    case Success(reg) => Trace([reg], None)
    case Failure(e) => Trace([], Some(e))
  }

  /** A nested value is smaller than the specification it sits in. */
  ghost predicate NestedBounded(entries: seq<Field>, bound: nat) {
    forall j | 0 <= j < |entries| :: IsNested(entries[j].key) ==> Size(entries[j].value) < bound
  }

  lemma EntriesBounded(spec: Value)
    ensures NestedBounded(OwnEntries(spec), Size(spec))
  {
    var entries := OwnEntries(spec);
    forall j | 0 <= j < |entries| && IsNested(entries[j].key)
      ensures Size(entries[j].value) < Size(spec)
    {
      FieldSmaller(spec.fields, j);
    }
  }

  /** `_processRouterSpecification(path, name, spec)`: visit the own entries of
      `spec` in order, stopping at the first error. */
  function CompileSpec(env: Env, path: string, spec: Value): (r: Trace)
    ensures !spec.Obj? && !spec.Arr? && !spec.Str? ==> r == Trace([], None)
    decreases Size(spec), 1, 0
  {
    EntriesBounded(spec);
    CompileEntries(env, path, OwnEntries(spec), Size(spec))
  }

  function CompileEntries(env: Env, path: string, entries: seq<Field>, ghost bound: nat): (r: Trace)
    requires NestedBounded(entries, bound)
    ensures entries == [] ==> r == Trace([], None)
    decreases bound, 0, 2
  {
    ThenAll(EntryTraces(env, path, entries, bound))
  }

  /** Each entry compiled on its own. */
  function EntryTraces(env: Env, path: string, entries: seq<Field>, ghost bound: nat): (r: seq<Trace>)
    requires NestedBounded(entries, bound)
    ensures |r| == |entries|
    ensures forall i | 0 <= i < |r| :: r[i] == EntryTrace(env, path, entries[i], bound)
    decreases bound, 0, 1
  {
    seq(|entries|, i requires 0 <= i < |entries| => EntryTrace(env, path, entries[i], bound))
  }

  /** One entry, classified by its key: `/x` is a nested route (`_addRoute`),
      `:x` a parameter (`_addParameter`), `resource` always fails
      (`_defineResource`), anything else is a verb (`_defineVerb`). */
  function EntryTrace(env: Env, path: string, entry: Field, ghost bound: nat): (r: Trace)
    requires IsNested(entry.key) ==> Size(entry.value) < bound
    ensures entry.key == "resource" ==> r == Trace([], Some(ResourceUnsupported))
    ensures IsParam(entry.key) ==> |r.regs| <= 1 && (r.failure.None? <==> |r.regs| == 1)
    ensures IsParam(entry.key) && r.regs != [] ==> r.regs[0].Param? && r.regs[0].name == DropFirst(entry.key)
    decreases bound, 0, 0
  {
    if IsNested(entry.key) then CompileSpec(env, JoinPath(path, entry.key), entry.value)
    else if IsParam(entry.key) then Registered(ParamRegistration(env, entry.key, entry.value))
    else if entry.key == "resource" then Trace([], Some(ResourceUnsupported))
    else VerbTrace(env, path, entry.key, entry.value)
  }

  /** A nested key `/x` below `/` is compiled at `/x`, below any other path `p`
      at `p` followed by `/x`; every route it installs lies under that path. */
  lemma NestedEntryPath(env: Env, path: string, key: string, value: Value, bound: nat)
    requires IsNested(key) && Size(value) < bound
    ensures var nested := if path == "/" then key else path + key;
      && EntryTrace(env, path, Field(key, value), bound) == CompileSpec(env, nested, value)
      && RegsOk(nested, EntryTrace(env, path, Field(key, value), bound).regs)
  {
    var nested := JoinPath(path, key);
    assert Under(nested, nested);
    SpecRegsOk(env, nested, nested, value);
  }

  /** `build`: each router definition gets a fresh router, pushed onto the stack
      of routers and compiled at the base path; the first error stops the build.
      The routers pushed so far are returned together with that error. */
  function BuildRouters(env: Env, basePath: string, defs: seq<Field>): (r: (seq<Router>, Option<CompileError>))
    ensures |r.0| <= |defs|
    ensures r.1.None? ==> |r.0| == |defs|
  {
    Mounted(DefinitionTraces(env, basePath, defs))
  }

  /** Each router definition compiled on its own at the base path. */
  function DefinitionTraces(env: Env, basePath: string, defs: seq<Field>): (r: seq<Trace>)
    ensures |r| == |defs|
  {
    seq(|defs|, i requires 0 <= i < |defs| => CompileSpec(env, basePath, defs[i].value))
  }

  /** One router per compiled definition, up to and including the first that
      threw, and that error. */
  function Mounted(ts: seq<Trace>): (r: (seq<Router>, Option<CompileError>))
    ensures |r.0| <= |ts|
    ensures r.1.None? ==> |r.0| == |ts|
  {
    if ts == [] then ([], None)
    else
      var n := |ts| - 1;
      var (routers, failure) := Mounted(ts[..n]);
      if failure.Some? then (routers, failure)
      else (routers + [Router(ts[n].regs)], ts[n].failure)
  }

  /** The `k`-th router holds what the `k`-th definition registered. */
  lemma {:induction false} MountedLogs(ts: seq<Trace>)
    ensures forall k | 0 <= k < |Mounted(ts).0| :: Mounted(ts).0[k] == Router(ts[k].regs)
    decreases |ts|
  {
    if ts != [] {
      var n := |ts| - 1;
      MountedLogs(ts[..n]);
      assert forall k | 0 <= k < n :: ts[..n][k] == ts[k];
    }
  }

  /** `build` mounts one more definition unless an earlier one threw. */
  lemma MountedStep(ts: seq<Trace>, i: nat)
    requires i < |ts| && Mounted(ts[..i]).1.None?
    ensures Mounted(ts[..i + 1]) == (Mounted(ts[..i]).0 + [Router(ts[i].regs)], ts[i].failure)
  {
    assert ts[..i + 1][..i] == ts[..i];
  }

  /** After the definition at `i` is mounted: `build` goes on when it did not
      throw, and otherwise ends with the routers mounted so far and its error. */
  lemma MountedNext(ts: seq<Trace>, i: nat, mounted: seq<Router>, router: Router, err: Option<CompileError>)
    requires i < |ts| && Mounted(ts[..i]) == (mounted, None)
    requires router == Router(ts[i].regs) && err == ts[i].failure
    ensures err.None? ==> Mounted(ts[..i + 1]) == (mounted + [router], None)
    ensures err.Some? ==> Mounted(ts) == (mounted + [router], err)
  {
    MountedStep(ts, i);
    if err.Some? {
      MountedStops(ts, i + 1);
    }
  }

  /** Once a definition throws, `build` stops there. */
  lemma {:induction false} MountedStops(ts: seq<Trace>, i: nat)
    requires 0 < i <= |ts| && Mounted(ts[..i]).1.Some?
    ensures Mounted(ts) == Mounted(ts[..i])
    decreases |ts| - i
  {
    if i < |ts| {
      assert ts[..i + 1][..i] == ts[..i];
      MountedStops(ts, i + 1);
    } else {
      assert ts[..i] == ts;
    }
  }

  /** The entries of a specification are compiled in order: compiling `xs + ys`
      compiles `xs`, then, unless that threw, `ys`. */
  lemma CompileEntriesAppend(env: Env, path: string, xs: seq<Field>, ys: seq<Field>, bound: nat)
    requires NestedBounded(xs + ys, bound)
    ensures NestedBounded(xs, bound) && NestedBounded(ys, bound)
    ensures CompileEntries(env, path, xs + ys, bound) ==
            Then(CompileEntries(env, path, xs, bound), CompileEntries(env, path, ys, bound))
  {
    NestedBoundedSplit(xs, ys, bound);
    var txs, tys := EntryTraces(env, path, xs, bound), EntryTraces(env, path, ys, bound);
    assert EntryTraces(env, path, xs + ys, bound) == txs + tys;
    ThenAllAppend(txs, tys);
  }

  /** A single entry compiles to exactly what that entry registers. */
  lemma CompileOneEntry(env: Env, path: string, entry: Field, bound: nat)
    requires IsNested(entry.key) ==> Size(entry.value) < bound
    ensures NestedBounded([entry], bound)
    ensures CompileEntries(env, path, [entry], bound) == EntryTrace(env, path, entry, bound)
  {
    var ts := EntryTraces(env, path, [entry], bound);
    assert ts[..0] == [];
    assert ThenAll(ts) == Then(Trace([], None), ts[0]);
  }

  lemma NestedBoundedSplit(xs: seq<Field>, ys: seq<Field>, bound: nat)
    requires NestedBounded(xs + ys, bound)
    ensures NestedBounded(xs, bound) && NestedBounded(ys, bound)
  {
    assert forall j | 0 <= j < |xs| :: xs[j] == (xs + ys)[j];
    assert forall j | 0 <= j < |ys| :: ys[j] == (xs + ys)[|xs| + j];
  }

  /** A `resource` key always throws, so a specification that compiles without
      error has none. */
  lemma NoResourceWithoutFailure(env: Env, path: string, entries: seq<Field>, bound: nat)
    requires NestedBounded(entries, bound)
    requires CompileEntries(env, path, entries, bound).failure.None?
    ensures forall j | 0 <= j < |entries| :: entries[j].key != "resource"
  {
    var ts := EntryTraces(env, path, entries, bound);
    ThenAllNoFailure(ts);
    forall j | 0 <= j < |entries|
      ensures entries[j].key != "resource"
    {
      assert ts[j] == EntryTrace(env, path, entries[j], bound);
    }
  }

  /** A route path lies under the base path: below `/` it is an absolute path,
      below any other base it extends the base. */
  predicate Under(base: string, path: string) {
    if base == "/" then |path| > 0 && path[0] == '/' else base <= path
  }

  lemma UnderJoin(base: string, path: string, key: string)
    requires Under(base, path) && IsNested(key)
    ensures Under(base, JoinPath(path, key))
  {
    if base != "/" && path == "/" {
      assert base == "";
    }
  }

  /** What every installed route satisfies: a supported verb, a non-empty stack
      in phase order, and a path under the base. */
  ghost predicate RouteOk(base: string, reg: Registration) {
    reg.Route? ==> reg.verb in HttpVerbs && |reg.stages| > 0 && PhaseOrdered(reg.stages) && Under(base, reg.path)
  }

  ghost predicate RegsOk(base: string, regs: seq<Registration>) {
    forall i | 0 <= i < |regs| :: RouteOk(base, regs[i])
  }

  lemma RegsOkThen(base: string, t: Trace, u: Trace)
    requires RegsOk(base, t.regs) && RegsOk(base, u.regs)
    ensures RegsOk(base, Then(t, u).regs)
  {
    if t.failure.None? {
      var r := t.regs + u.regs;
      forall i | 0 <= i < |r| ensures RouteOk(base, r[i]) {
        if i >= |t.regs| {
          assert r[i] == u.regs[i - |t.regs|];
        }
      }
    }
  }

  lemma ConcatSingle(x: seq<Stage>)
    ensures Concat([x]) == x
  {
    assert [x][1..] == [];
  }

  lemma ConcatThree(x: seq<seq<Stage>>, y: seq<seq<Stage>>, z: seq<seq<Stage>>)
    ensures Concat(x + y + z) == Concat(x) + Concat(y) + Concat(z)
  {
    ConcatAppend(x + y, z);
    ConcatAppend(x, y);
  }

  /** The stack of an options-object leaf: `before` leaves first, then the
      action's stages or the optional policy gate and the render stage, then
      the `after` leaves. */
  lemma ObjectLeafStack(env: Env, route: string, verb: string, opts: Value)
    requires VerbPieces(env, route, verb, opts).Success?
    requires !opts.Str? && !opts.Arr?
    ensures var b := OptionalStages(AsBefore, FieldOf(opts, "before"));
      var a := OptionalStages(AsAfter, FieldOf(opts, "after"));
      var stack := Concat(VerbPieces(env, route, verb, opts).value);
      && Truthy(FieldOf(opts, "action")) != Truthy(FieldOf(opts, "view"))
      && MiddleStages(env, route, opts).Success?
      && stack == b + MiddleStages(env, route, opts).value + a
  {
    var middle := MiddlePieces(env, route, opts).value;
    ConcatThree(Optional(AsBefore, FieldOf(opts, "before")), middle, Optional(AsAfter, FieldOf(opts, "after")));
  }

  /** The middle of a view route: at most one policy gate, the configured
      policy's when there is one, then the render stage last. */
  lemma ViewMiddleShape(env: Env, route: string, opts: Value)
    requires MiddleStages(env, route, opts).Success?
    requires !Truthy(FieldOf(opts, "action"))
    ensures var m := MiddleStages(env, route, opts).value;
      && 0 < |m| <= 2 && m[|m| - 1] == Render(FieldOf(opts, "view"))
      && (forall i | 0 <= i < |m| - 1 :: m[i].PolicyGate?)
      && (Truthy(FieldOf(opts, "policy")) ==> m[..|m| - 1] == PolicyStages(env, FieldOf(opts, "policy")).value)
      && (!Truthy(FieldOf(opts, "policy")) ==> |m| == 1)
  {
    var m := MiddleStages(env, route, opts).value;
    var p := PolicyPart(env, FieldOf(opts, "policy"));
    assert m == p.value + [Render(FieldOf(opts, "view"))];
    assert m[..|m| - 1] == p.value;
  }

  /** The middle of an options-object leaf is in phase order. */
  lemma MiddleStagesOrdered(env: Env, route: string, opts: Value)
    requires MiddleStages(env, route, opts).Success?
    ensures PhaseOrdered(MiddleStages(env, route, opts).value)
    ensures PhasesWithin(MiddleStages(env, route, opts).value, 1, 6)
  {
    var action := FieldOf(opts, "action");
    if Truthy(action) {
      ActionStagesOrdered(env, action, route, opts);
    } else {
      var view := FieldOf(opts, "view");
      PolicyPartPhases(env, FieldOf(opts, "policy"));
      OrderedAppend(PolicyPart(env, FieldOf(opts, "policy")).value, [Render(view)], 1, 5, 6, 6);
    }
  }

  /** Every stack `_defineVerb` builds is in phase order: `before` leaves, then
      the action's or view's stages, then `after` leaves. */
  lemma VerbStackOrdered(env: Env, route: string, verb: string, opts: Value)
    requires VerbPieces(env, route, verb, opts).Success?
    ensures PhaseOrdered(Concat(VerbPieces(env, route, verb, opts).value))
  {
    var pieces := VerbPieces(env, route, verb, opts).value;
    if opts.Str? {
      ConcatSingle(pieces[0]);
      ActionStagesOrdered(env, opts, route, Obj([]));
    } else if opts.Arr? {
      ConcatSingle(pieces[0]);
      PushedPhase(AsRaw, opts, 6);
    } else {
      ObjectLeafStack(env, route, verb, opts);
      MiddleStagesOrdered(env, route, opts);
      WrappedOrdered(FieldOf(opts, "before"), MiddleStages(env, route, opts).value, FieldOf(opts, "after"));
    }
  }

  lemma WrappedOrdered(before: Value, m: seq<Stage>, after: Value)
    requires PhaseOrdered(m) && PhasesWithin(m, 1, 6)
    ensures PhaseOrdered(OptionalStages(AsBefore, before) + m + OptionalStages(AsAfter, after))
  {
    var b := OptionalStages(AsBefore, before);
    var a := OptionalStages(AsAfter, after);
    PushedPhase(AsBefore, before, 0);
    PushedPhase(AsAfter, after, 7);
    OrderedAppend(b, m, 0, 0, 1, 6);
    OrderedAppend(b + m, a, 0, 6, 7, 7);
  }

  /** `_defineVerb` installs at most one route, at the given path, with a
      supported verb and a non-empty stack in phase order. */
  lemma VerbTraceOk(env: Env, route: string, verb: string, opts: Value)
    ensures var t := VerbTrace(env, route, verb, opts);
      && |t.regs| <= 1
      && forall i | 0 <= i < |t.regs| ::
           && t.regs[i].Route? && t.regs[i].path == route && t.regs[i].verb in HttpVerbs
           && |t.regs[i].stages| > 0 && PhaseOrdered(t.regs[i].stages)
  {
    if VerbPieces(env, route, verb, opts).Success? {
      VerbStackOrdered(env, route, verb, opts);
    }
  }

  lemma {:induction false} SpecRegsOk(env: Env, base: string, path: string, spec: Value)
    requires Under(base, path)
    ensures RegsOk(base, CompileSpec(env, path, spec).regs)
    decreases Size(spec), 1, 0
  {
    EntriesBounded(spec);
    EntriesRegsOk(env, base, path, OwnEntries(spec), Size(spec));
  }

  lemma {:induction false} EntriesRegsOk(env: Env, base: string, path: string, entries: seq<Field>, bound: nat)
    requires NestedBounded(entries, bound) && Under(base, path)
    ensures RegsOk(base, CompileEntries(env, path, entries, bound).regs)
    decreases bound, 0, 1
  {
    var ts := EntryTraces(env, path, entries, bound);
    forall j | 0 <= j < |ts|
      ensures RegsOk(base, ts[j].regs)
    {
      EntryRegsOk(env, base, path, entries[j], bound);
    }
    RegsOkThenAll(base, ts);
  }

  lemma {:induction false} RegsOkThenAll(base: string, ts: seq<Trace>)
    requires forall j | 0 <= j < |ts| :: RegsOk(base, ts[j].regs)
    ensures RegsOk(base, ThenAll(ts).regs)
    decreases |ts|
  {
    if ts != [] {
      var n := |ts| - 1;
      assert forall j | 0 <= j < n :: ts[..n][j] == ts[j];
      RegsOkThenAll(base, ts[..n]);
      RegsOkThen(base, ThenAll(ts[..n]), ts[n]);
    }
  }

  lemma {:induction false} EntryRegsOk(env: Env, base: string, path: string, entry: Field, bound: nat)
    requires IsNested(entry.key) ==> Size(entry.value) < bound
    requires Under(base, path)
    ensures RegsOk(base, EntryTrace(env, path, entry, bound).regs)
    decreases bound, 0, 0
  {
    if IsNested(entry.key) {
      UnderJoin(base, path, entry.key);
      SpecRegsOk(env, base, JoinPath(path, entry.key), entry.value);
    } else if !IsParam(entry.key) && entry.key != "resource" {
      VerbTraceOk(env, path, entry.key, entry.value);
    }
  }

  /** Every route `build` installs, on every router, has a supported verb, a
      non-empty stack in phase order and a path under the base path. */
  lemma BuildRoutersOk(env: Env, basePath: string, defs: seq<Field>)
    ensures forall k | 0 <= k < |BuildRouters(env, basePath, defs).0| ::
      RegsOk(basePath, BuildRouters(env, basePath, defs).0[k].log)
  {
    var ts := DefinitionTraces(env, basePath, defs);
    MountedLogs(ts);
    assert Under(basePath, basePath);
    forall k | 0 <= k < |ts|
      ensures RegsOk(basePath, ts[k].regs)
    {
      SpecRegsOk(env, basePath, basePath, defs[k].value);
    }
  }

  /** A route given as an action string compiles the action without options,
      so it has no policy gate. */
  lemma StringLeafNoPolicy(env: Env, route: string, verb: string, action: string)
    requires VerbPieces(env, route, verb, Str(action)).Success?
    ensures Concat(VerbPieces(env, route, verb, Str(action)).value) == ActionStages(env, Str(action), route, Obj([])).value
    ensures forall i | 0 <= i < |Concat(VerbPieces(env, route, verb, Str(action)).value)| ::
      !Concat(VerbPieces(env, route, verb, Str(action)).value)[i].PolicyGate?
  {
    var pieces := VerbPieces(env, route, verb, Str(action)).value;
    ConcatSingle(pieces[0]);
    NoPolicyWithoutOption(env, Str(action), route, Obj([]));
  }

  /** An array leaf is installed as it is, its flattened functions in order. */
  lemma ArrayLeafVerbatim(env: Env, route: string, verb: string, items: seq<Value>)
    requires Lower(verb) in HttpVerbs && FlattenDeep(Arr(items)) != []
    ensures VerbTrace(env, route, verb, Arr(items)) ==
      Trace([Route(Lower(verb), route, TagAll(AsRaw, FlattenDeep(Arr(items))))], None)
  {
    ConcatSingle(Pushed(AsRaw, Arr(items)));
  }

  /** As written, the guard of `_defineVerb` never stops an installation: a
      verb that compiles always pushed at least one piece. */
  lemma AsWrittenGuardAlwaysPasses(env: Env, route: string, verb: string, opts: Value)
    requires VerbPieces(env, route, verb, opts).Success?
    ensures VerbTraceAsWritten(env, route, verb, opts) ==
      Trace([Route(Lower(verb), route, Concat(VerbPieces(env, route, verb, opts).value))], None)
  {
  }

  /** So `get: []` installs a route whose stack is empty, which the corrected
      guard leaves out. */
  lemma AsWrittenInstallsEmptyStack(env: Env, route: string)
    ensures VerbTraceAsWritten(env, route, "get", Arr([])) == Trace([Route("get", route, [])], None)
    ensures VerbTrace(env, route, "get", Arr([])) == Trace([], None)
  {
    assert Lower("get") == "get";
    assert FlattenDeep(Arr([])) == [];
    ConcatSingle(Pushed(AsRaw, Arr([])));
  }
}

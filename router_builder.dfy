/// The router builder object: a stack of routers, the last of which is the
/// active one, onto which `build` compiles each router definition. Each method
/// does what its counterpart in the source does, push by push, and is proved to
/// leave the stack as the compiler functions of `Compiler` say.
module Builder {
  import opened Results
  import opened JsValues
  import opened Routes
  import opened Resolvers
  import opened Normaliser
  import opened Compiler

  class RouterBuilder {
    /** The path every router definition is mounted at (`/` by default). */
    const basePath: string
    /** The router definitions, by name. */
    const routers: Value
    /** The loaded controllers and policies, and the code they run. */
    const env: Env
    /** `this._routers`: the child routers built so far; the last is active. */
    var stack: seq<Router>

    /** `init`: the listeners and router definitions must be given. */
    constructor (basePath: string, listeners: Value, routers: Value, env: Env)
      requires Truthy(listeners) && Truthy(routers)
      ensures this.basePath == basePath && this.routers == routers && this.env == env
      ensures stack == []
    {
      this.basePath := basePath;
      this.routers := routers;
      this.env := env;
      stack := [];
    }

    /** `activeRouter`: the last router pushed, if any. */
    function ActiveRouter(): (r: Option<Router>)
      reads this
      ensures r.Some? <==> |stack| > 0
      ensures r.Some? ==> r.value == stack[|stack| - 1]
    {
      if |stack| == 0 then None else Some(stack[|stack| - 1])
    }

    /** `build`: for each definition, push a fresh child router and compile the
        definition into it at the base path. The result is the mounted child
        routers, or the first error. */
    method Build() returns (r: Result<seq<Router>, CompileError>)
      modifies this
      ensures stack == old(stack) + BuildRouters(env, basePath, OwnEntries(routers)).0
      ensures var built := BuildRouters(env, basePath, OwnEntries(routers));
        built.1.None? ==> r == Success(built.0)
      ensures var built := BuildRouters(env, basePath, OwnEntries(routers));
        built.1.Some? ==> r == Failure(built.1.value)
    {
      var defs := OwnEntries(routers);
      ghost var ts := DefinitionTraces(env, basePath, defs);
      var mounted: seq<Router> := [];
      var i := 0;
      while i < |defs|
        invariant 0 <= i <= |defs|
        invariant Mounted(ts[..i]) == (mounted, None)
        invariant stack == old(stack) + mounted
      {
        var router, err := Mount(defs[i].key, defs[i].value);
        assert ts[i] == CompileSpec(env, basePath, defs[i].value);
        MountedNext(ts, i, mounted, router, err);
        mounted := mounted + [router];
        if err.Some? {
          assert Mounted(ts) == (mounted, err);
          assert stack == old(stack) + mounted;
          return Failure(err.value);
        }
        i := i + 1;
      }
      assert ts[..i] == ts;
      return Success(mounted);
    }

    /** One step of `build`: push a fresh router and compile one definition
        into it at the base path. */
    method Mount(name: string, definition: Value) returns (router: Router, err: Option<CompileError>)
      modifies this
      ensures var t := CompileSpec(env, basePath, definition);
        router == Router(t.regs) && stack == old(stack) + [router] && err == t.failure
    {
      stack := stack + [Router([])];
      err := ProcessRouterSpecification(basePath, name, definition);
      router := stack[|stack| - 1];
      assert [] + CompileSpec(env, basePath, definition).regs == CompileSpec(env, basePath, definition).regs;
      assert stack == old(stack) + [router];
    }

    /** `_processRouterSpecification`: visit the own entries of `spec` in order,
        dispatching on the first character of each key. */
    method ProcessRouterSpecification(routerPath: string, name: string, spec: Value) returns (err: Option<CompileError>)
      requires |stack| > 0
      modifies this
      ensures var t := CompileSpec(env, routerPath, spec);
        stack == Extend(old(stack), t.regs) && err == t.failure
      decreases Size(spec), 1
    {
      var entries := OwnEntries(spec);
      EntriesBounded(spec);
      ExtendNothing(stack);
      ghost var ts := EntryTraces(env, routerPath, entries, Size(spec));
      var i := 0;
      while i < |entries|
        invariant 0 <= i <= |entries|
        invariant ThenAll(ts[..i]).failure.None?
        invariant stack == Extend(old(stack), ThenAll(ts[..i]).regs)
      {
        var e := ProcessEntry(routerPath, entries[i].key, entries[i].value, Size(spec));
        ThenAllStep(ts, i);
        ExtendTwice(old(stack), ThenAll(ts[..i]).regs, ts[i].regs);
        if e.Some? {
          ThenAllStops(ts, i + 1);
          return e;
        }
        i := i + 1;
      }
      assert ts[..i] == ts;
      return None;
    }

    /** The `forOwn` callback of `_processRouterSpecification`: a nested route,
        a parameter, or a token, by the key's first character. */
    method ProcessEntry(routerPath: string, key: string, value: Value, ghost bound: nat) returns (err: Option<CompileError>)
      requires |stack| > 0
      requires IsNested(key) ==> Size(value) < bound
      modifies this
      ensures var t := EntryTrace(env, routerPath, Field(key, value), bound);
        stack == Extend(old(stack), t.regs) && err == t.failure
      decreases bound, 0
    {
      if |key| > 0 && key[0] == '/' {
        err := AddRoute(routerPath, key, value);
      } else if |key| > 0 && key[0] == ':' {
        err := AddParameter(key, value);
      } else {
        err := ProcessToken(routerPath, key, value);
      }
    }

    /** `_addRoute`: a nested key compiles its value at the joined path. */
    method AddRoute(currentPath: string, route: string, definition: Value) returns (err: Option<CompileError>)
      requires |stack| > 0
      modifies this
      ensures var t := CompileSpec(env, JoinPath(currentPath, route), definition);
        stack == Extend(old(stack), t.regs) && err == t.failure
      decreases Size(definition), 2
    {
      var routerPath := if currentPath != "/" then currentPath + route else route;
      err := ProcessRouterSpecification(routerPath, route, definition);
    }

    /** `_processToken`: `resource` or a verb. */
    method ProcessToken(route: string, token: string, value: Value) returns (err: Option<CompileError>)
      requires |stack| > 0
      modifies this
      ensures var t := if token == "resource" then Trace([], Some(ResourceUnsupported)) else VerbTrace(env, route, token, value);
        stack == Extend(old(stack), t.regs) && err == t.failure
    {
      if token == "resource" {
        err := DefineResource(route, value);
        ExtendNothing(stack);
      } else {
        err := DefineVerb(route, token, value);
      }
    }

    /** `_defineResource`: resource definitions are not supported. */
    method DefineResource(route: string, opts: Value) returns (err: Option<CompileError>)
      ensures err == Some(ResourceUnsupported)
    {
      err := Some(ResourceUnsupported);
    }

    /** `_addParameter`: register the parameter's handler on the active router. */
    method AddParameter(param: string, opts: Value) returns (err: Option<CompileError>)
      requires |stack| > 0
      modifies this
      ensures var t := Registered(ParamRegistration(env, param, opts));
        stack == Extend(old(stack), t.regs) && err == t.failure
    {
      ExtendNothing(stack);
      var handler: Value;
      if opts.Fn? {
        handler := opts;
      } else if IsObjectLike(opts) {
        var action := FieldOf(opts, "action");
        if Truthy(action) {
          var controller := ResolveControllerAction(env.controllers, action);
          if controller.Failure? {
            return Some(controller.error);
          }
          var invoked := Invoke(env.host, controller.value, Undefined);
          if invoked.Failure? {
            return Some(invoked.error);
          }
          handler := invoked.value;
        } else {
          return Some(InvalidParameter(param));
        }
      } else {
        return Some(ParameterNotCallable(param));
      }
      stack := Extend(stack, [Param(DropFirst(param), handler)]);
      return None;
    }

    /** `_defineVerb`: push the leaf's middleware pieces, flatten them and
        install the stack under the lower-cased verb unless it is empty. */
    method DefineVerb(route: string, verb: string, opts: Value) returns (err: Option<CompileError>)
      requires |stack| > 0
      modifies this
      ensures var t := VerbTrace(env, route, verb, opts);
        stack == Extend(old(stack), t.regs) && err == t.failure
    {
      ExtendNothing(stack);
      var middleware := VerbMiddleware(route, verb, opts);
      if middleware.Failure? {
        return Some(middleware.error);
      }
      var pieces := Concat(middleware.value);
      if |pieces| > 0 {
        stack := Extend(stack, [Route(Lower(verb), route, pieces)]);
      }
      return None;
    }

    /** The pieces `_defineVerb` pushes, in order. */
    method VerbMiddleware(route: string, verb: string, opts: Value) returns (r: Result<seq<seq<Stage>>, CompileError>)
      ensures r == VerbPieces(env, route, verb, opts)
    {
      if Lower(verb) !in HttpVerbs {
        return Failure(UnsupportedVerb(verb));
      }
      var middleware: seq<seq<Stage>> := [];
      if opts.Str? {
        var a := ActionStringToMiddleware(opts, route, Obj([]));
        if a.Failure? {
          return Failure(a.error);
        }
        middleware := middleware + [a.value];
        assert VerbPieces(env, route, verb, opts).Success?;
        assert VerbPieces(env, route, verb, opts).value == middleware;
      } else if opts.Arr? {
        middleware := middleware + [Pushed(AsRaw, opts)];
        assert VerbPieces(env, route, verb, opts).Success?;
        assert VerbPieces(env, route, verb, opts).value == middleware;
      } else {
        r := OptionsMiddleware(route, verb, opts);
        return r;
      }
      return Success(middleware);
    }

    /** The pieces for an options object: `before`, the action or view, `after`. */
    method OptionsMiddleware(route: string, verb: string, opts: Value) returns (r: Result<seq<seq<Stage>>, CompileError>)
      ensures r == OptionsPieces(env, route, verb, opts)
    {
      if opts.Null? || opts.Undefined? {
        return Failure(TypeError("cannot read property 'action'"));
      }
      var action := FieldOf(opts, "action");
      var view := FieldOf(opts, "view");
      if !((Truthy(action) && !Truthy(view)) || (!Truthy(action) && Truthy(view))) {
        return Failure(MissingActionOrView(verb, route));
      }
      var middle := ActionOrView(route, opts);
      if middle.Failure? {
        return Failure(middle.error);
      }
      var middleware := WrapMiddleware(FieldOf(opts, "before"), middle.value, FieldOf(opts, "after"));
      return Success(middleware);
    }

    /** The pushes around the action or view: `before` first, `after` last,
        each only when given. */
    method WrapMiddleware(before: Value, middle: seq<seq<Stage>>, after: Value) returns (middleware: seq<seq<Stage>>)
      ensures middleware == Optional(AsBefore, before) + middle + Optional(AsAfter, after)
    {
      middleware := [];
      if Truthy(before) {
        middleware := middleware + [Pushed(AsBefore, before)];
      }
      middleware := middleware + middle;
      if Truthy(after) {
        middleware := middleware + [Pushed(AsAfter, after)];
      }
    }

    /** The action's stack, or the view's optional policy and render stage. */
    method ActionOrView(route: string, opts: Value) returns (r: Result<seq<seq<Stage>>, CompileError>)
      ensures r == MiddlePieces(env, route, opts)
    {
      var action := FieldOf(opts, "action");
      var middleware: seq<seq<Stage>> := [];
      if Truthy(action) {
        var a := ActionStringToMiddleware(action, route, opts);
        if a.Failure? {
          return Failure(a.error);
        }
        middleware := middleware + [a.value];
        assert MiddlePieces(env, route, opts).Success?;
        assert MiddlePieces(env, route, opts).value == middleware;
      } else {
        var policy := FieldOf(opts, "policy");
        if Truthy(policy) {
          var p := MakePolicyMiddleware(policy);
          if p.Failure? {
            return Failure(p.error);
          }
          middleware := middleware + [p.value];
        }
        middleware := middleware + [[Render(FieldOf(opts, "view"))]];
        assert MiddlePieces(env, route, opts).Success?;
        assert MiddlePieces(env, route, opts).value == middleware;
      }
      return Success(middleware);
    }

    /** `_actionStringToMiddleware`: resolve and invoke the controller method,
        then build the stack its result calls for. */
    method ActionStringToMiddleware(action: Value, path: string, opts: Value) returns (r: Result<seq<Stage>, CompileError>)
      ensures r == ActionStages(env, action, path, opts)
    {
      var controllerAction := ResolveControllerAction(env.controllers, action);
      if controllerAction.Failure? {
        return Failure(controllerAction.error);
      }
      var params := ActionParams(path, FieldOf(opts, "options"));
      var invoked := Invoke(env.host, controllerAction.value, params);
      if invoked.Failure? {
        return Failure(invoked.error);
      }
      r := ResultMiddleware(invoked.value, params, path, FieldOf(opts, "policy"));
    }

    /** What the controller method returned, normalised: a legacy function or
        array after the policy gate, a handler object or zero-arity Action
        class through `HandlerMiddleware`. */
    method ResultMiddleware(result: Value, params: Value, path: string, policy: Value) returns (r: Result<seq<Stage>, CompileError>)
      ensures r == ResultStages(env, result, params, path, policy)
    {
      if IsLegacyResult(result) {
        r := LegacyMiddleware(result, policy);
      } else if result.Null? || result.Undefined? {
        r := Failure(TypeError("cannot read property 'length'"));
      } else if IsObjectLike(result) || JsLength(result) == Num(0) {
        var handler := result;
        if JsLength(result) == Num(0) {
          var made := Construct(env.host, result, params);
          if made.Failure? {
            return Failure(made.error);
          }
          handler := made.value;
        }
        r := HandlerMiddleware(HandlerOf(handler), path, policy);
        assert r == ResultStages(env, result, params, path, policy);
      } else {
        r := Failure(BadActionResult);
      }
    }

    /** A legacy result: the policy gate, then the result's functions. */
    method LegacyMiddleware(result: Value, policy: Value) returns (r: Result<seq<Stage>, CompileError>)
      ensures r == LegacyStages(env, result, policy)
    {
      var gate: seq<Stage> := [];
      if Truthy(policy) {
        var made := MakePolicyMiddleware(policy);
        if made.Failure? {
          assert PolicyPart(env, policy) == made;
          return Failure(made.error);
        }
        gate := made.value;
      }
      assert PolicyPart(env, policy) == Success(gate);
      var middleware := gate + Pushed(AsRaw, result);
      return Success(middleware);
    }

    /** The handler-object branch of `_actionStringToMiddleware`: check that
        `execute` is there, build the validate, sanitize and policy stages (whose
        errors are raised in that order), then push everything in order. */
    method HandlerMiddleware(h: Handler, path: string, policy: Value) returns (r: Result<seq<Stage>, CompileError>)
      ensures r == HandlerStages(env, h, path, policy)
    {
      var Handler(validate, sanitize, execute, schema) := h;
      if !Truthy(execute) {
        return Failure(MissingExecute(path));
      }
      var v: seq<Stage> := [];
      var s: seq<Stage> := [];
      if Truthy(validate) || Truthy(sanitize) {
        var checked := CheckMiddleware(validate, sanitize, path);
        if checked.Failure? {
          return Failure(checked.error);
        }
        v, s := checked.value.0, checked.value.1;
      }
      var p: seq<Stage> := [];
      if Truthy(policy) {
        var made := MakePolicyMiddleware(policy);
        if made.Failure? {
          return Failure(made.error);
        }
        p := made.value;
      }
      var middleware := AssembleMiddleware(h, v, s, p);
      return Success(middleware);
    }

    /** The pushes of the handler-object branch, in order. */
    method AssembleMiddleware(h: Handler, v: seq<Stage>, s: seq<Stage>, p: seq<Stage>) returns (middleware: seq<Stage>)
      ensures middleware == Assemble(h, v, s, p)
    {
      var Handler(validate, sanitize, execute, schema) := h;
      middleware := [];
      if Truthy(schema) {
        middleware := middleware + [Schema(schema)];
      }
      middleware := middleware + v + s;
      if Truthy(validate) || Truthy(sanitize) || Truthy(schema) {
        middleware := middleware + [ValidationGate];
      }
      assert middleware == SchemaStages(schema) + v + s + GateStages(validate, sanitize, schema);
      middleware := middleware + p;
      var e := ExecuteMiddleware(execute);
      middleware := middleware + e;
    }

    /** The execute stage, by `execute.length`. */
    method ExecuteMiddleware(execute: Value) returns (e: seq<Stage>)
      ensures e == ExecuteStages(execute)
    {
      e := [];
      if JsLength(execute) == Num(2) {
        e := e + [ExecPromise(execute)];
      } else if JsLength(execute) == Num(3) {
        e := e + Pushed(AsExecute, execute);
      }
    }

    /** The validate stages, then the sanitize stages. */
    method CheckMiddleware(validate: Value, sanitize: Value, path: string) returns (r: Result<(seq<Stage>, seq<Stage>), CompileError>)
      ensures r.Success? <==> ValidateStages(validate, path).Success? && SanitizeStages(sanitize, validate).Success?
      ensures r.Success? ==> r.value == (ValidateStages(validate, path).value, SanitizeStages(sanitize, validate).value)
      ensures ValidateStages(validate, path).Failure? ==> r == Failure(ValidateStages(validate, path).error)
      ensures ValidateStages(validate, path).Success? && SanitizeStages(sanitize, validate).Failure? ==>
                r == Failure(SanitizeStages(sanitize, validate).error)
    {
      var v: seq<Stage> := [];
      if Truthy(validate) {
        if validate.Fn? {
          if validate.arity == 2 {
            v := [Validate(Legacy(validate))];
          } else if validate.arity == 3 {
            v := [Validate(Middleware(validate))];
          } else {
            return Failure(BadValidateSignature);
          }
        } else if validate.Arr? {
          v := Pushed(AsValidate, validate);
        } else if IsObjectLike(validate) {
          v := [Validate(SchemaCheck(validate))];
        } else {
          return Failure(BadValidate(path));
        }
      }
      var s: seq<Stage> := [];
      if Truthy(sanitize) {
        if sanitize.Fn? {
          if sanitize.arity == 2 {
            s := [Sanitize(Legacy(sanitize))];
          } else if sanitize.arity == 3 {
            s := [Sanitize(Middleware(sanitize))];
          } else {
            return Failure(BadSanitizeSignature);
          }
        } else if sanitize.Arr? {
          s := Pushed(AsSanitize, sanitize);
        } else if IsObjectLike(sanitize) {
          s := [Sanitize(SchemaCheck(validate))];
        }
      }
      return Success((v, s));
    }

    /** `_makePolicyMiddleware`: the gate for a policy name or `[name, ...params]`. */
    method MakePolicyMiddleware(opts: Value) returns (r: Result<seq<Stage>, CompileError>)
      ensures r == PolicyStages(env, opts)
    {
      var middleware: seq<Stage> := [];
      if opts.Str? {
        var policy := CreatePolicyFromName(env, opts.s);
        if policy.Failure? {
          return Failure(policy.error);
        }
        if policy.value.Some? {
          middleware := middleware + [PolicyGate(opts.s, policy.value.value, [])];
        }
        assert PolicyStages(env, opts).Success?;
        assert PolicyStages(env, opts).value == middleware;
      } else if opts.Arr? {
        if |opts.items| == 0 || opts.items[0].Null? || opts.items[0].Undefined? {
          return Failure(TypeError("cannot read the policy name"));
        }
        if !opts.items[0].Str? {
          return Failure(UnsupportedPolicyName);
        }
        var name := opts.items[0].s;
        var params := opts.items[1..];
        var policy := CreatePolicyFromName(env, name);
        if policy.Failure? {
          return Failure(policy.error);
        }
        if policy.value.Some? {
          middleware := middleware + [PolicyGate(name, policy.value.value, params)];
        }
        assert PolicyStages(env, opts).Success?;
        assert middleware == PolicyStages(env, opts).value;
      } else {
        return Failure(BadPolicySpecification);
      }
      return Success(middleware);
    }
  }
}

/// The normaliser `_actionStringToMiddleware`: it resolves an action, invokes
/// the controller method, classifies what the method returns and turns it into
/// an ordered list of stages. These functions state the stage list the source
/// builds; `Builder.RouterBuilder.ActionStringToMiddleware` builds it push by push.
module Normaliser {
  import opened Results
  import opened JsValues
  import opened Routes
  import opened Resolvers

  /** The parameter bag a controller method receives: `{path}`, plus `options`
      when the route gives truthy ones. */
  function ActionParams(path: string, options: Value): (r: Value)
    ensures r.Obj? && FieldOf(r, "path") == Str(path)
    ensures Truthy(options) ==> FieldOf(r, "options") == options
    ensures !Truthy(options) ==> FieldOf(r, "options") == Undefined
  {
    if Truthy(options) then
      var fields := [Field("path", Str(path)), Field("options", options)];
      assert Lookup(fields[1..], "options") == options;
      Obj(fields)
    else Obj([Field("path", Str(path))])
  }

  /** `if (policy) middleware.push(this._makePolicyMiddleware(policy))`. */
  function PolicyPart(env: Env, policy: Value): (r: Result<seq<Stage>, CompileError>)
    ensures !Truthy(policy) ==> r == Success([])
  {
    if Truthy(policy) then PolicyStages(env, policy) else Success([])
  }

  /** The stage for the `schema` property: `checkSchema(schema)` when present. */
  function SchemaStages(schema: Value): seq<Stage> {
    if Truthy(schema) then [Schema(schema)] else []
  }

  /** The stages for `validate`: a 3-argument function or an array is used as
      middleware, a 2-argument function is wrapped as a legacy validator, an
      object is run as a schema; any other arity or kind of value is an error. */
  function ValidateStages(validate: Value, path: string): (r: Result<seq<Stage>, CompileError>)
    ensures !Truthy(validate) ==> r == Success([])
    ensures validate.Fn? && validate.arity != 2 && validate.arity != 3 ==> r == Failure(BadValidateSignature)
    ensures validate.Fn? && validate.arity == 2 ==> r == Success([Validate(Legacy(validate))])
    ensures validate.Fn? && validate.arity == 3 ==> r == Success([Validate(Middleware(validate))])
    ensures validate.Arr? ==> r == Success(Pushed(AsValidate, validate))
    ensures validate.Obj? ==> r == Success([Validate(SchemaCheck(validate))])
    ensures Truthy(validate) && !validate.Fn? && !IsObjectLike(validate) ==> r == Failure(BadValidate(path))
  {
    if !Truthy(validate) then Success([])
    else
      match validate
      case Fn(_, arity) =>
        if arity == 2 then Success([Validate(Legacy(validate))])
        else if arity == 3 then Success([Validate(Middleware(validate))])
        else Failure(BadValidateSignature)
      case Arr(_) => Success(Pushed(AsValidate, validate))
      case Obj(_) => Success([Validate(SchemaCheck(validate))])
      case _ => Failure(BadValidate(path))
  }

  /** The stages for `sanitize`, under the same shape rules as `validate` with
      two differences the source has: an object `sanitize` runs the *validate*
      schema (`checkSchema(validate)`), and a value that is neither function,
      array nor object is silently ignored. */
  function SanitizeStages(sanitize: Value, validate: Value): (r: Result<seq<Stage>, CompileError>)
    ensures !Truthy(sanitize) ==> r == Success([])
    ensures sanitize.Fn? && sanitize.arity != 2 && sanitize.arity != 3 ==> r == Failure(BadSanitizeSignature)
    ensures sanitize.Fn? && sanitize.arity == 2 ==> r == Success([Sanitize(Legacy(sanitize))])
    ensures sanitize.Fn? && sanitize.arity == 3 ==> r == Success([Sanitize(Middleware(sanitize))])
    ensures sanitize.Arr? ==> r == Success(Pushed(AsSanitize, sanitize))
    ensures sanitize.Obj? ==> r == Success([Sanitize(SchemaCheck(validate))])
    ensures Truthy(sanitize) && !sanitize.Fn? && !IsObjectLike(sanitize) ==> r == Success([])
  {
    if !Truthy(sanitize) then Success([])
    else
      match sanitize
      case Fn(_, arity) =>
        if arity == 2 then Success([Sanitize(Legacy(sanitize))])
        else if arity == 3 then Success([Sanitize(Middleware(sanitize))])
        else Failure(BadSanitizeSignature)
      case Arr(_) => Success(Pushed(AsSanitize, sanitize))
      case Obj(_) => Success([Sanitize(SchemaCheck(validate))])
      case _ => Success([])
  }

  /** `handleValidationResult`, added when any validation input is present. */
  function GateStages(validate: Value, sanitize: Value, schema: Value): seq<Stage> {
    if Truthy(validate) || Truthy(sanitize) || Truthy(schema) then [ValidationGate] else []
  }

  /** The execute stage, chosen by `execute.length`: 2 wraps a promise-returning
      function, 3 is used as middleware, anything else adds no stage. */
  function ExecuteStages(execute: Value): (r: seq<Stage>)
    ensures JsLength(execute) == Num(2) ==> r == [ExecPromise(execute)]
    ensures execute.Fn? && execute.arity == 3 ==> r == [ExecMiddleware(execute)]
    ensures JsLength(execute) != Num(2) && JsLength(execute) != Num(3) ==> r == []
  {
    if JsLength(execute) == Num(2) then [ExecPromise(execute)]
    else if JsLength(execute) == Num(3) then Pushed(AsExecute, execute)
    else []
  }

  /** Each part of a handler's stages lies in its own phase. */
  lemma PolicyPartPhases(env: Env, policy: Value)
    requires PolicyPart(env, policy).Success?
    ensures PhaseOrdered(PolicyPart(env, policy).value) && PhasesWithin(PolicyPart(env, policy).value, 5, 5)
  {
  }

  lemma ValidatePhases(validate: Value, path: string)
    requires ValidateStages(validate, path).Success?
    ensures PhaseOrdered(ValidateStages(validate, path).value) && PhasesWithin(ValidateStages(validate, path).value, 2, 2)
  {
    PushedPhase(AsValidate, validate, 2);
  }

  lemma SanitizePhases(sanitize: Value, validate: Value)
    requires SanitizeStages(sanitize, validate).Success?
    ensures PhaseOrdered(SanitizeStages(sanitize, validate).value) && PhasesWithin(SanitizeStages(sanitize, validate).value, 3, 3)
  {
    PushedPhase(AsSanitize, sanitize, 3);
  }

  lemma ExecutePhases(execute: Value)
    ensures PhaseOrdered(ExecuteStages(execute)) && PhasesWithin(ExecuteStages(execute), 6, 6)
  {
    if JsLength(execute) != Num(2) && JsLength(execute) == Num(3) {
      PushedPhase(AsExecute, execute, 6);
    }
  }

  /** The four properties the compiler reads from a handler object:
      `let {validate, sanitize, execute, schema} = result`. */
  datatype Handler = Handler(validate: Value, sanitize: Value, execute: Value, schema: Value)

  function HandlerOf(result: Value): Handler {
    Handler(FieldOf(result, "validate"), FieldOf(result, "sanitize"), FieldOf(result, "execute"), FieldOf(result, "schema"))
  }

  /** The stages for a handler object (an object literal, or what a zero-arity
      Action class constructs): schema, validate, sanitize, the validation gate,
      the policy, then execute. A missing `execute` is an error; errors are
      raised in the order validate, sanitize, policy. */
  function HandlerStages(env: Env, h: Handler, path: string, policy: Value): (r: Result<seq<Stage>, CompileError>)
    ensures !Truthy(h.execute) ==> r == Failure(MissingExecute(path))
    ensures r.Success? <==>
      && Truthy(h.execute) && ValidateStages(h.validate, path).Success?
      && SanitizeStages(h.sanitize, h.validate).Success? && PolicyPart(env, policy).Success?
    ensures Truthy(h.execute) && ValidateStages(h.validate, path).Failure? ==>
      r == Failure(ValidateStages(h.validate, path).error)
    ensures (Truthy(h.execute) && ValidateStages(h.validate, path).Success?
             && SanitizeStages(h.sanitize, h.validate).Failure?) ==>
      r == Failure(SanitizeStages(h.sanitize, h.validate).error)
    ensures (Truthy(h.execute) && ValidateStages(h.validate, path).Success?
             && SanitizeStages(h.sanitize, h.validate).Success? && PolicyPart(env, policy).Failure?) ==>
      r == Failure(PolicyPart(env, policy).error)
  {
    var Handler(validate, sanitize, execute, schema) := h;
    if !Truthy(execute) then Failure(MissingExecute(path))
    else
      var v :- ValidateStages(validate, path);
      var s :- SanitizeStages(sanitize, validate);
      var p :- PolicyPart(env, policy);
      Success(Assemble(h, v, s, p))
  }

  /** The handler's stages in their fixed order, given the validate, sanitize
      and policy parts. */
  function Assemble(h: Handler, v: seq<Stage>, sa: seq<Stage>, p: seq<Stage>): seq<Stage> {
    SchemaStages(h.schema) + v + sa + GateStages(h.validate, h.sanitize, h.schema) + p + ExecuteStages(h.execute)
  }

  /** A legacy result: a function of arity 2 or 3, or an array of handlers. */
  predicate IsLegacyResult(result: Value) {
    (result.Fn? && (result.arity == 2 || result.arity == 3)) || result.Arr?
  }

  /** A legacy function or array is used as it is, after the policy gate. */
  function LegacyStages(env: Env, result: Value, policy: Value): (r: Result<seq<Stage>, CompileError>)
    ensures r.Success? <==> PolicyPart(env, policy).Success?
  {
    var p :- PolicyPart(env, policy);
    Success(p + Pushed(AsRaw, result))
  }

  /** The stages for what the controller method returned: a legacy function or
      array is used after the policy, a handler object or zero-arity Action class
      goes through `HandlerStages`, anything else is an error. */
  function ResultStages(env: Env, result: Value, params: Value, path: string, policy: Value): (r: Result<seq<Stage>, CompileError>)
    ensures result.Fn? && result.arity != 0 && result.arity != 2 && result.arity != 3 ==> r == Failure(BadActionResult)
    ensures result.Null? || result.Undefined? || result.Bool? || result.Num? || result.Str? ==> r.Failure?
    ensures IsLegacyResult(result) ==> r == LegacyStages(env, result, policy)
    ensures result.Obj? && JsLength(result) != Num(0) ==> r == HandlerStages(env, HandlerOf(result), path, policy)
    ensures result.Obj? && JsLength(result) == Num(0) ==> r.Failure?
    ensures result.Fn? && result.arity == 0 && env.host.construct(result, params).Success? ==>
              r == HandlerStages(env, HandlerOf(env.host.construct(result, params).value), path, policy)
    ensures result.Fn? && result.arity == 0 && env.host.construct(result, params).Failure? ==>
              r == Failure(Thrown(env.host.construct(result, params).error))
  {
    if IsLegacyResult(result) then LegacyStages(env, result, policy)
    else if result.Null? || result.Undefined? then Failure(TypeError("cannot read property 'length'"))
    else if IsObjectLike(result) || JsLength(result) == Num(0) then
      var handler :- if JsLength(result) == Num(0) then Construct(env.host, result, params) else Success(result);
      HandlerStages(env, HandlerOf(handler), path, policy)
    else Failure(BadActionResult)
  }

  /** `_actionStringToMiddleware(action, path, opts)`: resolve the action, call
      the controller method with `{path, options?}`, normalise its result. */
  function ActionStages(env: Env, action: Value, path: string, opts: Value): (r: Result<seq<Stage>, CompileError>)
    ensures ResolveControllerAction(env.controllers, action).Failure? ==>
              r == Failure(ResolveControllerAction(env.controllers, action).error)
  {
    var call :- ResolveControllerAction(env.controllers, action);
    var params := ActionParams(path, FieldOf(opts, "options"));
    var result :- Invoke(env.host, call, params);
    ResultStages(env, result, params, path, FieldOf(opts, "policy"))
  }

  /** How an action compiles once resolved: the controller method is called
      with the parameter bag, and its answer decides the stages. A legacy answer
      is used after the policy gate; a handler object, or the instance a
      zero-arity Action class constructs from the same bag, is compiled as a
      handler, and fails without `execute`. */
  lemma ActionDispatch(env: Env, action: Value, path: string, opts: Value)
    requires ResolveControllerAction(env.controllers, action).Success?
    ensures var call := ResolveControllerAction(env.controllers, action).value;
      var params := ActionParams(path, FieldOf(opts, "options"));
      var policy := FieldOf(opts, "policy");
      var r := ActionStages(env, action, path, opts);
      && (!call.fn.Fn? ==> r.Failure? && r.error.TypeError?)
      && (call.fn.Fn? && env.host.apply(call, params).Failure? ==>
            r == Failure(Thrown(env.host.apply(call, params).error)))
      && (call.fn.Fn? && env.host.apply(call, params).Success? ==>
            var answer := env.host.apply(call, params).value;
            && (IsLegacyResult(answer) ==> r == LegacyStages(env, answer, policy))
            && (answer.Obj? && JsLength(answer) != Num(0) ==>
                  r == HandlerStages(env, HandlerOf(answer), path, policy))
            && (answer.Obj? && JsLength(answer) != Num(0) && !Truthy(FieldOf(answer, "execute")) ==>
                  r == Failure(MissingExecute(path)))
            && (answer.Fn? && answer.arity == 0 && env.host.construct(answer, params).Failure? ==>
                  r == Failure(Thrown(env.host.construct(answer, params).error)))
            && (answer.Fn? && answer.arity == 0 && env.host.construct(answer, params).Success? ==>
                  var instance := env.host.construct(answer, params).value;
                  && r == HandlerStages(env, HandlerOf(instance), path, policy)
                  && (!Truthy(FieldOf(instance, "execute")) ==> r == Failure(MissingExecute(path)))))
  {
  }

  /** The parts a handler is assembled from lie in their own phases. */
  ghost predicate PartsPhased(v: seq<Stage>, sa: seq<Stage>, p: seq<Stage>) {
    && PhaseOrdered(v) && PhasesWithin(v, 2, 2)
    && PhaseOrdered(sa) && PhasesWithin(sa, 3, 3)
    && PhaseOrdered(p) && PhasesWithin(p, 5, 5)
  }

  /** The assembled stages are in phase order, with the execute stages last. */
  lemma AssembleOrdered(h: Handler, v: seq<Stage>, sa: seq<Stage>, p: seq<Stage>)
    requires PartsPhased(v, sa, p)
    ensures var s := Assemble(h, v, sa, p);
      var e := ExecuteStages(h.execute);
      && PhaseOrdered(s) && PhasesWithin(s, 1, 6)
      && |e| <= |s| && s[|s| - |e|..] == e && PhasesWithin(s[..|s| - |e|], 1, 5)
  {
    var sc := SchemaStages(h.schema);
    var g := GateStages(h.validate, h.sanitize, h.schema);
    var e := ExecuteStages(h.execute);
    var s := Assemble(h, v, sa, p);
    ExecutePhases(h.execute);
    OrderedAppend(sc, v, 1, 1, 2, 2);
    OrderedAppend(sc + v, sa, 1, 2, 3, 3);
    OrderedAppend(sc + v + sa, g, 1, 3, 4, 4);
    OrderedAppend(sc + v + sa + g, p, 1, 4, 5, 5);
    OrderedAppend(sc + v + sa + g + p, e, 1, 5, 6, 6);
    assert s[..|s| - |e|] == sc + v + sa + g + p;
  }

  /** The schema stage is there exactly when `schema` is, the validation gate
      exactly when any of schema, validate or sanitize is, and a policy gate
      exactly when the policy part is non-empty. */
  lemma AssemblePresence(h: Handler, v: seq<Stage>, sa: seq<Stage>, p: seq<Stage>)
    requires PartsPhased(v, sa, p)
    ensures var s := Assemble(h, v, sa, p);
      && (HasPhase(s, 1) <==> Truthy(h.schema))
      && (HasPhase(s, 4) <==> Truthy(h.validate) || Truthy(h.sanitize) || Truthy(h.schema))
      && (HasPhase(s, 5) <==> p != [])
  {
    PushedPhase(AsExecute, h.execute, 6);
    PresentParts(SchemaStages(h.schema), v, sa, GateStages(h.validate, h.sanitize, h.schema), p, ExecuteStages(h.execute));
  }

  /** Each part lands in the assembled stack as the whole of its own phase:
      the validate part is exactly its phase-2 stages, the sanitize part its
      phase-3 stages, the policy part its phase-5 stages and the execute part
      its phase-6 stages; the schema stage and the validation gate are the
      whole of phases 1 and 4. */
  lemma AssembleParts(h: Handler, v: seq<Stage>, sa: seq<Stage>, p: seq<Stage>)
    requires PartsPhased(v, sa, p)
    ensures var s := Assemble(h, v, sa, p);
      && InPhase(s, 1) == SchemaStages(h.schema)
      && InPhase(s, 2) == v && InPhase(s, 3) == sa
      && InPhase(s, 4) == GateStages(h.validate, h.sanitize, h.schema)
      && InPhase(s, 5) == p && InPhase(s, 6) == ExecuteStages(h.execute)
  {
    AssemblePhase(h, v, sa, p, 1);
    AssemblePhase(h, v, sa, p, 2);
    AssemblePhase(h, v, sa, p, 3);
    AssemblePhase(h, v, sa, p, 4);
    AssemblePhase(h, v, sa, p, 5);
    AssemblePhase(h, v, sa, p, 6);
  }

  /** The phase-`k` stages of an assembled handler are the one part of phase `k`. */
  lemma AssemblePhase(h: Handler, v: seq<Stage>, sa: seq<Stage>, p: seq<Stage>, k: nat)
    requires PartsPhased(v, sa, p) && 1 <= k <= 6
    ensures InPhase(Assemble(h, v, sa, p), k) ==
      if k == 1 then SchemaStages(h.schema) else if k == 2 then v else if k == 3 then sa
      else if k == 4 then GateStages(h.validate, h.sanitize, h.schema) else if k == 5 then p
      else ExecuteStages(h.execute)
  {
    var sc := SchemaStages(h.schema);
    var g := GateStages(h.validate, h.sanitize, h.schema);
    var e := ExecuteStages(h.execute);
    ExecutePhases(h.execute);
    SixPartInPhase(sc, v, sa, g, p, e, k);
    if k == 1 {
      assert InPhase(Assemble(h, v, sa, p), k) == sc + [] + [] + [] + [] + [];
    } else if k == 2 {
      assert InPhase(Assemble(h, v, sa, p), k) == [] + v + [] + [] + [] + [];
    } else if k == 3 {
      assert InPhase(Assemble(h, v, sa, p), k) == [] + [] + sa + [] + [] + [];
    } else if k == 4 {
      assert InPhase(Assemble(h, v, sa, p), k) == [] + [] + [] + g + [] + [];
    } else if k == 5 {
      assert InPhase(Assemble(h, v, sa, p), k) == [] + [] + [] + [] + p + [];
    } else {
      assert InPhase(Assemble(h, v, sa, p), k) == [] + [] + [] + [] + [] + e;
    }
  }

  /** The phase-`k` stages of schema ++ validate ++ sanitize ++ gate ++ policy ++
      execute are the part whose phase is `k`. */
  lemma SixPartInPhase(sc: seq<Stage>, v: seq<Stage>, sa: seq<Stage>, g: seq<Stage>, p: seq<Stage>, e: seq<Stage>, k: nat)
    requires PhasesWithin(sc, 1, 1) && PhasesWithin(v, 2, 2) && PhasesWithin(sa, 3, 3)
    requires PhasesWithin(g, 4, 4) && PhasesWithin(p, 5, 5) && PhasesWithin(e, 6, 6)
    ensures InPhase(sc + v + sa + g + p + e, k) ==
      (if k == 1 then sc else []) + (if k == 2 then v else []) + (if k == 3 then sa else [])
      + (if k == 4 then g else []) + (if k == 5 then p else []) + (if k == 6 then e else [])
  {
    InPhaseAppend(sc + v + sa + g + p, e, k);
    InPhaseAppend(sc + v + sa + g, p, k);
    InPhaseAppend(sc + v + sa, g, k);
    InPhaseAppend(sc + v, sa, k);
    InPhaseAppend(sc, v, k);
    InPhaseWithin(sc, 1, k);
    InPhaseWithin(v, 2, k);
    InPhaseWithin(sa, 3, k);
    InPhaseWithin(g, 4, k);
    InPhaseWithin(p, 5, k);
    InPhaseWithin(e, 6, k);
  }

  /** A handler object compiles to schema? ++ validate ++ sanitize ++ gate? ++
      policy? ++ execute?, in that phase order, the execute stages last; the
      schema stage is there exactly when `schema` is, the validation gate
      exactly when any of schema, validate or sanitize is, and the policy gate
      exactly when the configured policy resolves to a policy. */
  lemma HandlerStagesShape(env: Env, h: Handler, path: string, policy: Value)
    requires HandlerStages(env, h, path, policy).Success?
    ensures PhaseOrdered(HandlerStages(env, h, path, policy).value)
    ensures var s := HandlerStages(env, h, path, policy).value;
      var e := ExecuteStages(h.execute);
      && PhasesWithin(s, 1, 6)
      && |e| <= |s| && s[|s| - |e|..] == e && PhasesWithin(s[..|s| - |e|], 1, 5)
    ensures var s := HandlerStages(env, h, path, policy).value;
      && (HasPhase(s, 1) <==> Truthy(h.schema))
      && (HasPhase(s, 4) <==> Truthy(h.validate) || Truthy(h.sanitize) || Truthy(h.schema))
      && (HasPhase(s, 5) <==> PolicyPart(env, policy).value != [])
    ensures var s := HandlerStages(env, h, path, policy).value;
      && InPhase(s, 1) == SchemaStages(h.schema)
      && InPhase(s, 2) == ValidateStages(h.validate, path).value
      && InPhase(s, 3) == SanitizeStages(h.sanitize, h.validate).value
      && InPhase(s, 4) == GateStages(h.validate, h.sanitize, h.schema)
      && InPhase(s, 5) == PolicyPart(env, policy).value
  {
    var v := ValidateStages(h.validate, path).value;
    var sa := SanitizeStages(h.sanitize, h.validate).value;
    var p := PolicyPart(env, policy).value;
    assert HandlerStages(env, h, path, policy).value == Assemble(h, v, sa, p);
    ValidatePhases(h.validate, path);
    SanitizePhases(h.sanitize, h.validate);
    PolicyPartPhases(env, policy);
    AssembleOrdered(h, v, sa, p);
    AssemblePresence(h, v, sa, p);
    AssembleParts(h, v, sa, p);
  }

  /** A legacy result (a 2- or 3-argument function, or an array) compiles to
      the policy gate, if any, followed by the result's own functions used as
      they are: no schema, validation or sanitize stage. */
  lemma LegacyResultStages(env: Env, result: Value, params: Value, path: string, policy: Value)
    requires IsLegacyResult(result)
    ensures var r := ResultStages(env, result, params, path, policy);
      && (r.Success? <==> PolicyPart(env, policy).Success?)
      && (r.Success? ==>
            && PhaseOrdered(r.value) && PhasesWithin(r.value, 5, 6)
            && r.value == PolicyPart(env, policy).value + Pushed(AsRaw, result)
            && (HasPhase(r.value, 5) <==> PolicyPart(env, policy).value != []))
  {
    var r := ResultStages(env, result, params, path, policy);
    if r.Success? {
      PolicyPartPhases(env, policy);
      PolicyThenRaw(PolicyPart(env, policy).value, result);
    }
  }

  /** A policy run followed by a pushed raw value, as phases. */
  lemma PolicyThenRaw(p: seq<Stage>, result: Value)
    requires PhaseOrdered(p) && PhasesWithin(p, 5, 5)
    ensures var s := p + Pushed(AsRaw, result);
      && PhaseOrdered(s) && PhasesWithin(s, 5, 6)
      && (HasPhase(s, 5) <==> p != [])
  {
    var x := Pushed(AsRaw, result);
    PushedPhase(AsRaw, result, 6);
    OrderedAppend(p, x, 5, 5, 6, 6);
    HasPhaseAppend(p, x, 5);
    HasPhaseWithin(p, 5, 5);
    HasPhaseWithin(x, 6, 5);
  }

  /** Every stage list an action compiles to is in phase order. */
  lemma ActionStagesOrdered(env: Env, action: Value, path: string, opts: Value)
    requires ActionStages(env, action, path, opts).Success?
    ensures PhaseOrdered(ActionStages(env, action, path, opts).value)
    ensures PhasesWithin(ActionStages(env, action, path, opts).value, 1, 6)
  {
    var call := ResolveControllerAction(env.controllers, action).value;
    var params := ActionParams(path, FieldOf(opts, "options"));
    var result := Invoke(env.host, call, params).value;
    var policy := FieldOf(opts, "policy");
    if IsLegacyResult(result) {
      LegacyResultStages(env, result, params, path, policy);
    } else {
      var handler := if JsLength(result) == Num(0) then Construct(env.host, result, params).value else result;
      HandlerStagesShape(env, HandlerOf(handler), path, policy);
    }
  }

  /** Without a truthy `opts.policy` an action compiles to no policy gate; in
      particular a route given as a bare action string has none. */
  lemma NoPolicyWithoutOption(env: Env, action: Value, path: string, opts: Value)
    requires ActionStages(env, action, path, opts).Success?
    requires !Truthy(FieldOf(opts, "policy"))
    ensures forall i | 0 <= i < |ActionStages(env, action, path, opts).value| ::
      !ActionStages(env, action, path, opts).value[i].PolicyGate?
  {
    var call := ResolveControllerAction(env.controllers, action).value;
    var params := ActionParams(path, FieldOf(opts, "options"));
    var result := Invoke(env.host, call, params).value;
    ResultStagesNoPolicy(env, result, params, path, FieldOf(opts, "policy"));
    NoPolicyPhase(ActionStages(env, action, path, opts).value);
  }

  /** Whatever the controller method returns, a falsy policy option adds no
      policy stage. */
  lemma ResultStagesNoPolicy(env: Env, result: Value, params: Value, path: string, policy: Value)
    requires ResultStages(env, result, params, path, policy).Success?
    requires !Truthy(policy)
    ensures !HasPhase(ResultStages(env, result, params, path, policy).value, 5)
  {
    if IsLegacyResult(result) {
      LegacyResultStages(env, result, params, path, policy);
    } else {
      var handler := if JsLength(result) == Num(0) then Construct(env.host, result, params).value else result;
      HandlerStagesShape(env, HandlerOf(handler), path, policy);
    }
  }

  lemma NoPolicyPhase(s: seq<Stage>)
    requires !HasPhase(s, 5)
    ensures forall i | 0 <= i < |s| :: !s[i].PolicyGate?
  {
    forall i | 0 <= i < |s| ensures !s[i].PolicyGate? {
      assert Phase(s[i]) != 5;
    }
  }

  /** Phases 1, 4 and 5 of the six-part concatenation come from its schema,
      gate and policy parts alone. */
  lemma PresentParts(sc: seq<Stage>, v: seq<Stage>, sa: seq<Stage>, g: seq<Stage>, p: seq<Stage>, e: seq<Stage>)
    requires PhasesWithin(sc, 1, 1) && PhasesWithin(v, 2, 2) && PhasesWithin(sa, 3, 3)
    requires PhasesWithin(g, 4, 4) && PhasesWithin(p, 5, 5) && PhasesWithin(e, 6, 6)
    ensures HasPhase(sc + v + sa + g + p + e, 1) <==> |sc| > 0
    ensures HasPhase(sc + v + sa + g + p + e, 4) <==> |g| > 0
    ensures HasPhase(sc + v + sa + g + p + e, 5) <==> |p| > 0
  {
    SixPartPhases(sc, v, sa, g, p, e, 1);
    SixPartPhases(sc, v, sa, g, p, e, 4);
    SixPartPhases(sc, v, sa, g, p, e, 5);
  }

  /** Which phases occur in schema ++ validate ++ sanitize ++ gate ++ policy ++ execute. */
  lemma SixPartPhases(sc: seq<Stage>, v: seq<Stage>, sa: seq<Stage>, g: seq<Stage>, p: seq<Stage>, e: seq<Stage>, k: nat)
    requires PhasesWithin(sc, 1, 1) && PhasesWithin(v, 2, 2) && PhasesWithin(sa, 3, 3)
    requires PhasesWithin(g, 4, 4) && PhasesWithin(p, 5, 5) && PhasesWithin(e, 6, 6)
    ensures HasPhase(sc + v + sa + g + p + e, k) <==>
      || (k == 1 && |sc| > 0) || (k == 2 && |v| > 0) || (k == 3 && |sa| > 0)
      || (k == 4 && |g| > 0) || (k == 5 && |p| > 0) || (k == 6 && |e| > 0)
  {
    HasPhaseAppend(sc, v, k);
    HasPhaseAppend(sc + v, sa, k);
    HasPhaseAppend(sc + v + sa, g, k);
    HasPhaseAppend(sc + v + sa + g, p, k);
    HasPhaseAppend(sc + v + sa + g + p, e, k);
    HasPhaseWithin(sc, 1, k);
    HasPhaseWithin(v, 2, k);
    HasPhaseWithin(sa, 3, k);
    HasPhaseWithin(g, 4, k);
    HasPhaseWithin(p, 5, k);
    HasPhaseWithin(e, 6, k);
  }
}

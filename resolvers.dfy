/// The action resolver (`_resolveControllerAction`) and the policy resolver
/// (`_createPolicyFromName`, and the pure decision inside `_makePolicyMiddleware`).
module Resolvers {
  import opened Results
  import opened JsValues
  import opened Routes

  /** The method a bare `controller` action names (single-action controllers). */
  const SingleActionMethod := "__invoke"

  /** JavaScript `s.split(sep)` for a one-character separator. */
  function Split(s: string, sep: char): (parts: seq<string>)
    ensures |parts| >= 1
    ensures sep !in s ==> parts == [s]
  {
    if s == [] then [""]
    else
      assert s == [s[0]] + s[1..];
      var rest := Split(s[1..], sep);
      if s[0] == sep then [""] + rest
      else [[s[0]] + rest[0]] + rest[1..]
  }

  /** No part holds the separator. */
  lemma {:induction false} SplitPartsFree(s: string, sep: char)
    ensures forall i | 0 <= i < |Split(s, sep)| :: sep !in Split(s, sep)[i]
  {
    if s != [] {
      var rest := Split(s[1..], sep);
      SplitPartsFree(s[1..], sep);
      if s[0] != sep {
        assert sep !in [s[0]] + rest[0];
      }
    }
  }

  /** `parts.join(sep)`, the inverse of `Split`. */
  function Join(parts: seq<string>, sep: char): string
    requires |parts| >= 1
  {
    if |parts| == 1 then parts[0] else parts[0] + [sep] + Join(parts[1..], sep)
  }

  lemma JoinConsHead(c: char, parts: seq<string>, sep: char)
    requires |parts| >= 1
    ensures Join([[c] + parts[0]] + parts[1..], sep) == [c] + Join(parts, sep)
  {
    var q := [[c] + parts[0]] + parts[1..];
    if |parts| > 1 {
      assert q[1..] == parts[1..];
    }
  }

  lemma JoinEmptyHead(parts: seq<string>, sep: char)
    requires |parts| >= 1
    ensures Join([""] + parts, sep) == [sep] + Join(parts, sep)
  {
    assert ([""] + parts)[1..] == parts;
  }

  /** Splitting loses nothing: joining the parts back gives the original string. */
  lemma {:induction false} JoinSplit(s: string, sep: char)
    ensures Join(Split(s, sep), sep) == s
  {
    if s != [] {
      var rest := Split(s[1..], sep);
      JoinSplit(s[1..], sep);
      if s[0] == sep {
        JoinEmptyHead(rest, sep);
      } else {
        JoinConsHead(s[0], rest, sep);
      }
      assert s == [s[0]] + s[1..];
    }
  }

  /** `c@m`, with neither part holding `@`, splits into exactly `c` and `m`. */
  lemma {:induction false} SplitQualified(c: string, m: string)
    requires '@' !in c && '@' !in m
    ensures Split(c + ['@'] + m, '@') == [c, m]
  {
    var s := c + ['@'] + m;
    if c == [] {
      assert s[1..] == m;
    } else {
      assert s[1..] == c[1..] + ['@'] + m;
      SplitQualified(c[1..], m);
      assert [c[0]] + c[1..] == c;
    }
  }

  /** `_resolveControllerAction`: split `action` on `@`, default the method to
      `__invoke`, then find the controller and the method on it. */
  function ResolveControllerAction(controllers: map<string, Value>, action: Value): (r: Result<MethodCall, CompileError>)
    ensures !action.Str? ==> r.Failure? && r.error.TypeError?
    ensures action.Str? && Split(action.s, '@')[0] == "" ==> r == Failure(MissingControllerName(action.s))
    ensures action.Str? && '@' !in action.s && r.Success? ==>
              r.value.controller == action.s && r.value.methodName == SingleActionMethod
    ensures r.Success? ==>
              && r.value.controller != ""
              && r.value.controller in controllers
              && r.value.obj == controllers[r.value.controller]
              && Truthy(r.value.obj)
              && r.value.fn == FieldOf(r.value.obj, r.value.methodName)
              && Truthy(r.value.fn)
  {
    if !action.Str? then Failure(TypeError("action.split is not a function"))
    else
      var parts := Split(action.s, '@');
      var controllerName := parts[0];
      var actionName := if |parts| > 1 && parts[1] != "" then parts[1] else SingleActionMethod;
      if controllerName == "" then Failure(MissingControllerName(action.s))
      else if controllerName !in controllers || !Truthy(controllers[controllerName]) then
        Failure(ControllerNotFound(controllerName))
      else
        var controller := controllers[controllerName];
        var member := FieldOf(controller, actionName);
        if !Truthy(member) then Failure(MethodNotFound(controllerName, actionName))
        else Success(MethodCall(controllerName, controller, actionName, member))
  }

  /** The outcome of resolving `c` or `c@m` once the controller name is known. */
  function Lookup2(controllers: map<string, Value>, c: string, m: string): Result<MethodCall, CompileError> {
    if c !in controllers || !Truthy(controllers[c]) then Failure(ControllerNotFound(c))
    else if !Truthy(FieldOf(controllers[c], m)) then Failure(MethodNotFound(c, m))
    else Success(MethodCall(c, controllers[c], m, FieldOf(controllers[c], m)))
  }

  /** A qualified `c@m` resolves method `m` of controller `c`: an unknown
      controller and a controller lacking the method are the two errors. */
  lemma ResolveQualified(controllers: map<string, Value>, c: string, m: string)
    requires c != "" && m != "" && '@' !in c && '@' !in m
    ensures ResolveControllerAction(controllers, Str(c + ['@'] + m)) == Lookup2(controllers, c, m)
  {
    SplitQualified(c, m);
  }

  /** A bare `c` resolves method `__invoke` of controller `c`. */
  lemma ResolveBare(controllers: map<string, Value>, c: string)
    requires c != "" && '@' !in c
    ensures ResolveControllerAction(controllers, Str(c)) == Lookup2(controllers, c, SingleActionMethod)
  {
  }

  /** Calling a resolved method (`MethodCall.invoke`): applying a non-function throws. */
  function Invoke(host: Host, call: MethodCall, arg: Value): (r: Result<Value, CompileError>)
    ensures !call.fn.Fn? ==> r.Failure? && r.error.TypeError?
    ensures call.fn.Fn? ==> r == Caught(host.apply(call, arg))
  {
    if call.fn.Fn? then Caught(host.apply(call, arg)) else Failure(TypeError("method.apply is not a function"))
  }

  /** A value thrown by host code propagates as the compile error `Thrown`. */
  function Caught(outcome: Result<Value, Value>): (r: Result<Value, CompileError>)
    ensures r.Success? <==> outcome.Success?
    ensures r.Success? ==> r.value == outcome.value
    ensures r.Failure? ==> r.error == Thrown(outcome.error)
  {
    match outcome
    case Success(v) => Success(v)
    case Failure(x) => Failure(Thrown(x))
  }

  /** `new ctor(arg)`: only functions are constructors. */
  function Construct(host: Host, ctor: Value, arg: Value): (r: Result<Value, CompileError>)
    ensures !ctor.Fn? ==> r.Failure? && r.error.TypeError?
    ensures ctor.Fn? ==> r == Caught(host.construct(ctor, arg))
  {
    if ctor.Fn? then Caught(host.construct(ctor, arg)) else Failure(TypeError("not a constructor"))
  }

  predicate IsOptional(name: string) {
    |name| > 0 && name[0] == '?'
  }

  function StripOptional(name: string): string {
    if IsOptional(name) then name[1..] else name
  }

  /** `_createPolicyFromName`: a `?` prefix makes the policy optional, so that a
      missing optional policy yields no policy rather than an error. Looking up
      the empty name yields the registry object itself, which `new` rejects. */
  function CreatePolicyFromName(env: Env, name: string): (r: Result<Option<Value>, CompileError>)
    ensures IsOptional(name) && name[1..] != "" && name[1..] !in env.policies ==> r == Success(None)
    ensures !IsOptional(name) && name != "" && name !in env.policies ==> r == Failure(PolicyNotFound(name))
    ensures StripOptional(name) == "" ==> r.Failure?
    ensures r.Success? && r.value.None? ==> IsOptional(name)
    ensures r.Success? && r.value.Some? ==>
              var n := StripOptional(name);
              && n in env.policies
              && env.policies[n].Fn?
              && env.host.construct(env.policies[n], Undefined) == Success(r.value.value)
    ensures var n := StripOptional(name);
      n != "" && n in env.policies && env.policies[n].Fn? ==>
        (r.Success? <==> env.host.construct(env.policies[n], Undefined).Success?)
        && (r.Failure? ==> r.error == Thrown(env.host.construct(env.policies[n], Undefined).error))
  {
    var optional := IsOptional(name);
    var policyName := if optional then name[1..] else name;
    if policyName == "" then Failure(TypeError("the policy registry is not a constructor"))
    else if policyName !in env.policies || !Truthy(env.policies[policyName]) then
      if optional then Success(None) else Failure(PolicyNotFound(policyName))
    else
      var policy :- Construct(env.host, env.policies[policyName], Undefined);
      Success(Some(policy))
  }

  /** The optional marker is the only difference between an absent policy being
      skipped and being an error. */
  lemma OptionalMarker(env: Env, name: string)
    requires name != "" && name[0] != '?' && name !in env.policies
    ensures CreatePolicyFromName(env, "?" + name) == Success(None)
    ensures CreatePolicyFromName(env, name) == Failure(PolicyNotFound(name))
  {
    assert ("?" + name)[1..] == name;
  }

  /** An absent policy named with `?` compiles to no gate and no error, in the
      string and the array form alike; without the `?` the same name fails. */
  lemma OptionalPolicySkipped(env: Env, name: string, params: seq<Value>)
    requires name != "" && name[0] != '?' && name !in env.policies
    ensures PolicyStages(env, Str("?" + name)) == Success([])
    ensures PolicyStages(env, Arr([Str("?" + name)] + params)) == Success([])
    ensures PolicyStages(env, Str(name)) == Failure(PolicyNotFound(name))
    ensures PolicyStages(env, Arr([Str(name)] + params)) == Failure(PolicyNotFound(name))
  {
    OptionalMarker(env, name);
    assert ([Str("?" + name)] + params)[0] == Str("?" + name);
    assert ([Str(name)] + params)[0] == Str(name);
  }

  /** The stages `_makePolicyMiddleware(spec)` returns: a policy name, or
      `[name, ...params]` whose tail becomes the gate's parameters. */
  function PolicyStages(env: Env, spec: Value): (r: Result<seq<Stage>, CompileError>)
    ensures !spec.Str? && !spec.Arr? ==> r == Failure(BadPolicySpecification)
    ensures spec.Str? ==> (r.Success? <==> CreatePolicyFromName(env, spec.s).Success?)
    ensures spec.Str? && r.Failure? ==> r.error == CreatePolicyFromName(env, spec.s).error
    ensures spec.Arr? && (|spec.items| == 0 || spec.items[0].Null? || spec.items[0].Undefined?) ==> r.Failure?
    ensures spec.Arr? && |spec.items| > 0 && spec.items[0].Str? ==>
              (r.Success? <==> CreatePolicyFromName(env, spec.items[0].s).Success?)
    ensures spec.Arr? && |spec.items| > 0 && spec.items[0].Str? && r.Failure? ==>
              r.error == CreatePolicyFromName(env, spec.items[0].s).error
    ensures r.Success? ==> |r.value| <= 1 && forall i | 0 <= i < |r.value| :: r.value[i].PolicyGate?
    ensures spec.Str? && r.Success? ==>
              (r.value == [] <==> CreatePolicyFromName(env, spec.s) == Success(None))
    ensures spec.Str? && r.Success? && r.value != [] ==>
              && r.value[0].name == spec.s && r.value[0].params == []
              && CreatePolicyFromName(env, spec.s) == Success(Some(r.value[0].policy))
    ensures spec.Arr? && r.Success? ==>
              && |spec.items| > 0 && spec.items[0].Str?
              && (r.value == [] <==> CreatePolicyFromName(env, spec.items[0].s) == Success(None))
    ensures spec.Arr? && r.Success? && r.value != [] ==>
              && r.value[0].name == spec.items[0].s && r.value[0].params == spec.items[1..]
              && CreatePolicyFromName(env, spec.items[0].s) == Success(Some(r.value[0].policy))
  {
    match spec
    case Str(name) =>
      var policy :- CreatePolicyFromName(env, name);
      Success(if policy.Some? then [PolicyGate(name, policy.value, [])] else [])
    case Arr(items) =>
      if |items| == 0 || items[0].Null? || items[0].Undefined? then Failure(TypeError("cannot read the policy name"))
      else if !items[0].Str? then Failure(UnsupportedPolicyName)
      else
        var name := items[0].s;
        var policy :- CreatePolicyFromName(env, name);
        Success(if policy.Some? then [PolicyGate(name, policy.value, items[1..])] else [])
    case _ => Failure(BadPolicySpecification)
  }
}

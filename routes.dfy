/// The data model of the route compiler: the stages a compiled route is made
/// of, what gets registered on an Express router, the compile-time errors, and
/// the configuration (controller and policy registries, foreign behaviour) the
/// compiler consumes.
module Routes {
  import opened Results
  import opened JsValues

  /** How a validate or sanitize entry is staged: used as middleware, wrapped
      as a legacy `f(req, next)` function, or run as an express-validator schema. */
  datatype Check = Middleware(f: Value) | Legacy(f: Value) | SchemaCheck(schema: Value)

  /** One stage of a compiled route, tagged with the role it plays. */
  datatype Stage =
    | Before(f: Value)                // a leaf of the route's `before` option
    | Schema(schema: Value)           // checkSchema(schema) for the action's `schema`
    | Validate(check: Check)          // the action's `validate`
    | Sanitize(check: Check)          // the action's `sanitize`
    | ValidationGate                  // handleValidationResult
    | PolicyGate(name: string, policy: Value, params: seq<Value>)  // applyPolicy(name, policy, params)
    | Raw(f: Value)                   // a pre-built handler: array leaf, legacy function or array result
    | ExecPromise(f: Value)           // executePromise(execute) for a 2-argument execute
    | ExecMiddleware(f: Value)        // a 3-argument execute used as middleware
    | Render(view: Value)             // render(view) for a view route
    | After(f: Value)                 // a leaf of the route's `after` option

  /** The position of each kind of stage in the fixed order of a compiled route. */
  function Phase(s: Stage): nat {
    match s
    case Before(_) => 0
    case Schema(_) => 1
    case Validate(_) => 2
    case Sanitize(_) => 3
    case ValidationGate => 4
    case PolicyGate(_, _, _) => 5
    case Raw(_) => 6
    case ExecPromise(_) => 6
    case ExecMiddleware(_) => 6
    case Render(_) => 6
    case After(_) => 7
  }

  /** Stages appear in non-decreasing phase order. */
  ghost predicate PhaseOrdered(s: seq<Stage>) {
    forall i, j | 0 <= i < j < |s| :: Phase(s[i]) <= Phase(s[j])
  }

  /** Every stage of `s` lies in phases `lo` .. `hi`. */
  ghost predicate PhasesWithin(s: seq<Stage>, lo: nat, hi: nat) {
    forall i | 0 <= i < |s| :: lo <= Phase(s[i]) <= hi
  }

  /** Gluing an ordered run onto one whose phases all come no earlier keeps the whole ordered. */
  lemma OrderedAppend(a: seq<Stage>, b: seq<Stage>, lo: nat, m1: nat, m2: nat, hi: nat)
    requires lo <= m1 <= m2 <= hi
    requires PhaseOrdered(a) && PhasesWithin(a, lo, m1)
    requires PhaseOrdered(b) && PhasesWithin(b, m2, hi)
    ensures PhaseOrdered(a + b) && PhasesWithin(a + b, lo, hi)
  {
    forall i, j | 0 <= i < j < |a + b|
      ensures Phase((a + b)[i]) <= Phase((a + b)[j])
    {
      if j < |a| {
        assert (a + b)[i] == a[i] && (a + b)[j] == a[j];
      } else if i < |a| {
        assert (a + b)[i] == a[i] && (a + b)[j] == b[j - |a|];
      } else {
        assert (a + b)[i] == b[i - |a|] && (a + b)[j] == b[j - |a|];
      }
    }
    forall i | 0 <= i < |a + b|
      ensures lo <= Phase((a + b)[i]) <= hi
    {
      if i < |a| {
        assert (a + b)[i] == a[i];
      } else {
        assert (a + b)[i] == b[i - |a|];
      }
    }
  }

  /** Some stage of `s` has phase `k`. */
  ghost predicate HasPhase(s: seq<Stage>, k: nat) {
    exists i | 0 <= i < |s| :: Phase(s[i]) == k
  }

  lemma HasPhaseAppend(a: seq<Stage>, b: seq<Stage>, k: nat)
    ensures HasPhase(a + b, k) <==> HasPhase(a, k) || HasPhase(b, k)
  {
    if HasPhase(a + b, k) {
      var i :| 0 <= i < |a + b| && Phase((a + b)[i]) == k;
      if i < |a| {
        assert (a + b)[i] == a[i];
      } else {
        assert (a + b)[i] == b[i - |a|];
      }
    }
    if HasPhase(a, k) {
      var i :| 0 <= i < |a| && Phase(a[i]) == k;
      assert (a + b)[i] == a[i];
    }
    if HasPhase(b, k) {
      var i :| 0 <= i < |b| && Phase(b[i]) == k;
      assert (a + b)[|a| + i] == b[i];
    }
  }

  /** A run of a single phase `m` has phase `k` exactly when it is non-empty and `k` is `m`. */
  lemma HasPhaseWithin(s: seq<Stage>, m: nat, k: nat)
    requires PhasesWithin(s, m, m)
    ensures HasPhase(s, k) <==> |s| > 0 && k == m
  {
    if |s| > 0 && k == m {
      assert Phase(s[0]) == k;
    }
  }

  /** The stages of `s` that lie in phase `k`, in their order. */
  function InPhase(s: seq<Stage>, k: nat): (r: seq<Stage>)
    ensures |r| <= |s|
    ensures forall i | 0 <= i < |r| :: Phase(r[i]) == k
  {
    if s == [] then []
    else (if Phase(s[0]) == k then [s[0]] else []) + InPhase(s[1..], k)
  }

  lemma {:induction false} InPhaseAppend(a: seq<Stage>, b: seq<Stage>, k: nat)
    ensures InPhase(a + b, k) == InPhase(a, k) + InPhase(b, k)
  {
    if a == [] {
      assert a + b == b;
    } else {
      assert (a + b)[0] == a[0];
      assert (a + b)[1..] == a[1..] + b;
      InPhaseAppend(a[1..], b, k);
    }
  }

  /** A run of a single phase `m` is all of phase `m` and none of any other. */
  lemma {:induction false} InPhaseWithin(s: seq<Stage>, m: nat, k: nat)
    requires PhasesWithin(s, m, m)
    ensures InPhase(s, k) == if k == m then s else []
  {
    if s != [] {
      assert PhasesWithin(s[1..], m, m) by {
        forall i | 0 <= i < |s[1..]| ensures m <= Phase(s[1..][i]) <= m {
          assert s[1..][i] == s[i + 1];
        }
      }
      InPhaseWithin(s[1..], m, k);
      assert s == [s[0]] + s[1..];
    }
  }

  /** The role in which `middleware.push(v)` contributes the leaves of `v`. */
  datatype Role = AsBefore | AsValidate | AsSanitize | AsRaw | AsExecute | AsAfter

  function Tag(role: Role, f: Value): Stage {
    match role
    case AsBefore => Before(f)
    case AsValidate => Validate(Middleware(f))
    case AsSanitize => Sanitize(Middleware(f))
    case AsRaw => Raw(f)
    case AsExecute => ExecMiddleware(f)
    case AsAfter => After(f)
  }

  function TagAll(role: Role, leaves: seq<Value>): (r: seq<Stage>)
    ensures |r| == |leaves|
    ensures forall i | 0 <= i < |r| :: r[i] == Tag(role, leaves[i])
  {
    if leaves == [] then [] else [Tag(role, leaves[0])] + TagAll(role, leaves[1..])
  }

  /** The stages that `middleware.push(v)` contributes once the compiler runs
      `flattenDeep` over its middleware list. */
  function Pushed(role: Role, v: Value): (r: seq<Stage>)
    ensures |r| == |FlattenDeep(v)|
    ensures forall i | 0 <= i < |r| :: r[i] == Tag(role, FlattenDeep(v)[i])
  {
    TagAll(role, FlattenDeep(v))
  }

  /** Every pushed stage has the phase of its role. */
  lemma PushedPhase(role: Role, v: Value, k: nat)
    requires k == Phase(Tag(role, Undefined))
    ensures PhaseOrdered(Pushed(role, v)) && PhasesWithin(Pushed(role, v), k, k)
  {
    var s := Pushed(role, v);
    forall i | 0 <= i < |s|
      ensures Phase(s[i]) == k
    {
      TagPhase(role, FlattenDeep(v)[i]);
    }
  }

  /** The phase of a tagged leaf depends on the role alone. */
  lemma TagPhase(role: Role, f: Value)
    ensures Phase(Tag(role, f)) == Phase(Tag(role, Undefined))
  {
  }

  /** `flattenDeep` over a list of already flattened pieces. */
  function Concat(pieces: seq<seq<Stage>>): (r: seq<Stage>)
    ensures |pieces| == 0 ==> r == []
    ensures |pieces| == 1 ==> r == pieces[0]
  {
    if pieces == [] then [] else pieces[0] + Concat(pieces[1..])
  }

  lemma {:induction false} ConcatAppend(xs: seq<seq<Stage>>, ys: seq<seq<Stage>>)
    ensures Concat(xs + ys) == Concat(xs) + Concat(ys)
  {
    if xs == [] {
      assert xs + ys == ys;
    } else {
      assert (xs + ys)[0] == xs[0];
      assert (xs + ys)[1..] == xs[1..] + ys;
      ConcatAppend(xs[1..], ys);
    }
  }

  /** A controller method resolved from `controller@method`: the owning
      controller object and the method value found on it. */
  datatype MethodCall = MethodCall(controller: string, obj: Value, methodName: string, fn: Value)

  /** Code the compiler calls but cannot see: invoking a controller method with
      an argument (`undefined` when called without one), and `new C(arg)`.
      Either may return a value or throw one (the `Failure` side). */
  datatype Host = Host(apply: (MethodCall, Value) -> Result<Value, Value>, construct: (Value, Value) -> Result<Value, Value>)

  /** The builder's configuration: `this.controllers`, `this.policies` and the host. */
  datatype Env = Env(controllers: map<string, Value>, policies: map<string, Value>, host: Host)

  /** The errors the compiler throws. `TypeError` stands for the JavaScript
      runtime errors raised by the source's own property accesses and calls. */
  datatype CompileError =
    | TypeError(reason: string)
    | MissingControllerName(action: string)
    | ControllerNotFound(controller: string)
    | MethodNotFound(controller: string, methodName: string)
    | PolicyNotFound(policy: string)
    | BadPolicySpecification
    | UnsupportedPolicyName
    | BadActionResult
    | MissingExecute(path: string)
    | BadValidateSignature
    | BadValidate(path: string)
    | BadSanitizeSignature
    | UnsupportedVerb(verb: string)
    | ResourceUnsupported
    | MissingActionOrView(verb: string, route: string)
    | InvalidParameter(param: string)
    | ParameterNotCallable(param: string)
    | Thrown(exception: Value)  // thrown by a controller method or a constructor

  /** What gets registered on an Express router: a route (`router[verb](path, stack)`)
      or a parameter handler (`router.param(name, handler)`). */
  datatype Registration =
    | Route(verb: string, path: string, stages: seq<Stage>)
    | Param(name: string, handler: Value)

  /** An Express router, seen as the registrations made on it, in order. */
  datatype Router = Router(log: seq<Registration>)

  /** The registrations a compilation makes, and the error that stopped it, if any;
      registrations made before a throw stay on the router. */
  datatype Trace = Trace(regs: seq<Registration>, failure: Option<CompileError>)

  /** Run `t`, then `u` unless `t` threw. */
  function Then(t: Trace, u: Trace): (r: Trace)
    ensures t.failure.Some? ==> r == t
    ensures t.failure.None? ==> r.regs == t.regs + u.regs && r.failure == u.failure
  {
    if t.failure.Some? then t else Trace(t.regs + u.regs, u.failure)
  }

  lemma ThenAssoc(a: Trace, b: Trace, c: Trace)
    ensures Then(Then(a, b), c) == Then(a, Then(b, c))
  {
    if a.failure.None? && b.failure.None? {
      assert a.regs + b.regs + c.regs == a.regs + (b.regs + c.regs);
    }
  }

  /** Steps run one after another: the registrations of each in order, up to
      and including the first step that throws. */
  function ThenAll(ts: seq<Trace>): Trace {
    if ts == [] then Trace([], None) else Then(ThenAll(ts[..|ts| - 1]), ts[|ts| - 1])
  }

  lemma ThenAllStep(ts: seq<Trace>, i: nat)
    requires i < |ts|
    ensures ThenAll(ts[..i + 1]) == Then(ThenAll(ts[..i]), ts[i])
  {
    assert ts[..i + 1][..i] == ts[..i];
  }

  /** Running `a + b` runs `a`, then, unless that threw, `b`. */
  lemma {:induction false} ThenAllAppend(a: seq<Trace>, b: seq<Trace>)
    ensures ThenAll(a + b) == Then(ThenAll(a), ThenAll(b))
    decreases |b|
  {
    if b == [] {
      assert a + b == a;
      assert ThenAll(a).regs + [] == ThenAll(a).regs;
    } else {
      var n := |b| - 1;
      assert (a + b)[..|a + b| - 1] == a + b[..n];
      assert (a + b)[|a + b| - 1] == b[n];
      ThenAllAppend(a, b[..n]);
      ThenAssoc(ThenAll(a), ThenAll(b[..n]), b[n]);
    }
  }

  /** Once a step throws, the later steps are not run. */
  lemma ThenAllStops(ts: seq<Trace>, i: nat)
    requires i <= |ts| && ThenAll(ts[..i]).failure.Some?
    ensures ThenAll(ts) == ThenAll(ts[..i])
  {
    assert ts == ts[..i] + ts[i..];
    ThenAllAppend(ts[..i], ts[i..]);
  }

  /** A run that did not throw had no step that threw. */
  lemma {:induction false} ThenAllNoFailure(ts: seq<Trace>)
    requires ThenAll(ts).failure.None?
    ensures forall j | 0 <= j < |ts| :: ts[j].failure.None?
    decreases |ts|
  {
    if ts != [] {
      var n := |ts| - 1;
      ThenAllNoFailure(ts[..n]);
      assert forall j | 0 <= j < n :: ts[j] == ts[..n][j];
    }
  }

  /** The router stack after registrations on the active (last) router. */
  function Extend(stack: seq<Router>, regs: seq<Registration>): (r: seq<Router>)
    requires |stack| > 0
    ensures |r| == |stack| && r[..|r| - 1] == stack[..|stack| - 1]
    ensures r[|r| - 1].log == stack[|stack| - 1].log + regs
  {
    stack[..|stack| - 1] + [Router(stack[|stack| - 1].log + regs)]
  }

  lemma ExtendTwice(stack: seq<Router>, a: seq<Registration>, b: seq<Registration>)
    requires |stack| > 0
    ensures Extend(Extend(stack, a), b) == Extend(stack, a + b)
  {
    assert stack[|stack| - 1].log + a + b == stack[|stack| - 1].log + (a + b);
  }

  lemma ExtendNothing(stack: seq<Router>)
    requires |stack| > 0
    ensures Extend(stack, []) == stack
  {
    assert stack[|stack| - 1].log + [] == stack[|stack| - 1].log;
  }
}

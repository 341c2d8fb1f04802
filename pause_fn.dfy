/** A model of pause-fn: `pauseFn(fn)` returns a handle that buffers the
    argument lists of the calls made on it; `resume(handle)` replays them
    against `fn` in order, returns their results, and switches the handle to
    passing calls straight through to `fn`. */
module PauseFn {

  /** Identity of an ordinary JavaScript function (one not made by pauseFn). */
  type FnId = nat
  /** Identity of a handle returned by pauseFn; handles are numbered in
      creation order. */
  type HandleId = nat

  /** A JavaScript function value: an ordinary function or a paused handle. */
  datatype Callable = Plain(fid: FnId) | Handle(hid: HandleId)

  /** The JavaScript values the model distinguishes. `typeof v === 'function'`
      holds exactly of the `Function` values. */
  datatype Value =
    | Undefined
    | Null
    | Bool(b: bool)
    | Num(n: int)
    | Str(s: string)
    | Object
    | Function(fn: Callable)

  /** What an ordinary function does when called: given the state it acts on
      and its argument list, the new state and its return value. */
  type Behaviour<!S> = (S, seq<Value>) -> (S, Value)

  /** The internal property of a handle: present (with the buffered argument
      lists) while the handle is paused, deleted once it has been resumed. */
  datatype Mode = Active(bufferedArgs: seq<seq<Value>>) | Resumed

  datatype ErrorCode = ERR_INVALID_ARG_TYPE | ERR_INVALID_ARG_VALUE

  /** Which of the checks of pauseFn and resume failed. */
  datatype ErrorKind = NotFunction | AlreadyResumed | NotReturnedByPauseFn

  /** Every error index.js throws is a TypeError with a `code` property. */
  datatype PauseError = TypeError(code: ErrorCode, kind: ErrorKind)

  datatype Result<T> = Ok(value: T) | Err(error: PauseError)

  /** The error thrown for a failed check: only the non-function check is
      reported as ERR_INVALID_ARG_TYPE. */
  function ErrorFor(kind: ErrorKind): (e: PauseError)
    ensures e.kind == kind
    ensures e.code == ERR_INVALID_ARG_TYPE <==> kind == NotFunction
  {
    TypeError(if kind == NotFunction then ERR_INVALID_ARG_TYPE else ERR_INVALID_ARG_VALUE, kind)
  }

  /** The value JavaScript binds to a function's single declared parameter:
      `undefined` when no argument is passed, the first one otherwise; any
      further arguments are ignored. */
  function Param(argv: seq<Value>): (v: Value)
  {
    if |argv| == 0 then Undefined else argv[0]
  }

  // ---------------------------------------------------------------------
  // The handles that exist, and what a call does

  /** A callable the program can hold a reference to: an ordinary function,
      or a handle that has been created. */
  predicate Exists(fns: seq<Callable>, c: Callable)
  {
    c.Handle? ==> c.hid < |fns|
  }

  /** Every handle wraps a function that existed before it was created. */
  ghost predicate Nested(fns: seq<Callable>)
  {
    forall h :: 0 <= h < |fns| ==> fns[h].Handle? ==> fns[h].hid < h
  }

  /** Termination measure for calls that pass through chains of handles. */
  function Rank(c: Callable): (n: nat)
  {
    if c.Plain? then 0 else c.hid + 1
  }

  /** The handles whose mode a call on `c` may change: `c` itself if it is a
      handle, and the handles its wrapped function reaches. */
  function Chain(fns: seq<Callable>, c: Callable): (r: set<HandleId>)
    requires Nested(fns) && Exists(fns, c)
    ensures forall k :: k in r ==> k < Rank(c)
    decreases Rank(c)
  {
    if c.Plain? then {} else {c.hid} + Chain(fns, fns[c.hid])
  }

  /** A call never resumes a handle and never removes a buffered argument
      list: each mode keeps its variant and a buffer only grows. */
  ghost predicate BuffersGrow(modes: seq<Mode>, modes': seq<Mode>)
  {
    && |modes'| == |modes|
    && forall k :: 0 <= k < |modes| ==>
         && modes'[k].Active? == modes[k].Active?
         && (modes[k].Active? ==> modes[k].bufferedArgs <= modes'[k].bufferedArgs)
  }

  /** Calling `c` with argument list `args`: an ordinary function runs its
      behaviour on the state; an active handle appends `args` to its buffer
      and returns undefined without touching the state; a resumed handle
      calls the function it wraps. Yields the new state, the new modes and
      the return value. */
  function Apply<S>(impl: FnId -> Behaviour<S>, fns: seq<Callable>, c: Callable,
                    args: seq<Value>, env: S, modes: seq<Mode>): (r: (S, seq<Mode>, Value))
    requires Nested(fns) && |modes| == |fns| && Exists(fns, c)
    ensures BuffersGrow(modes, r.1)
    ensures forall k :: 0 <= k < |modes| && k !in Chain(fns, c) ==> r.1[k] == modes[k]
    decreases Rank(c)
  {
    match c
    case Plain(f) =>
      var (env', v) := impl(f)(env, args);
      (env', modes, v)
    case Handle(h) =>
      if modes[h].Active? then
        (env, modes[h := Active(modes[h].bufferedArgs + [args])], Undefined)
      else
        Apply(impl, fns, fns[h], args, env, modes)
  }

  /** Replaying the buffered argument lists against `c`, first to last,
      threading the state and the modes from each call to the next, and
      collecting the return values. */
  function Replay<S>(impl: FnId -> Behaviour<S>, fns: seq<Callable>, c: Callable,
                     buffered: seq<seq<Value>>, env: S, modes: seq<Mode>): (r: (S, seq<Mode>, seq<Value>))
    requires Nested(fns) && |modes| == |fns| && Exists(fns, c)
    ensures |r.2| == |buffered|
    ensures BuffersGrow(modes, r.1)
    ensures forall k :: 0 <= k < |modes| && k !in Chain(fns, c) ==> r.1[k] == modes[k]
    decreases |buffered|
  {
    if buffered == [] then (env, modes, [])
    else
      var first := Apply(impl, fns, c, buffered[0], env, modes);
      var rest := Replay(impl, fns, c, buffered[1..], first.0, first.1);
      (rest.0, rest.1, [first.2] + rest.2)
  }

  /** Replaying `a + b` is replaying `a`, then `b` from where `a` left off. */
  lemma {:induction false} ReplayAppend<S>(impl: FnId -> Behaviour<S>, fns: seq<Callable>, c: Callable,
                                           a: seq<seq<Value>>, b: seq<seq<Value>>, env: S, modes: seq<Mode>)
    requires Nested(fns) && |modes| == |fns| && Exists(fns, c)
    ensures var ra := Replay(impl, fns, c, a, env, modes);
            var rb := Replay(impl, fns, c, b, ra.0, ra.1);
            Replay(impl, fns, c, a + b, env, modes) == (rb.0, rb.1, ra.2 + rb.2)
    decreases |a|
  {
    if a == [] {
      assert a + b == b;
      var rb := Replay(impl, fns, c, b, env, modes);
      assert [] + rb.2 == rb.2;
    } else {
      var first := Apply(impl, fns, c, a[0], env, modes);
      var rest := Replay(impl, fns, c, a[1..], first.0, first.1);
      var rb := Replay(impl, fns, c, b, rest.0, rest.1);
      var ab := a + b;
      assert ab[0] == a[0];
      assert ab[1..] == a[1..] + b;
      var tail := Replay(impl, fns, c, ab[1..], first.0, first.1);
      assert Replay(impl, fns, c, ab, env, modes) == (tail.0, tail.1, [first.2] + tail.2);
      ReplayAppend(impl, fns, c, a[1..], b, first.0, first.1);
      assert tail == (rb.0, rb.1, rest.2 + rb.2);
      assert [first.2] + (rest.2 + rb.2) == ([first.2] + rest.2) + rb.2;
    }
  }

  /** Replaying one more argument list is one more call, made in the state
      and modes the earlier replay left behind. */
  lemma ReplaySnoc<S>(impl: FnId -> Behaviour<S>, fns: seq<Callable>, c: Callable,
                      a: seq<seq<Value>>, x: seq<Value>, env: S, modes: seq<Mode>)
    requires Nested(fns) && |modes| == |fns| && Exists(fns, c)
    ensures var ra := Replay(impl, fns, c, a, env, modes);
            var step := Apply(impl, fns, c, x, ra.0, ra.1);
            Replay(impl, fns, c, a + [x], env, modes) == (step.0, step.1, ra.2 + [step.2])
  {
    var ra := Replay(impl, fns, c, a, env, modes);
    var step := Apply(impl, fns, c, x, ra.0, ra.1);
    assert [x][1..] == [];
    assert Replay(impl, fns, c, [x], ra.0, ra.1) == (step.0, step.1, [step.2] + []);
    assert [step.2] + [] == [step.2];
    ReplayAppend(impl, fns, c, a, [x], env, modes);
  }

  /** The i-th value returned by a replay is what calling `c` with the i-th
      buffered argument list returns, in the state and modes the first i
      calls left behind. */
  lemma {:induction false} ReplayAt<S>(impl: FnId -> Behaviour<S>, fns: seq<Callable>, c: Callable,
                                       buffered: seq<seq<Value>>, env: S, modes: seq<Mode>, i: nat)
    requires Nested(fns) && |modes| == |fns| && Exists(fns, c)
    requires i < |buffered|
    ensures var before := Replay(impl, fns, c, buffered[..i], env, modes);
            Replay(impl, fns, c, buffered, env, modes).2[i]
              == Apply(impl, fns, c, buffered[i], before.0, before.1).2
  {
    var before := Replay(impl, fns, c, buffered[..i], env, modes);
    assert buffered == buffered[..i] + buffered[i..];
    ReplayAppend(impl, fns, c, buffered[..i], buffered[i..], env, modes);
    assert buffered[i..][0] == buffered[i];
    assert |before.2| == i;
  }

  /** Calling an ordinary function directly on each argument list in turn:
      the calls made so far, then the last one. */
  function DirectCalls<S>(f: Behaviour<S>, buffered: seq<seq<Value>>, env: S): (r: (S, seq<Value>))
    decreases |buffered|
  {
    if buffered == [] then (env, [])
    else
      var (env', vs) := DirectCalls(f, buffered[..|buffered| - 1], env);
      var (env'', v) := f(env', buffered[|buffered| - 1]);
      (env'', vs + [v])
  }

  /** Replaying against an ordinary function gives the same values and state
      as calling that function directly on each buffered argument list in
      order, and leaves every handle's mode alone. */
  lemma {:induction false} ReplayPlainIsDirect<S>(impl: FnId -> Behaviour<S>, fns: seq<Callable>, f: FnId,
                                                  buffered: seq<seq<Value>>, env: S, modes: seq<Mode>)
    requires Nested(fns) && |modes| == |fns|
    ensures var direct := DirectCalls(impl(f), buffered, env);
            Replay(impl, fns, Plain(f), buffered, env, modes) == (direct.0, modes, direct.1)
    decreases |buffered|
  {
    if buffered != [] {
      var n := |buffered| - 1;
      var init := buffered[..n];
      ReplayPlainIsDirect(impl, fns, f, init, env, modes);
      ReplaySnoc(impl, fns, Plain(f), init, buffered[n], env, modes);
      assert init + [buffered[n]] == buffered;
    }
  }

  // ---------------------------------------------------------------------
  // The checks of resume

  /** The three checks resume makes, in the order it makes them: a
      non-function, then a member of the resumed set, then a function
      without the internal property. On success, the handle to replay. */
  function ResumeCheck(v: Value, resumed: set<Callable>, modes: seq<Mode>): (r: Result<HandleId>)
    ensures r.Ok? <==> && v.Function? && v.fn !in resumed && v.fn.Handle?
                       && v.fn.hid < |modes| && modes[v.fn.hid].Active?
    ensures r.Ok? ==> v.fn == Handle(r.value)
    ensures !v.Function? ==> r == Err(ErrorFor(NotFunction))
    ensures v.Function? && v.fn in resumed ==> r == Err(ErrorFor(AlreadyResumed))
    ensures && v.Function? && v.fn !in resumed
            && !(v.fn.Handle? && v.fn.hid < |modes| && modes[v.fn.hid].Active?)
            ==> r == Err(ErrorFor(NotReturnedByPauseFn))
    ensures r.Err? ==> (r.error.code == ERR_INVALID_ARG_TYPE <==> !v.Function?)
  {
    if !v.Function? then Err(ErrorFor(NotFunction))
    else if v.fn in resumed then Err(ErrorFor(AlreadyResumed))
    else if !(v.fn.Handle? && v.fn.hid < |modes| && modes[v.fn.hid].Active?) then
      Err(ErrorFor(NotReturnedByPauseFn))
    else Ok(v.fn.hid)
  }

  // ---------------------------------------------------------------------
  // The program state pauseFn works on

  /** The part of a running program that pause-fn sees: the state ordinary
      functions act on, every handle created so far with the function its
      closure captured and its internal property, and the module-wide set of
      resumed handles. */
  class Runtime<S> {
    /** What each ordinary function does. */
    const impl: FnId -> Behaviour<S>
    /** The state ordinary functions read and write. */
    var env: S
    /** fns[h]: the function handle h was made from. */
    var fns: seq<Callable>
    /** modes[h]: the internal property of handle h. */
    var modes: seq<Mode>
    /** The module-level `resumed` set. */
    var resumed: set<Callable>

    /** One mode per handle, handles wrap older functions, and a handle is in
        the resumed set exactly when its internal property is gone. */
    ghost predicate Valid()
      reads this
    {
      && |modes| == |fns|
      && Nested(fns)
      && (forall c :: c in resumed ==> c.Handle? && c.hid < |modes|)
      && (forall h :: 0 <= h < |modes| ==> (Handle(h) in resumed <==> modes[h].Resumed?))
    }

    /** A program that has loaded index.js and made no handle yet. */
    constructor (impl: FnId -> Behaviour<S>, env: S)
      ensures Valid()
      ensures this.impl == impl && this.env == env
      ensures fns == [] && modes == [] && resumed == {}
    {
      this.impl := impl;
      this.env := env;
      fns := [];
      modes := [];
      resumed := {};
    }

    /** `pauseFn(...argv)`: a non-function is rejected with
        ERR_INVALID_ARG_TYPE; otherwise a new handle, distinct from every
        other, wraps it, with an empty buffer and outside the resumed set. */
    method PauseFn(argv: seq<Value>) returns (r: Result<Callable>)
      requires Valid()
      requires Param(argv).Function? ==> Exists(fns, Param(argv).fn)
      modifies this`fns, this`modes, this`resumed
      ensures Valid()
      ensures !Param(argv).Function? ==> r == Err(ErrorFor(NotFunction)) && unchanged(this)
      ensures Param(argv).Function? ==>
                && r == Ok(Handle(old(|fns|)))
                && fns == old(fns) + [Param(argv).fn]
                && modes == old(modes) + [Active([])]
                && resumed == old(resumed)
                && r.value !in resumed
                && forall k :: 0 <= k < old(|fns|) ==> r.value != Handle(k)
    {
      var fn := Param(argv);
      if !fn.Function? {
        return Err(ErrorFor(NotFunction));
      }
      var paused := Handle(|fns|);
      fns := fns + [fn.fn];
      modes := modes + [Active([])];
      resumed := resumed - {paused};
      r := Ok(paused);
    }

    /** `pauseFn.pause`: the same function as pauseFn. */
    method Pause(argv: seq<Value>) returns (r: Result<Callable>)
      requires Valid()
      requires Param(argv).Function? ==> Exists(fns, Param(argv).fn)
      modifies this`fns, this`modes, this`resumed
      ensures Valid()
      ensures !Param(argv).Function? ==> r == Err(ErrorFor(NotFunction)) && unchanged(this)
      ensures Param(argv).Function? ==>
                && r == Ok(Handle(old(|fns|)))
                && fns == old(fns) + [Param(argv).fn]
                && modes == old(modes) + [Active([])]
                && resumed == old(resumed)
                && r.value !in resumed
                && forall k :: 0 <= k < old(|fns|) ==> r.value != Handle(k)
    {
      r := PauseFn(argv);
    }

    /** Calling `c` with `args`. On an active handle: the argument list is
        appended to its buffer, undefined is returned and nothing else
        happens. On a resumed handle: the call goes to the wrapped function.
        On an ordinary function: its behaviour runs. */
    method Call(c: Callable, args: seq<Value>) returns (r: Value)
      requires Valid() && Exists(fns, c)
      modifies this`env, this`modes
      ensures Valid()
      ensures (env, modes, r) == Apply(impl, fns, c, args, old(env), old(modes))
      ensures c.Handle? && old(modes)[c.hid].Active? ==>
                && r == Undefined && env == old(env)
                && modes == old(modes)[c.hid := Active(old(modes)[c.hid].bufferedArgs + [args])]
      ensures c.Handle? && old(modes)[c.hid].Resumed? ==>
                (env, modes, r) == Apply(impl, fns, fns[c.hid], args, old(env), old(modes))
      ensures c.Plain? ==> (env, r) == impl(c.fid)(old(env), args) && modes == old(modes)
      decreases Rank(c)
    {
      match c
      case Plain(f) =>
        var (env', v) := impl(f)(env, args);
        env := env';
        r := v;
      case Handle(h) =>
        if modes[h].Active? {
          modes := modes[h := Active(modes[h].bufferedArgs + [args])];
          r := Undefined;
        } else {
          r := Call(fns[h], args);
        }
    }

    /** The `map` of resume: calls `original` with each buffered argument
        list in turn and collects the return values. */
    method ReplayBuffered(original: Callable, buffered: seq<seq<Value>>) returns (returnValues: seq<Value>)
      requires Valid() && Exists(fns, original)
      modifies this`env, this`modes
      ensures Valid()
      ensures (env, modes, returnValues) == Replay(impl, fns, original, buffered, old(env), old(modes))
    {
      returnValues := [];
      var i := 0;
      while i < |buffered|
        invariant 0 <= i <= |buffered|
        invariant Valid() && fns == old(fns) && resumed == old(resumed)
        invariant (env, modes, returnValues) == Replay(impl, fns, original, buffered[..i], old(env), old(modes))
      {
        var v := Call(original, buffered[i]);
        ReplaySnoc(impl, fns, original, buffered[..i], buffered[i], old(env), old(modes));
        assert buffered[..i] + [buffered[i]] == buffered[..i + 1];
        returnValues := returnValues + [v];
        i := i + 1;
      }
      assert buffered[..i] == buffered;
    }

    /** `pauseFn.resume(...argv)`: the checks of ResumeCheck, in order; a
        failed check changes nothing. On success the buffered argument lists
        are replayed against the wrapped function in order, their return
        values are returned, the internal property is deleted and the handle
        joins the resumed set. Only the handle and the handles its wrapped
        function reaches change mode. */
    method Resume(argv: seq<Value>) returns (r: Result<seq<Value>>)
      requires Valid()
      modifies this`env, this`modes, this`resumed
      ensures Valid() && fns == old(fns)
      ensures ResumeCheck(Param(argv), old(resumed), old(modes)).Err? ==>
                && r == Err(ResumeCheck(Param(argv), old(resumed), old(modes)).error)
                && unchanged(this)
      ensures ResumeCheck(Param(argv), old(resumed), old(modes)).Ok? ==>
                var h := ResumeCheck(Param(argv), old(resumed), old(modes)).value;
                var replay := Replay(impl, fns, fns[h], old(modes)[h].bufferedArgs, old(env), old(modes));
                && r == Ok(replay.2)
                && env == replay.0
                && modes == replay.1[h := Resumed]
                && resumed == old(resumed) + {Handle(h)}
                && |r.value| == |old(modes)[h].bufferedArgs|
                && forall k :: 0 <= k < |modes| && k != h && k !in Chain(fns, fns[h]) ==>
                     modes[k] == old(modes)[k]
    {
      var check := ResumeCheck(Param(argv), resumed, modes);
      if check.Err? {
        return Err(check.error);
      }
      var h := check.value;
      var returnValues := ReplayBuffered(fns[h], modes[h].bufferedArgs);
      modes := modes[h := Resumed];
      resumed := resumed + {Handle(h)};
      r := Ok(returnValues);
    }
  }
}

/** The behaviour test.mjs exercises, replayed on the model: one ordinary
    function that adds its arguments to a counter, one handle wrapping it. */
module PauseFnScenario {
  import opened PauseFn

  /** The sum of the numeric arguments (test.mjs passes numbers only). */
  function Sum(args: seq<Value>): (total: int)
  {
    if args == [] then 0 else (if args[0].Num? then args[0].n else 0) + Sum(args[1..])
  }

  /** The `fn` of test.mjs: adds every argument to the counter `i` and
      returns the new value of `i`. */
  function Accumulate(i: int, args: seq<Value>): (r: (int, Value))
  {
    var j := i + Sum(args);
    (j, Num(j))
  }

  /** Calling the counter function directly on [1] and then on [2, 3],
      from 0: the counter goes 0 -> 1 -> 6 and the calls return 1 and 6. */
  lemma CounterReplay(f: Behaviour<int>)
    requires f == Accumulate
    ensures DirectCalls(f, [[Num(1)], [Num(2), Num(3)]], 0) == (6, [Num(1), Num(6)])
  {
    var buffered := [[Num(1)], [Num(2), Num(3)]];
    assert f(0, buffered[0]) == (1, Num(1));
    assert f(1, buffered[1]) == (6, Num(6));
    assert buffered[..1] == [buffered[0]] && [buffered[0]][..0] == [];
    assert DirectCalls(f, [buffered[0]], 0) == (1, [] + [Num(1)]);
    assert [] + [Num(1)] == [Num(1)];
    assert DirectCalls(f, buffered, 0) == (6, [Num(1)] + [Num(6)]);
    assert [Num(1)] + [Num(6)] == [Num(1), Num(6)];
  }

  /** `paused(1)` and `paused(2, 3)` return undefined and leave the counter
      at 0; `resume(paused)` returns [1, 6]; `paused(4)` then returns 10. */
  method BufferThenResume() returns (first: Value, second: Value, counterWhilePaused: int,
                                     returned: Result<seq<Value>>, later: Value)
    ensures first == Undefined && second == Undefined && counterWhilePaused == 0
    ensures returned == Ok([Num(1), Num(6)])
    ensures later == Num(10)
  {
    var rt := new Runtime((f: FnId) => Accumulate, 0);
    var made := rt.PauseFn([Function(Plain(0))]);
    var paused := made.value;
    first := rt.Call(paused, [Num(1)]);
    assert rt.modes == [Active([[Num(1)]])] by { assert [] + [[Num(1)]] == [[Num(1)]]; }
    second := rt.Call(paused, [Num(2), Num(3)]);
    counterWhilePaused := rt.env;
    var buffered := [[Num(1)], [Num(2), Num(3)]];
    assert rt.modes == [Active(buffered)] by { assert [[Num(1)]] + [[Num(2), Num(3)]] == buffered; }
    assert ResumeCheck(Param([Function(paused)]), rt.resumed, rt.modes) == Ok(0);
    var f: Behaviour<int> := Accumulate;
    assert rt.impl(0) == f;
    CounterReplay(f);
    ReplayPlainIsDirect(rt.impl, rt.fns, 0, buffered, 0, rt.modes);
    assert rt.fns[0] == Plain(0);
    returned := rt.Resume([Function(paused)]);
    assert rt.env == 6 && rt.modes == [Resumed];
    assert Accumulate(6, [Num(4)]) == (10, Num(10));
    later := rt.Call(paused, [Num(4)]);
  }

  /** The failing resumes of test.mjs, on a handle that has been resumed
      once: a non-function (`new Int8Array()`), the same handle again, a
      function pauseFn never returned, no argument at all (where the test
      expects a RangeError, index.js reports a non-function), and two
      arguments (the second is ignored). */
  method ResumeMisuse() returns (notFunction: Result<seq<Value>>, again: Result<seq<Value>>,
                                 neverPaused: Result<seq<Value>>, noArgument: Result<seq<Value>>,
                                 tooMany: Result<seq<Value>>)
    ensures notFunction == Err(TypeError(ERR_INVALID_ARG_TYPE, NotFunction))
    ensures again == Err(TypeError(ERR_INVALID_ARG_VALUE, AlreadyResumed))
    ensures neverPaused == Err(TypeError(ERR_INVALID_ARG_VALUE, NotReturnedByPauseFn))
    ensures noArgument == Err(TypeError(ERR_INVALID_ARG_TYPE, NotFunction))
    ensures tooMany == Err(TypeError(ERR_INVALID_ARG_VALUE, NotReturnedByPauseFn))
  {
    var rt := new Runtime((f: FnId) => Accumulate, 0);
    var made := rt.PauseFn([Function(Plain(0))]);
    var paused := made.value;
    var first := rt.Resume([Function(paused)]);
    notFunction := rt.Resume([Object]);
    again := rt.Resume([Function(paused)]);
    neverPaused := rt.Resume([Function(Plain(1))]);
    noArgument := rt.Resume([]);
    tooMany := rt.Resume([Function(Plain(1)), Function(Plain(1))]);
  }

  /** pauseFn as index.js writes it: -0 is rejected as a non-function; a
      missing argument is rejected the same way, not as an arity error; a
      second argument is ignored. */
  method PauseFnArguments() returns (negativeZero: Result<Callable>, noArgument: Result<Callable>,
                                     twoArguments: Result<Callable>)
    ensures negativeZero == Err(TypeError(ERR_INVALID_ARG_TYPE, NotFunction))
    ensures noArgument == Err(TypeError(ERR_INVALID_ARG_TYPE, NotFunction))
    ensures twoArguments == Ok(Handle(0))
  {
    var rt := new Runtime((f: FnId) => Accumulate, 0);
    negativeZero := rt.PauseFn([Num(0)]);
    noArgument := rt.PauseFn([]);
    twoArguments := rt.PauseFn([Function(Plain(0)), Function(Plain(1))]);
  }

  /** index.js accepts a handle that is still paused and wraps it. Resuming
      the outer handle calls the inner one, which is still paused, so the
      call is buffered there and the replay returns undefined. */
  method PauseFnWrapsHandle() returns (rewrapped: Result<Callable>, replayed: Result<seq<Value>>,
                                       innerBuffer: seq<seq<Value>>)
    ensures rewrapped == Ok(Handle(1))
    ensures replayed == Ok([Undefined])
    ensures innerBuffer == [[Num(5)]]
  {
    var rt := new Runtime((f: FnId) => Accumulate, 0);
    var made := rt.PauseFn([Function(Plain(0))]);
    var paused := made.value;
    rewrapped := rt.PauseFn([Function(paused)]);
    var outer := rewrapped.value;
    var buffered := rt.Call(outer, [Num(5)]);
    assert rt.modes == [Active([]), Active([[Num(5)]])] by {
      assert [] + [[Num(5)]] == [[Num(5)]];
    }
    ghost var envBefore, modesBefore := rt.env, rt.modes;
    ghost var inner := Apply(rt.impl, rt.fns, paused, [Num(5)], envBefore, modesBefore);
    assert inner == (envBefore, modesBefore[0 := Active([[Num(5)]])], Undefined) by {
      assert [] + [[Num(5)]] == [[Num(5)]];
    }
    assert [[Num(5)]][1..] == [];
    assert Replay(rt.impl, rt.fns, paused, [[Num(5)]], envBefore, modesBefore)
        == (inner.0, inner.1, [Undefined] + []);
    assert ResumeCheck(Param([Function(outer)]), rt.resumed, rt.modes) == Ok(1);
    assert rt.fns[1] == paused && rt.modes[1].bufferedArgs == [[Num(5)]];
    assert [Undefined] + [] == [Undefined];
    replayed := rt.Resume([Function(outer)]);
    innerBuffer := rt.modes[0].bufferedArgs;
  }
}

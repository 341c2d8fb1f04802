# pause-fn, modelled in Dafny

pause-fn wraps a function so that calls to it are held back until an explicit
resume. `pauseFn(fn)` returns a handle, `paused`. While the handle is paused,
each call appends its argument list to the handle's buffer and returns
`undefined`; `fn` does not run. `pauseFn.resume(paused)` does three things in
order: it calls `fn` once per buffered argument list and collects the return
values; it deletes the handle's internal property; it adds the handle to a
module-wide `resumed` set. From then on the handle passes every call straight
to `fn`. `pauseFn.pause` is the same function as `pauseFn`.

The model (`pause_fn.dfy`, module `PauseFn`):

- `Runtime<S>` is the part of a running program that pause-fn sees. Its
  fields are:
  - `fns[h]`: the function captured by the closure of handle `h`;
  - `modes[h]`: the handle's internal property. `Active(bufferedArgs)` while it
    is present, `Resumed` once `resume` has deleted it;
  - `resumed`: the module-level set;
  - `env`: the state that ordinary functions act on;
  - `impl`: what each ordinary function does, as a function from state and
    argument list to a new state and a return value.
- `Runtime.PauseFn`, `Runtime.Pause`, `Runtime.Call` and `Runtime.Resume`
  update these fields in place, as index.js does. Each method is proved
  against a pure specification:
  - `Apply` says what one call does;
  - `Replay` says what the replay in `resume` does, threading the state from
    one call to the next;
  - `ResumeCheck` gives the three checks of `resume`, in the order the code
    makes them.
- `Runtime.Valid()` is the invariant every method keeps. It has four parts:
  - there is one mode per handle;
  - a handle only ever wraps a function that existed before the handle did
    (`Nested`);
  - the `resumed` set holds only handles that exist;
  - a handle is in the `resumed` set exactly when its internal property is
    gone.
- index.js accepts any function, so a handle can wrap another handle.
  `Callable` is therefore either an ordinary function or a handle. A call on a
  resumed handle that wraps a paused handle buffers the call in the inner
  handle. So resuming a handle changes the mode of that handle and of the
  handles its wrapped function reaches (`Chain`), and of no other handle.
  `PauseFn` and `Call` require a handle they are given to exist. A JavaScript
  program can only hold a reference to a handle that has been created.
- `pauseFn` and `resume` receive their argument list (`argv`) as JavaScript
  passes it. The one declared parameter is bound by `Param`: `undefined`
  when no argument is given, the first argument otherwise. Further arguments
  are ignored.

`test_scenario.dfy` (module `PauseFnScenario`) replays the scenario of
test.mjs on the model and proves its outcomes. It also proves the outcomes of the
calls where test.mjs expects behaviour that index.js does not have.

## Model

| member | source | states |
|---|---|---|
| PauseFn.ErrorFor | index.js:52-71 | only the non-function check reports `ERR_INVALID_ARG_TYPE`; the already-resumed and not-returned-by-pauseFn checks report `ERR_INVALID_ARG_VALUE` |
| PauseFn.Chain | index.js:29 | a call on a handle can reach only that handle and handles created before it |
| PauseFn.Apply | index.js:23-30 | a call changes no handle outside the callee's chain; it never resumes a handle and never removes a buffered argument list (every mode keeps its variant, and every buffer is kept as a prefix) |
| PauseFn.Replay | index.js:73 | the replay returns one value per buffered argument list; outside the wrapped function's chain it leaves every mode as it was, and it never resumes a handle or drops a buffered call |
| PauseFn.ReplayAppend | index.js:73 | replaying `a + b` is replaying `a`, then replaying `b` from the state and modes that `a` left, with the results concatenated |
| PauseFn.ReplaySnoc | index.js:73 | one more buffered argument list means one more call, made in the state the earlier calls left, with its result appended |
| PauseFn.ReplayAt | index.js:73 | element `i` of the replay's result is what `fn` returns for buffered list `i`, called in the state left by calls `0..i-1` |
| PauseFn.ReplayPlainIsDirect | index.js:11-13 | replaying against an ordinary function gives the same results and final state as calling it directly on each argument list in order, and it changes no handle |
| PauseFn.ResumeCheck | index.js:52-71 | resume succeeds exactly on a function that is not in the `resumed` set and is a handle whose internal property is present. A non-function fails with `ERR_INVALID_ARG_TYPE` whatever the state; a member of `resumed` fails with AlreadyResumed before the internal property is looked at; any other function (outside `resumed`, without the internal property) fails with NotReturnedByPauseFn |
| PauseFn.Runtime.constructor | index.js:9 | the program starts with no handles and an empty `resumed` set |
| PauseFn.Runtime.PauseFn | index.js:15-42 | a non-function (including a missing argument) is rejected with `ERR_INVALID_ARG_TYPE` and nothing changes. Otherwise the result is a new handle, distinct from every earlier one. It wraps the given function, its buffer is empty, it is outside `resumed`, and no other handle changes |
| PauseFn.Runtime.Pause | index.js:44-47 | `pause` behaves exactly as `pauseFn` |
| PauseFn.Runtime.Call | index.js:23-30 | on a paused handle: the argument list is appended to the end of the buffer, `undefined` is returned, and the state of ordinary functions is untouched (`fn` does not run). On a resumed handle: exactly the effect and result of calling the wrapped function |
| PauseFn.Runtime.ReplayBuffered | index.js:73 | the loop over the buffer computes exactly `Replay`: the calls are made in buffer order and the state is threaded from one call to the next |
| PauseFn.Runtime.Resume | index.js:51-79 | a failed check returns its error and changes nothing. On success it returns the replay's values, one per buffered call. The handle becomes `Resumed` and joins `resumed`, and nothing else joins it. No handle outside the handle and its wrapped function's chain changes mode |
| PauseFnScenario.CounterReplay | test.mjs:4-12 | calling the test's counter function directly on `[1]` then `[2, 3]` from 0 returns 1 then 6 and leaves the counter at 6 |
| PauseFnScenario.BufferThenResume | test.mjs:14-73 | `paused(1)` and `paused(2, 3)` return undefined and leave the counter at 0; `resume(paused)` returns `[1, 6]`; `paused(4)` then returns 10 |
| PauseFnScenario.ResumeMisuse | test.mjs:75-103 | resume of a non-function gives `ERR_INVALID_ARG_TYPE`; resuming a second time gives AlreadyResumed; a function never paused gives NotReturnedByPauseFn. `resume()` is a non-function error and `resume(f, g)` ignores `g`, not the RangeErrors the test expects |
| PauseFnScenario.PauseFnArguments | index.js:15-21 | `pauseFn(-0)` and `pauseFn()` fail with `ERR_INVALID_ARG_TYPE`; `pauseFn(f, g)` ignores `g` and succeeds |
| PauseFnScenario.PauseFnWrapsHandle | index.js:16-29 | `pauseFn(paused)` succeeds on a paused handle. Replaying the outer handle buffers the call in the inner handle, and the replay returns `undefined` |

## Code and tests disagree

index.js is modelled as written. test.mjs expects two behaviours that index.js
does not implement:

- Re-pausing: test.mjs:41-45 expects `pauseFn(paused)` to be rejected.
  index.js:16 checks only `typeof`, so the call succeeds and wraps the handle
  (`PauseFnWrapsHandle`).
- Arity: test.mjs:47-57 and test.mjs:93-103 expect RangeErrors for zero or two
  arguments. index.js has no arity check. With no argument, the parameter is
  `undefined`, which fails the non-function check. A second argument is
  ignored (`PauseFnArguments`, `ResumeMisuse`).

## Left out

- Error messages: the texts built with `append-type` and `util.inspect` are not modelled. An error is its `code` and the check that failed.
- Exceptions thrown by `fn`: a behaviour always returns. Neither the passthrough of a throw nor a replay stopped part-way is modelled.
- Reentrant calls: a behaviour acts only on the state `env`, so `fn` cannot call a handle or `resume` during a replay.
- JavaScript mechanics: the `arguments` object, `this`, the Symbol-keyed non-enumerable property and `Object.defineProperty` are left out. Argument lists are `seq<Value>`, and the internal property is the `Mode` of the handle.
- WeakSet semantics: `resumed` is an ordinary set. Handles have fresh identities, so `resumed.delete(paused)` at construction removes nothing. Garbage collection and identity reuse are not modelled.
- Numbers are unbounded integers, not IEEE doubles, so `-0` is `Num(0)`.
- Calls on ordinary functions (not handles) appear only as their `impl` behaviour; nothing else about them is modelled.

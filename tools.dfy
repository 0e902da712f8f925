/**
 * The small process helpers of utils/tools.py: rewriting a command line so it
 * runs under the current interpreter, the profiling counter that counts only
 * outermost calls, the unbuffered stream wrapper and the boolean environment
 * variables.
 */
module Tools {
  import opened Wrappers
  import opened Text

  // ---------------------------------------------------------------------------
  // fix_python_path

  /**
   * fix_python_path: a copy of `cmd` in which a leading "python" is replaced
   * by the running interpreter `executable`, and a leading script name ending
   * in ".py" gets the interpreter put in front of it. The caller's list is a
   * value here, so it cannot be changed.
   */
  method FixPythonPath(cmd: seq<string>, executable: string) returns (out: seq<string>)
    requires |cmd| > 0
    ensures cmd[0] == "python" ==>
      |out| == |cmd| && out[0] == executable && out[1..] == cmd[1..]
    ensures cmd[0] != "python" && EndsWith(cmd[0], ".py") ==> out == [executable] + cmd
    ensures cmd[0] != "python" && !EndsWith(cmd[0], ".py") ==> out == cmd
  {
    out := cmd;
    if out[0] == "python" {
      out := out[0 := executable];
    } else if EndsWith(out[0], ".py") {
      out := [executable] + out;
    }
  }

  // ---------------------------------------------------------------------------
  // ProfileCounter

  /**
   * What a ProfileCounter holds for one thread: the number of outermost calls,
   * their total time, the current nesting depth and the start of the current
   * outermost call. Times are clock readings in whole ticks.
   */
  datatype CounterState = CounterState(callCount: nat, totalTime: int, recursion: nat, started: int)

  /** `__enter__` at time `now`: the start is taken only when no call is open. */
  function Entered(s: CounterState, now: int): CounterState {
    s.(recursion := s.recursion + 1, started := if s.recursion == 0 then now else s.started)
  }

  /** `__exit__` at time `now`: closing the outermost call counts it and adds its time. */
  function Exited(s: CounterState, now: int): CounterState
    requires s.recursion > 0
  {
    if s.recursion == 1 then
      s.(recursion := 0, totalTime := s.totalTime + (now - s.started), callCount := s.callCount + 1)
    else
      s.(recursion := s.recursion - 1)
  }

  /** One `with counter:` boundary crossed at a clock reading. */
  datatype Step = Enter(at: int) | Exit(at: int)

  /** The counter after a run of steps; None when an exit has no open call to close. */
  function Replay(s: CounterState, steps: seq<Step>): Option<CounterState>
    decreases |steps|
  {
    if steps == [] then Some(s)
    else match steps[0]
      case Enter(t) => Replay(Entered(s, t), steps[1..])
      case Exit(t) => if s.recursion == 0 then None else Replay(Exited(s, t), steps[1..])
  }

  /** Replaying two runs one after the other is replaying their concatenation. */
  lemma {:induction false} ReplayAppend(s: CounterState, a: seq<Step>, b: seq<Step>)
    ensures Replay(s, a + b) == (match Replay(s, a) case None => None case Some(t) => Replay(t, b))
    decreases |a|
  {
    if a != [] {
      assert (a + b)[0] == a[0] && (a + b)[1..] == a[1..] + b;
      match a[0]
      case Enter(t) => ReplayAppend(Entered(s, t), a[1..], b);
      case Exit(t) => if s.recursion > 0 { ReplayAppend(Exited(s, t), a[1..], b); }
    } else {
      assert a + b == b;
    }
  }

  /** A profiled call: entered at `start`, left at `finish`, with the profiled calls it makes. */
  datatype Span = Span(start: int, finish: int, inner: seq<Span>)

  /** The enter and exit steps of a call and of every call nested in it. */
  function SpanSteps(sp: Span): seq<Step>
    decreases sp, 1
  {
    [Enter(sp.start)] + SpansSteps(sp.inner) + [Exit(sp.finish)]
  }

  function SpansSteps(sps: seq<Span>): seq<Step>
    decreases sps, 0
  {
    if sps == [] then [] else SpanSteps(sps[0]) + SpansSteps(sps[1..])
  }

  /** A call made while another call is open changes nothing at all: recursive calls are not counted. */
  lemma {:induction false} NestedCallInvisible(s: CounterState, sp: Span)
    requires s.recursion > 0
    ensures Replay(s, SpanSteps(sp)) == Some(s)
    decreases sp, 1
  {
    var e := Entered(s, sp.start);
    assert e == s.(recursion := s.recursion + 1);
    NestedCallsInvisible(e, sp.inner);
    ReplayAppend(s, [Enter(sp.start)], SpansSteps(sp.inner) + [Exit(sp.finish)]);
    ReplayAppend(e, SpansSteps(sp.inner), [Exit(sp.finish)]);
    assert [Enter(sp.start)] + (SpansSteps(sp.inner) + [Exit(sp.finish)]) == SpanSteps(sp);
    assert Exited(e, sp.finish) == s;
  }

  lemma {:induction false} NestedCallsInvisible(s: CounterState, sps: seq<Span>)
    requires s.recursion > 0
    ensures Replay(s, SpansSteps(sps)) == Some(s)
    decreases sps, 0
  {
    if sps != [] {
      NestedCallInvisible(s, sps[0]);
      NestedCallsInvisible(s, sps[1..]);
      ReplayAppend(s, SpanSteps(sps[0]), SpansSteps(sps[1..]));
    }
  }

  /**
   * An outermost call, whatever it calls in turn, adds exactly one to the call
   * count and exactly its own duration to the total, and leaves the depth at 0.
   */
  lemma OuterCallCounted(s: CounterState, sp: Span)
    requires s.recursion == 0
    ensures Replay(s, SpanSteps(sp)) ==
      Some(s.(callCount := s.callCount + 1, totalTime := s.totalTime + (sp.finish - sp.start), started := sp.start))
  {
    var e := Entered(s, sp.start);
    assert e.recursion == 1 && e.started == sp.start;
    NestedCallsInvisible(e, sp.inner);
    ReplayAppend(s, [Enter(sp.start)], SpansSteps(sp.inner) + [Exit(sp.finish)]);
    ReplayAppend(e, SpansSteps(sp.inner), [Exit(sp.finish)]);
    assert [Enter(sp.start)] + (SpansSteps(sp.inner) + [Exit(sp.finish)]) == SpanSteps(sp);
  }

  /** A run of outermost calls one after the other counts each of them once. */
  lemma {:induction false} OuterCallsCounted(s: CounterState, sps: seq<Span>)
    requires s.recursion == 0
    ensures var r := Replay(s, SpansSteps(sps));
      && r.Some?
      && r.value.recursion == 0
      && r.value.callCount == s.callCount + |sps|
      && r.value.totalTime == s.totalTime + Durations(sps)
    decreases |sps|
  {
    if sps != [] {
      OuterCallCounted(s, sps[0]);
      var t := Replay(s, SpanSteps(sps[0])).value;
      OuterCallsCounted(t, sps[1..]);
      ReplayAppend(s, SpanSteps(sps[0]), SpansSteps(sps[1..]));
    }
  }

  /** The summed duration of a run of calls. */
  function Durations(sps: seq<Span>): int {
    if sps == [] then 0 else (sps[0].finish - sps[0].start) + Durations(sps[1..])
  }

  /**
   * ProfileCounter: the time spent in a section of code over the life of the
   * process, counting a recursive call only once, at its outermost level.
   */
  class ProfileCounter {
    const name: string
    var callCount: nat
    var totalTime: int
    var recursion: nat
    var started: int

    function State(): CounterState
      reads this
    {
      CounterState(callCount, totalTime, recursion, started)
    }

    constructor(name: string)
      ensures this.name == name
      ensures callCount == 0 && totalTime == 0 && recursion == 0
    {
      this.name := name;
      callCount := 0;
      totalTime := 0;
      recursion := 0;
      started := 0;
    }

    /** average_time: the mean time per counted call, 0 before the first one. */
    function AverageTime(): (r: real)
      reads this
      ensures callCount == 0 ==> r == 0.0
      ensures callCount > 0 ==> r * (callCount as real) == totalTime as real
    {
      if callCount > 0 then (totalTime as real) / (callCount as real) else 0.0
    }

    /** `__enter__` at clock reading `now`. */
    method Enter(now: int)
      modifies this
      ensures State() == Entered(old(State()), now)
    {
      if recursion == 0 {
        started := now;
      }
      recursion := recursion + 1;
    }

    /** `__exit__` at clock reading `now`, closing the innermost open call. */
    method Exit(now: int)
      requires recursion > 0
      modifies this
      ensures State() == Exited(old(State()), now)
    {
      recursion := recursion - 1;
      if recursion == 0 {
        var timeInside := now - started;
        totalTime := totalTime + timeInside;
        callCount := callCount + 1;
      }
    }
  }

  // ---------------------------------------------------------------------------
  // Unbuffered

  /** What a file object is asked to do. */
  datatype StreamOp = Wrote(data: string) | Flushed

  /** The text handed to the stream, in order. */
  function Written(ops: seq<StreamOp>): string {
    if ops == [] then []
    else Written(ops[..|ops| - 1]) + (match ops[|ops| - 1] case Wrote(d) => d case Flushed => [])
  }

  /** The text written since the last flush, still in the stream's buffer. */
  function Pending(ops: seq<StreamOp>): string {
    if ops == [] then []
    else match ops[|ops| - 1]
      case Wrote(d) => Pending(ops[..|ops| - 1]) + d
      case Flushed => []
  }

  /** What Unbuffered.write asks of its stream. */
  function AfterWrite(ops: seq<StreamOp>, data: string): seq<StreamOp> {
    ops + [Wrote(data)] + (if '\n' in data then [Flushed] else [])
  }

  /** Unbuffered.write forwards all of `data`, and flushes exactly when `data` holds a newline. */
  lemma WriteForwardsAndFlushes(ops: seq<StreamOp>, data: string)
    ensures Written(AfterWrite(ops, data)) == Written(ops) + data
    ensures '\n' in data ==> Pending(AfterWrite(ops, data)) == []
    ensures '\n' !in data ==> Pending(AfterWrite(ops, data)) == Pending(ops) + data
  {
    var w := ops + [Wrote(data)];
    assert w[..|w| - 1] == ops;
    if '\n' in data {
      var a := AfterWrite(ops, data);
      assert a[..|a| - 1] == w;
    } else {
      assert AfterWrite(ops, data) == w;
    }
  }

  /** A stream written only through Unbuffered never holds a finished line in its buffer. */
  lemma UnbufferedHoldsNoLine(ops: seq<StreamOp>, data: string)
    requires '\n' !in Pending(ops)
    ensures '\n' !in Pending(AfterWrite(ops, data))
  {
    WriteForwardsAndFlushes(ops, data);
  }

  /** A file object, as the log of what it was asked to do. */
  class Stream {
    var ops: seq<StreamOp>

    constructor()
      ensures ops == []
    {
      ops := [];
    }

    method Write(data: string)
      modifies this
      ensures ops == old(ops) + [Wrote(data)]
    {
      ops := ops + [Wrote(data)];
    }

    method Flush()
      modifies this
      ensures ops == old(ops) + [Flushed]
    {
      ops := ops + [Flushed];
    }
  }

  /** Unbuffered: a wrapper that flushes its stream after every write holding a newline. */
  class Unbuffered {
    const stream: Stream

    constructor(stream: Stream)
      ensures this.stream == stream
    {
      this.stream := stream;
    }

    method Write(data: string)
      modifies stream
      ensures stream.ops == AfterWrite(old(stream.ops), data)
    {
      stream.Write(data);
      if '\n' in data {
        stream.Flush();
      }
    }
  }

  // ---------------------------------------------------------------------------
  // get_bool_env_var / is_headless

  /** int() refused the variable's value. */
  datatype EnvError = NotAnInteger(name: string, value: string)

  /**
   * get_bool_env_var: the variable read as an integer (absent reads as "0")
   * and taken as true when it is not zero.
   */
  function GetBoolEnvVar(env: map<string, string>, name: string): (r: Result<bool, EnvError>)
    ensures name !in env ==> r == Ok(false)
    ensures name in env ==>
      match ParseInt(env[name])
      case None => r == Err(NotAnInteger(name, env[name]))
      case Some(n) => r == Ok(n != 0)
  {
    var value := if name in env then env[name] else "0";
    match ParseInt(value)
    case None => Err(NotAnInteger(name, value))
    case Some(n) => Ok(n != 0)
  }

  /** A variable holding `str(n)` reads as true exactly when `n` is not zero. */
  lemma BoolEnvVarOfInt(env: map<string, string>, name: string, n: int)
    ensures GetBoolEnvVar(env[name := IntToString(n)], name) == Ok(n != 0)
  {
    ParseIntOfString(n);
  }

  /**
   * `any(get_bool_env_var(key) for key in keys)`: the keys are read in order,
   * the first true one ends the scan, and a ValueError ends it too.
   */
  function AnyBoolEnvVar(env: map<string, string>, keys: seq<string>): (r: Result<bool, EnvError>)
    ensures r == Ok(false) ==> forall i :: 0 <= i < |keys| ==> GetBoolEnvVar(env, keys[i]) == Ok(false)
    ensures r == Ok(true) ==> exists i :: 0 <= i < |keys| && GetBoolEnvVar(env, keys[i]) == Ok(true)
    ensures r.Err? ==> exists i :: 0 <= i < |keys| && GetBoolEnvVar(env, keys[i]) == r
  {
    if keys == [] then Ok(false)
    else match GetBoolEnvVar(env, keys[0])
      case Err(e) => Err(e)
      case Ok(true) => Ok(true)
      case Ok(false) => AnyBoolEnvVar(env, keys[1..])
  }

  /** With every variable well formed, the scan is true exactly when some variable is. */
  lemma {:induction false} AnyBoolEnvVarIff(env: map<string, string>, keys: seq<string>)
    requires forall i :: 0 <= i < |keys| ==> GetBoolEnvVar(env, keys[i]).Ok?
    ensures AnyBoolEnvVar(env, keys).Ok?
    ensures AnyBoolEnvVar(env, keys).value <==>
      exists i :: 0 <= i < |keys| && GetBoolEnvVar(env, keys[i]) == Ok(true)
  {
    if keys != [] {
      AnyBoolEnvVarIff(env, keys[1..]);
      if GetBoolEnvVar(env, keys[0]) == Ok(false) {
        forall i | 1 <= i < |keys|
          ensures GetBoolEnvVar(env, keys[i]) == GetBoolEnvVar(env, keys[1..][i - 1])
        {
        }
      }
    }
  }

  /** A variable that int() refuses stops the scan with that error unless an earlier one is true. */
  lemma {:induction false} AnyBoolEnvVarErr(env: map<string, string>, keys: seq<string>, j: nat)
    requires j < |keys| && GetBoolEnvVar(env, keys[j]).Err?
    requires forall i :: 0 <= i < j ==> GetBoolEnvVar(env, keys[i]) == Ok(false)
    ensures AnyBoolEnvVar(env, keys) == GetBoolEnvVar(env, keys[j])
  {
    if j == 0 {
      assert AnyBoolEnvVar(env, keys) == GetBoolEnvVar(env, keys[0]);
    } else {
      var rest := keys[1..];
      assert rest[j - 1] == keys[j];
      forall i | 0 <= i < j - 1
        ensures GetBoolEnvVar(env, rest[i]) == Ok(false)
      {
        assert rest[i] == keys[i + 1];
      }
      AnyBoolEnvVarErr(env, rest, j - 1);
      assert GetBoolEnvVar(env, keys[0]) == Ok(false);
    }
  }

  const HeadlessEnvKeys: seq<string> := ["CHROME_HEADLESS", "SWARMING_HEADLESS"]

  /** is_headless: running on a bot, as told by CHROME_HEADLESS or SWARMING_HEADLESS. */
  function IsHeadless(env: map<string, string>): (r: Result<bool, EnvError>)
    ensures r == Ok(false) ==>
      GetBoolEnvVar(env, "CHROME_HEADLESS") == Ok(false) && GetBoolEnvVar(env, "SWARMING_HEADLESS") == Ok(false)
    ensures r == Ok(true) ==>
      GetBoolEnvVar(env, "CHROME_HEADLESS") == Ok(true) || GetBoolEnvVar(env, "SWARMING_HEADLESS") == Ok(true)
    ensures r.Err? ==> r == GetBoolEnvVar(env, "CHROME_HEADLESS") || r == GetBoolEnvVar(env, "SWARMING_HEADLESS")
  {
    var keys := HeadlessEnvKeys;
    assert keys[0] == "CHROME_HEADLESS" && keys[1] == "SWARMING_HEADLESS";
    AnyBoolEnvVar(env, keys)
  }

  /**
   * When both variables are absent or integers, is_headless holds exactly
   * when one of them is a nonzero integer.
   */
  lemma IsHeadlessIff(env: map<string, string>)
    requires GetBoolEnvVar(env, "CHROME_HEADLESS").Ok? && GetBoolEnvVar(env, "SWARMING_HEADLESS").Ok?
    ensures IsHeadless(env) ==
      Ok(GetBoolEnvVar(env, "CHROME_HEADLESS").value || GetBoolEnvVar(env, "SWARMING_HEADLESS").value)
  {
    var chrome := GetBoolEnvVar(env, "CHROME_HEADLESS");
    var swarming := GetBoolEnvVar(env, "SWARMING_HEADLESS");
    var keys := HeadlessEnvKeys;
    assert keys[0] == "CHROME_HEADLESS" && keys[1..] == ["SWARMING_HEADLESS"];
    var rest := keys[1..];
    assert rest[0] == "SWARMING_HEADLESS" && rest[1..] == [];
    assert AnyBoolEnvVar(env, rest) == swarming by {
      assert AnyBoolEnvVar(env, rest[1..]) == Ok(false);
    }
    assert AnyBoolEnvVar(env, keys) == if chrome.value then Ok(true) else AnyBoolEnvVar(env, rest);
  }

  /** A true CHROME_HEADLESS decides the answer before SWARMING_HEADLESS is read. */
  lemma IsHeadlessShortCircuits(env: map<string, string>, swarming: string)
    requires GetBoolEnvVar(env, "CHROME_HEADLESS") == Ok(true)
    ensures IsHeadless(env) == Ok(true)
    ensures IsHeadless(env["SWARMING_HEADLESS" := swarming]) == Ok(true)
  {
    var env' := env["SWARMING_HEADLESS" := swarming];
    assert ("CHROME_HEADLESS" in env') == ("CHROME_HEADLESS" in env);
    if "CHROME_HEADLESS" in env {
      assert env'["CHROME_HEADLESS"] == env["CHROME_HEADLESS"];
    }
  }
}

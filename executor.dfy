/** The decision logic of `execute_pipeline` and `execute_command` in
    `src/engine/executor.rs`. The operating system's answers are inputs:
    whether each redirection file opens, whether each program spawns and
    with which process id, what `waitpid` reports, and the text the last
    stage wrote on its standard error. What remains is a state machine over
    the job table, the environment store and the macro store. */
module Executor {
  import opened Wrappers
  import opened Strings
  import opened Parser
  import opened Jobs
  import opened Env
  import opened Macros
  import opened Builtins
  import Protocol

  // ---------------------------------------------------------------------
  // The operating system's answers

  /** What `waitpid(pgid, WUNTRACED)` reports. */
  datatype WaitStatus =
    | Exited(code: nat)
    | Signaled(signal: string)
    | Stopped
    | Continued
    | WaitFailed(error: string)
    /** One of the other variants, which the loop skips like `Continued`. */
    | OtherStatus

  /** What `child.wait()` gives when there is no process group to wait on:
      the exit status with its `Display` text, or the I/O error. */
  datatype ChildExit = ChildExit(success: bool, shown: string) | ChildWaitFailed(error: string)

  /** The answers for one stage: the failure of opening the file of each of
      its redirections, by position (a missing entry opens), the spawn
      failure, the child's pid, and the failure of handing its stdout on. */
  datatype StageOs = StageOs(
    openErrors: seq<Option<string>>,
    spawnError: Option<string>,
    pid: Option<int>,
    convertError: Option<string>)

  /** The answers for one command line. Stages beyond `stages` succeed
      without a pid. `isDir`, `zoxideDir`, `cwdError` and `chdirError` answer
      the built-ins that change directory, `saved` the writing of the macro
      file, `now` is the clock in seconds, and `assistant` is the command
      the `ai` built-in stores as the last suggestion, if any. */
  datatype Os = Os(
    installed: set<string>,
    stages: seq<StageOs>,
    waits: seq<WaitStatus>,
    childExit: ChildExit,
    stderrText: string,
    home: Option<string>,
    isDir: bool,
    zoxideDir: Option<string>,
    cwdError: Option<string>,
    chdirError: Option<string>,
    saved: bool,
    now: nat,
    assistant: Option<string>)

  function StageAt(os: Os, i: nat): StageOs {
    if i < |os.stages| then os.stages[i] else StageOs([], None, None, None)
  }

  // ---------------------------------------------------------------------
  // Waiting for a foreground pipeline

  /** A status that ends the wait loop. */
  predicate Settled(w: WaitStatus) {
    !(w.Continued? || w.OtherStatus?)
  }

  /** The process eventually reports something that ends the wait. */
  predicate Settles(waits: seq<WaitStatus>) {
    exists k :: 0 <= k < |waits| && Settled(waits[k])
  }

  /** The position of the status that ends the wait. */
  function FirstSettled(waits: seq<WaitStatus>): (k: nat)
    requires Settles(waits)
    ensures k < |waits| && Settled(waits[k])
    ensures forall j :: 0 <= j < k ==> !Settled(waits[j])
  {
    if Settled(waits[0]) then 0
    else
      assert Settles(waits[1..]) by {
        var m :| 0 <= m < |waits| && Settled(waits[m]);
        assert waits[1..][m - 1] == waits[m];
      }
      var k := FirstSettled(waits[1..]);
      assert forall j :: 1 <= j < k + 1 ==> waits[j] == waits[1..][j - 1];
      k + 1
  }

  /** The result of a foreground wait: a stop or a zero exit succeeds; a
      non-zero exit, a signal or a failed wait is an error naming it. */
  function WaitOutcome(w: WaitStatus): (r: Result<()>)
    requires Settled(w)
    ensures r.Ok? <==> w.Stopped? || w == Exited(0)
    ensures w.Exited? && w.code != 0 ==> r == Err("Command exited with code " + NatToString(w.code))
    ensures w.Signaled? ==> r == Err("Command killed by signal " + w.signal)
    ensures w.WaitFailed? ==> r == Err("Wait error: " + w.error)
  {
    match w
    case Stopped => Ok(())
    case Exited(code) => if code == 0 then Ok(()) else Err("Command exited with code " + NatToString(code))
    case Signaled(sig) => Err("Command killed by signal " + sig)
    case WaitFailed(e) => Err("Wait error: " + e)
  }

  /** The `waitpid` loop: `Continued` and the other statuses keep waiting;
      the first status that settles decides, and `stopped` says whether the
      group was suspended. */
  method WaitForeground(waits: seq<WaitStatus>) returns (r: Result<()>, stopped: bool)
    requires Settles(waits)
    ensures stopped <==> waits[FirstSettled(waits)].Stopped?
    ensures r == WaitOutcome(waits[FirstSettled(waits)])
  {
    var last := FirstSettled(waits);
    var i := 0;
    while true
      invariant 0 <= i <= last
      decreases last - i
    {
      match waits[i] {
        case Stopped =>
          return Ok(()), true;
        case Exited(code) =>
          if code == 0 {
            return Ok(()), false;
          }
          return Err("Command exited with code " + NatToString(code)), false;
        case Signaled(sig) =>
          return Err("Command killed by signal " + sig), false;
        case WaitFailed(e) =>
          return Err("Wait error: " + e), false;
        case Continued =>
        case OtherStatus =>
      }
      i := i + 1;
    }
  }

  // ---------------------------------------------------------------------
  // Redirections

  /** Where a stream of a spawned stage is connected: the terminal, a new
      pipe, the pipe of an earlier stage's stdout, or a file. */
  datatype Stream = Inherit | Piped | FromStage(stage: nat) | ToFile(path: string, append: bool)

  /** One redirection applied to the (stdout, stderr) pair; `2>&1` is left
      as it is. */
  function Redirect1(red: Redirection, s: (Stream, Stream)): (Stream, Stream) {
    match red
    case Stdout(path) => (ToFile(path, false), s.1)
    case Stderr(path) => (s.0, ToFile(path, false))
    case Append(path) => (ToFile(path, true), s.1)
    case StderrToStdout => s
  }

  /** The redirections applied in order to the pair `s`. */
  function Redirected(reds: seq<Redirection>, s: (Stream, Stream)): (Stream, Stream) {
    if reds == [] then s else Redirect1(reds[|reds| - 1], Redirected(reds[..|reds| - 1], s))
  }

  /** A redirection of standard output, `>` or `>>`. */
  predicate OutputKind(red: Redirection) {
    red.Stdout? || red.Append?
  }

  function OutputFile(red: Redirection): Stream
    requires OutputKind(red)
  {
    ToFile(red.path, red.Append?)
  }

  /** Without any `>` or `>>`, standard output keeps its default. */
  lemma {:induction false} StdoutDefault(reds: seq<Redirection>, s: (Stream, Stream))
    requires forall k :: 0 <= k < |reds| ==> !OutputKind(reds[k])
    ensures Redirected(reds, s).0 == s.0
  {
    if reds != [] {
      var init := reds[..|reds| - 1];
      assert forall k :: 0 <= k < |init| ==> init[k] == reds[k];
      StdoutDefault(init, s);
    }
  }

  /** The last `>` or `>>` decides standard output. */
  lemma {:induction false} StdoutLastWins(reds: seq<Redirection>, s: (Stream, Stream), k: nat)
    requires k < |reds| && OutputKind(reds[k])
    requires forall j :: k < j < |reds| ==> !OutputKind(reds[j])
    ensures Redirected(reds, s).0 == OutputFile(reds[k])
  {
    if k < |reds| - 1 {
      var init := reds[..|reds| - 1];
      assert forall j :: 0 <= j < |init| ==> init[j] == reds[j];
      StdoutLastWins(init, s, k);
    }
  }

  /** Without any `2>`, standard error keeps its default. */
  lemma {:induction false} StderrDefault(reds: seq<Redirection>, s: (Stream, Stream))
    requires forall k :: 0 <= k < |reds| ==> !reds[k].Stderr?
    ensures Redirected(reds, s).1 == s.1
  {
    if reds != [] {
      var init := reds[..|reds| - 1];
      assert forall k :: 0 <= k < |init| ==> init[k] == reds[k];
      StderrDefault(init, s);
    }
  }

  /** The last `2>` decides standard error. */
  lemma {:induction false} StderrLastWins(reds: seq<Redirection>, s: (Stream, Stream), k: nat)
    requires k < |reds| && reds[k].Stderr?
    requires forall j :: k < j < |reds| ==> !reds[j].Stderr?
    ensures Redirected(reds, s).1 == ToFile(reds[k].path, false)
  {
    if k < |reds| - 1 {
      var init := reds[..|reds| - 1];
      assert forall j :: 0 <= j < |init| ==> init[j] == reds[j];
      StderrLastWins(init, s, k);
    }
  }

  /** The answer to opening the file of the `k`-th redirection. */
  function OpenResult(openErrors: seq<Option<string>>, k: nat): Option<string> {
    if k < |openErrors| then openErrors[k] else None
  }

  /** The `k`-th redirection names a file that cannot be opened. */
  predicate OpenFails(reds: seq<Redirection>, openErrors: seq<Option<string>>, k: nat)
    requires k < |reds|
  {
    !reds[k].StderrToStdout? && OpenResult(openErrors, k).Some?
  }

  /** Every file the redirections name can be opened. */
  predicate AllOpen(reds: seq<Redirection>, openErrors: seq<Option<string>>) {
    forall k :: 0 <= k < |reds| ==> !OpenFails(reds, openErrors, k)
  }

  /** The error for a file that cannot be opened. */
  function OpenMessage(red: Redirection, e: string): string
    requires !red.StderrToStdout?
  {
    if red.Stdout? then "Failed to create output file: " + e
    else if red.Stderr? then "Failed to create error file: " + e
    else "Failed to open append file: " + e
  }

  /** The redirection loop: each file is opened in turn, the first one that
      cannot be opened ends the stage with its error, and otherwise the
      streams are those of `Redirected`. */
  method ApplyRedirections(reds: seq<Redirection>, openErrors: seq<Option<string>>, s: (Stream, Stream))
    returns (r: Result<(Stream, Stream)>)
    ensures r.Ok? <==> AllOpen(reds, openErrors)
    ensures r.Ok? ==> r.value == Redirected(reds, s)
    ensures r.Err? ==> exists k :: (0 <= k < |reds| && OpenFails(reds, openErrors, k)
      && (forall j :: 0 <= j < k ==> !OpenFails(reds, openErrors, j))
      && r.msg == OpenMessage(reds[k], OpenResult(openErrors, k).value))
  {
    var cur := s;
    var i := 0;
    while i < |reds|
      invariant 0 <= i <= |reds|
      invariant cur == Redirected(reds[..i], s)
      invariant forall j :: 0 <= j < i ==> !OpenFails(reds, openErrors, j)
    {
      var e := OpenResult(openErrors, i);
      match reds[i] {
        case Stdout(path) =>
          if e.Some? {
            assert OpenFails(reds, openErrors, i);
            return Err("Failed to create output file: " + e.value);
          }
          cur := (ToFile(path, false), cur.1);
        case Stderr(path) =>
          if e.Some? {
            assert OpenFails(reds, openErrors, i);
            return Err("Failed to create error file: " + e.value);
          }
          cur := (cur.0, ToFile(path, false));
        case Append(path) =>
          if e.Some? {
            assert OpenFails(reds, openErrors, i);
            return Err("Failed to open append file: " + e.value);
          }
          cur := (ToFile(path, true), cur.1);
        case StderrToStdout =>
      }
      assert reds[..i + 1][..i] == reds[..i];
      i := i + 1;
    }
    assert reds[..i] == reds;
    return Ok(cur);
  }

  // ---------------------------------------------------------------------
  // The stage plan

  /** The process group a stage is put in: a new one, the pipeline's, or
      the shell's own when the pipeline has none. */
  datatype Group = NewGroup | JoinGroup(pgid: int) | ShellGroup

  /** A spawned stage: its index, the program and arguments after
      `resolve_command`, its group and its three streams. */
  datatype Spawn = Spawn(
    stage: nat,
    program: string,
    args: seq<string>,
    group: Group,
    stdin: Stream,
    stdout: Stream,
    stderr: Stream)

  /** The streams before the redirections: stdout is piped except on the
      last stage, and only the last stage pipes its stderr, to capture it. */
  function Defaults(isLast: bool): (Stream, Stream) {
    if isLast then (Inherit, Piped) else (Piped, Inherit)
  }

  /** The pipeline's process group: the pid of the first stage, which only
      exists when that stage is not empty. */
  function FirstPgid(p: Pipeline, os: Os): Option<int> {
    if |p.commands| >= 1 && p.commands[0].args != [] then StageAt(os, 0).pid else None
  }

  /** The stage `i` as `execute_pipeline` sets it up, given where its stdin
      comes from. */
  function Planned(p: Pipeline, os: Os, i: nat, stdin: Stream): (r: Spawn)
    requires i < |p.commands| && p.commands[i].args != []
    ensures r.stage == i && r.stdin == stdin
    ensures i == 0 ==> r.group == NewGroup
    ensures i > 0 && FirstPgid(p, os).Some? ==> r.group == JoinGroup(FirstPgid(p, os).value)
    ensures i > 0 && FirstPgid(p, os).None? ==> r.group == ShellGroup
    ensures r.args == p.commands[i].args[1..]
    ensures r.program == p.commands[i].args[0] || r.program in os.installed
  {
    var c := p.commands[i];
    var prog := ResolveCommand(c.args[0], c.args[1..], os.installed);
    var group := if i == 0 then NewGroup
      else if FirstPgid(p, os).Some? then JoinGroup(FirstPgid(p, os).value)
      else ShellGroup;
    var streams := Redirected(c.redirections, Defaults(i == |p.commands| - 1));
    Spawn(i, prog.0, prog.1, group, stdin, streams.0, streams.1)
  }

  /** The streams of a planned stage: without redirections of its own, its
      stdout is piped exactly when it is not the last stage and its stderr
      exactly when it is; a redirection of a stream makes the last such one
      decide. */
  lemma {:induction false} PlannedStreams(p: Pipeline, os: Os, i: nat, stdin: Stream)
    requires i < |p.commands| && p.commands[i].args != []
    ensures var r := Planned(p, os, i, stdin);
      var reds := p.commands[i].redirections;
      && ((forall k :: 0 <= k < |reds| ==> !OutputKind(reds[k])) ==>
            (r.stdout == Piped <==> i < |p.commands| - 1))
      && ((forall k :: 0 <= k < |reds| ==> !reds[k].Stderr?) ==>
            (r.stderr == Piped <==> i == |p.commands| - 1))
      && (forall k :: (0 <= k < |reds| && OutputKind(reds[k])
            && (forall j :: k < j < |reds| ==> !OutputKind(reds[j]))) ==> r.stdout == OutputFile(reds[k]))
      && (forall k :: (0 <= k < |reds| && reds[k].Stderr?
            && (forall j :: k < j < |reds| ==> !reds[j].Stderr?)) ==> r.stderr == ToFile(reds[k].path, false))
  {
    var streams := Redirected(p.commands[i].redirections, Defaults(i == |p.commands| - 1));
    assert Planned(p, os, i, stdin).stdout == streams.0 && Planned(p, os, i, stdin).stderr == streams.1;
    RedirectedStreams(p.commands[i].redirections, i == |p.commands| - 1);
  }

  /** The same, for the redirections applied to a stage's defaults. */
  lemma RedirectedStreams(reds: seq<Redirection>, isLast: bool)
    ensures var r := Redirected(reds, Defaults(isLast));
      && ((forall k :: 0 <= k < |reds| ==> !OutputKind(reds[k])) ==> (r.0 == Piped <==> !isLast))
      && ((forall k :: 0 <= k < |reds| ==> !reds[k].Stderr?) ==> (r.1 == Piped <==> isLast))
      && (forall k :: (0 <= k < |reds| && OutputKind(reds[k])
            && (forall j :: k < j < |reds| ==> !OutputKind(reds[j]))) ==> r.0 == OutputFile(reds[k]))
      && (forall k :: (0 <= k < |reds| && reds[k].Stderr?
            && (forall j :: k < j < |reds| ==> !reds[j].Stderr?)) ==> r.1 == ToFile(reds[k].path, false))
  {
    var d := Defaults(isLast);
    if forall k :: 0 <= k < |reds| ==> !OutputKind(reds[k]) {
      StdoutDefault(reds, d);
    }
    if forall k :: 0 <= k < |reds| ==> !reds[k].Stderr? {
      StderrDefault(reds, d);
    }
    forall k | 0 <= k < |reds| && OutputKind(reds[k]) && (forall j :: k < j < |reds| ==> !OutputKind(reds[j]))
      ensures Redirected(reds, d).0 == OutputFile(reds[k])
    {
      StdoutLastWins(reds, d, k);
    }
    forall k | 0 <= k < |reds| && reds[k].Stderr? && (forall j :: k < j < |reds| ==> !reds[j].Stderr?)
      ensures Redirected(reds, d).1 == ToFile(reds[k].path, false)
    {
      StderrLastWins(reds, d, k);
    }
  }

  /** The stdin of the `k`-th spawned stage: the pipe of the stage spawned
      before it, when that one piped its stdout. Empty stages in between
      spawn nothing and so pass the pipe on. */
  function StdinOf(spawned: seq<Spawn>, k: nat): Stream
    requires k < |spawned|
  {
    if k > 0 && spawned[k - 1].stdout == Piped then FromStage(spawned[k - 1].stage) else Inherit
  }

  /** The pipe left open for the next stage, if any. */
  function PendingPipe(spawned: seq<Spawn>): Option<nat> {
    if spawned != [] && spawned[|spawned| - 1].stdout == Piped then Some(spawned[|spawned| - 1].stage) else None
  }

  /** The `k`-th spawned stage is set up as `Planned` says. */
  ghost predicate WiredAt(p: Pipeline, os: Os, spawned: seq<Spawn>, k: nat)
    requires k < |spawned|
  {
    spawned[k].stage < |p.commands| && p.commands[spawned[k].stage].args != []
    && spawned[k] == Planned(p, os, spawned[k].stage, StdinOf(spawned, k))
  }

  /** Every spawned stage is set up as `Planned` says. */
  ghost predicate Wired(p: Pipeline, os: Os, spawned: seq<Spawn>) {
    forall k :: 0 <= k < |spawned| ==> WiredAt(p, os, spawned, k)
  }

  /** A stage spawned from the pipe left pending keeps the stages wired. */
  lemma {:induction false} WiredAppend(p: Pipeline, os: Os, spawned: seq<Spawn>, s: Spawn)
    requires Wired(p, os, spawned)
    requires s.stage < |p.commands| && p.commands[s.stage].args != []
    requires var stdin := if PendingPipe(spawned).Some? then FromStage(PendingPipe(spawned).value) else Inherit;
      s == Planned(p, os, s.stage, stdin)
    ensures Wired(p, os, spawned + [s])
  {
    var all := spawned + [s];
    forall k | 0 <= k < |all|
      ensures WiredAt(p, os, all, k)
    {
      if k < |spawned| {
        assert WiredAt(p, os, spawned, k);
        assert all[k] == spawned[k];
        assert StdinOf(all, k) == StdinOf(spawned, k) by {
          if k > 0 { assert all[k - 1] == spawned[k - 1]; }
        }
      }
    }
  }

  /** The stage numbers of the spawned stages. */
  function Stages(spawned: seq<Spawn>): (r: seq<nat>)
    ensures |r| == |spawned|
    ensures forall k :: 0 <= k < |spawned| ==> r[k] == spawned[k].stage
  {
    if spawned == [] then [] else [spawned[0].stage] + Stages(spawned[1..])
  }

  lemma {:induction false} StagesAppend(spawned: seq<Spawn>, s: Spawn)
    ensures Stages(spawned + [s]) == Stages(spawned) + [s.stage]
  {
    assert |Stages(spawned + [s])| == |Stages(spawned) + [s.stage]|;
  }

  /** The indices below `i` of the stages that have words, in order. */
  function NonEmptyStages(cs: seq<Command>, i: nat): (r: seq<nat>)
    requires i <= |cs|
  {
    if i == 0 then []
    else NonEmptyStages(cs, i - 1) + (if cs[i - 1].args != [] then [i - 1] else [])
  }

  /** The stages listed are below `i`, in increasing order, each has words,
      and every stage below `i` with words is listed. */
  lemma {:induction false} NonEmptyStagesExact(cs: seq<Command>, i: nat)
    requires i <= |cs|
    ensures var r := NonEmptyStages(cs, i);
      && (forall k :: 0 <= k < |r| ==> r[k] < i && cs[r[k]].args != [])
      && (forall k, m :: 0 <= k < m < |r| ==> r[k] < r[m])
      && (forall j :: 0 <= j < i && cs[j].args != [] ==> j in r)
  {
    if i > 0 {
      NonEmptyStagesExact(cs, i - 1);
    }
  }

  /** The spawned stages are exactly the non-empty ones below `i`. */
  ghost predicate SpawnedBelow(cs: seq<Command>, spawned: seq<Spawn>, i: nat)
    requires i <= |cs|
  {
    Stages(spawned) == NonEmptyStages(cs, i)
  }

  /** Spawning the non-empty stage `i` extends the spawned stages by `i`. */
  lemma {:induction false} SpawnedNext(cs: seq<Command>, i: nat, spawned: seq<Spawn>, s: Spawn)
    requires i < |cs| && cs[i].args != [] && s.stage == i
    requires SpawnedBelow(cs, spawned, i)
    ensures SpawnedBelow(cs, spawned + [s], i + 1)
  {
    StagesAppend(spawned, s);
  }

  /** Skipping the empty stage `i` spawns nothing. */
  lemma {:induction false} SkippedNext(cs: seq<Command>, i: nat, spawned: seq<Spawn>)
    requires i < |cs| && cs[i].args == []
    requires SpawnedBelow(cs, spawned, i)
    ensures SpawnedBelow(cs, spawned, i + 1)
  {
    assert NonEmptyStages(cs, i + 1) == NonEmptyStages(cs, i) + [];
  }

  /** When no stage is empty, the stages spawned below `i` are `0 … i-1`. */
  lemma {:induction false} AllStagesSpawned(cs: seq<Command>, i: nat)
    requires i <= |cs|
    requires forall k :: 0 <= k < |cs| ==> cs[k].args != []
    ensures |NonEmptyStages(cs, i)| == i
    ensures forall k :: 0 <= k < i ==> NonEmptyStages(cs, i)[k] == k
  {
    if i > 0 {
      AllStagesSpawned(cs, i - 1);
    }
  }

  /** In a pipeline without empty stages and without redirections, once
      every stage is spawned, each stage reads the pipe of the one before
      and the first reads the terminal. */
  lemma {:induction false} ChainedStages(p: Pipeline, os: Os, spawned: seq<Spawn>)
    requires Wired(p, os, spawned)
    requires Stages(spawned) == NonEmptyStages(p.commands, |p.commands|)
    requires forall k :: 0 <= k < |p.commands| ==> p.commands[k].args != [] && p.commands[k].redirections == []
    ensures |spawned| == |p.commands|
    ensures spawned != [] ==> spawned[0].stdin == Inherit
    ensures forall k :: 0 < k < |spawned| ==> spawned[k].stdin == FromStage(k - 1)
  {
    AllStagesSpawned(p.commands, |p.commands|);
    if spawned != [] {
      assert WiredAt(p, os, spawned, 0);
    }
    forall k | 0 < k < |spawned| ensures spawned[k].stdin == FromStage(k - 1) {
      assert WiredAt(p, os, spawned, k) && WiredAt(p, os, spawned, k - 1);
      assert spawned[k - 1].stage == k - 1;
      PlannedStreams(p, os, k - 1, StdinOf(spawned, k - 1));
      assert spawned[k - 1].stdout == Piped;
    }
  }

  /** The tip `resolve_command` prints for a stage with words. */
  function StageTip(c: Command, installed: set<string>): seq<string>
    requires c.args != []
  {
    ResolveTip(c.args[0], c.args[1..], installed)
  }

  /** The tips printed while the loop examines the stages below `n`: one
      resolution per stage with words, in order. */
  function Tips(cs: seq<Command>, installed: set<string>, n: nat): (r: seq<string>)
    requires n <= |cs|
    ensures |r| <= n
  {
    if n == 0 then []
    else
      var last := if cs[n - 1].args != [] then StageTip(cs[n - 1], installed) else [];
      Tips(cs, installed, n - 1) + last
  }

  /** Examining one more stage adds that stage's tip, if it has words. */
  lemma {:induction false} TipsNext(cs: seq<Command>, installed: set<string>, i: nat)
    requires i < |cs|
    ensures cs[i].args == [] ==> Tips(cs, installed, i + 1) == Tips(cs, installed, i)
    ensures cs[i].args != [] ==> Tips(cs, installed, i + 1) == Tips(cs, installed, i) + StageTip(cs[i], installed)
  {
  }

  /** Every printed tip is the tip of a stage with words that the loop
      examined. */
  lemma {:induction false} TipsFromStages(cs: seq<Command>, installed: set<string>, n: nat, k: nat)
    requires n <= |cs| && k < |Tips(cs, installed, n)|
    ensures exists j :: 0 <= j < n && cs[j].args != [] && Tips(cs, installed, n)[k] in StageTip(cs[j], installed)
  {
    var front := Tips(cs, installed, n - 1);
    var last := if cs[n - 1].args != [] then StageTip(cs[n - 1], installed) else [];
    assert Tips(cs, installed, n) == front + last;
    if k < |front| {
      TipsFromStages(cs, installed, n - 1, k);
      var j :| 0 <= j < n - 1 && cs[j].args != [] && front[k] in StageTip(cs[j], installed);
      assert Tips(cs, installed, n)[k] == front[k];
    } else {
      assert Tips(cs, installed, n)[k] == last[k - |front|];
      assert cs[n - 1].args != [] && Tips(cs, installed, n)[k] in StageTip(cs[n - 1], installed);
    }
  }

  /** The stderr text `execute_pipeline` captured: the last stage's, when its
      stderr was piped to the shell, and nothing otherwise. */
  function Captured(last: Spawn, os: Os): string {
    if last.stderr == Piped then os.stderrText else ""
  }

  // ---------------------------------------------------------------------
  // Spawning one stage

  /** Set up and spawn stage `i`: resolve the program, choose the group,
      connect stdin, apply the default streams and then the redirections. */
  method SpawnStage(p: Pipeline, os: Os, i: nat, pgid: Option<int>, stdin: Stream) returns (r: Result<Spawn>)
    requires i < |p.commands| && p.commands[i].args != []
    requires i > 0 ==> pgid == FirstPgid(p, os)
    ensures var c := p.commands[i];
      r.Ok? <==> (AllOpen(c.redirections, StageAt(os, i).openErrors)
        && StageAt(os, i).spawnError.None?)
    ensures r.Ok? ==> r.value == Planned(p, os, i, stdin)
    ensures var c := p.commands[i];
      AllOpen(c.redirections, StageAt(os, i).openErrors)
      && StageAt(os, i).spawnError.Some? ==>
        r == Err("Failed to spawn " + c.args[0] + ": " + StageAt(os, i).spawnError.value)
  {
    var c := p.commands[i];
    var prog := ResolveCommand(c.args[0], c.args[1..], os.installed);
    var group := NewGroup;
    if i > 0 {
      group := if pgid.Some? then JoinGroup(pgid.value) else ShellGroup;
    }
    var defaults := (Inherit, Inherit);
    if i != |p.commands| - 1 {
      defaults := (Piped, defaults.1);
    }
    if i == |p.commands| - 1 {
      defaults := (defaults.0, Piped);
    }
    var streams := ApplyRedirections(c.redirections, StageAt(os, i).openErrors, defaults);
    if streams.Err? {
      return Err(streams.msg);
    }
    var e := StageAt(os, i).spawnError;
    if e.Some? {
      return Err("Failed to spawn " + c.args[0] + ": " + e.value);
    }
    return Ok(Spawn(i, prog.0, prog.1, group, stdin, streams.value.0, streams.value.1));
  }

  // ---------------------------------------------------------------------
  // The last stage: waiting, the job table, the failure context

  /** A process id in decimal, as `{}` prints an `i32`. */
  function IntText(i: int): string {
    if i < 0 then "-" + NatToString(-i) else NatToString(i)
  }

  /** The job a pipeline that ran to its end adds, with the id `id`: a
      background pipeline with a group is `Running`, a foreground one whose
      group stopped is `Suspended`, and any other adds none. */
  function AddedJobs(p: Pipeline, pgid: Option<int>, os: Os, id: nat): (r: seq<Job>)
    requires Settles(os.waits)
    ensures |r| <= 1
    ensures r != [] <==> pgid.Some? && (p.background || os.waits[FirstSettled(os.waits)].Stopped?)
    ensures r != [] ==>
      && r[0].id == id && r[0].pgid == pgid.value && r[0].cmd == FullCommandText(p)
      && r[0].status == (if p.background then Running else Suspended)
  {
    if pgid.None? then []
    else if p.background then [Job(id, pgid.value, FullCommandText(p), Running, os.now)]
    else if os.waits[FirstSettled(os.waits)].Stopped? then [Job(id, pgid.value, FullCommandText(p), Suspended, os.now)]
    else []
  }

  /** The line announcing that job: `[id] pgid` for a background job, and a
      blank line then `[id] command` and `Stopped` for a stopped one. */
  function JobNotice(p: Pipeline, pgid: Option<int>, os: Os, id: nat): (r: seq<string>)
    requires Settles(os.waits)
    ensures |r| == |AddedJobs(p, pgid, os, id)|
    ensures r != [] ==> NoticeHead(p.background, id) <= r[0]
  {
    if pgid.None? then []
    else if p.background then [NoticeHead(true, id) + IntText(pgid.value)]
    else if os.waits[FirstSettled(os.waits)].Stopped? then [NoticeHead(false, id) + FullCommandText(p) + " \t Stopped"]
    else []
  }

  /** The job number in brackets that opens a job notice, after a blank
      line for a stopped job. */
  function NoticeHead(background: bool, id: nat): string {
    (if background then "" else "\n") + "[" + NatToString(id) + "] "
  }

  /** What happens once the last stage is spawned. A background pipeline
      with a process group becomes a `Running` job. A foreground one is
      waited on through its group, and a stop makes it a `Suspended` job;
      without a group the child itself is waited on, and a failure of that
      wait returns at once. Otherwise (`recorded`) a failure stores the
      command and the captured stderr as the last error, and a success
      clears the last error and the last suggestion. */
  method Finish(p: Pipeline, last: Spawn, pgid: Option<int>, jm: JobManager, mm: MacroManager, os: Os)
    returns (r: Result<()>, recorded: bool, printed: seq<string>)
    requires jm.Valid() && Settles(os.waits)
    modifies jm, mm`lastError, mm`lastSuggestion
    ensures jm.Valid()
    ensures jm.jobs == old(jm.jobs) + AddedJobs(p, pgid, os, old(jm.nextId))
    ensures printed == JobNotice(p, pgid, os, old(jm.nextId))
    ensures p.background ==> r == Ok(()) && recorded
    ensures !p.background && pgid.Some? ==> recorded && r == WaitOutcome(os.waits[FirstSettled(os.waits)])
    ensures !p.background && pgid.None? ==>
      match os.childExit
        case ChildWaitFailed(e) => r == Err(e) && !recorded
        case ChildExit(success, shown) => recorded && r == (if success then Ok(()) else Err("Exited with status " + shown))
    ensures jm.nextId == old(jm.nextId) + (|jm.jobs| - |old(jm.jobs)|)
    ensures recorded && r.Err? ==>
      mm.lastError == Some((FullCommandText(p), Captured(last, os))) && mm.lastSuggestion == old(mm.lastSuggestion)
    ensures recorded && r.Ok? ==> mm.lastError == None && mm.lastSuggestion == None
    ensures !recorded ==> mm.lastError == old(mm.lastError) && mm.lastSuggestion == old(mm.lastSuggestion)
  {
    var full := FullCommandText(p);
    printed := [];
    if p.background {
      if pgid.Some? {
        var id := jm.AddJob(pgid.value, full, Running, os.now);
        printed := [NoticeHead(true, id) + IntText(pgid.value)];
      }
      r := Ok(());
    } else if pgid.Some? {
      var stopped;
      r, stopped := WaitForeground(os.waits);
      if stopped {
        var id := jm.AddJob(pgid.value, full, Suspended, os.now);
        printed := [NoticeHead(false, id) + full + " \t Stopped"];
      }
    } else {
      match os.childExit
      case ChildWaitFailed(e) =>
        return Err(e), false, [];
      case ChildExit(success, shown) =>
        r := if success then Ok(()) else Err("Exited with status " + shown);
    }
    recorded := true;
    var stderr := if last.stderr == Piped then os.stderrText else "";
    if r.Err? {
      mm.lastError := Some((full, stderr));
    } else {
      mm.lastError := None;
      mm.lastSuggestion := None;
    }
  }

  // ---------------------------------------------------------------------
  // The stage loop

  /** The effect `cmatrix` or `spotify` switches on before it is spawned. */
  function Triggered(p: Pipeline): seq<Protocol.RioAction> {
    if |p.commands| == 1 && p.commands[0].args != [] && TriggeredEffect(p.commands[0].args[0], 1).Some? then
      [Protocol.BackgroundEffect(TriggeredEffect(p.commands[0].args[0], 1))]
    else []
  }

  /** One non-empty stage `i` of the loop: it is spawned with the pgid of
      stage 0 and the pipe left by the stage spawned before it; the pgid is
      taken from stage 0's pid; unless it is the last stage, its piped
      stdout is kept for the next one. `done` counts the stages examined. */
  method SpawnNext(p: Pipeline, os: Os, i: nat, spawned: seq<Spawn>, prev: Option<nat>, pgid: Option<int>)
    returns (r: Result<()>, spawned': seq<Spawn>, prev': Option<nat>, pgid': Option<int>, done: nat)
    requires i < |p.commands| && p.commands[i].args != []
    requires Wired(p, os, spawned) && SpawnedBelow(p.commands, spawned, i)
    requires prev == PendingPipe(spawned)
    requires pgid == if i == 0 then None else FirstPgid(p, os)
    ensures Wired(p, os, spawned')
    ensures (done == i || done == i + 1) && SpawnedBelow(p.commands, spawned', done)
    ensures r.Ok? ==>
      done == i + 1 && spawned' != [] && spawned'[|spawned'| - 1].stage == i
      && pgid' == FirstPgid(p, os)
    ensures r.Ok? && i < |p.commands| - 1 ==> prev' == PendingPipe(spawned')
  {
    var stdin := if prev.Some? then FromStage(prev.value) else Inherit;
    var st := SpawnStage(p, os, i, pgid, stdin);
    if st.Err? {
      return Err(st.msg), spawned, prev, pgid, i;
    }
    var s := st.value;
    assert Wired(p, os, spawned + [s]) && SpawnedBelow(p.commands, spawned + [s], i + 1) by {
      SpawnedNext(p.commands, i, spawned, s);
      WiredAppend(p, os, spawned, s);
    }
    spawned' := spawned + [s];
    assert spawned'[|spawned'| - 1] == s;
    done := i + 1;
    pgid' := if i == 0 then StageAt(os, 0).pid else pgid;
    r, prev' := Ok(()), None;
    if i < |p.commands| - 1 && s.stdout == Piped {
      var e := StageAt(os, i).convertError;
      if e.Some? {
        r := Err("Failed to convert stdout: " + e.value);
      } else {
        prev' := Some(i);
      }
    }
  }

  /** The `for` loop of `execute_pipeline` once no built-in applies, up to
      the spawning of the last stage. Empty stages are skipped; every other
      stage is spawned as `Planned` says, with the pgid of stage 0 and the
      pipe of the stage spawned before it; a failure to open, to spawn or to
      hand on a pipe ends the loop with that error. `reachedLast` says that
      the last stage has words and was spawned; the wait and the
      bookkeeping after it are `Finish`. `tried` counts the stages the loop
      reached, the failing one included: each of those with words has had
      its program resolved, and so has printed its install tip. */
  method SpawnStages(p: Pipeline, os: Os)
    returns (r: Result<()>, spawned: seq<Spawn>, pgid: Option<int>, reachedLast: bool, examined: nat,
      tried: nat)
    ensures tried <= |p.commands|
    ensures tried == examined || (r.Err? && tried == examined + 1)
    ensures reachedLast ==> tried == |p.commands|
    ensures Wired(p, os, spawned)
    ensures examined <= |p.commands| && SpawnedBelow(p.commands, spawned, examined)
    ensures r.Ok? ==> examined == |p.commands|
    ensures reachedLast ==>
      r.Ok? && spawned != [] && spawned[|spawned| - 1].stage == |p.commands| - 1
      && pgid == FirstPgid(p, os)
    ensures r.Ok? && !reachedLast ==> |p.commands| == 0 || p.commands[|p.commands| - 1].args == []
  {
    var n := |p.commands|;
    var i := 0;
    var prev: Option<nat> := None;
    r, spawned, pgid, reachedLast, examined := Ok(()), [], None, false, 0;
    tried := 0;
    while i < n
      invariant 0 <= i <= n && examined == i && tried == i
      invariant Wired(p, os, spawned)
      invariant SpawnedBelow(p.commands, spawned, i)
      invariant prev == PendingPipe(spawned)
      invariant pgid == if i == 0 then None else FirstPgid(p, os)
      invariant i == n ==> n == 0 || p.commands[n - 1].args == []
    {
      if p.commands[i].args == [] {
        SkippedNext(p.commands, i, spawned);
        i := i + 1;
        examined, tried := i, i;
        continue;
      }
      r, spawned, prev, pgid, examined := SpawnNext(p, os, i, spawned, prev, pgid);
      tried := i + 1;
      if r.Err? {
        return;
      }
      if i == n - 1 {
        reachedLast := true;
        return;
      }
      i := i + 1;
    }
  }

  /** `execute_pipeline` once no built-in applies: the stages are spawned,
      and when the last one was, `Finish` waits and records. `recorded` says
      that the outcome was recorded in the failure context. `printed` holds
      the install tips of the stages the loop reached, in order, then the
      notice of the job `Finish` added. */
  method RunStages(p: Pipeline, jm: JobManager, mm: MacroManager, os: Os)
    returns (r: Result<()>, spawned: seq<Spawn>, sent: seq<Protocol.RioAction>, recorded: bool, printed: seq<string>)
    requires jm.Valid() && Settles(os.waits)
    modifies jm, mm`lastError, mm`lastSuggestion
    ensures jm.Valid()
    ensures recorded ==>
      printed == Tips(p.commands, os.installed, |p.commands|) + JobNotice(p, FirstPgid(p, os), os, old(jm.nextId))
    ensures !recorded ==> exists n :: 0 <= n <= |p.commands| && printed == Tips(p.commands, os.installed, n)
    ensures Wired(p, os, spawned)
    ensures sent == Triggered(p)
    ensures exists m :: 0 <= m <= |p.commands| && Stages(spawned) == NonEmptyStages(p.commands, m)
    ensures r.Ok? && !recorded ==>
      |p.commands| == 0
      || (Stages(spawned) == NonEmptyStages(p.commands, |p.commands|) && p.commands[|p.commands| - 1].args == [])
    ensures recorded ==>
      Stages(spawned) == NonEmptyStages(p.commands, |p.commands|)
      && spawned != [] && spawned[|spawned| - 1].stage == |p.commands| - 1
    ensures !recorded ==> mm.lastError == old(mm.lastError) && mm.lastSuggestion == old(mm.lastSuggestion)
    ensures !recorded ==> jm.jobs == old(jm.jobs)
    ensures recorded ==>
      var pgid := FirstPgid(p, os);
      && jm.jobs == old(jm.jobs) + AddedJobs(p, pgid, os, old(jm.nextId))
      && (p.background ==> r == Ok(()))
      && (!p.background && pgid.Some? ==> r == WaitOutcome(os.waits[FirstSettled(os.waits)]))
      && (!p.background && pgid.None? ==>
        os.childExit.ChildExit?
        && r == (if os.childExit.success then Ok(()) else Err("Exited with status " + os.childExit.shown)))
      && (r.Err? ==> mm.lastError == Some((FullCommandText(p), Captured(spawned[|spawned| - 1], os))))
      && (r.Ok? ==> mm.lastError == None && mm.lastSuggestion == None)
    ensures jm.nextId == old(jm.nextId) + (|jm.jobs| - |old(jm.jobs)|)
  {
    var pgid, reachedLast, examined, tried;
    // The loop sends the effect of `cmatrix` or `spotify` just before it
    // spawns them, which is before anything else can happen, since only a
    // lone first stage triggers one.
    sent := Triggered(p);
    r, spawned, pgid, reachedLast, examined, tried := SpawnStages(p, os);
    printed := Tips(p.commands, os.installed, tried);
    recorded := false;
    if reachedLast {
      var notice;
      r, recorded, notice := Finish(p, spawned[|spawned| - 1], pgid, jm, mm, os);
      printed := printed + notice;
    }
  }

  // ---------------------------------------------------------------------
  // Built-ins

  /** The directory-stack line `pushd`, `popd` and `dirs` print: the entries
      of `get_stack` separated by two spaces. */
  ghost function StackLine(cwd: string, dirStack: seq<string>, cwdReadable: bool): string {
    Join((if cwdReadable then [cwd] else []) + Reversed(dirStack), "  ")
  }

  /** The word `cd` looks up with the directory-jump tool: its argument as
      typed, or `~`. */
  function CdWord(args: seq<string>): string {
    if args == [] then "~" else args[0]
  }

  /** `handle_cd`, given the words after `cd`: the target is resolved with
      `CdTarget`; an existing directory is entered; otherwise the directory
      the jump tool names, if any, is entered; otherwise it fails naming the
      word as typed. A failing change of directory leaves the directory. */
  method HandleCd(args: seq<string>, env: EnvManager, os: Os) returns (r: Result<()>)
    modifies env`cwd
    ensures CdTarget(args, os.home).Err? ==> r == Err(NoHome) && env.cwd == old(env.cwd)
    ensures CdTarget(args, os.home).Ok? && (os.isDir || os.zoxideDir.Some?) ==>
      var dest := if os.isDir then CdTarget(args, os.home).value else os.zoxideDir.value;
      if os.chdirError.None? then r == Ok(()) && env.cwd == dest
      else r == Err("cd failed: " + os.chdirError.value) && env.cwd == old(env.cwd)
    ensures CdTarget(args, os.home).Ok? && !os.isDir && os.zoxideDir.None? ==>
      r == Err("cd: no such file or directory: " + CdWord(args)) && env.cwd == old(env.cwd)
  {
    var target := CdTarget(args, os.home);
    if target.Err? {
      return Err(target.msg);
    }
    var dest := target.value;
    if !os.isDir {
      if os.zoxideDir.None? {
        return Err("cd: no such file or directory: " + CdWord(args));
      }
      dest := os.zoxideDir.value;
    }
    if os.chdirError.Some? {
      return Err("cd failed: " + os.chdirError.value);
    }
    env.cwd := dest;
    return Ok(());
  }

  /** `fg` and `bg`: the id in the second word names a job to resume. The
      job table is not changed either way; a missing, unreadable or unknown
      id only reports that the job was not found. The signal, the terminal
      hand-over and the wait of `fg` are left to the operating system. */
  method ResumeJob(foreground: bool, args: seq<string>, jobs: seq<Job>) returns (r: Result<()>, printed: seq<string>)
    ensures r == Ok(()) && |printed| == 1
    ensures JobArg(args).None? || FindById(jobs, JobArg(args).value).None? ==>
      printed == [if foreground then "fg: job not found" else "bg: job not found"]
    ensures JobArg(args).Some? && FindById(jobs, JobArg(args).value).Some? ==>
      var j := FindById(jobs, JobArg(args).value).value;
      j.id == JobArg(args).value && j in jobs
      && printed == [(if foreground then "Bringing job [" else "Resuming job [") + NatToString(j.id)
        + (if foreground then "] to foreground: " else "] in background: ") + j.cmd]
  {
    var id := JobArg(args);
    var found := if id.Some? then FindById(jobs, id.value) else None;
    r := Ok(());
    if found.None? {
      printed := [if foreground then "fg: job not found" else "bg: job not found"];
    } else if foreground {
      printed := ["Bringing job [" + NatToString(found.value.id) + "] to foreground: " + found.value.cmd];
    } else {
      printed := ["Resuming job [" + NatToString(found.value.id) + "] in background: " + found.value.cmd];
    }
  }

  /** `set`, `unset` and `path`: the variable store changes exactly as the
      arguments say, and nothing fails. */
  method VarBuiltin(b: Builtin, args: seq<string>, env: EnvManager) returns (printed: seq<string>)
    requires b == Set || b == Unset || b == PathCmd
    requires args != []
    modifies env`vars
    ensures b == Set ==>
      printed == [] && match SetArgs(args)
        case ListVars => env.vars == old(env.vars)
        case Assign(k, v) => env.vars == old(env.vars)[k := v]
    ensures b == Unset ==>
      printed == [] && env.vars == if |args| >= 2 then old(env.vars) - {args[1]} else old(env.vars)
    ensures b == PathCmd ==>
      match PathArgs(args)
      case AddEntry(dir, front) =>
        && (':' in dir ==> env.vars == old(env.vars))
        && (':' !in dir ==> env.vars == old(env.vars)["PATH" := Join(Placed(PathEntries(old(env.vars)), dir, front), [':'])])
        && printed == [(if front then "Prepended to PATH: " else "Added to PATH: ") + dir]
      case PathNothing => env.vars == old(env.vars) && printed == []
      case PathUsage => env.vars == old(env.vars) && printed == ["Usage: path [add|prepend] <dir>"]
  {
    printed := [];
    if b == Set {
      // The listing of every variable comes in hash-map order.
      match SetArgs(args) {
        case ListVars =>
        case Assign(k, v) => env.SetVar(k, v);
      }
    } else if b == Unset {
      if |args| >= 2 {
        env.RemoveVar(args[1]);
      }
    } else {
      match PathArgs(args) {
        case AddEntry(dir, front) =>
          env.AddToPath(dir, front);
          printed := [(if front then "Prepended to PATH: " else "Added to PATH: ") + dir];
        case PathNothing =>
        case PathUsage =>
          printed := ["Usage: path [add|prepend] <dir>"];
      }
    }
  }

  /** `pushd`, `popd` and `dirs`: the stack line is printed after a
      successful change; a failed `pushd` changes nothing, and `popd` on an
      empty stack reports it. */
  method StackBuiltin(b: Builtin, args: seq<string>, env: EnvManager, os: Os) returns (r: Result<()>, printed: seq<string>)
    requires b == Pushd || b == Popd || b == Dirs
    modifies env`dirStack, env`cwd
    ensures b == Dirs ==>
      r == Ok(()) && env.dirStack == old(env.dirStack) && env.cwd == old(env.cwd)
      && printed == [StackLine(env.cwd, env.dirStack, os.cwdError.None?)]
    ensures b == Pushd && |args| < 2 ==>
      r == Ok(()) && env.dirStack == old(env.dirStack) && env.cwd == old(env.cwd) && printed == []
    ensures b == Pushd && |args| >= 2 ==>
      if os.cwdError.None? && os.chdirError.None? then
        r == Ok(()) && env.dirStack == old(env.dirStack) + [old(env.cwd)] && env.cwd == args[1]
        && printed == [StackLine(env.cwd, env.dirStack, true)]
      else r.Err? && env.dirStack == old(env.dirStack) && env.cwd == old(env.cwd) && printed == []
    ensures b == Popd && old(env.dirStack) == [] ==>
      r == Err("popd: directory stack empty") && env.dirStack == [] && env.cwd == old(env.cwd) && printed == []
    ensures b == Popd && old(env.dirStack) != [] ==>
      env.dirStack == old(env.dirStack)[..|old(env.dirStack)| - 1]
      && (os.chdirError.None? ==>
        r == Ok(()) && env.cwd == old(env.dirStack)[|old(env.dirStack)| - 1]
        && printed == [StackLine(env.cwd, env.dirStack, os.cwdError.None?)])
      && (os.chdirError.Some? ==> r.Err? && env.cwd == old(env.cwd) && printed == [])
  {
    r, printed := Ok(()), [];
    if b == Pushd {
      if |args| >= 2 {
        r := env.Pushd(args[1], os.cwdError, os.chdirError);
        if r.Ok? {
          var stack := env.GetStack(true);
          printed := [Join(stack, "  ")];
        }
      }
    } else if b == Popd {
      var popped := env.Popd(os.chdirError);
      if popped.Err? {
        return Err(popped.msg), [];
      }
      var stack := env.GetStack(os.cwdError.None?);
      printed := [Join(stack, "  ")];
    } else {
      var stack := env.GetStack(os.cwdError.None?);
      printed := [Join(stack, "  ")];
    }
  }

  /** `macro`: `set` defines and `unset` removes, and a failed save is the
      built-in's error after the map has changed; the other forms change
      nothing. */
  method MacroBuiltin(args: seq<string>, mm: MacroManager, saved: bool) returns (r: Result<()>, printed: seq<string>)
    requires mm.Valid()
    modifies mm`macros
    ensures mm.Valid()
    ensures match MacroArgs(args)
      case Define(name, template) =>
        mm.macros == old(mm.macros)[name := Macro(name, template)]
        && r == (if saved then Ok(()) else Err("Failed to save macros"))
        && printed == (if saved then ["Macro set successfully."] else [])
      case Undefine(name) =>
        mm.macros == old(mm.macros) - {name}
        && r == (if saved then Ok(()) else Err("Failed to save macros"))
        && printed == (if saved then ["Macro unset."] else [])
      case DefineUsage => r == Ok(()) && mm.macros == old(mm.macros) && printed == ["Usage: macro set <name> <template>"]
      case MacroNothing => r == Ok(()) && mm.macros == old(mm.macros) && printed == []
      case ListMacros => r == Ok(()) && mm.macros == old(mm.macros)
  {
    r, printed := Ok(()), [];
    match MacroArgs(args) {
      case Define(name, template) =>
        r := mm.SetMacro(name, template, saved);
        if r.Ok? {
          printed := ["Macro set successfully."];
        }
      case DefineUsage =>
        printed := ["Usage: macro set <name> <template>"];
      case Undefine(name) =>
        r := mm.UnsetMacro(name, saved);
        if r.Ok? {
          printed := ["Macro unset."];
        }
      case MacroNothing =>
      case ListMacros =>
        // The macros themselves follow in hash-map order.
        printed := ["\U{1b}[38;2;110;209;195m\U{1f41a} Chev Macros:\U{1b}[0m"];
    }
  }

  /** `preview`, `minimap`, `effect` and `vibe`: each sends one terminal
      action, except `preview` and `effect` without an argument, which print
      their usage instead. */
  method TerminalBuiltin(b: Builtin, args: seq<string>) returns (printed: seq<string>, sent: seq<Protocol.RioAction>)
    requires b in {Preview, MiniMap, Effect, Vibe}
    ensures |sent| <= 1 && (sent == [] <==> printed != [])
    ensures b == Preview ==>
      if |args| >= 2 then sent == [Protocol.Preview(args[1])] && printed == []
      else sent == [] && printed == ["Usage: preview <file>"]
    ensures b == MiniMap ==> sent == [Protocol.MiniMap(MiniMapArg(args))] && printed == []
    ensures b == Effect ==>
      match EffectArg(args)
      case None => sent == [] && printed == ["Usage: effect <matrix|vibe|none>"]
      case Some(e) => sent == [Protocol.BackgroundEffect(e)] && printed == []
    ensures b == Vibe ==> sent == [Protocol.BackgroundEffect(Some("vibe"))] && printed == []
  {
    printed, sent := [], [];
    if b == Preview {
      if |args| >= 2 {
        sent := [Protocol.Preview(args[1])];
      } else {
        printed := ["Usage: preview <file>"];
      }
    } else if b == MiniMap {
      sent := [Protocol.MiniMap(MiniMapArg(args))];
    } else if b == Effect {
      match EffectArg(args) {
        case None =>
          printed := ["Usage: effect <matrix|vibe|none>"];
        case Some(e) =>
          sent := [Protocol.BackgroundEffect(e)];
      }
    } else {
      sent := [Protocol.BackgroundEffect(Some("vibe"))];
    }
  }

  /** The variables after the built-in `b` with the words `args`: `set`
      assigns one variable, `unset` removes one, `path` rewrites `PATH`;
      every other built-in leaves them. */
  function VarsAfter(b: Builtin, args: seq<string>, vars: map<string, string>): (r: map<string, string>)
    requires args != []
    ensures b != Set && b != Unset && b != PathCmd ==> r == vars
    ensures b == Set && SetArgs(args).Assign? ==>
      r.Keys == vars.Keys + {SetArgs(args).key} && r[SetArgs(args).key] == SetArgs(args).value
    ensures b == Unset && |args| >= 2 ==> r.Keys == vars.Keys - {args[1]}
    ensures b == PathCmd ==> r.Keys <= vars.Keys + {"PATH"}
    ensures forall k :: k in r && k in vars && r[k] != vars[k] ==>
      (b == Set && SetArgs(args).Assign? && k == SetArgs(args).key) || (b == PathCmd && k == "PATH")
  {
    match b
    case Set =>
      (match SetArgs(args)
       case ListVars => vars
       case Assign(k, v) => vars[k := v])
    case Unset => if |args| >= 2 then vars - {args[1]} else vars
    case PathCmd =>
      (match PathArgs(args)
       case AddEntry(dir, front) =>
         if ':' in dir then vars else vars["PATH" := Join(Placed(PathEntries(vars), dir, front), [':'])]
       case PathNothing => vars
       case PathUsage => vars)
    case _ => vars
  }

  /** The directory `cd` ends in: the target or else the jump tool's answer,
      when the change succeeds; the directory it started from otherwise. */
  function CdDest(args: seq<string>, os: Os, cwd: string): (d: string)
    ensures d != cwd ==>
      && CdTarget(args, os.home).Ok? && os.chdirError.None?
      && (d == CdTarget(args, os.home).value || os.zoxideDir == Some(d))
    ensures CdTarget(args, os.home).Ok? && os.isDir && os.chdirError.None? ==> d == CdTarget(args, os.home).value
  {
    match CdTarget(args, os.home)
    case Err(_) => cwd
    case Ok(t) =>
      if os.chdirError.Some? then cwd
      else if os.isDir then t
      else if os.zoxideDir.Some? then os.zoxideDir.value
      else cwd
  }

  /** The directory and the stack after the built-in `b`: `pushd` pushes the
      directory it leaves, `popd` pops the top (entering it when it can),
      `cd` only moves; every other built-in leaves both. */
  function DirsAfter(b: Builtin, args: seq<string>, os: Os, cwd: string, stack: seq<string>): (r: (string, seq<string>))
    requires args != []
    ensures b != Pushd && b != Popd && b != Cd ==> r == (cwd, stack)
    ensures b != Pushd && b != Popd ==> r.1 == stack
    ensures b == Pushd ==> r == (cwd, stack) || r.1 == stack + [cwd]
    ensures b == Popd ==>
      if stack == [] then r == (cwd, stack)
      else r.1 == stack[..|stack| - 1] && (r.0 == cwd || r.0 == stack[|stack| - 1])
  {
    match b
    case Pushd =>
      if |args| >= 2 && os.cwdError.None? && os.chdirError.None? then (args[1], stack + [cwd]) else (cwd, stack)
    case Popd =>
      if stack == [] then (cwd, stack)
      else (if os.chdirError.None? then stack[|stack| - 1] else cwd, stack[..|stack| - 1])
    case Cd => (CdDest(args[1..], os, cwd), stack)
    case _ => (cwd, stack)
  }

  /** The macros after `macro` with the words `args`: `set` defines one,
      `unset` removes one, the other forms leave them. */
  function MacrosAfter(args: seq<string>, macros: map<string, Macro>): (r: map<string, Macro>)
    ensures MacroArgs(args).Define? ==>
      var a := MacroArgs(args);
      r.Keys == macros.Keys + {a.name} && r[a.name] == Macro(a.name, a.template)
    ensures MacroArgs(args).Undefine? ==> r.Keys == macros.Keys - {MacroArgs(args).name}
    ensures forall n :: n in r && n in macros && r[n] != macros[n] ==> MacroArgs(args).Define? && n == MacroArgs(args).name
    ensures !MacroArgs(args).Define? && !MacroArgs(args).Undefine? ==> r == macros
  {
    match MacroArgs(args)
    case Define(name, template) => macros[name := Macro(name, template)]
    case Undefine(name) => macros - {name}
    case _ => macros
  }

  /** A built-in run against the stores, for the command `c` that named it.
      `printed` holds the lines it prints, apart from the listings of `set`
      and `macro`, and `sent` the terminal actions it sends. No built-in
      touches the job table or the failure context, and each changes only
      the store it is about. */
  method RunBuiltin(b: Builtin, c: Command, jm: JobManager, env: EnvManager, mm: MacroManager, os: Os)
    returns (r: Result<()>, printed: seq<string>, sent: seq<Protocol.RioAction>)
    requires c.args != [] && mm.Valid()
    modifies env, mm
    ensures mm.Valid()
    ensures mm.lastError == old(mm.lastError) && mm.abbreviations == old(mm.abbreviations)
    ensures b != Ai ==> mm.lastSuggestion == old(mm.lastSuggestion)
    ensures b == Ai ==> mm.lastSuggestion == if os.assistant.Some? then os.assistant else old(mm.lastSuggestion)
    ensures b != MacroCmd ==> mm.macros == old(mm.macros)
    ensures b == MacroCmd ==> mm.macros == MacrosAfter(c.args, old(mm.macros))
    ensures b != Set && b != Unset && b != PathCmd ==> env.vars == old(env.vars)
    ensures b != Pushd && b != Popd ==> env.dirStack == old(env.dirStack)
    ensures b != Pushd && b != Popd && b != Cd ==> env.cwd == old(env.cwd)
    ensures env.vars == VarsAfter(b, c.args, old(env.vars))
    ensures (env.cwd, env.dirStack) == DirsAfter(b, c.args, os, old(env.cwd), old(env.dirStack))
    ensures b != Preview && b != MiniMap && b != Effect && b != Vibe ==> sent == []
    ensures b != Pushd && b != Popd && b != MacroCmd && b != Cd ==> r == Ok(())
    ensures b == JobsCmd ==> printed == JobsListing(jm.jobs, os.now)
    ensures (b == Fg || b == Bg) && (JobArg(c.args).None? || FindById(jm.jobs, JobArg(c.args).value).None?) ==>
      printed == [if b == Fg then "fg: job not found" else "bg: job not found"]
  {
    r, printed, sent := Ok(()), [], [];
    var args := c.args;
    if EnvBuiltin(b) {
      r, printed := RunEnvBuiltin(b, args, env, os);
      return;
    }
    match b {
      case JobsCmd =>
        printed := JobsListing(jm.jobs, os.now);
      case Fg =>
        r, printed := ResumeJob(true, args, jm.jobs);
      case Bg =>
        r, printed := ResumeJob(false, args, jm.jobs);
      case MacroCmd =>
        r, printed := MacroBuiltin(args, mm, os.saved);
      case Ai =>
        // Only the suggestion the assistant leaves behind is modelled.
        if os.assistant.Some? {
          mm.lastSuggestion := os.assistant;
        }
      case Rio =>
      case Chev =>
      case Preview =>
        printed, sent := TerminalBuiltin(b, args);
      case MiniMap =>
        printed, sent := TerminalBuiltin(b, args);
      case Effect =>
        printed, sent := TerminalBuiltin(b, args);
      case Vibe =>
        printed, sent := TerminalBuiltin(b, args);
    }
  }

  /** The built-ins about the variables and the directories. */
  predicate EnvBuiltin(b: Builtin) {
    b == Set || b == Unset || b == PathCmd || b == Pushd || b == Popd || b == Dirs || b == Cd
  }

  /** A built-in about the variables or the directories changes only the
      part of the environment it is about. */
  method RunEnvBuiltin(b: Builtin, args: seq<string>, env: EnvManager, os: Os)
    returns (r: Result<()>, printed: seq<string>)
    requires EnvBuiltin(b) && args != []
    modifies env
    ensures b != Set && b != Unset && b != PathCmd ==> env.vars == old(env.vars)
    ensures b != Pushd && b != Popd ==> env.dirStack == old(env.dirStack)
    ensures b != Pushd && b != Popd && b != Cd ==> env.cwd == old(env.cwd)
    ensures env.vars == VarsAfter(b, args, old(env.vars))
    ensures (env.cwd, env.dirStack) == DirsAfter(b, args, os, old(env.cwd), old(env.dirStack))
    ensures b == Set || b == Unset || b == PathCmd || b == Dirs ==> r == Ok(())
  {
    r, printed := Ok(()), [];
    match b {
      case Set =>
        printed := VarBuiltin(b, args, env);
      case Unset =>
        printed := VarBuiltin(b, args, env);
      case PathCmd =>
        printed := VarBuiltin(b, args, env);
      case Pushd =>
        r, printed := StackBuiltin(b, args, env, os);
      case Popd =>
        r, printed := StackBuiltin(b, args, env, os);
      case Dirs =>
        r, printed := StackBuiltin(b, args, env, os);
      case Cd =>
        r := HandleCd(args[1..], env, os);
    }
  }

  // ---------------------------------------------------------------------
  // execute_pipeline and execute_command

  /** `execute_pipeline`. A pipeline whose first stage names a built-in runs
      it against the stores and spawns nothing; the built-ins never touch the
      job table or the failure context. Any other pipeline is spawned stage
      by stage and leaves the variables, the directories and the macros as
      they were; it prints the install tips of its stages and the notice of
      the job it adds. A background pipeline becomes a `Running` job, a
      stopped foreground one a `Suspended` job, and once the last stage has
      run the failure context records a failure or is cleared by a success. */
  method ExecutePipeline(p: Pipeline, jm: JobManager, env: EnvManager, mm: MacroManager, os: Os)
    returns (r: Result<()>, printed: seq<string>, sent: seq<Protocol.RioAction>, spawned: seq<Spawn>, recorded: bool)
    requires jm.Valid() && mm.Valid() && Settles(os.waits)
    modifies jm, env, mm
    ensures jm.Valid() && mm.Valid()
    ensures mm.abbreviations == old(mm.abbreviations)
    ensures !recorded ==> mm.lastError == old(mm.lastError)
    ensures !recorded ==> jm.jobs == old(jm.jobs)
    ensures Dispatch(p).Some? ==>
      spawned == [] && !recorded && jm.jobs == old(jm.jobs) && jm.nextId == old(jm.nextId)
    ensures Dispatch(p).Some? ==>
      var b, args := Dispatch(p).value, p.commands[0].args;
      && env.vars == VarsAfter(b, args, old(env.vars))
      && (env.cwd, env.dirStack) == DirsAfter(b, args, os, old(env.cwd), old(env.dirStack))
      && mm.macros == (if b == MacroCmd then MacrosAfter(args, old(mm.macros)) else old(mm.macros))
    ensures Dispatch(p) == Some(Fg) || Dispatch(p) == Some(Bg) ==>
      var id := JobArg(p.commands[0].args);
      r == Ok(())
      && (id.None? || FindById(jm.jobs, id.value).None? ==>
        printed == [if Dispatch(p) == Some(Fg) then "fg: job not found" else "bg: job not found"])
    ensures Dispatch(p).None? ==>
      && sent == Triggered(p) && Wired(p, os, spawned)
      && env.vars == old(env.vars) && env.cwd == old(env.cwd) && env.dirStack == old(env.dirStack)
      && mm.macros == old(mm.macros)
      && jm.nextId == old(jm.nextId) + (|jm.jobs| - |old(jm.jobs)|)
    ensures Dispatch(p).None? && !recorded ==>
      exists n :: 0 <= n <= |p.commands| && printed == Tips(p.commands, os.installed, n)
    ensures Dispatch(p).None? && recorded ==>
      var pgid := FirstPgid(p, os);
      && spawned != [] && spawned[|spawned| - 1].stage == |p.commands| - 1
      && printed == Tips(p.commands, os.installed, |p.commands|) + JobNotice(p, pgid, os, old(jm.nextId))
      && jm.jobs == old(jm.jobs) + AddedJobs(p, pgid, os, old(jm.nextId))
      && (p.background ==> r == Ok(()))
      && (!p.background && pgid.Some? ==> r == WaitOutcome(os.waits[FirstSettled(os.waits)]))
      && (r.Err? ==> mm.lastError == Some((FullCommandText(p), Captured(spawned[|spawned| - 1], os))))
      && (r.Ok? ==> mm.lastError == None && mm.lastSuggestion == None)
  {
    match Dispatch(p) {
      case Some(b) =>
        r, printed, sent := RunBuiltin(b, p.commands[0], jm, env, mm, os);
        spawned, recorded := [], false;
      case None =>
        r, spawned, sent, recorded, printed := RunStages(p, jm, mm, os);
    }
  }

  /** The line `execute_pipeline` is given: the macro expansion of the
      input, or the input itself when its first word is not a macro. */
  function Expanded(macros: map<string, Macro>, input: string): string {
    match ExpandLine(macros, input)
    case Some(e) => e
    case None => input
  }

  /** `execute_command`: expand the macros, parse, run the pipeline, and on
      an error that left no failure context behind, record the expanded
      line with the error's message. The parser never fails, so its error
      branch cannot be taken. The stores end as the pipeline left them. */
  method ExecuteCommand(input: string, jm: JobManager, env: EnvManager, mm: MacroManager, os: Os)
    returns (r: Result<()>, p: Pipeline, recorded: bool, printed: seq<string>, sent: seq<Protocol.RioAction>,
      spawned: seq<Spawn>)
    requires jm.Valid() && mm.Valid() && Settles(os.waits)
    modifies jm, env, mm
    ensures jm.Valid() && mm.Valid()
    ensures p == ParsePipeline(Expanded(old(mm.macros), input)).value
    ensures Dispatch(p).Some? ==>
      var b, args := Dispatch(p).value, p.commands[0].args;
      && !recorded && spawned == [] && jm.jobs == old(jm.jobs) && jm.nextId == old(jm.nextId)
      && env.vars == VarsAfter(b, args, old(env.vars))
      && (env.cwd, env.dirStack) == DirsAfter(b, args, os, old(env.cwd), old(env.dirStack))
      && mm.macros == (if b == MacroCmd then MacrosAfter(args, old(mm.macros)) else old(mm.macros))
    ensures Dispatch(p).None? ==>
      && sent == Triggered(p) && Wired(p, os, spawned)
      && env.vars == old(env.vars) && env.cwd == old(env.cwd) && env.dirStack == old(env.dirStack)
      && mm.macros == old(mm.macros)
    ensures !recorded ==> jm.jobs == old(jm.jobs)
    ensures recorded ==>
      var pgid := FirstPgid(p, os);
      && Dispatch(p).None? && spawned != []
      && printed == Tips(p.commands, os.installed, |p.commands|) + JobNotice(p, pgid, os, old(jm.nextId))
      && jm.jobs == old(jm.jobs) + AddedJobs(p, pgid, os, old(jm.nextId))
    ensures recorded && r.Err? ==> mm.lastError == Some((FullCommandText(p), Captured(spawned[|spawned| - 1], os)))
    ensures recorded && r.Ok? ==> mm.lastError == None && mm.lastSuggestion == None
    ensures !recorded && r.Ok? ==> mm.lastError == old(mm.lastError)
    ensures !recorded && r.Err? ==>
      mm.lastError == if old(mm.lastError).None? then Some((Expanded(old(mm.macros), input), r.msg)) else old(mm.lastError)
  {
    var e := mm.ExpandMacro(input);
    var expanded := if e.Some? then e.value else input;
    p := ParsePipeline(expanded).value;
    r, printed, sent, spawned, recorded := ExecutePipeline(p, jm, env, mm, os);
    if r.Err? && mm.lastError.None? {
      mm.lastError := Some((expanded, r.msg));
    }
  }
}

/** The pure decisions of `src/engine/executor.rs`: the modern-tool table of
    `resolve_command`, the target of `cd`, the `jobs` duration text, which
    built-in a pipeline runs, and how each built-in reads its arguments. */
module Builtins {
  import opened Wrappers
  import opened Strings
  import opened Parser
  import opened Jobs

  // ---------------------------------------------------------------------
  // resolve_command

  /** Some argument ends with `suffix`. */
  predicate AnyEndsWith(args: seq<string>, suffix: string) {
    exists k :: 0 <= k < |args| && EndsWith(args[k], suffix)
  }

  /** Some argument holds the character `c`. */
  predicate AnyHolds(args: seq<string>, c: char) {
    exists k :: 0 <= k < |args| && c in args[k]
  }

  /** The names the table maps, whatever the arguments. */
  const AlwaysMapped: set<string> := {
    "ls", "find", "du", "rm", "cp", "tree", "df", "serve", "cat", "grep", "rg",
    "sed", "diff", "jq", "csv", "hex", "strings", "peek", "detect", "nano",
    "top", "htop", "ps", "time", "make", "watch", "dig", "sudo", "ping",
    "http", "curl", "calc", "bc"
  }

  /** The table's preferred tool for `command`, arms tried in order; a name
      with no matching arm maps to itself. */
  function Alternative(command: string, args: seq<string>): string {
    match command
    case "ls" => "eza"
    case "find" => "fd"
    case "du" => "dust"
    case "rm" => "rip"
    case "cp" => "xcp"
    case "tree" => "broot"
    case "df" => "lfs"
    case "serve" => "miniserve"
    case "cat" => if AnyEndsWith(args, ".md") then "mdcat" else "bat"
    case "grep" => "rg"
    case "rg" => "rg"
    case "sed" => "sd"
    case "diff" => "delta"
    case "cut" => if AnyHolds(args, ':') then "choose" else command
    case "awk" => if AnyHolds(args, ':') then "choose" else command
    case "jq" => "jql"
    case "csv" => "qsv"
    case "tldr" => if args != [] then "tldr" else command
    case "man" => if args != [] then "tldr" else command
    case "hex" => "heh"
    case "strings" => "lemmeknow"
    case "peek" => "lemmeknow"
    case "detect" => "lemmeknow"
    case "nano" => "kibi"
    case "top" => "btm"
    case "htop" => "btm"
    case "ps" => "procs"
    case "time" => "hyperfine"
    case "make" => "just"
    case "watch" => "hwatch"
    case "dig" => "doggo"
    case "sudo" => "sudo-rs"
    case "ping" => "gping"
    case "http" => "xh"
    case "curl" => "xh"
    case "calc" => "fend"
    case "bc" => "fend"
    case _ => command
  }

  /** `resolve_command`, with `which` answered by the set of installed
      tools: the alternative is used only when it differs from the name and
      is installed; the arguments always pass through. */
  function ResolveCommand(command: string, args: seq<string>, installed: set<string>): (r: (string, seq<string>))
    ensures r.1 == args
    ensures r.0 == command || r.0 == Alternative(command, args)
    ensures r.0 != command ==> r.0 in installed
    ensures Alternative(command, args) in installed ==> r.0 == Alternative(command, args)
  {
    var mapped := Alternative(command, args);
    if mapped != command && mapped !in installed then (command, args) else (mapped, args)
  }

  /** The opening and the close of the install tip, in gray. */
  const TipOpen: string := "\U{1b}[90m  (Tip: install "
  const TipClose: string := " for a better experience! run 'ai setup')\U{1b}[0m"

  /** The gray hint `resolve_command` prints when it has to fall back to the
      name as typed because the alternative is not installed. */
  function ResolveTip(command: string, args: seq<string>, installed: set<string>): (r: seq<string>)
    ensures |r| <= 1
    ensures r != [] <==> Alternative(command, args) != command && Alternative(command, args) !in installed
    ensures r != [] ==>
      && ResolveCommand(command, args, installed).0 == command
      && r[0] == TipOpen + Alternative(command, args) + TipClose
  {
    var mapped := Alternative(command, args);
    if mapped != command && mapped !in installed then
      [TipOpen + mapped + TipClose]
    else []
  }

  /** A name the table does not know, such as `git`, runs as it is. */
  lemma {:induction false} UnmappedPassesThrough(command: string, args: seq<string>, installed: set<string>)
    requires command !in AlwaysMapped && command !in {"cut", "awk", "tldr", "man"}
    ensures ResolveCommand(command, args, installed) == (command, args)
  {
  }

  /** `cat` becomes `mdcat` exactly when some argument ends with `.md`, and
      `bat` otherwise. */
  lemma {:induction false} CatRule(args: seq<string>)
    ensures Alternative("cat", args) == if AnyEndsWith(args, ".md") then "mdcat" else "bat"
  {
  }

  /** `cut` and `awk` become `choose` only when an argument holds `:`. */
  lemma {:induction false} ChooseRule(command: string, args: seq<string>)
    requires command == "cut" || command == "awk"
    ensures Alternative(command, args) == if AnyHolds(args, ':') then "choose" else command
  {
  }

  /** `man` and `tldr` become `tldr` only when there are arguments. */
  lemma {:induction false} TldrRule(command: string, args: seq<string>)
    requires command == "man" || command == "tldr"
    ensures Alternative(command, args) == if args != [] then "tldr" else command
  {
  }

  /** The mapping test's table, part 1 (the tools taken as installed). */
  lemma {:induction false} MappingTable1()
    ensures Alternative("ls", []) == "eza"
    ensures Alternative("cat", []) == "bat"
    ensures Alternative("find", []) == "fd"
  {
  }

  /** The mapping test's table, part 2 (the tools taken as installed). */
  lemma {:induction false} MappingTable2()
    ensures Alternative("du", []) == "dust"
    ensures Alternative("rm", []) == "rip"
    ensures Alternative("grep", []) == "rg"
  {
  }

  /** The mapping test's table, part 3 (the tools taken as installed). */
  lemma {:induction false} MappingTable3()
    ensures Alternative("rg", []) == "rg"
    ensures Alternative("sed", []) == "sd"
    ensures Alternative("diff", []) == "delta"
  {
  }

  /** The mapping test's table, part 4 (the tools taken as installed). */
  lemma {:induction false} MappingTable4()
    ensures Alternative("top", []) == "btm"
    ensures Alternative("htop", []) == "btm"
    ensures Alternative("ps", []) == "procs"
  {
  }

  /** The mapping test's table, part 5 (the tools taken as installed). */
  lemma {:induction false} MappingTable5()
    ensures Alternative("time", []) == "hyperfine"
    ensures Alternative("make", []) == "just"
    ensures Alternative("cp", []) == "xcp"
  {
  }

  /** The mapping test's table, part 6 (the tools taken as installed). */
  lemma {:induction false} MappingTable6()
    ensures Alternative("tree", []) == "broot"
    ensures Alternative("jq", []) == "jql"
    ensures Alternative("watch", []) == "hwatch"
  {
  }

  /** The mapping test's table, part 7 (the tools taken as installed). */
  lemma {:induction false} MappingTable7()
    ensures Alternative("dig", []) == "doggo"
    ensures Alternative("sudo", []) == "sudo-rs"
    ensures Alternative("ping", []) == "gping"
  {
  }

  /** The mapping test's table, part 8 (the tools taken as installed). */
  lemma {:induction false} MappingTable8()
    ensures Alternative("curl", []) == "xh"
    ensures Alternative("http", []) == "xh"
    ensures Alternative("df", []) == "lfs"
  {
  }

  /** The mapping test's table, part 9 (the tools taken as installed). */
  lemma {:induction false} MappingTable9()
    ensures Alternative("calc", []) == "fend"
    ensures Alternative("bc", []) == "fend"
    ensures Alternative("hex", []) == "heh"
  {
  }

  /** The mapping test's table, part 10 (the tools taken as installed). */
  lemma {:induction false} MappingTable10()
    ensures Alternative("peek", []) == "lemmeknow"
    ensures Alternative("nano", []) == "kibi"
    ensures Alternative("git", []) == "git"
  {
  }

  /** The conditional-mapping test. */
  lemma {:induction false} ConditionalMappings()
    ensures Alternative("cut", ["0:3"]) == "choose"
    ensures Alternative("man", ["ls"]) == "tldr"
    ensures Alternative("cat", ["README.md"]) == "mdcat"
  {
    var cut, readme := ["0:3"], ["README.md"];
    assert cut[0][1] == ':';
    assert AnyHolds(cut, ':');
    assert readme[0][6..] == ".md";
    assert AnyEndsWith(readme, ".md");
  }

  // ---------------------------------------------------------------------
  // handle_cd: the target

  /** `Path::join` on Unix: an absolute `rel` replaces `base`; otherwise a
      `/` is put between them unless `base` is empty or already ends in one. */
  function JoinPath(base: string, rel: string): (r: string)
    ensures rel != [] && rel[0] == '/' ==> r == rel
    ensures (rel == [] || rel[0] != '/') ==> EndsWith(r, rel) && base <= r
  {
    if rel != [] && rel[0] == '/' then rel
    else if base == [] || base[|base| - 1] == '/' then base + rel
    else base + "/" + rel
  }

  const NoHome: string := "Could not find home directory"

  /** The directory `cd` tries first: no argument means `~`, `~` is the home
      directory, `~/rel` is `rel` under it, anything else is taken as it is. */
  function CdTarget(args: seq<string>, home: Option<string>): (r: Result<string>)
    ensures r.Err? ==> r.msg == NoHome && home.None?
    ensures home.Some? && (args == [] || args[0] == "~") ==> r == Ok(home.value)
    ensures home.Some? && args != [] && "~/" <= args[0] ==> r == Ok(JoinPath(home.value, args[0][2..]))
    ensures args != [] && args[0] != "~" && !("~/" <= args[0]) ==> r == Ok(args[0])
  {
    var target := if args == [] then "~" else args[0];
    if target == "~" then
      if home.Some? then Ok(home.value) else Err(NoHome)
    else if "~/" <= target then
      if home.Some? then Ok(JoinPath(home.value, target[2..])) else Err(NoHome)
    else Ok(target)
  }

  // ---------------------------------------------------------------------
  // jobs: the elapsed-time text

  /** The elapsed-time text of `jobs`, from whole seconds. */
  function FormatDuration(s: nat): string {
    if s < 60 then NatToString(s) + "s"
    else if s < 3600 then NatToString(s / 60) + "m " + NatToString(s % 60) + "s"
    else NatToString(s / 3600) + "h " + NatToString((s % 3600) / 60) + "m"
  }

  /** What the text says: seconds under a minute; whole minutes and the
      remaining seconds under an hour; otherwise whole hours and the whole
      minutes of the remainder, with the last seconds dropped. */
  lemma {:induction false} DurationMeaning(s: nat)
    ensures s < 60 ==> FormatDuration(s) == NatToString(s) + "s"
    ensures 60 <= s < 3600 ==> exists m: nat, c: nat ::
      1 <= m < 60 && c < 60 && m * 60 + c == s
      && FormatDuration(s) == NatToString(m) + "m " + NatToString(c) + "s"
    ensures 3600 <= s ==> exists h: nat, m: nat ::
      1 <= h && m < 60 && h * 3600 + m * 60 <= s < h * 3600 + m * 60 + 60
      && FormatDuration(s) == NatToString(h) + "h " + NatToString(m) + "m"
  {
    if 60 <= s < 3600 {
      var m, c := s / 60, s % 60;
      assert m * 60 + c == s;
      assert FormatDuration(s) == NatToString(m) + "m " + NatToString(c) + "s";
    } else if 3600 <= s {
      var h, m := s / 3600, (s % 3600) / 60;
      var rem := s % 3600;
      assert h * 3600 + rem == s && rem < 3600;
      assert m * 60 <= rem < m * 60 + 60;
      assert FormatDuration(s) == NatToString(h) + "h " + NatToString(m) + "m";
    }
  }

  /** `Instant::elapsed` in whole seconds: it never goes below zero. */
  function Elapsed(start: nat, now: nat): (r: nat)
    ensures now >= start ==> start + r == now
    ensures now < start ==> r == 0
  {
    if now >= start then now - start else 0
  }

  /** The line `jobs` prints for a job at clock time `now`. */
  function JobLine(j: Job, now: nat): (r: string)
    ensures "[" + NatToString(j.id) + "] " <= r
  {
    "[" + NatToString(j.id) + "] " + StatusName(j.status) + "  \t " + j.cmd
      + " \t \U{1b}[90m(active for " + FormatDuration(Elapsed(j.startTime, now)) + ")\U{1b}[0m"
  }

  /** `jobs`: one line per job, in table order. */
  function JobsListing(js: seq<Job>, now: nat): (r: seq<string>)
    ensures |r| == |js|
    ensures forall k :: 0 <= k < |js| ==> r[k] == JobLine(js[k], now)
  {
    if js == [] then [] else [JobLine(js[0], now)] + JobsListing(js[1..], now)
  }

  // ---------------------------------------------------------------------
  // Built-in dispatch

  datatype Builtin =
    | JobsCmd | Fg | Bg | Set | Unset | PathCmd | Pushd | Popd | Dirs | MacroCmd
    | Ai | Rio | Chev
    | Cd | Preview | MiniMap | Effect | Vibe

  /** The built-ins recognised when the first stage names them. */
  function FirstStageBuiltin(name: string): Option<Builtin> {
    match name
    case "jobs" => Some(JobsCmd)
    case "fg" => Some(Fg)
    case "bg" => Some(Bg)
    case "set" => Some(Set)
    case "unset" => Some(Unset)
    case "path" => Some(PathCmd)
    case "pushd" => Some(Pushd)
    case "popd" => Some(Popd)
    case "dirs" => Some(Dirs)
    case "macro" => Some(MacroCmd)
    case "ai" => Some(Ai)
    case "rio" => Some(Rio)
    case "chev" => Some(Chev)
    case _ => None
  }

  /** The built-ins recognised only when the pipeline has one command. */
  function LoneBuiltin(name: string): Option<Builtin> {
    match name
    case "cd" => Some(Cd)
    case "preview" => Some(Preview)
    case "minimap" => Some(MiniMap)
    case "effect" => Some(Effect)
    case "vibe" => Some(Vibe)
    case _ => None
  }

  predicate IsLoneKind(b: Builtin) {
    b == Cd || b == Preview || b == MiniMap || b == Effect || b == Vibe
  }

  /** The built-in `execute_pipeline` runs instead of spawning, if any. The
      loop looks for built-ins only at index 0, and an empty stage 0 is
      skipped, so only a non-empty first stage can name one. */
  function Dispatch(p: Pipeline): (r: Option<Builtin>)
    ensures r.Some? ==> |p.commands| >= 1 && p.commands[0].args != []
    ensures r.Some? && IsLoneKind(r.value) ==> |p.commands| == 1
    ensures r.Some? && !IsLoneKind(r.value) ==> r == FirstStageBuiltin(p.commands[0].args[0])
  {
    if |p.commands| == 0 || p.commands[0].args == [] then None
    else
      var name := p.commands[0].args[0];
      match FirstStageBuiltin(name)
      case Some(b) => Some(b)
      case None => if |p.commands| == 1 then LoneBuiltin(name) else None
  }

  /** Only the first stage and the number of stages decide the dispatch. */
  lemma {:induction false} DispatchSeesFirstStage(p: Pipeline, q: Pipeline)
    requires |p.commands| == |q.commands| >= 1 && p.commands[0] == q.commands[0]
    ensures Dispatch(p) == Dispatch(q)
  {
  }

  /** `cd` inside a longer pipeline is not the built-in. */
  lemma {:induction false} CdOnlyAlone(p: Pipeline)
    requires |p.commands| >= 2 && p.commands[0].args != [] && p.commands[0].args[0] == "cd"
    ensures Dispatch(p) == None
  {
  }

  // ---------------------------------------------------------------------
  // Built-in arguments

  /** `str::split_once(c)`: the text before and after the first `c`. */
  function SplitOnce(s: string, c: char): (r: Option<(string, string)>)
    ensures r.None? <==> c !in s
    ensures r.Some? ==> r.value.0 + [c] + r.value.1 == s && c !in r.value.0
  {
    if s == [] then None
    else if s[0] == c then Some(([], s[1..]))
    else match SplitOnce(s[1..], c)
      case None => None
      case Some(parts) =>
        assert [s[0]] + parts.0 + [c] + parts.1 == s by {
          assert [s[0]] + (parts.0 + [c] + parts.1) == [s[0]] + s[1..];
        }
        Some(([s[0]] + parts.0, parts.1))
  }

  datatype SetAction = ListVars | Assign(key: string, value: string)

  /** `set`: alone it lists; `set K=V` splits at the first `=`; `set K V`
      sets `K` to `V`; `set K` sets `K` to the empty string. */
  function SetArgs(args: seq<string>): (r: SetAction)
    requires |args| >= 1
    ensures r.ListVars? <==> |args| == 1
    ensures |args| >= 2 && '=' in args[1] ==>
      r.Assign? && r.key + "=" + r.value == args[1] && '=' !in r.key
    ensures |args| >= 2 && '=' !in args[1] ==>
      r == Assign(args[1], if |args| >= 3 then args[2] else "")
  {
    if |args| == 1 then ListVars
    else match SplitOnce(args[1], '=')
      case Some(kv) => Assign(kv.0, kv.1)
      case None => Assign(args[1], if |args| >= 3 then args[2] else "")
  }

  datatype PathAction = AddEntry(dir: string, front: bool) | PathNothing | PathUsage

  /** `path add D` appends, `path prepend D` prepends; `add` or `prepend`
      without a directory does nothing, anything else prints the usage. */
  function PathArgs(args: seq<string>): (r: PathAction)
    ensures r.AddEntry? ==>
      |args| >= 3 && r.dir == args[2] && r.front == (args[1] == "prepend") && (args[1] == "add" || args[1] == "prepend")
    ensures r.PathUsage? <==> |args| < 2 || (args[1] != "add" && args[1] != "prepend")
  {
    if |args| >= 2 && (args[1] == "add" || args[1] == "prepend") then
      if |args| >= 3 then AddEntry(args[2], args[1] == "prepend") else PathNothing
    else PathUsage
  }

  datatype MacroAction = Define(name: string, template: string) | DefineUsage | Undefine(name: string) | MacroNothing | ListMacros

  /** `macro set N T…` defines `N` as the remaining words joined by spaces
      (at least one is needed); `macro unset N` removes `N`; anything else
      lists the macros. */
  function MacroArgs(args: seq<string>): (r: MacroAction)
    ensures r.Define? <==> |args| >= 4 && args[1] == "set"
    ensures r.Define? ==> r.name == args[2] && r.template == Join(args[3..], " ")
    ensures r.Undefine? <==> |args| >= 3 && args[1] == "unset"
    ensures r.Undefine? ==> r.name == args[2]
    ensures r.ListMacros? <==> |args| < 2 || (args[1] != "set" && args[1] != "unset")
  {
    if |args| >= 2 && args[1] == "set" then
      if |args| >= 4 then Define(args[2], Join(args[3..], " ")) else DefineUsage
    else if |args| >= 2 && args[1] == "unset" then
      if |args| >= 3 then Undefine(args[2]) else MacroNothing
    else ListMacros
  }

  /** `fg` and `bg`: the job id in the second word, if it parses. */
  function JobArg(args: seq<string>): (r: Option<nat>)
    ensures |args| < 2 ==> r.None?
    ensures |args| >= 2 ==> r == ParseUsize(args[1])
  {
    if |args| >= 2 then ParseUsize(args[1]) else None
  }

  /** `minimap`: off for `off`, `0` or `hide`, on for anything else or nothing. */
  function MiniMapArg(args: seq<string>): (on: bool)
    ensures !on <==> |args| >= 2 && args[1] in {"off", "0", "hide"}
  {
    !(|args| >= 2 && (args[1] == "off" || args[1] == "0" || args[1] == "hide"))
  }

  /** `effect`: `None` (print the usage) without an argument; otherwise the
      effect to show, where `off`, `none` and `0` mean no effect. */
  function EffectArg(args: seq<string>): (r: Option<Option<string>>)
    ensures r.None? <==> |args| < 2
    ensures r == Some(None) <==> |args| >= 2 && args[1] in {"off", "none", "0"}
    ensures r.Some? && r.value.Some? ==> r.value.value == args[1]
  {
    if |args| < 2 then None
    else if args[1] == "off" || args[1] == "none" || args[1] == "0" then Some(None)
    else Some(Some(args[1]))
  }

  /** The effect `cmatrix` and `spotify` switch on before they are spawned,
      when they run alone. */
  function TriggeredEffect(name: string, stages: nat): (r: Option<string>)
    ensures r.Some? ==> stages == 1
    ensures r == Some("matrix") <==> name == "cmatrix" && stages == 1
    ensures r == Some("vibe") <==> name == "spotify" && stages == 1
  {
    if stages == 1 && name == "cmatrix" then Some("matrix")
    else if stages == 1 && name == "spotify" then Some("vibe")
    else None
  }

  /** `full_cmd_str`: each stage's words joined by spaces, and the stages
      joined by ` | `. */
  function StageTexts(cs: seq<Command>): (r: seq<string>)
    ensures |r| == |cs|
    ensures forall k :: 0 <= k < |cs| ==> r[k] == Join(cs[k].args, " ")
  {
    if cs == [] then [] else [Join(cs[0].args, " ")] + StageTexts(cs[1..])
  }

  function FullCommandText(p: Pipeline): string {
    Join(StageTexts(p.commands), " | ")
  }

  /** A one-stage pipeline is named by its words. */
  lemma {:induction false} FullCommandOfOne(c: Command, background: bool)
    ensures FullCommandText(Pipeline([c], background)) == Join(c.args, " ")
  {
    assert StageTexts([c]) == [Join(c.args, " ")];
  }
}

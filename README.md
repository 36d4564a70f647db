# chev-shell core, modelled in Dafny

This project models the core of chev-shell, an interactive shell written in
Rust, and proves properties of that model. It has two parts.

The engine:

- the nom-based pipeline parser, which turns a command line into a
  `Pipeline` of `Command`s with arguments and redirections;
- the job table, with its id counter that restarts at 1 once the table
  empties;
- the macro store, which does first-word template expansion with `$1…$N`
  and a catch-all `$`, and also holds the abbreviations and the failure
  context (`last_error`, `last_suggestion`);
- the environment store: variables, the `pushd`/`popd` directory stack,
  and the deduplicating `PATH` insert;
- the decision logic of the executor: command resolution, built-in
  dispatch and argument parsing, `cd` target resolution, the per-stage
  wiring and process-group plan, wait outcomes, job creation, and the
  failure-context bookkeeping.

The UI text routines:

- the history list behind inline suggestions and the hint precedence;
- prompt path shortening and the plain and coloured prompts;
- the `git`/`docker` completion tables;
- the Operating System Command strings sent to the Rio terminal, an OSC
  of section 8.3.89 of ECMA-48 with the private code 1338 and a BEL
  terminator;
- the page-to-text extractor of the built-in browser and its 44-column
  card truncation;
- the segmentation of the intro animation, which cuts a line into escape
  sequences and text runs.

Each Rust file of the core is one Dafny module:

| file | module | content |
|---|---|---|
| `parser.dfy` | `Parser` | the parser |
| `jobs.dfy` | `Jobs` | the job table, a class |
| `macros.dfy` | `Macros` | the macro store, a class |
| `env.dfy` | `Env` | the environment store, a class |
| `builtins.dfy` | `Builtins` | the pure decisions of the executor |
| `executor.dfy` | `Executor` | the executor's state machine |
| `suggestions.dfy` | `Suggestions` | suggestions |
| `prompt.dfy` | `Prompt` | the prompt |
| `completion.dfy` | `Completion` | completion |
| `protocol.dfy` | `Protocol` | the terminal protocol |
| `browser.dfy` | `Browser` | the browser's extractor |
| `effects.dfy` | `Effects` | the intro segmentation |

`wrappers.dfy` holds `Option`/`Result`. `strings.dfy` holds the Rust string
operations the core relies on: `trim`, `split_whitespace`, `split`, `join`,
`find`, `replace`, `parse::<usize>` and ASCII lower-casing.

Code that changes state in place is imperative Dafny:

- `JobManager`, `EnvManager`, `MacroManager` and `CommandTrie` are
  classes whose methods state the whole new state;
- the parser's command loop, the macro store's expansion, the executor's
  stage loop and wait loop, the prompt's shortening loop, the completion
  loop, the browser's character loop and the segmentation loop are
  methods with loops;
- each method is proved equal to a specification function, and the
  properties are proved about that function.

The operating system's side of the executor is an input `Os`, which gives:

- whether each tool is installed;
- whether each redirection file opens, and whether each spawn succeeds;
- each child's pid and the `waitpid` statuses;
- the captured standard error;
- the home directory and whether `cd`'s target is a directory;
- the directory-jump tool's answer;
- the failures of reading or changing the working directory, and whether
  the macro file saves;
- the clock in whole seconds.

Given these answers, the executor is a deterministic state machine over the
three stores. The lines it prints and the actions it sends to the terminal
are returned as values. Two kinds of output are not: the live echo of the
last stage's standard error, and the store listings of `set` and `macro`
(see "Left out").

## Model

| member | source | states |
|---|---|---|
| Parser.Multispace0 | src/engine/parser.rs:60 | `multispace0` drops exactly the leading run of spaces, tabs, CR and LF: everything dropped is such a character and the rest does not start with one |
| Parser.Multispace0Idempotent | src/engine/parser.rs:66-67 | skipping whitespace a second time changes nothing, so the loop's re-skip after the initial one is harmless |
| Parser.WordRun | src/engine/parser.rs:40 | the run `is_not(" \|><&")` takes: a prefix of word characters followed by a non-word character or the end |
| Parser.QuoteFreeRun | src/engine/parser.rs:36 | the run `is_not("\"")` takes: a quote-free prefix that stops at a quote or at the end |
| Parser.ParseWord | src/engine/parser.rs:40 | a simple word succeeds iff the input starts with a word character; it is a non-empty run of word characters, and word plus remainder give back the input |
| Parser.ParseQuoted | src/engine/parser.rs:35-38 | a quoted argument is the input split as quote, non-empty quote-free body, quote, remainder |
| Parser.ParseArgument | src/engine/parser.rs:32-42 | a parsed argument is non-empty and consumes at least one character |
| Parser.ParseTarget | src/engine/parser.rs:47-55 | an operator followed by optional whitespace and an argument consumes input and yields a non-empty target |
| Parser.ParseRedirection | src/engine/parser.rs:44-57 | a redirection starts with `2` or `>`, consumes input, and has a non-empty target unless it is `2>&1` |
| Parser.CommandLoop | src/engine/parser.rs:65-82 | the command loop never lengthens the remaining input; where it stops is `CommandLoopStops` |
| Parser.SingleCommand | src/engine/parser.rs:59-85 | `parse_single_command` never fails and never lengthens the remaining input |
| Parser.ParseSingleCommand | src/engine/parser.rs:59-85 | the `while` loop over `current_input` computes `SingleCommand` |
| Parser.Separator | src/engine/parser.rs:88 | the pipe separator with its surrounding whitespace consumes at least the `\|` |
| Parser.MoreCommands | src/engine/parser.rs:88 | `separated_list1` only appends commands, and it stops where no separator follows |
| Parser.CommandList | src/engine/parser.rs:88 | the command list always has at least one command |
| Parser.ParsePipeline | src/engine/parser.rs:87-93 | a pipeline always has at least one command; `background` holds iff the first character after the last command and any whitespace is `&` |
| Parser.QuotedArgument | src/engine/parser.rs:35-38 | a double-quoted non-empty body without quotes is read verbatim, without its quotes |
| Parser.QuoteFreeRunOf | src/engine/parser.rs:36 | the quote-free run of a quote-free text followed by a quote is that text |
| Parser.WordRunOf | src/engine/parser.rs:40 | the word run of word characters followed by a non-word character is exactly those characters |
| Parser.EmptyQuotesAreAWord | src/engine/parser.rs:33-40 | `""` fails the quoted branch and becomes a simple word that keeps the two quote characters |
| Parser.UnterminatedQuoteIsAWord | src/engine/parser.rs:33-40 | an unterminated `"abc` fails the quoted branch and becomes a simple word starting with the quote |
| Parser.CommandLoopStops | src/engine/parser.rs:65-84 | the command loop stops at the end, at `\|`, at `&`, or at a character neither sub-parser accepts, and returns the rest unconsumed |
| Parser.CommandLoopArgsNonEmpty | src/engine/parser.rs:76-78 | every argument the loop collects is non-empty |
| Parser.SingleCommandStops | src/engine/parser.rs:59-85 | `parse_single_command` stops where the loop does, and its arguments are all non-empty |
| Parser.CommandLoopSkipsSpace | src/engine/parser.rs:66-67 | leading whitespace does not change what the loop parses |
| Parser.QuoteReadBack | src/engine/parser.rs:32-42 | an argument, written as a bare word or in quotes as needed, is read back as itself |
| Parser.QuoteIsNoRedirection | src/engine/parser.rs:73-76 | a written argument is never taken as a redirection, so it is read as an argument |
| Parser.TargetReadBack | src/engine/parser.rs:47-55 | an operator, a space and a written target are read back as that target |
| Parser.StdoutReadBack | src/engine/parser.rs:53-55 | `> target` is read back as `Stdout(target)` |
| Parser.StderrReadBack | src/engine/parser.rs:50-52 | `2> target` is read back as `Stderr(target)` and is not taken for `2>&1` |
| Parser.AppendReadBack | src/engine/parser.rs:47-49 | `>> target` is read back as `Append(target)` and is not taken for `>` |
| Parser.RedirectionReadBack | src/engine/parser.rs:44-57 | every redirection, as written, is read back as itself, longest operator first |
| Parser.RedirLoopStep | src/engine/parser.rs:73-75 | one loop step on a redirection appends it to the redirections and continues after it |
| Parser.ArgLoopStep | src/engine/parser.rs:76-78 | one loop step on an argument that is no redirection appends it to the arguments and continues after it |
| Parser.ArgStep | src/engine/parser.rs:76-78 | a space and a written argument take one loop step that appends that argument |
| Parser.RedirStep | src/engine/parser.rs:73-75 | a space and a written redirection take one loop step that appends that redirection |
| Parser.ArgsReadBack | src/engine/parser.rs:76-78 | written arguments are read back in order |
| Parser.RedirsReadBack | src/engine/parser.rs:73-75 | written redirections are read back in order, and after the arguments |
| Parser.TailStops | src/engine/parser.rs:65-71 | at a pipe, at `&` or at the end, the loop stops with what it has |
| Parser.SingleCommandReadBack | src/engine/parser.rs:59-85 | a written command is read back as itself, stopping at the next pipe or `&` |
| Parser.PipelineTail | src/engine/parser.rs:89-92 | nothing, or ` &`, ends the command list and leaves `&` or nothing |
| Parser.PipedTail | src/engine/parser.rs:65 | the text after a written stage starts where the command loop stops |
| Parser.SeparatorBeforeText | src/engine/parser.rs:88 | a pipe is a separator, and whitespace after it is skipped |
| Parser.SingleCommandOfSpaced | src/engine/parser.rs:60 | a command parses the same with or without leading whitespace |
| Parser.MoreCommandsReadBack | src/engine/parser.rs:88 | the written stages after the first are read back in order |
| Parser.CommandListReadBack | src/engine/parser.rs:88 | a written list of stages is read back as itself |
| Parser.PipelineOfList | src/engine/parser.rs:87-93 | a command list followed by `&` or nothing is a complete pipeline with that background flag |
| Parser.PipelineRoundTrip | src/engine/parser.rs:87-93 | parsing the written form of any writable pipeline gives it back, with no input left over |
| Parser.ParsePipelineSkipsSpace | src/engine/parser.rs:88 | leading whitespace does not change the parsed pipeline |
| Parser.ParseWritten | src/engine/parser.rs:87-93 | a line that is the written form of a pipeline, less its leading space, parses to it |
| Parser.ParseSimpleCommand | src/engine/parser.rs:99-105 | `ls -la` is one command with arguments `ls` and `-la` |
| Parser.ParseThreeStages | src/engine/parser.rs:107-115 | `a \| b c \| d e` is three stages `[a]`, `[b, c]`, `[d, e]`, an instance of which is `ls \| grep rust \| wc -l` |
| Parser.ParseQuotedArgument | src/engine/parser.rs:117-122 | `cmd "q" file` gives `[cmd, q, file]` for a quoted `q`, as in `grep "hello world" file.txt` |
| Parser.ParseTwoRedirections | src/engine/parser.rs:124-138 | `cmd > out 2> err` gives arguments `[cmd]` and redirections `[Stdout(out), Stderr(err)]` |
| Jobs.StatusName | src/engine/jobs.rs:10-17 | `Running` displays as "Running" and `Suspended` as "Stopped", each iff |
| Jobs.Without | src/engine/jobs.rs:51 | the retained jobs come from the table and none has the removed pgid |
| Jobs.WithoutMembers | src/engine/jobs.rs:51 | a job survives `retain` iff it was in the table and has a different pgid |
| Jobs.WithoutAppend | src/engine/jobs.rs:51 | `retain` filters each part separately, so the survivors keep their order |
| Jobs.WithoutAbsent | src/engine/jobs.rs:51 | removing a pgid no job has changes nothing |
| Jobs.WithoutIdempotent | src/engine/jobs.rs:50-51 | removing a pgid twice is removing it once |
| Jobs.WithoutIncreasing | src/engine/jobs.rs:50-51 | removal keeps ids strictly increasing along the table |
| Jobs.FindById | src/engine/jobs.rs:61-63 | `find` returns the first job with the id, and `None` iff no job has it |
| Jobs.FindAppended | src/engine/jobs.rs:43-48 | a job appended with an id above all others is found by that id |
| Jobs.FindUnique | src/engine/jobs.rs:61-63 | with increasing ids, the job found by id is the one that has it |
| Jobs.JobManager.constructor | src/engine/jobs.rs:36-41 | a new table is empty with the next id 1 |
| Jobs.JobManager.AddJob | src/engine/jobs.rs:43-48 | returns the current next id, appends the job at the end, increments the next id, and keeps ids distinct and below the next id |
| Jobs.JobManager.RemoveJob | src/engine/jobs.rs:50-55 | removes every job with the pgid, keeps the others in order, and resets the next id to 1 exactly when the table is then empty |
| Jobs.JobManager.GetJobs | src/engine/jobs.rs:57-59 | the table's ids are strictly increasing, at least 1 and below the next id |
| Jobs.JobManager.FindJobById | src/engine/jobs.rs:61-63 | the lookup is `FindById` over the table |
| Macros.Placeholder | src/engine/macros.rs:71 | the placeholder for argument `i` is `$` followed by its number |
| Macros.ExpandLine | src/engine/macros.rs:59-86 | expansion is `Some` iff the input has a first word that names a macro, and then it is the template expanded with the remaining words |
| Macros.JoinKeepsOut | src/engine/macros.rs:75 | joining `$`-free words with a `$`-free separator gives a `$`-free text |
| Macros.NoDollarLeft | src/engine/macros.rs:69-76 | in the `$` branch, when no argument contains `$`, the result contains no `$` |
| Macros.PlainTemplate | src/engine/macros.rs:76-82 | a template without `$` gets a space and the arguments joined by spaces, and no arguments leave it as it is |
| Macros.WhitespaceCollapsed | src/engine/macros.rs:60 | the input's whitespace runs do not matter: expanding the words re-joined with single spaces gives the same result |
| Macros.ExpandWords | src/engine/macros.rs:59-86 | a line of words expands by its first word's macro with the rest as arguments, or gives `None` |
| Macros.SetThenExpand | src/engine/macros.rs:41-44 | after defining `name`, a line starting with `name` uses the new template and every other line expands as before |
| Macros.UnsetThenExpand | src/engine/macros.rs:46-49 | after removing `name`, a line starting with `name` gives `None` and every other line expands as before |
| Macros.WithDollar | src/engine/macros.rs:69-76 | a template with `$` has its numbered placeholders replaced in order, and then every remaining `$` is replaced by all the arguments |
| Macros.TwoPasses | src/engine/macros.rs:70-73 | the numbered passes run `$1` first, then `$2`, each on the previous result |
| Macros.OneSlot | src/engine/macros.rs:69-76 | `p$1q` with one `$`-free argument `a` becomes `paq` |
| Macros.SlotTen | src/engine/macros.rs:72 | replacement is by substring, so `$1` also rewrites the prefix of `$10`: `$10` with `[a]` becomes `a0` |
| Macros.TwoSlots | src/engine/macros.rs:69-76 | `p$1m$2q` with two `$`-free arguments fills both slots in order |
| Macros.RestSlot | src/engine/macros.rs:75 | a trailing catch-all `$` becomes all the arguments joined by spaces |
| Macros.NoArguments | src/engine/macros.rs:69-76 | a `$` template with no arguments loses every `$` |
| Macros.MissingArgument | src/engine/macros.rs:69-76 | `rg $1 src/` with no arguments becomes `rg 1 src/`: the missing argument's `$` is dropped and its digit kept |
| Macros.InsertedPlaceholder | src/engine/macros.rs:70-73 | inserted argument text is subject to later passes: `$1` with `[$2, b]` becomes `b` |
| Macros.TestPlain | src/engine/macros.rs:113-118 | `git` with `commit -m 'feat'` expands to `git commit -m 'feat'` |
| Macros.TestOneSlot | src/engine/macros.rs:120-122 | `rg $1 src/` with `hello` expands to `rg hello src/` |
| Macros.TestTwoSlots | src/engine/macros.rs:128-130 | `echo $1 $2` with `first second` expands to `echo first second` |
| Macros.TestRest | src/engine/macros.rs:132-134 | `echo all: $` with `one two three` expands to `echo all: one two three` |
| Macros.TestMissing | src/engine/macros.rs:69-76 | `rg $1 src/` with no arguments expands to `rg 1 src/` |
| Macros.MacroManager.constructor | src/engine/macros.rs:21-39 | a new store has no macros, no abbreviations and an empty failure context |
| Macros.MacroManager.SetMacro | src/engine/macros.rs:41-44 | the macro is stored under its own name; the result is the outcome of the save |
| Macros.MacroManager.UnsetMacro | src/engine/macros.rs:46-49 | the macro is removed and the others are unchanged; the result is the outcome of the save |
| Macros.MacroManager.SetAbbreviation | src/engine/macros.rs:51-53 | the abbreviation map gets exactly this entry |
| Macros.MacroManager.GetAbbreviation | src/engine/macros.rs:55-57 | returns what was stored under the name, and `None` iff nothing was |
| Macros.MacroManager.List | src/engine/macros.rs:103-105 | lists exactly the defined names, each with its own macro |
| Macros.MacroManager.ExpandMacro | src/engine/macros.rs:59-86 | the substitution loop computes `ExpandLine` over the macros only, so abbreviations never affect it |
| Env.Reversed | src/engine/env.rs:66 | the stack read most recent first |
| Env.Removed | src/engine/env.rs:79 | the retained entries differ from the target |
| Env.RemovedMembers | src/engine/env.rs:79 | an entry survives `retain` iff it was there and is not the target |
| Env.RemovedAbsent | src/engine/env.rs:79 | removing an absent entry changes nothing |
| Env.RemovedAppend | src/engine/env.rs:79 | `retain` filters each part separately, so the other entries keep their relative order |
| Env.PlacedOnce | src/engine/env.rs:78-86 | after the insert the target occurs exactly once, first when `front` and last otherwise, and the other entries are those of before, in order |
| Env.PathEntries | src/engine/env.rs:74-75 | splitting `PATH` at `:` gives at least one entry |
| Env.PathReadBack | src/engine/env.rs:73-90 | the `PATH` written by the insert splits back into the inserted entries |
| Env.EnvManager.constructor | src/engine/env.rs:14-20 | the store starts with the inherited variables and an empty stack |
| Env.EnvManager.SetVar | src/engine/env.rs:22-27 | the key maps to the value, every other key is unchanged |
| Env.EnvManager.RemoveVar | src/engine/env.rs:29-34 | the key is gone, every other key is unchanged |
| Env.EnvManager.GetVar | src/engine/env.rs:36-38 | returns the stored value, and `None` iff the key is absent |
| Env.EnvManager.Pushd | src/engine/env.rs:45-50 | on success the cwd is the path and the old cwd is pushed; a failure to read the cwd or to change it returns its error and leaves stack and cwd as they were |
| Env.EnvManager.Popd | src/engine/env.rs:52-59 | an empty stack gives "popd: directory stack empty" and changes nothing; otherwise the top is popped, made the cwd and returned, or the change's error is returned |
| Env.EnvManager.GetStack | src/engine/env.rs:61-70 | the cwd first, if readable, then the stack from most recent to oldest |
| Env.EnvManager.AddToPath | src/engine/env.rs:73-91 | `PATH` becomes the deduplicated insert; an entry with the `:` separator makes joining fail and leaves the variables unchanged |
| Env.PushdThenPopd | src/engine/env.rs:45-59 | `pushd` then `popd` returns the cwd from before the `pushd` and restores both the cwd and the stack |
| Builtins.ResolveCommand | src/engine/executor.rs:904-956 | the arguments pass through; the name becomes its alternative only when that differs and is installed, and stays otherwise |
| Builtins.ResolveTip | src/engine/executor.rs:945-953 | the gray install tip is printed exactly when the alternative differs from the name and is not installed, and then the name runs as typed |
| Builtins.UnmappedPassesThrough | src/engine/executor.rs:942 | a name outside the table passes through with its arguments |
| Builtins.CatRule | src/engine/executor.rs:917-918 | `cat` maps to `mdcat` when an argument ends with `.md`, else to `bat` |
| Builtins.ChooseRule | src/engine/executor.rs:922 | `cut` and `awk` map to `choose` only when an argument contains `:` |
| Builtins.TldrRule | src/engine/executor.rs:925 | `man` and `tldr` map to `tldr` only when there are arguments |
| Builtins.MappingTable1 | src/engine/executor.rs:1025-1027 | `ls`, `cat`, `find` map to `eza`, `bat`, `fd` |
| Builtins.MappingTable2 | src/engine/executor.rs:1028-1030 | `du`, `rm`, `grep` map to `dust`, `rip`, `rg` |
| Builtins.MappingTable3 | src/engine/executor.rs:1031-1033 | `rg`, `sed`, `diff` map to `rg`, `sd`, `delta` |
| Builtins.MappingTable4 | src/engine/executor.rs:1034-1036 | `top`, `htop`, `ps` map to `btm`, `btm`, `procs` |
| Builtins.MappingTable5 | src/engine/executor.rs:1037-1039 | `time`, `make`, `cp` map to `hyperfine`, `just`, `xcp` |
| Builtins.MappingTable6 | src/engine/executor.rs:1040-1042 | `tree`, `jq`, `watch` map to `broot`, `jql`, `hwatch` |
| Builtins.MappingTable7 | src/engine/executor.rs:1043-1045 | `dig`, `sudo`, `ping` map to `doggo`, `sudo-rs`, `gping` |
| Builtins.MappingTable8 | src/engine/executor.rs:1046-1048 | `curl`, `http`, `df` map to `xh`, `xh`, `lfs` |
| Builtins.MappingTable9 | src/engine/executor.rs:1049-1051 | `calc`, `bc`, `hex` map to `fend`, `fend`, `heh` |
| Builtins.MappingTable10 | src/engine/executor.rs:1052-1054 | `peek`, `nano`, `git` map to `lemmeknow`, `kibi`, `git` |
| Builtins.ConditionalMappings | src/engine/executor.rs:1064-1076 | `cut 0:3` maps to `choose`, `man ls` to `tldr`, `cat README.md` to `mdcat` |
| Builtins.JoinPath | src/engine/executor.rs:970 | joining an absolute path gives it; joining a relative one gives the base followed by it |
| Builtins.CdTarget | src/engine/executor.rs:959-973 | no argument or `~` is home, `~/rel` is home joined with `rel`, anything else is literal, and a missing home fails only when it is needed |
| Builtins.DurationMeaning | src/engine/executor.rs:95-102 | under a minute is `{s}s`, under an hour `{m}m {s}s`, otherwise `{h}h {m}m`, with the minutes and seconds the quotient and remainder of whole seconds |
| Builtins.Elapsed | src/engine/executor.rs:95 | the elapsed seconds since the job started, never negative |
| Builtins.JobLine | src/engine/executor.rs:104-107 | a `jobs` line starts with `[id] ` |
| Builtins.JobsListing | src/engine/executor.rs:94-108 | `jobs` prints one line per job, in table order |
| Builtins.Dispatch | src/engine/executor.rs:83-667 | a built-in is named by the first word of stage 0; `cd`, `preview`, `minimap`, `effect` and `vibe` only when the pipeline has one stage |
| Builtins.DispatchSeesFirstStage | src/engine/executor.rs:87-88 | the later stages do not change which built-in applies |
| Builtins.CdOnlyAlone | src/engine/executor.rs:628 | `cd` in a pipeline of two or more stages is not a built-in |
| Builtins.SplitOnce | src/engine/executor.rs:169 | `split_once` cuts at the first occurrence, and fails iff there is none |
| Builtins.SetArgs | src/engine/executor.rs:159-182 | `set` alone lists; `set K=V` splits at the first `=`; `set K V` sets `V`; `set K` sets the empty string |
| Builtins.PathArgs | src/engine/executor.rs:190-211 | `path add D` appends and `path prepend D` prepends; a sub-command other than `add` or `prepend` (or none) prints the usage, and a missing `D` does nothing |
| Builtins.MacroArgs | src/engine/executor.rs:231-261 | `macro set N T…` defines with the words of `T` joined by spaces, `macro unset N` removes, a sub-command other than `set` or `unset` (or none) lists, and a short `set` or `unset` does neither |
| Builtins.JobArg | src/engine/executor.rs:112 | the job id is the second word parsed as an unsigned integer, if any |
| Builtins.MiniMapArg | src/engine/executor.rs:643 | the minimap is turned off by `off`, `0` or `hide` and on otherwise |
| Builtins.EffectArg | src/engine/executor.rs:651-662 | `effect off`, `none` or `0` clears the effect, any other word sets it, and no word prints the usage |
| Builtins.TriggeredEffect | src/engine/executor.rs:669-676 | a lone `cmatrix` turns on `matrix` and a lone `spotify` turns on `vibe` |
| Builtins.StageTexts | src/engine/executor.rs:74-76 | each stage's text is its arguments joined by spaces |
| Builtins.FullCommandOfOne | src/engine/executor.rs:74-77 | the job text of a single stage is its arguments joined by spaces |
| Executor.FirstSettled | src/engine/executor.rs:800-818 | the status that ends the wait loop is the first that is not `Continued` |
| Executor.WaitOutcome | src/engine/executor.rs:802-818 | `Stopped` and `Exited(0)` are Ok; other exit codes, signals and wait errors are the errors the loop breaks with |
| Executor.WaitForeground | src/engine/executor.rs:800-818 | the wait loop skips `Continued` and returns the outcome of the first other status, and whether it was a stop |
| Executor.StdoutDefault | src/engine/executor.rs:727-749 | without output redirections, stdout stays as the stage's default |
| Executor.StdoutLastWins | src/engine/executor.rs:727-749 | with output redirections, the last `>` or `>>` decides stdout |
| Executor.StderrDefault | src/engine/executor.rs:727-749 | without `2>`, stderr stays as the default; `2>&1` changes nothing |
| Executor.StderrLastWins | src/engine/executor.rs:727-749 | with `2>`, the last one decides stderr |
| Executor.ApplyRedirections | src/engine/executor.rs:727-749 | the loop applies the redirections in order when every file opens, and otherwise fails with the first open error |
| Executor.Planned | src/engine/executor.rs:699-725 | stage 0 starts a new process group and later stages join the pgid of stage 0; stdin comes from the previous spawned stage |
| Executor.PlannedStreams | src/engine/executor.rs:712-749 | without redirections, stdout is piped except on the last stage and stderr is piped only on the last stage |
| Executor.RedirectedStreams | src/engine/executor.rs:712-749 | how the defaults and the redirections combine for both streams |
| Executor.WiredAppend | src/engine/executor.rs:751-759 | spawning the next planned stage keeps every stage wired to its predecessor |
| Executor.Stages | src/engine/executor.rs:79 | the stage index of each spawned process, in spawn order |
| Executor.NonEmptyStagesExact | src/engine/executor.rs:83 | the stages the loop spawns are exactly the ones with arguments, in increasing order |
| Executor.SpawnedNext | src/engine/executor.rs:79-83 | spawning a stage with arguments extends the spawned stages by it |
| Executor.SkippedNext | src/engine/executor.rs:83 | a stage without arguments is skipped |
| Executor.AllStagesSpawned | src/engine/executor.rs:79-83 | when every stage has arguments, every stage is spawned, in order |
| Executor.ChainedStages | src/engine/executor.rs:703-759 | a pipeline of non-empty stages without redirections is a chain: stdin of each from its predecessor, stdout piped except the last, one process group |
| Executor.SpawnStage | src/engine/executor.rs:693-759 | spawning one stage succeeds iff its redirections open, it spawns and its stdout can be handed on; on success it is the planned spawn |
| Executor.Tips | src/engine/executor.rs:693-694 | the loop prints at most one tip per stage it reached |
| Executor.TipsNext | src/engine/executor.rs:693-694 | reaching one more stage adds exactly that stage's tip when it has words, and nothing for an empty stage |
| Executor.TipsFromStages | src/engine/executor.rs:693-694 | every printed tip is the tip of a stage with words that the loop reached |
| Executor.Finish | src/engine/executor.rs:780-874 | a background pipeline with a group adds one `Running` job and prints `[id] pgid`; a foreground one waits, and a stop adds one `Suspended` job and prints `[id] command` and `Stopped`; failure records the command and captured stderr, success clears the failure context |
| Executor.AddedJobs | src/engine/executor.rs:780-806 | a pipeline with a group adds exactly one job, numbered with the next id, when it runs in the background (`Running`) or its foreground wait stops (`Suspended`), and none otherwise |
| Executor.JobNotice | src/engine/executor.rs:784-806 | one notice line per added job, opening with `[id] ` (after a blank line for a stopped job) |
| Executor.SpawnNext | src/engine/executor.rs:693-762 | one iteration of the stage loop: it spawns stage `i`, takes the pgid from stage 0 and keeps the pipe for the next stage |
| Executor.SpawnStages | src/engine/executor.rs:79-762 | the stage loop spawns the stages with arguments in order, each wired to its predecessor, until one fails; the stages it reached are those examined, plus the failing one |
| Executor.RunStages | src/engine/executor.rs:79-874 | a non-built-in pipeline spawns its stages; once the last has run, it has printed every stage's tip and then the job notice, and the jobs and the failure context change as `Finish` says; if it never got there, the jobs and the failure context are unchanged and only the tips of the stages reached were printed |
| Executor.HandleCd | src/engine/executor.rs:958-1015 | `cd` enters the resolved target when it is a directory, else the jump tool's answer, else fails naming the word as typed; a failed change leaves the cwd |
| Executor.ResumeJob | src/engine/executor.rs:111-157 | a missing, unparsable or unknown id prints "job not found" and returns Ok; a known job is resumed with one line printed |
| Executor.VarBuiltin | src/engine/executor.rs:159-211 | `set`, `unset` and `path` change the variables exactly as their arguments say |
| Executor.StackBuiltin | src/engine/executor.rs:212-230 | `pushd`, `popd` and `dirs` change the stack and the cwd as `Pushd` and `Popd` do, and print the stack line |
| Executor.MacroBuiltin | src/engine/executor.rs:231-261 | `macro set` defines, `macro unset` removes, and a failed save is the result |
| Executor.TerminalBuiltin | src/engine/executor.rs:632-667 | `preview`, `minimap`, `effect` and `vibe` each send one terminal action, or print a usage line and send nothing |
| Executor.RunBuiltin | src/engine/executor.rs:87-667 | a built-in never touches the job table or the failure context; the variables, the directory, the stack and the macros end exactly as `VarsAfter`, `DirsAfter` and `MacrosAfter` say |
| Executor.VarsAfter | src/engine/executor.rs:159-211 | only `set`, `unset` and `path` change the variables; `set` assigns its key, `unset` drops its key, `path` changes nothing but `PATH` |
| Executor.CdDest | src/engine/executor.rs:958-1015 | `cd` moves only when the target resolves and the change succeeds, and then to the target or to the jump tool's answer; an existing directory is entered as the target |
| Executor.DirsAfter | src/engine/executor.rs:212-230 | only `pushd`, `popd` and `cd` move; only `pushd` and `popd` change the stack, `pushd` by pushing the directory it leaves, `popd` by dropping the top it may enter |
| Executor.MacrosAfter | src/engine/executor.rs:231-261 | `macro set` defines exactly its name with its template, `macro unset` removes exactly its name, and the other forms change nothing |
| Executor.RunEnvBuiltin | src/engine/executor.rs:159-230 | the variables end as `VarsAfter` says and the directory and the stack as `DirsAfter` says, so each built-in touches only its own part of the store |
| Executor.ExecutePipeline | src/engine/executor.rs:67-902 | a built-in spawns nothing, leaves the jobs alone and leaves the stores as `VarsAfter`, `DirsAfter` and `MacrosAfter` say; otherwise the stores are unchanged, the tips and the job notice are printed, the jobs grow by `AddedJobs`, and the failure context records the command and captured stderr or is cleared |
| Executor.ExecuteCommand | src/engine/executor.rs:15-65 | the line is macro-expanded and parsed; the stores, the jobs and the printed lines end as `execute_pipeline` leaves them; a recorded failure stores the command and captured stderr; an error that left no failure context records the expanded line and the message, and one that did keeps it |
| Suggestions.Dropped | src/ui/suggestions.rs:22 | `retain` keeps at most the entries there were |
| Suggestions.DroppedMembers | src/ui/suggestions.rs:22 | an entry survives iff it was stored and differs from the command |
| Suggestions.DroppedOrder | src/ui/suggestions.rs:22 | the survivors keep their relative order |
| Suggestions.DroppedDistinct | src/ui/suggestions.rs:22 | dropping keeps the entries distinct |
| Suggestions.LatestFrom | src/ui/suggestions.rs:29-30 | the reverse search finds the most recent stored command that properly extends the input, or reports that none does |
| Suggestions.Suggest | src/ui/suggestions.rs:26-32 | an empty input has no suggestion |
| Suggestions.SuggestMeaning | src/ui/suggestions.rs:26-32 | a suggestion is a non-empty tail that completes the most recent extending command; there is none iff the input is empty or nothing extends it, so an equal command is never suggested |
| Suggestions.AddThenSuggest | src/ui/suggestions.rs:19-31 | after adding `c`, every proper prefix of `c` suggests the rest of `c` |
| Suggestions.CommandTrie.constructor | src/ui/suggestions.rs:15-17 | a new history is empty |
| Suggestions.CommandTrie.Add | src/ui/suggestions.rs:19-24 | an empty command is ignored; otherwise older copies are dropped and the command is appended, and the history stays duplicate-free |
| Suggestions.AddMeaning | src/ui/suggestions.rs:22-23 | after `add(c)`, `c` occurs exactly once and last, and the other entries keep their relative order |
| Suggestions.Hint | src/ui/suggestions.rs:67-80 | an empty line has no hint; an abbreviation of the trimmed line wins, shown as ` (expansion)`; every other line gets exactly the history suggestion, which completes a stored command |
| Prompt.Relative | src/ui/prompt.rs:119-123 | the home directory becomes `~` once, only when the path starts with it as a string |
| Prompt.ShortPart | src/ui/prompt.rs:132-144 | each component contributes at most one piece |
| Prompt.ShortenPath | src/ui/prompt.rs:115-151 | the component loop computes `Shortened` |
| Prompt.ShortenedLeadingSlash | src/ui/prompt.rs:146-150 | the result starts with `/` iff the home-substituted path does |
| Prompt.ShortenedKeepsLast | src/ui/prompt.rs:132-144 | the last component is kept whole |
| Prompt.InteriorShrinks | src/ui/prompt.rs:132-144 | every piece before the last is `~` or a single character |
| Prompt.InitialsAreFirstChars | src/ui/prompt.rs:139-141 | an interior component becomes its first character |
| Prompt.ShortPartsUnderHome | src/ui/prompt.rs:132-144 | under home the pieces are `~` followed by the initials of the interior components |
| Prompt.ShortenedUnderHome | src/ui/prompt.rs:115-151 | a path under home becomes `~`, the initials of the interior components and the last component, joined by `/`; the test at lines 158-163 (`~/D/p/c/chev-shell`) is an instance |
| Prompt.ShortPartsOfHome | src/ui/prompt.rs:132-144 | below home the pieces are `~`, the initials of the components in between, and the last component whole |
| Prompt.ShortenedOfHome | src/ui/prompt.rs:115-151 | a path below home shortens to its pieces joined by `/` |
| Prompt.RelativeUnderHome | src/ui/prompt.rs:119-123 | a path under home becomes `~/` followed by its components |
| Prompt.SemanticMarks | src/ui/prompt.rs:19-50 | the coloured prompt starts with the OSC 133;A mark and ends with the OSC 133;B mark exactly when `semantic` |
| Prompt.VisibleConcat | src/ui/prompt.rs:19-50 | the visible text of two pieces is the visible text of each, with the zero-width codes between `\x01` and `\x02` removed |
| Prompt.MarkShowsNothing | src/ui/prompt.rs:19-50 | a wrapped colour code or mark shows nothing |
| Prompt.TextShowsItself | src/ui/prompt.rs:19-50 | plain text shows itself |
| Prompt.UserHostShows | src/ui/prompt.rs:25-30 | the coloured `user@host` shows as `user@host` |
| Prompt.PathShows | src/ui/prompt.rs:31-34 | the coloured path shows as the path |
| Prompt.GitShows | src/ui/prompt.rs:36-40 | the coloured git part shows as ` (branch)`, or nothing when there is no branch |
| Prompt.FrontShows | src/ui/prompt.rs:22-34 | the shell, user@host and path show as in the plain prompt |
| Prompt.BodyShows | src/ui/prompt.rs:22-49 | the coloured prompt between the marks shows the plain fields, the git part and `> ` |
| Prompt.ColoredShows | src/ui/prompt.rs:19-50 | the coloured prompt shows the same text whether or not the marks are there |
| Prompt.ColoredShowsPlain | src/ui/prompt.rs:14-50 | the visible text of the coloured prompt ends in `> `, and before that it is the plain prompt (`to_plain_string`) |
| Completion.Matching | src/ui/completion.rs:42-53 | the filter keeps at most the table's rows |
| Completion.MatchingMembers | src/ui/completion.rs:45-52 | a candidate is offered iff its row's name starts with the target, with `name - desc` shown and `name` as the replacement |
| Completion.MatchingAll | src/ui/completion.rs:43-52 | with no target every row is offered, in table order |
| Completion.CompleteTable | src/ui/completion.rs:30-56 | the loop computes the matching rows in table order, and the start is `pos` minus the target's length |
| Completion.Completed | src/ui/completion.rs:8-24 | a replacement start is never after `pos` |
| Completion.Complete | src/ui/completion.rs:8-28 | `complete` dispatches on the first word before the cursor and computes `Completed` |
| Completion.CompletedMeaning | src/ui/completion.rs:8-28 | no words give `(pos, [])`; `git` and `docker` offer exactly the rows matching the second word, or all rows with no second word; anything else goes to path completion |
| Completion.TrailingWord | src/ui/completion.rs:9-10 | the word under the cursor is a suffix of the text before it |
| Completion.ReplacedTextAfterSpace | src/ui/completion.rs:54-55 | after `git` and a sub-command and a space, the text the candidates replace is not the word they matched |
| Completion.CompletedAtCursor | src/ui/completion.rs:17-24 | with the start at the word under the cursor, the start is never after `pos` |
| Completion.CompletedAtCursorReplacesTyped | src/ui/completion.rs:42-55 | every offered candidate extends exactly the text it replaces |
| Protocol.Flag | src/ui/protocol.rs:41 | `true` is `1` and `false` is `0`, each iff |
| Protocol.Encode | src/ui/protocol.rs:20-68 | every action is `ESC ] 1338 ;`, its body, and BEL |
| Protocol.BodyShape | src/ui/protocol.rs:22-64 | the body is the name, `;` and the payload: `notify` has title and message, the text variants their text verbatim, the flags `1`/`0`, the effect its name or `none`; `request-history` has no payload |
| Protocol.TagIsNamePrefix | src/ui/protocol.rs:20-68 | the first two characters of a name tell the variant |
| Protocol.NameDetermined | src/ui/protocol.rs:20-68 | two actions whose names agree in two characters have the same name |
| Protocol.BodyStartsWithName | src/ui/protocol.rs:20-68 | every body starts with its name |
| Protocol.NotifySplit | src/ui/protocol.rs:22-24 | without `;` in the title, the notify body splits back into title and message |
| Protocol.EffectNoneCollides | src/ui/protocol.rs:44-47 | `BackgroundEffect(None)` and `BackgroundEffect(Some("none"))` encode the same |
| Protocol.EncodeInjective | src/ui/protocol.rs:20-68 | apart from a `;` in a notify title and an effect named `none`, different actions encode differently |
| Browser.ExtractAttr | src/ui/browser.rs:293-302 | the value never contains a quote |
| Browser.ExtractAttrWritten | src/ui/browser.rs:293-302 | the value is the text between the first `attr="` and the next quote |
| Browser.ExtractAttrMissing | src/ui/browser.rs:293-302 | without `attr="` the value is empty |
| Browser.ScanFromAppend | src/ui/browser.rs:225-274 | the character loop over two pieces is the loop over the first, continued over the second |
| Browser.ScanKeepsSkipAgreeing | src/ui/browser.rs:253-260 | the skip flag is set exactly while the skip counter is positive |
| Browser.InTagScan | src/ui/browser.rs:269-270 | characters inside a tag go to the tag text and not to the output |
| Browser.TextScan | src/ui/browser.rs:271-273 | text outside tags reaches the output unless it is inside a script or style body |
| Browser.OpenScan | src/ui/browser.rs:226-229 | `<` starts a new tag text |
| Browser.OpenTagScan | src/ui/browser.rs:226-266 | a whole tag `<t>` does what the closing `>` does with the tag text `t` |
| Browser.CloseTagOutput | src/ui/browser.rs:253-265 | a closing `>` adds one newline for the break tags `p`, `div`, `br`, `h1`-`h3`, `li` and their closing forms, and nothing else |
| Browser.TagScan | src/ui/browser.rs:226-266 | a whole tag adds at most its newline to the output |
| Browser.NoMarkupInOutput | src/ui/browser.rs:225-274 | `<` and `>` never reach the output |
| Browser.CloseSkipCounts | src/ui/browser.rs:256-260 | `/script` or `/style` lowers the skip counter, saturating at 0, and adds nothing |
| Browser.CloseSkipTag | src/ui/browser.rs:256-260 | a whole `</script>` or `</style>` lowers the counter, saturating at 0 |
| Browser.MetaAfterFirstWins | src/ui/browser.rs:241-251 | a meta tag never overwrites a title or description already set, or an image already found |
| Browser.StepMeta | src/ui/browser.rs:231-251 | only a closing `>` changes the metadata, reading the lower-cased tag text |
| Browser.MetaFirstWins | src/ui/browser.rs:225-274 | over any text, the metadata fields are first-wins |
| Browser.TitleBounds | src/ui/browser.rs:278-279 | the `<title>` and `</title>` positions found lie within the page |
| Browser.CloseAfterOpen | src/ui/browser.rs:279 | `</title>` is searched after the opening tag, so it is found after it |
| Browser.TitleFromPage | src/ui/browser.rs:276-283 | without a meta title, a page with `<title>t</title>` in any case gets the title `t`, trimmed |
| Browser.TitleFromAt | src/ui/browser.rs:280 | the title is the trimmed original text between the tags |
| Browser.TitleBoundsOfPage | src/ui/browser.rs:278-279 | the search finds the first `<title>` and the `</title>` after it |
| Browser.CleanLines | src/ui/browser.rs:285-288 | trimming and dropping empty lines keeps at most the lines there were |
| Browser.CleanLinesShape | src/ui/browser.rs:285-288 | every line kept is non-empty, trimmed at both ends, and has no line break |
| Browser.ExtractContent | src/ui/browser.rs:216-291 | the character loop computes the scan; the text is its output's cleaned lines joined by newlines, and the metadata is the scan's with the title fallback |
| Browser.ExtractedLines | src/ui/browser.rs:285-290 | the returned text splits back into its lines, each non-empty and trimmed |
| Browser.Truncated | src/ui/browser.rs:162-166 | a value of at most 44 characters is kept; a longer one becomes its first 41 characters and `...`, 44 in all |
| Browser.TruncatedIdempotent | src/ui/browser.rs:171-175 | truncating twice is truncating once |
| Browser.CardTitle | src/ui/browser.rs:161-166 | an empty title shows "Webpage Content"; otherwise the title is truncated |
| Effects.ReadEscape | src/ui/effects.rs:39-50 | the inner loop reads ESC, then non-letters, then the first ASCII letter if the line has one |
| Effects.SegmentLine | src/ui/effects.rs:24-66 | the segments reproduce the line exactly; escape sequences end at their first letter; text runs are non-empty, have no ESC and are never adjacent; the visible length counts the text characters; `is_secondary` iff the line starts with a space |
| Effects.TerminatedExclusive | src/ui/effects.rs:46-49 | an escape sequence is either complete or cut short by the end of the line, never both |
| Effects.ScannedText | src/ui/effects.rs:51-55 | a visible character extends the pending text and the count |
| Effects.ScannedEscape | src/ui/effects.rs:34-50 | an escape flushes the pending text and adds itself as one segment |
| Effects.ScannedDone | src/ui/effects.rs:57-59 | after the last flush the segments are well formed and reproduce the line |
| Strings.TrimStart | src/engine/parser.rs:60 | exactly the leading whitespace is removed, and what is left does not start with whitespace |
| Strings.TrimEnd | src/ui/browser.rs:286 | exactly the trailing whitespace is removed, and what is left is a prefix that does not end with whitespace |
| Strings.WordPrefix | src/engine/macros.rs:60 | the first word is a whitespace-free prefix, followed by whitespace or the end |
| Strings.Split | src/engine/env.rs:75 | `split` gives at least one part, and no part contains the separator |
| Strings.FindFrom | src/ui/browser.rs:279 | the search from a position gives the first occurrence at or after it, and `None` only when there is none |
| Strings.ParseUsize | src/engine/executor.rs:112 | a parsed `usize` never exceeds 2^64 - 1 |
| Strings.ReplaceRemovesChar | src/engine/macros.rs:75 | replacing every `$` with text that has none leaves no `$` |
| Strings.ReplaceHere | src/engine/macros.rs:72 | `replace` rewrites an occurrence at the start and continues after it |
| Macros.DropDollar | src/engine/macros.rs:75 | with no arguments, a leading `$` is replaced by nothing |
| Macros.FirstSlotPass | src/engine/macros.rs:70-73 | the `$1` pass fills the first slot and leaves `$2` alone |
| Macros.SecondSlotPass | src/engine/macros.rs:70-73 | the `$2` pass fills the second slot |
| Suggestions.AppendBefore | src/ui/suggestions.rs:23 | appending a command does not change the order of the other entries |
| Protocol.FirstSemicolon | src/ui/protocol.rs:22-24 | in `title;message` with a `;`-free title, the first `;` is the one after the title |
| Strings.Trim | src/ui/suggestions.rs:73 | the trimmed text neither starts nor ends with whitespace |
| Strings.WordsAreWords | src/engine/macros.rs:60 | `split_whitespace` gives non-empty words without whitespace |
| Strings.WordsOfJoin | src/engine/macros.rs:60 | splitting words joined by single spaces gives the words back |
| Strings.JoinSplit | src/engine/env.rs:75 | splitting at a separator and joining with it gives the text back |
| Strings.SplitJoin | src/engine/env.rs:87-88 | joining separator-free parts and splitting again gives the parts back |
| Strings.Find | src/ui/browser.rs:295 | `find` gives the first occurrence, or `None` when there is none |
| Strings.ReplaceAbsent | src/engine/macros.rs:72 | `replace` without an occurrence changes nothing |
| Strings.NatToString | src/engine/executor.rs:97 | decimal digits without a leading zero |
| Strings.DigitsValueOfNat | src/engine/executor.rs:97 | the decimal text of a number reads back as that number |
| Strings.ParseUsizeOfNat | src/engine/executor.rs:112 | `parse::<usize>` of the decimal text of a number in range gives the number |
| Strings.LowerAscii | src/ui/browser.rs:233 | lower-casing keeps the length and maps each character |

## Left out

- Process control is an input: `tokio::process` spawning, the pipe
  handles, `tcsetpgrp`, `waitpid`, `kill(SIGCONT)`, `isatty` and the
  stderr-drain task become the answers in `Executor.Os`. The model does not
  capture concurrency between the stages, or the terminal handed to the
  process group and back.
- Executor.WaitForeground: `waitpid` on the pgid is modelled as the
  sequence of statuses it reports. The model does not capture which
  process of the group reports them.
- Executor.Finish: the non-unix `child.wait` branch and the unix branch
  without a process group are the same `ChildExit` answer.
- Executor.RunBuiltin: the bodies of the `ai`, `rio` and `chev` built-ins
  (HTTP to the model server, the vector store, shell-outs to cargo, brew
  and sudo) are left out. They return Ok and leave the jobs, the
  environment and the failure context alone. `ai` stores an abstract
  assistant answer as the last suggestion.
- The proactive-fix and history-recording tasks that `execute_command` and
  `execute_pipeline` spawn in the background are left out: they run
  concurrently and talk to the network.
- Executor.ExecutePipeline: the last stage's standard error is echoed to
  the shell's own standard error while it is captured
  (`src/engine/executor.rs` line 775). The model keeps only the captured
  text, as `Captured`, and does not return the echo among the printed
  lines.
- Executor.VarBuiltin: `set` with no argument and `macro` with no
  sub-command print the store in hash-map order, which is unspecified.
  The model prints nothing for them.
- Executor.HandleCd: `path.exists() && is_dir()` and `zoxide query` are
  the answers `isDir` and `zoxideDir`. The `zoxide add` calls are left
  out.
- Env.EnvManager.Pushd: `env::current_dir` and `env::set_current_dir` are
  error parameters, and the cwd is a field of the store.
- Env.EnvManager.Pushd, Env.EnvManager.Popd, Env.EnvManager.GetStack and
  Executor.HandleCd store the directory text as given (for example `..`
  or a relative path). The source reads the cwd back with
  `env::current_dir`, which yields the absolute, resolved path
  (`src/engine/env.rs` lines 46 and 61-70). The model does not capture
  path resolution, so its stack entries and stack line can differ from the
  source's whenever a relative path was entered.
- Env.EnvManager.AddToPath: `PATH` is read from the store rather than from
  the process environment. Entries are compared as strings, not as
  `PathBuf` components, and joining fails exactly when an entry holds `:`.
- Env.EnvManager.SetVar: the mirror write to the process environment is
  left out.
- Macros.MacroManager.SetMacro: the JSON save is a `saved` flag. `load`
  and the home-directory setup in `MacroManager::new` are left out.
- Jobs.JobManager.AddJob: `Instant::now()` is a parameter in whole
  seconds.
- Jobs.JobManager.AddJob: `next_id` is a `usize` in the source
  (`src/engine/jobs.rs` lines 45-47). The model's next id is an unbounded
  `nat` that never wraps. The distinct-id property therefore holds only
  below 2^64 jobs for the source.
- The `Parse error` branch of `execute_command` cannot be taken, because
  `parse_pipeline` never fails. `Executor.ExecuteCommand` therefore has
  no parse-error path.
- Strings.LowerAscii: Rust's `to_lowercase` is Unicode-aware. The model
  lower-cases ASCII letters only.
- Completion.Completed, Completion.Complete and Completion.CompleteTable:
  the source's `pos` and the start it returns are byte offsets. The line is
  cut with `split_at(pos)` (`src/ui/completion.rs` lines 9 and 54), which
  panics when `pos` is not on a character boundary. The model counts
  characters, so it agrees with the source on ASCII lines only, and it
  does not model the panic.
- Browser.Truncated: the source measures and slices in bytes, and can
  panic on a multi-byte boundary. The model counts characters.
- The animation of the intro (`src/ui/effects.rs` lines 68-131) uses
  randomness and timing and is left out. Only the segmentation is
  modelled.
- The float variants of `RioAction` (`Opacity`, `SplitPane`,
  `ProgressBar`, `Spectrum`, `HistoryAdd`) depend on float formatting and
  are left out. The final `print!` is I/O.
- `complete_path` reads a directory and is left out. The model returns
  the text before the cursor it would be given.
- `get_hostname`, `get_git_info`, `get_prompt_parts` and the cursor escape
  of `pre_prompt` shell out or print. The prompt parts are a value.
- The broot split pane that `tree` opens (`src/engine/executor.rs` lines
  679-691) is a terminal action and is left out.
- src/main.rs, src/ui/vibe.rs, src/ui/chat.rs, `run_ai_browser`,
  `preview_remote_image` and `wait_for_exit` are not part of this model.
  They are readline, audio, network and stdin loops.

## Findings

| source | as written | input that shows it | evidently intended | confidence | as-written member | corrected member |
|---|---|---|---|---|---|---|
| src/ui/completion.rs:54-55 | `complete` completes a sub-command from the second word even when the cursor has moved past it. The start is `pos - len(second word)`, so it reaches back over the space into that word. | `git commit ` with the cursor at the end: the candidate `commit` replaces `ommit `. | The candidates replace the word under the cursor. A sub-command is offered only while the cursor is in the second word or just after the first. | not executed | Completion.ReplacedTextAfterSpace | Completion.CompletedAtCursorReplacesTyped |

`Completion.Completed` and `Completion.Complete` model `complete` as
written. `Completion.CompletedAtCursor` is the corrected definition.

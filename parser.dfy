/** The pipeline parser of the shell (src/engine/parser.rs): a command line
    becomes a `Pipeline` of `Command`s, each with its arguments and its
    redirections, plus a background flag. The Rust code is built from `nom`
    combinators; their behaviour is written out here: a parser either fails
    or returns its value and the unconsumed input. */
module Parser {
  import opened Wrappers
  import opened Strings

  datatype Redirection = Stdout(path: string) | Stderr(path: string) | Append(path: string) | StderrToStdout

  datatype Command = Command(args: seq<string>, redirections: seq<Redirection>)

  datatype Pipeline = Pipeline(commands: seq<Command>, background: bool)

  /** A successful parse: the value and the input left over. */
  datatype Parsed<T> = Parsed(value: T, rest: string)

  /** `r` is what remains of `s` after a parser consumed a prefix. */
  predicate IsSuffix(r: string, s: string) {
    |r| <= |s| && r == s[|s| - |r|..]
  }

  /** The characters `nom`'s `multispace0` skips. */
  predicate IsMultispace(c: char) {
    c == ' ' || c == '\t' || c == '\r' || c == '\n'
  }

  /** `multispace0`: skips any run of spaces, tabs, carriage returns and line feeds. */
  function Multispace0(s: string): (r: string)
    ensures |r| <= |s|
    ensures r == [] || !IsMultispace(r[0])
    ensures forall i :: 0 <= i < |s| - |r| ==> IsMultispace(s[i])
  {
    if s != [] && IsMultispace(s[0]) then Multispace0(s[1..]) else s
  }

  lemma Multispace0Idempotent(s: string)
    ensures Multispace0(Multispace0(s)) == Multispace0(s)
  {
  }

  /** A character a simple word may hold: `is_not(" |><&")`. */
  predicate IsWordChar(c: char) {
    c != ' ' && c != '|' && c != '>' && c != '<' && c != '&'
  }

  /** The longest prefix of `s` made of word characters. */
  function WordRun(s: string): (w: string)
    ensures w <= s
    ensures forall i :: 0 <= i < |w| ==> IsWordChar(w[i])
    ensures |w| < |s| ==> !IsWordChar(s[|w|])
  {
    if s != [] && IsWordChar(s[0]) then [s[0]] + WordRun(s[1..]) else []
  }

  /** The longest prefix of `s` without a double quote. */
  function QuoteFreeRun(s: string): (w: string)
    ensures w <= s && '"' !in w
    ensures |w| < |s| ==> s[|w|] == '"'
  {
    if s != [] && s[0] != '"' then [s[0]] + QuoteFreeRun(s[1..]) else []
  }

  /** A simple word: a maximal non-empty run of word characters. */
  function ParseWord(s: string): (r: Option<Parsed<string>>)
    ensures r.Some? <==> s != [] && IsWordChar(s[0])
    ensures r.Some? ==> s == r.value.value + r.value.rest && r.value.value != []
    ensures r.Some? ==> forall i :: 0 <= i < |r.value.value| ==> IsWordChar(r.value.value[i])
    ensures r.Some? ==> r.value.rest == [] || !IsWordChar(r.value.rest[0])
  {
    var w := WordRun(s);
    if w == [] then None else Some(Parsed(w, s[|w|..]))
  }

  /** `delimited(tag("\""), is_not("\""), tag("\""))`: a double quote, at least
      one other character, and the closing quote. */
  function ParseQuoted(s: string): (r: Option<Parsed<string>>)
    ensures r.Some? ==> s == "\"" + r.value.value + "\"" + r.value.rest
    ensures r.Some? ==> r.value.value != [] && '"' !in r.value.value
  {
    if s == [] || s[0] != '"' then None
    else
      var body := QuoteFreeRun(s[1..]);
      if body == [] || 1 + |body| >= |s| then None
      else
        assert s == "\"" + body + "\"" + s[|body| + 2..];
        Some(Parsed(body, s[|body| + 2..]))
  }

  /** `parse_argument`: a quoted string, or else a simple word. */
  function ParseArgument(s: string): (r: Option<Parsed<string>>)
    ensures r.Some? ==> |r.value.rest| < |s| && r.value.value != []
  {
    match ParseQuoted(s)
    case Some(q) => Some(q)
    case None => ParseWord(s)
  }

  /** The operator `op`, optional whitespace, then an argument as the target. */
  function ParseTarget(s: string, op: string): (r: Option<Parsed<string>>)
    requires op != []
    ensures r.Some? ==> |r.value.rest| < |s| && r.value.value != []
  {
    if op <= s then ParseArgument(Multispace0(s[|op|..])) else None
  }

  /** `parse_redirection`: the operators are tried longest first —
      `2>&1`, then `>>`, then `2>`, then `>`. */
  function ParseRedirection(s: string): (r: Option<Parsed<Redirection>>)
    ensures r.Some? ==> |r.value.rest| < |s|
    ensures r.Some? ==> r.value.value.StderrToStdout? || r.value.value.path != []
    ensures r.Some? ==> s[0] == '2' || s[0] == '>'
  {
    if "2>&1" <= s then Some(Parsed(StderrToStdout, s[4..]))
    else match ParseTarget(s, ">>")
      case Some(t) => Some(Parsed(Append(t.value), t.rest))
      case None =>
        match ParseTarget(s, "2>")
        case Some(t) => Some(Parsed(Stderr(t.value), t.rest))
        case None =>
          match ParseTarget(s, ">")
          case Some(t) => Some(Parsed(Stdout(t.value), t.rest))
          case None => None
  }

  predicate AtCommandEnd(s: string) {
    s == [] || s[0] == '|' || s[0] == '&'
  }

  /** The loop of `parse_single_command`, from the input `cur` still to read
      and the arguments and redirections gathered so far. At each position a
      redirection is tried before an argument; the loop stops at the end of
      the input, at `|`, at `&`, or where neither parser applies. */
  function CommandLoop(cur: string, args: seq<string>, reds: seq<Redirection>): (r: Parsed<Command>)
    ensures |r.rest| <= |cur|
    decreases |cur|
  {
    if cur == [] || cur[0] == '|' || cur[0] == '&' then Parsed(Command(args, reds), cur)
    else
      var next := Multispace0(cur);
      if AtCommandEnd(next) then Parsed(Command(args, reds), next)
      else match ParseRedirection(next)
        case Some(red) => CommandLoop(red.rest, args, reds + [red.value])
        case None =>
          match ParseArgument(next)
          case Some(arg) => CommandLoop(arg.rest, args + [arg.value], reds)
          case None => Parsed(Command(args, reds), next)
  }

  /** What `parse_single_command` returns: it never fails. The command may
      have no arguments (an empty input, or nothing between two pipes). */
  function SingleCommand(input: string): (r: Parsed<Command>)
    ensures |r.rest| <= |input|
  {
    CommandLoop(Multispace0(input), [], [])
  }

  /** `parse_single_command`, the `while` loop that pushes into `args` and
      `redirections` as it consumes the input. */
  method ParseSingleCommand(input: string) returns (p: Parsed<Command>)
    ensures p == SingleCommand(input)
  {
    var current := Multispace0(input);
    var args: seq<string> := [];
    var redirections: seq<Redirection> := [];
    while current != [] && current[0] != '|' && current[0] != '&'
      invariant CommandLoop(current, args, redirections) == SingleCommand(input)
      decreases |current|
    {
      current := Multispace0(current);
      if current == [] || current[0] == '|' || current[0] == '&' {
        break;
      }
      var red := ParseRedirection(current);
      if red.Some? {
        redirections := redirections + [red.value.value];
        current := red.value.rest;
      } else {
        var arg := ParseArgument(current);
        if arg.Some? {
          args := args + [arg.value.value];
          current := arg.value.rest;
        } else {
          break;
        }
      }
    }
    p := Parsed(Command(args, redirections), current);
  }

  /** The separator `(multispace0, tag("|"), multispace0)`. */
  function Separator(s: string): (r: Option<string>)
    ensures r.Some? ==> |r.value| < |s|
  {
    var a := Multispace0(s);
    if a != [] && a[0] == '|' then Some(Multispace0(a[1..])) else None
  }

  /** The tail of `separated_list1`: as long as a separator follows, one more command. */
  function MoreCommands(s: string, acc: seq<Command>): (r: Parsed<seq<Command>>)
    ensures |r.value| >= |acc| && acc <= r.value
    ensures |r.rest| <= |s|
    ensures Separator(r.rest).None?
    decreases |s|
  {
    match Separator(s)
    case None => Parsed(acc, s)
    case Some(t) =>
      var c := SingleCommand(t);
      MoreCommands(c.rest, acc + [c.value])
  }

  /** `separated_list1(sep, parse_single_command)`: since a command always
      parses, there is at least one. */
  function CommandList(s: string): (r: Parsed<seq<Command>>)
    ensures |r.value| >= 1
    ensures |r.rest| <= |s|
  {
    var first := SingleCommand(s);
    MoreCommands(first.rest, [first.value])
  }

  /** `parse_pipeline`: the commands, then optional whitespace and an optional
      `&`. It never fails; whatever it does not consume is returned as `rest`. */
  function ParsePipeline(s: string): (r: Parsed<Pipeline>)
    ensures |r.value.commands| >= 1
    ensures |r.rest| <= |s|
    ensures r.value.background <==> (var t := Multispace0(CommandList(s).rest); t != [] && t[0] == '&')
  {
    var list := CommandList(s);
    var t := Multispace0(list.rest);
    if t != [] && t[0] == '&' then Parsed(Pipeline(list.value, true), t[1..])
    else Parsed(Pipeline(list.value, false), t)
  }

  // ---------------------------------------------------------------------
  // Arguments

  /** A double-quoted argument yields its inner text verbatim. */
  lemma {:induction false} QuotedArgument(body: string, rest: string)
    requires body != [] && '"' !in body
    ensures ParseArgument("\"" + body + "\"" + rest) == Some(Parsed(body, rest))
  {
    var s := "\"" + body + "\"" + rest;
    assert s[1..] == body + ("\"" + rest);
    QuoteFreeRunOf(body, "\"" + rest);
    assert s[|body| + 2..] == rest;
  }

  lemma {:induction false} QuoteFreeRunOf(w: string, t: string)
    requires '"' !in w
    requires t == [] || t[0] == '"'
    ensures QuoteFreeRun(w + t) == w
  {
    if w != [] {
      assert (w + t)[1..] == w[1..] + t;
      QuoteFreeRunOf(w[1..], t);
    }
  }

  lemma {:induction false} WordRunOf(w: string, t: string)
    requires forall i :: 0 <= i < |w| ==> IsWordChar(w[i])
    requires t == [] || !IsWordChar(t[0])
    ensures WordRun(w + t) == w
  {
    if w != [] {
      assert (w + t)[1..] == w[1..] + t;
      WordRunOf(w[1..], t);
    }
  }

  /** `""` fails the quoted branch (it needs at least one character between
      the quotes), so it is read as a simple word that keeps the quotes. */
  lemma {:induction false} EmptyQuotesAreAWord(rest: string)
    ensures var r := ParseArgument("\"\"" + rest);
      r == ParseWord("\"\"" + rest) && r.Some? && "\"\"" <= r.value.value
  {
    var s := "\"\"" + rest;
    assert QuoteFreeRun(s[1..]) == [];
    assert WordRun(s) == [s[0]] + WordRun(s[1..]);
    assert WordRun(s[1..]) == [s[1]] + WordRun(s[2..]);
  }

  /** An unterminated quote fails the quoted branch; the text is read as a
      simple word that starts with the quote character. */
  lemma {:induction false} UnterminatedQuoteIsAWord(body: string)
    requires '"' !in body
    ensures var r := ParseArgument("\"" + body);
      r == ParseWord("\"" + body) && r.Some? && r.value.value[0] == '"'
  {
    var s := "\"" + body;
    assert s[1..] == body;
    QuoteFreeRunOf(body, []);
    assert body + [] == body;
  }

  // ---------------------------------------------------------------------
  // Where a command stops

  /** The loop ends at the end of the input, at `|` or `&`, or at text that
      neither a redirection nor an argument accepts (such as `<`); what it
      gathered before is kept, in order. */
  lemma {:induction false} CommandLoopStops(cur: string, args: seq<string>, reds: seq<Redirection>)
    ensures var r := CommandLoop(cur, args, reds);
      && (AtCommandEnd(r.rest) || (ParseRedirection(r.rest).None? && ParseArgument(r.rest).None?))
      && (r.rest == [] || !IsMultispace(r.rest[0]))
      && args <= r.value.args && reds <= r.value.redirections
    decreases |cur|
  {
    if cur == [] || cur[0] == '|' || cur[0] == '&' {
    } else {
      var next := Multispace0(cur);
      if !AtCommandEnd(next) {
        match ParseRedirection(next)
        case Some(red) =>
          CommandLoopStops(red.rest, args, reds + [red.value]);
        case None =>
          match ParseArgument(next)
          case Some(arg) =>
            CommandLoopStops(arg.rest, args + [arg.value], reds);
          case None =>
      }
    }
  }

  predicate AllNonEmpty(args: seq<string>) {
    forall k :: 0 <= k < |args| ==> args[k] != []
  }

  lemma {:induction false} AllNonEmptyAppend(args: seq<string>, a: string)
    requires AllNonEmpty(args) && a != []
    ensures AllNonEmpty(args + [a])
  {
  }

  /** Every argument the loop gathers is non-empty. */
  lemma {:induction false} CommandLoopArgsNonEmpty(cur: string, args: seq<string>, reds: seq<Redirection>)
    requires AllNonEmpty(args)
    ensures AllNonEmpty(CommandLoop(cur, args, reds).value.args)
    decreases |cur|
  {
    if cur == [] || cur[0] == '|' || cur[0] == '&' {
    } else {
      var next := Multispace0(cur);
      if !AtCommandEnd(next) {
        var red := ParseRedirection(next);
        if red.Some? {
          CommandLoopArgsNonEmpty(red.value.rest, args, reds + [red.value.value]);
        } else {
          var arg := ParseArgument(next);
          if arg.Some? {
            AllNonEmptyAppend(args, arg.value.value);
            CommandLoopArgsNonEmpty(arg.value.rest, args + [arg.value.value], reds);
          }
        }
      }
    }
  }

  /** A command may stop before the end of its text (at `<`, say): what is
      left is returned, and the pipeline parser ends there. Every argument
      gathered is non-empty. */
  lemma {:induction false} SingleCommandStops(input: string)
    ensures var r := SingleCommand(input);
      && (AtCommandEnd(r.rest) || (ParseRedirection(r.rest).None? && ParseArgument(r.rest).None?))
      && AllNonEmpty(r.value.args)
  {
    CommandLoopStops(Multispace0(input), [], []);
    CommandLoopArgsNonEmpty(Multispace0(input), [], []);
  }

  /** Leading whitespace makes no difference to the loop. */
  lemma {:induction false} CommandLoopSkipsSpace(cur: string, args: seq<string>, reds: seq<Redirection>)
    ensures CommandLoop(cur, args, reds) == CommandLoop(Multispace0(cur), args, reds)
  {
    Multispace0Idempotent(cur);
  }

  // ---------------------------------------------------------------------
  // Round trip: text written from a pipeline parses back to that pipeline

  /** A word the simple-word branch reads back as it is. */
  predicate SimpleWord(w: string) {
    && w != [] && w[0] != '"' && !IsMultispace(w[0])
    && forall i :: 0 <= i < |w| ==> IsWordChar(w[i])
  }

  /** Text that can be written as an argument: a simple word, or anything
      non-empty without a double quote (written between quotes). */
  predicate Writable(a: string) {
    SimpleWord(a) || (a != [] && '"' !in a)
  }

  predicate WritableRedirection(r: Redirection) {
    r.StderrToStdout? || Writable(r.path)
  }

  predicate WritableCommand(c: Command) {
    && (forall k :: 0 <= k < |c.args| ==> Writable(c.args[k]))
    && (forall k :: 0 <= k < |c.redirections| ==> WritableRedirection(c.redirections[k]))
  }

  predicate WritablePipeline(p: Pipeline) {
    |p.commands| >= 1 && forall k :: 0 <= k < |p.commands| ==> WritableCommand(p.commands[k])
  }

  function Quote(a: string): string {
    if SimpleWord(a) then a else "\"" + a + "\""
  }

  function RedirectionText(r: Redirection): string {
    match r
    case StderrToStdout => "2>&1"
    case Append(p) => ">> " + Quote(p)
    case Stderr(p) => "2> " + Quote(p)
    case Stdout(p) => "> " + Quote(p)
  }

  /** Each argument preceded by a space. */
  function ArgsText(args: seq<string>): string {
    if args == [] then [] else " " + Quote(args[0]) + ArgsText(args[1..])
  }

  /** Each redirection preceded by a space. */
  function RedirsText(reds: seq<Redirection>): string {
    if reds == [] then [] else " " + RedirectionText(reds[0]) + RedirsText(reds[1..])
  }

  /** A command written as its arguments, then its redirections. */
  function CommandText(c: Command): string {
    ArgsText(c.args) + RedirsText(c.redirections)
  }

  /** The first stage, then each further stage after ` |`. */
  function StagesText(cs: seq<Command>): string
    requires |cs| >= 1
  {
    CommandText(cs[0]) + PipedText(cs[1..])
  }

  function PipedText(cs: seq<Command>): string {
    if cs == [] then [] else " |" + CommandText(cs[0]) + PipedText(cs[1..])
  }

  /** A pipeline written out, with ` &` when it runs in the background. */
  function PipelineText(p: Pipeline): string
    requires |p.commands| >= 1
  {
    StagesText(p.commands) + (if p.background then " &" else "")
  }

  lemma {:induction false} QuoteStart(a: string)
    requires Writable(a)
    ensures Quote(a) != [] && !IsMultispace(Quote(a)[0]) && !AtCommandEnd(Quote(a))
  {
  }

  lemma {:induction false} QuoteReadBack(a: string, rest: string)
    requires Writable(a)
    requires rest == [] || !IsWordChar(rest[0])
    ensures ParseArgument(Quote(a) + rest) == Some(Parsed(a, rest))
  {
    if SimpleWord(a) {
      WordRunOf(a, rest);
      assert (a + rest)[|a|..] == rest;
    } else {
      QuotedArgument(a, rest);
    }
  }

  /** An argument is never taken for a redirection when a space or the end follows it. */
  lemma {:induction false} QuoteIsNoRedirection(a: string, rest: string)
    requires Writable(a)
    requires rest == [] || rest[0] == ' '
    ensures ParseRedirection(Quote(a) + rest).None?
  {
    var s := Quote(a) + rest;
    if SimpleWord(a) {
      assert s[0] == a[0];
      if |a| >= 2 {
        assert s[1] == a[1];
      } else if |s| >= 2 {
        assert s[1] == rest[0];
      }
    } else {
      assert s[0] == '"';
    }
  }

  /** `op`, one space, and a written target. */
  lemma {:induction false} TargetReadBack(op: string, p: string, rest: string)
    requires op != [] && Writable(p)
    requires rest == [] || rest[0] == ' '
    ensures ParseTarget(op + " " + Quote(p) + rest, op) == Some(Parsed(p, rest))
  {
    var s := op + " " + Quote(p) + rest;
    QuoteStart(p);
    assert s[|op|..] == " " + (Quote(p) + rest);
    assert Multispace0(s[|op|..]) == Quote(p) + rest;
    QuoteReadBack(p, rest);
  }

  lemma {:induction false} NotPrefix(op: string, s: string, i: nat)
    requires i < |op| && i < |s| && op[i] != s[i]
    ensures !(op <= s)
  {
  }

  lemma {:induction false} StdoutReadBack(p: string, rest: string)
    requires Writable(p)
    requires rest == [] || rest[0] == ' '
    ensures ParseRedirection(RedirectionText(Stdout(p)) + rest) == Some(Parsed(Stdout(p), rest))
  {
    var s := RedirectionText(Stdout(p)) + rest;
    assert s == ">" + " " + Quote(p) + rest;
    assert s[0] == '>' && s[1] == ' ';
    NotPrefix("2>&1", s, 0);
    NotPrefix(">>", s, 1);
    assert ParseTarget(s, ">>") == None;
    NotPrefix("2>", s, 0);
    assert ParseTarget(s, "2>") == None;
    TargetReadBack(">", p, rest);
  }

  lemma {:induction false} StderrReadBack(p: string, rest: string)
    requires Writable(p)
    requires rest == [] || rest[0] == ' '
    ensures ParseRedirection(RedirectionText(Stderr(p)) + rest) == Some(Parsed(Stderr(p), rest))
  {
    var s := RedirectionText(Stderr(p)) + rest;
    assert s == "2>" + " " + Quote(p) + rest;
    NotPrefix("2>&1", s, 2);
    NotPrefix(">>", s, 0);
    TargetReadBack("2>", p, rest);
  }

  lemma {:induction false} AppendReadBack(p: string, rest: string)
    requires Writable(p)
    requires rest == [] || rest[0] == ' '
    ensures ParseRedirection(RedirectionText(Append(p)) + rest) == Some(Parsed(Append(p), rest))
  {
    var s := RedirectionText(Append(p)) + rest;
    assert s == ">>" + " " + Quote(p) + rest;
    NotPrefix("2>&1", s, 0);
    TargetReadBack(">>", p, rest);
  }

  /** Each written redirection is read back as itself. */
  lemma {:induction false} RedirectionReadBack(r: Redirection, rest: string)
    requires WritableRedirection(r)
    requires rest == [] || rest[0] == ' '
    ensures ParseRedirection(RedirectionText(r) + rest) == Some(Parsed(r, rest))
  {
    match r
    case StderrToStdout =>
      var s := RedirectionText(r) + rest;
      assert "2>&1" <= s;
      assert s[4..] == rest;
    case Append(p) => AppendReadBack(p, rest);
    case Stderr(p) => StderrReadBack(p, rest);
    case Stdout(p) => StdoutReadBack(p, rest);
  }

  /** Text that starts with a space, optional whitespace skipped, is `t`. */
  lemma {:induction false} SpaceThen(t: string)
    requires t != [] && !IsMultispace(t[0])
    ensures Multispace0(" " + t) == t
  {
    assert (" " + t)[1..] == t;
  }

  /** One loop step over text that starts with a space and then something
      the redirection parser accepts. */
  lemma {:induction false} RedirLoopStep(t: string, r: Redirection, more: string, args: seq<string>, reds: seq<Redirection>)
    requires t != [] && !IsMultispace(t[0]) && !AtCommandEnd(t)
    requires ParseRedirection(t) == Some(Parsed(r, more))
    ensures CommandLoop(" " + t, args, reds) == CommandLoop(more, args, reds + [r])
  {
    SpaceThen(t);
  }

  /** One loop step over text that starts with a space and then an argument
      that is no redirection. */
  lemma {:induction false} ArgLoopStep(t: string, a: string, more: string, args: seq<string>, reds: seq<Redirection>)
    requires t != [] && !IsMultispace(t[0]) && !AtCommandEnd(t)
    requires ParseRedirection(t).None? && ParseArgument(t) == Some(Parsed(a, more))
    ensures CommandLoop(" " + t, args, reds) == CommandLoop(more, args + [a], reds)
  {
    SpaceThen(t);
  }

  lemma {:induction false} Assoc(a: string, b: string, c: string)
    ensures a + b + c == a + (b + c)
  {
  }

  /** The loop reads one written argument. */
  lemma {:induction false} ArgStep(a: string, more: string, args: seq<string>, reds: seq<Redirection>)
    requires Writable(a)
    requires more == [] || more[0] == ' '
    ensures CommandLoop(" " + Quote(a) + more, args, reds) == CommandLoop(more, args + [a], reds)
  {
    var t := Quote(a) + more;
    QuoteStart(a);
    Assoc(" ", Quote(a), more);
    QuoteIsNoRedirection(a, more);
    QuoteReadBack(a, more);
    ArgLoopStep(t, a, more, args, reds);
  }

  lemma {:induction false} RedirectionTextStart(r: Redirection)
    ensures RedirectionText(r) != [] && (RedirectionText(r)[0] == '2' || RedirectionText(r)[0] == '>')
  {
  }

  /** The loop reads one written redirection. */
  lemma {:induction false} RedirStep(r: Redirection, more: string, args: seq<string>, reds: seq<Redirection>)
    requires WritableRedirection(r)
    requires more == [] || more[0] == ' '
    ensures CommandLoop(" " + RedirectionText(r) + more, args, reds) == CommandLoop(more, args, reds + [r])
  {
    var t := RedirectionText(r) + more;
    Assoc(" ", RedirectionText(r), more);
    RedirectionTextStart(r);
    assert t[0] == RedirectionText(r)[0];
    RedirectionReadBack(r, more);
    RedirLoopStep(t, r, more, args, reds);
  }

  lemma {:induction false} ArgsTextStart(args: seq<string>)
    ensures ArgsText(args) == [] || ArgsText(args)[0] == ' '
  {
  }

  lemma {:induction false} RedirsTextStart(reds: seq<Redirection>)
    ensures RedirsText(reds) == [] || RedirsText(reds)[0] == ' '
  {
  }

  lemma {:induction false} AppendFirst<T>(acc: seq<T>, xs: seq<T>)
    requires |xs| >= 1
    ensures acc + [xs[0]] + xs[1..] == acc + xs
  {
    assert [xs[0]] + xs[1..] == xs;
  }

  /** One argument of the induction in `ArgsReadBack`. */
  lemma {:induction false} ArgsReadBackStep(ws: seq<string>, rest: string, args: seq<string>, reds: seq<Redirection>)
    requires |ws| >= 1 && Writable(ws[0])
    requires rest == [] || rest[0] == ' '
    requires CommandLoop(ArgsText(ws[1..]) + rest, args + [ws[0]], reds) == CommandLoop(rest, args + ws, reds)
    ensures CommandLoop(ArgsText(ws) + rest, args, reds) == CommandLoop(rest, args + ws, reds)
  {
    var more := ArgsText(ws[1..]) + rest;
    assert ArgsText(ws) + rest == " " + Quote(ws[0]) + more;
    ArgsTextStart(ws[1..]);
    ArgStep(ws[0], more, args, reds);
  }

  /** The loop reads written arguments back into `args`, in order. */
  lemma {:induction false} ArgsReadBack(ws: seq<string>, rest: string, args: seq<string>, reds: seq<Redirection>)
    requires forall k :: 0 <= k < |ws| ==> Writable(ws[k])
    requires rest == [] || rest[0] == ' '
    ensures CommandLoop(ArgsText(ws) + rest, args, reds) == CommandLoop(rest, args + ws, reds)
    decreases |ws|
  {
    if ws == [] {
      assert ArgsText(ws) + rest == rest;
      assert args + ws == args;
    } else {
      ArgsReadBack(ws[1..], rest, args + [ws[0]], reds);
      AppendFirst(args, ws);
      ArgsReadBackStep(ws, rest, args, reds);
    }
  }

  /** One redirection of the induction in `RedirsReadBack`. */
  lemma {:induction false} RedirsReadBackStep(rs: seq<Redirection>, rest: string, args: seq<string>, reds: seq<Redirection>)
    requires |rs| >= 1 && WritableRedirection(rs[0])
    requires rest == [] || rest[0] == ' '
    requires CommandLoop(RedirsText(rs[1..]) + rest, args, reds + [rs[0]]) == CommandLoop(rest, args, reds + rs)
    ensures CommandLoop(RedirsText(rs) + rest, args, reds) == CommandLoop(rest, args, reds + rs)
  {
    var more := RedirsText(rs[1..]) + rest;
    assert RedirsText(rs) + rest == " " + RedirectionText(rs[0]) + more;
    RedirsTextStart(rs[1..]);
    RedirStep(rs[0], more, args, reds);
  }

  /** The loop reads written redirections back into `redirections`, in order. */
  lemma {:induction false} RedirsReadBack(rs: seq<Redirection>, rest: string, args: seq<string>, reds: seq<Redirection>)
    requires forall k :: 0 <= k < |rs| ==> WritableRedirection(rs[k])
    requires rest == [] || rest[0] == ' '
    ensures CommandLoop(RedirsText(rs) + rest, args, reds) == CommandLoop(rest, args, reds + rs)
    decreases |rs|
  {
    if rs == [] {
      assert RedirsText(rs) + rest == rest;
      assert reds + rs == reds;
    } else {
      RedirsReadBack(rs[1..], rest, args, reds + [rs[0]]);
      AppendFirst(reds, rs);
      RedirsReadBackStep(rs, rest, args, reds);
    }
  }

  /** Where the text after a command may go on: nothing, or whitespace and
      then `|` or `&`. */
  predicate CommandTail(tail: string) {
    tail == [] || (tail[0] == ' ' && AtCommandEnd(Multispace0(tail)))
  }

  /** The loop ends at a command tail. */
  lemma {:induction false} TailStops(tail: string, args: seq<string>, reds: seq<Redirection>)
    requires CommandTail(tail)
    ensures CommandLoop(tail, args, reds) == Parsed(Command(args, reds), Multispace0(tail))
  {
  }

  /** A written command, then a tail, parses back to that command. */
  lemma {:induction false} SingleCommandReadBack(c: Command, tail: string)
    requires WritableCommand(c)
    requires CommandTail(tail)
    ensures SingleCommand(CommandText(c) + tail) == Parsed(c, Multispace0(tail))
  {
    var A := ArgsText(c.args);
    var R := RedirsText(c.redirections);
    var s := CommandText(c) + tail;
    Assoc(A, R, tail);
    CommandLoopSkipsSpace(s, [], []);
    RedirsTextStart(c.redirections);
    ArgsReadBack(c.args, R + tail, [], []);
    RedirsReadBack(c.redirections, tail, [] + c.args, []);
    TailStops(tail, [] + c.args, [] + c.redirections);
    EmptyPlus(c.args, c.redirections);
  }

  lemma {:induction false} EmptyPlus(args: seq<string>, reds: seq<Redirection>)
    ensures [] + args == args && [] + reds == reds
  {
  }

  lemma {:induction false} PipeTail(rest: string)
    ensures CommandTail(" |" + rest)
    ensures Multispace0(" |" + rest) == "|" + rest
  {
    assert (" |" + rest)[1..] == "|" + rest;
  }

  /** The two endings a written pipeline can have. */
  lemma {:induction false} PipelineTail(tail: string)
    requires tail == [] || tail == " &"
    ensures CommandTail(tail) && Separator(tail).None?
    ensures Multispace0(tail) == (if tail == [] then [] else "&")
  {
    if tail == " &" {
      assert tail[1..] == "&";
    }
  }

  /** What may follow a command inside a written pipeline. */
  lemma {:induction false} PipedTail(cs: seq<Command>, tail: string)
    requires tail == [] || tail == " &"
    ensures CommandTail(PipedText(cs) + tail)
  {
    if cs == [] {
      assert PipedText(cs) + tail == tail;
      PipelineTail(tail);
    } else {
      Assoc(" |", CommandText(cs[0]) + PipedText(cs[1..]), tail);
      PipeTail(CommandText(cs[0]) + PipedText(cs[1..]) + tail);
    }
  }

  lemma {:induction false} SeparatorBeforeText(t: string)
    ensures Separator("|" + t) == Some(Multispace0(t))
  {
    assert ("|" + t)[1..] == t;
  }

  lemma {:induction false} SingleCommandOfSpaced(t: string)
    ensures SingleCommand(Multispace0(t)) == SingleCommand(t)
  {
    Multispace0Idempotent(t);
  }

  /** One stage after its separator, given that the stages after it read back. */
  lemma {:induction false} MoreCommandsStep(cs: seq<Command>, tail: string, acc: seq<Command>)
    requires |cs| >= 1 && WritableCommand(cs[0])
    requires tail == [] || tail == " &"
    requires MoreCommands(Multispace0(PipedText(cs[1..]) + tail), acc + [cs[0]])
          == Parsed(acc + [cs[0]] + cs[1..], Multispace0(tail))
    ensures MoreCommands(Multispace0(PipedText(cs) + tail), acc) == Parsed(acc + cs, Multispace0(tail))
  {
    var rest := PipedText(cs[1..]) + tail;
    var x := CommandText(cs[0]) + rest;
    assert PipedText(cs) + tail == " |" + x by {
      Assoc(" |" + CommandText(cs[0]), PipedText(cs[1..]), tail);
      Assoc(" |", CommandText(cs[0]), rest);
    }
    PipeTail(x);
    SeparatorBeforeText(x);
    SingleCommandOfSpaced(x);
    PipedTail(cs[1..], tail);
    SingleCommandReadBack(cs[0], rest);
    AppendFirst(acc, cs);
  }

  /** Each further stage is read back after its separator. */
  lemma {:induction false} MoreCommandsReadBack(cs: seq<Command>, tail: string, acc: seq<Command>)
    requires forall k :: 0 <= k < |cs| ==> WritableCommand(cs[k])
    requires tail == [] || tail == " &"
    ensures MoreCommands(Multispace0(PipedText(cs) + tail), acc) == Parsed(acc + cs, Multispace0(tail))
    decreases |cs|
  {
    if cs == [] {
      assert PipedText(cs) + tail == tail;
      PipelineTail(tail);
      assert acc + cs == acc;
    } else {
      MoreCommandsReadBack(cs[1..], tail, acc + [cs[0]]);
      MoreCommandsStep(cs, tail, acc);
    }
  }

  /** The written stages, then an ending, read back as the command list. */
  lemma {:induction false} CommandListReadBack(cs: seq<Command>, tail: string)
    requires |cs| >= 1 && forall k :: 0 <= k < |cs| ==> WritableCommand(cs[k])
    requires tail == [] || tail == " &"
    ensures CommandList(StagesText(cs) + tail) == Parsed(cs, Multispace0(tail))
  {
    var rest := PipedText(cs[1..]) + tail;
    Assoc(CommandText(cs[0]), PipedText(cs[1..]), tail);
    PipedTail(cs[1..], tail);
    SingleCommandReadBack(cs[0], rest);
    MoreCommandsReadBack(cs[1..], tail, [cs[0]]);
    AppendFirst([], cs);
    assert [] + [cs[0]] == [cs[0]] && [] + cs == cs;
  }

  lemma {:induction false} PipelineOfList(s: string, cs: seq<Command>, background: bool)
    requires CommandList(s) == Parsed(cs, if background then "&" else [])
    ensures ParsePipeline(s) == Parsed(Pipeline(cs, background), [])
  {
    if background {
      assert Multispace0("&") == "&";
      assert "&"[1..] == [];
    }
  }

  /** The parser reads any written pipeline back: the same stages, each with
      the same arguments and redirections in order, the same background flag,
      and nothing left over. */
  lemma {:induction false} PipelineRoundTrip(p: Pipeline)
    requires WritablePipeline(p)
    ensures ParsePipeline(PipelineText(p)) == Parsed(p, [])
  {
    var tail := if p.background then " &" else [];
    CommandListReadBack(p.commands, tail);
    PipelineTail(tail);
    PipelineOfList(PipelineText(p), p.commands, p.background);
  }

  /** Leading whitespace before a command line makes no difference. */
  lemma {:induction false} ParsePipelineSkipsSpace(t: string)
    requires t != [] && !IsMultispace(t[0])
    ensures ParsePipeline(" " + t) == ParsePipeline(t)
  {
    SpaceThen(t);
    SingleCommandOfSpaced(" " + t);
  }

  lemma {:induction false} ArgsTextCons(w: string, ws: seq<string>)
    ensures ArgsText([w] + ws) == " " + Quote(w) + ArgsText(ws)
  {
    assert ([w] + ws)[1..] == ws;
  }

  lemma {:induction false} RedirsTextCons(r: Redirection, rs: seq<Redirection>)
    ensures RedirsText([r] + rs) == " " + RedirectionText(r) + RedirsText(rs)
  {
    assert ([r] + rs)[1..] == rs;
  }

  lemma {:induction false} PipedTextCons(c: Command, cs: seq<Command>)
    ensures PipedText([c] + cs) == " |" + CommandText(c) + PipedText(cs)
  {
    assert ([c] + cs)[1..] == cs;
  }

  lemma {:induction false} OneArgText(w: string)
    requires SimpleWord(w)
    ensures CommandText(Command([w], [])) == " " + w
  {
    ArgsTextCons(w, []);
    assert [w] + [] == [w];
    assert ArgsText([]) == [] && RedirsText([]) == [];
  }

  lemma {:induction false} TwoArgsText(w1: string, w2: string)
    requires SimpleWord(w1) && SimpleWord(w2)
    ensures CommandText(Command([w1, w2], [])) == " " + w1 + " " + w2
  {
    ArgsTextCons(w1, [w2]);
    ArgsTextCons(w2, []);
    assert [w1] + [w2] == [w1, w2] && [w2] + [] == [w2];
    assert ArgsText([]) == [] && RedirsText([]) == [];
  }

  lemma {:induction false} OneStageText(c: Command, background: bool)
    ensures PipelineText(Pipeline([c], background)) == CommandText(c) + (if background then " &" else "")
    ensures PipelineText(Pipeline([c], false)) == CommandText(c)
  {
    assert [c][1..] == [];
    assert PipedText([]) == [];
    assert CommandText(c) + [] == CommandText(c);
  }

  /** `ls -la` is one command with two arguments. */
  lemma {:induction false} ParseSimpleCommand()
    ensures ParsePipeline("ls -la")
         == Parsed(Pipeline([Command(["ls", "-la"], [])], false), [])
  {
    var c := Command(["ls", "-la"], []);
    var p := Pipeline([c], false);
    assert SimpleWord("ls") && SimpleWord("-la");
    TwoArgsText("ls", "-la");
    OneStageText(c, false);
    assert PipelineText(p) == " " + "ls -la";
    PipelineRoundTrip(p);
    ParsePipelineSkipsSpace("ls -la");
  }

  lemma {:induction false} PipedOne(c: Command)
    ensures PipedText([c]) == " |" + CommandText(c)
  {
    PipedTextCons(c, []);
    assert [c] + [] == [c];
    assert PipedText([]) == [];
    assert " |" + CommandText(c) + [] == " |" + CommandText(c);
  }

  lemma {:induction false} ThreeStagesText(c1: Command, c2: Command, c3: Command)
    ensures PipelineText(Pipeline([c1, c2, c3], false))
         == CommandText(c1) + (" |" + CommandText(c2) + (" |" + CommandText(c3)))
  {
    var cs := [c1, c2, c3];
    assert cs[1..] == [c2] + [c3];
    PipedTextCons(c2, [c3]);
    PipedOne(c3);
    assert StagesText(cs) == CommandText(c1) + PipedText([c2] + [c3]);
    assert PipelineText(Pipeline(cs, false)) == StagesText(cs) + [];
    assert StagesText(cs) + [] == StagesText(cs);
  }

  /** Text that writes `p` after one leading space parses to `p`. */
  lemma {:induction false} ParseWritten(s: string, p: Pipeline)
    requires WritablePipeline(p)
    requires s != [] && !IsMultispace(s[0]) && PipelineText(p) == " " + s
    ensures ParsePipeline(s) == Parsed(p, [])
  {
    PipelineRoundTrip(p);
    ParsePipelineSkipsSpace(s);
  }

  lemma ThreeStagesNormal(a: string, b: string, c: string, d: string, e: string)
    ensures (" " + a) + (" |" + (" " + b + " " + c) + (" |" + (" " + d + " " + e)))
         == " " + (a + " | " + b + " " + c + " | " + d + " " + e)
  {
  }

  lemma {:induction false} ThreeStagesWritable(a: string, b: string, c: string, d: string, e: string)
    requires SimpleWord(a) && SimpleWord(b) && SimpleWord(c) && SimpleWord(d) && SimpleWord(e)
    ensures WritablePipeline(Pipeline([Command([a], []), Command([b, c], []), Command([d, e], [])], false))
  {
    var cs := [Command([a], []), Command([b, c], []), Command([d, e], [])];
    assert WritableCommand(cs[0]) && WritableCommand(cs[1]) && WritableCommand(cs[2]);
  }

  lemma {:induction false} ThreeStagesLine(a: string, b: string, c: string, d: string, e: string)
    requires SimpleWord(a) && SimpleWord(b) && SimpleWord(c) && SimpleWord(d) && SimpleWord(e)
    ensures var p := Pipeline([Command([a], []), Command([b, c], []), Command([d, e], [])], false);
      WritablePipeline(p) && PipelineText(p) == " " + (a + " | " + b + " " + c + " | " + d + " " + e)
  {
    var c1, c2, c3 := Command([a], []), Command([b, c], []), Command([d, e], []);
    OneArgText(a);
    TwoArgsText(b, c);
    TwoArgsText(d, e);
    ThreeStagesText(c1, c2, c3);
    ThreeStagesNormal(a, b, c, d, e);
    ThreeStagesWritable(a, b, c, d, e);
  }

  /** A line like `ls | grep rust | wc -l` is three stages, each with its words. */
  lemma {:induction false} ParseThreeStages(a: string, b: string, c: string, d: string, e: string)
    requires SimpleWord(a) && SimpleWord(b) && SimpleWord(c) && SimpleWord(d) && SimpleWord(e)
    ensures ParsePipeline(a + " | " + b + " " + c + " | " + d + " " + e)
         == Parsed(Pipeline([Command([a], []), Command([b, c], []), Command([d, e], [])], false), [])
  {
    ThreeStagesLine(a, b, c, d, e);
    ParseWritten(a + " | " + b + " " + c + " | " + d + " " + e,
                 Pipeline([Command([a], []), Command([b, c], []), Command([d, e], [])], false));
  }

  lemma {:induction false} ThreeArgsText(w1: string, w2: string, w3: string)
    ensures ArgsText([w1, w2, w3]) == " " + Quote(w1) + (" " + Quote(w2) + (" " + Quote(w3)))
  {
    ArgsTextCons(w1, [w2, w3]);
    ArgsTextCons(w2, [w3]);
    ArgsTextCons(w3, []);
    assert [w1, w2, w3] == [w1] + [w2, w3];
    assert [w2, w3] == [w2] + [w3];
    assert [w3] == [w3] + [];
    assert ArgsText([]) == [];
  }

  lemma QuotedLineNormal(cmd: string, q: string, file: string)
    ensures " " + cmd + (" " + ("\"" + q + "\"") + (" " + file)) == " " + (cmd + " \"" + q + "\" " + file)
  {
  }

  lemma {:induction false} QuotedLineArgs(cmd: string, q: string, file: string)
    requires Quote(cmd) == cmd && Quote(q) == "\"" + q + "\"" && Quote(file) == file
    ensures ArgsText([cmd, q, file]) == " " + (cmd + " \"" + q + "\" " + file)
  {
    ThreeArgsText(cmd, q, file);
    QuotedLineNormal(cmd, q, file);
  }

  lemma {:induction false} QuotedLine(cmd: string, q: string, file: string)
    requires SimpleWord(cmd) && SimpleWord(file)
    requires q != [] && '"' !in q && !SimpleWord(q)
    ensures var p := Pipeline([Command([cmd, q, file], [])], false);
      WritablePipeline(p) && PipelineText(p) == " " + (cmd + " \"" + q + "\" " + file)
  {
    var c := Command([cmd, q, file], []);
    QuotedLineArgs(cmd, q, file);
    assert RedirsText([]) == [];
    assert CommandText(c) == ArgsText([cmd, q, file]);
    OneStageText(c, false);
    QuotedLineWritable(c, cmd, q, file);
  }

  lemma {:induction false} QuotedLineWritable(c: Command, cmd: string, q: string, file: string)
    requires SimpleWord(cmd) && SimpleWord(file)
    requires q != [] && '"' !in q
    requires c == Command([cmd, q, file], [])
    ensures WritablePipeline(Pipeline([c], false))
  {
    assert Writable(cmd) && Writable(q) && Writable(file);
    assert forall k :: 0 <= k < 3 ==> c.args[k] in {cmd, q, file};
  }

  /** A quoted argument keeps its inner text, spaces included, as in
      `grep "hello world" file.txt`. */
  lemma {:induction false} ParseQuotedArgument(cmd: string, q: string, file: string)
    requires SimpleWord(cmd) && SimpleWord(file)
    requires q != [] && '"' !in q && !SimpleWord(q)
    ensures ParsePipeline(cmd + " \"" + q + "\" " + file)
         == Parsed(Pipeline([Command([cmd, q, file], [])], false), [])
  {
    QuotedLine(cmd, q, file);
    ParseWritten(cmd + " \"" + q + "\" " + file, Pipeline([Command([cmd, q, file], [])], false));
  }

  lemma RedirectionsNormal(cmd: string, out: string, err: string)
    ensures " " + cmd + [] + (" " + ("> " + out) + (" " + ("2> " + err) + []))
         == " " + (cmd + " > " + out + " 2> " + err)
  {
  }

  lemma {:induction false} RedirectionsLineText(cmd: string, out: string, err: string)
    requires SimpleWord(cmd) && SimpleWord(out) && SimpleWord(err)
    ensures CommandText(Command([cmd], [Stdout(out), Stderr(err)]))
         == " " + cmd + [] + (" " + ("> " + out) + (" " + ("2> " + err) + []))
  {
    var rs := [Stdout(out), Stderr(err)];
    ArgsTextCons(cmd, []);
    assert [cmd] == [cmd] + [];
    RedirsTextCons(Stdout(out), [Stderr(err)]);
    RedirsTextCons(Stderr(err), []);
    assert rs == [Stdout(out)] + [Stderr(err)];
    assert [Stderr(err)] == [Stderr(err)] + [];
    assert ArgsText([]) == [] && RedirsText([]) == [];
  }

  lemma {:induction false} RedirectionsLine(cmd: string, out: string, err: string)
    requires SimpleWord(cmd) && SimpleWord(out) && SimpleWord(err)
    ensures var p := Pipeline([Command([cmd], [Stdout(out), Stderr(err)])], false);
      WritablePipeline(p) && PipelineText(p) == " " + (cmd + " > " + out + " 2> " + err)
  {
    var c := Command([cmd], [Stdout(out), Stderr(err)]);
    RedirectionsLineText(cmd, out, err);
    RedirectionsNormal(cmd, out, err);
    OneStageText(c, false);
    assert WritableRedirection(c.redirections[0]) && WritableRedirection(c.redirections[1]);
    assert WritableCommand(c);
  }

  /** `>` and `2>` give a stdout and a stderr redirection, in that order, as
      in `ls > out.txt 2> err.txt`. */
  lemma {:induction false} ParseTwoRedirections(cmd: string, out: string, err: string)
    requires SimpleWord(cmd) && SimpleWord(out) && SimpleWord(err)
    ensures ParsePipeline(cmd + " > " + out + " 2> " + err)
         == Parsed(Pipeline([Command([cmd], [Stdout(out), Stderr(err)])], false), [])
  {
    RedirectionsLine(cmd, out, err);
    ParseWritten(cmd + " > " + out + " 2> " + err, Pipeline([Command([cmd], [Stdout(out), Stderr(err)])], false));
  }
}

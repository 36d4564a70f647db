/** Tab completion: `git` and `docker` sub-commands from fixed tables;
    anything else goes to path completion, which reads a directory and is
    not part of this model. */
module Completion {
  import opened Strings

  /** rustyline's `Pair`: what the menu shows and what replaces the text. */
  datatype Pair = Pair(display: string, replacement: string)

  /** The result of `complete`: candidates replacing `line[start..pos]`, or
      the text before the cursor handed on to `complete_path`. */
  datatype Outcome = Candidates(start: nat, matches: seq<Pair>) | Paths(before: string)

  const GitCommands: seq<(string, string)> := [
    ("add", "Add file contents to the index"),
    ("commit", "Record changes to the repository"),
    ("push", "Update remote refs along with associated objects"),
    ("pull", "Fetch from and integrate with another repository"),
    ("status", "Show the working tree status"),
    ("checkout", "Switch branches or restore working tree files"),
    ("branch", "List, create, or delete branches"),
    ("diff", "Show changes between commits, commit and working tree")
  ]

  const DockerCommands: seq<(string, string)> := [
    ("run", "Run a command in a new container"),
    ("ps", "List containers"),
    ("images", "List images"),
    ("stop", "Stop one or more running containers"),
    ("rm", "Remove one or more containers"),
    ("build", "Build an image from a Dockerfile"),
    ("exec", "Run a command in a running container")
  ]

  /** The menu entry for one table row: "name - desc", replacing with the name. */
  function Candidate(entry: (string, string)): Pair {
    Pair(entry.0 + " - " + entry.1, entry.0)
  }

  /** The rows whose name starts with `target`, in table order. */
  function Matching(table: seq<(string, string)>, target: string): (r: seq<Pair>)
    ensures |r| <= |table|
  {
    if table == [] then []
    else
      var last := table[|table| - 1];
      Matching(table[..|table| - 1], target) + (if StartsWith(last.0, target) then [Candidate(last)] else [])
  }

  /** A candidate is offered exactly when its row's name starts with the
      target. */
  lemma {:induction false} MatchingMembers(table: seq<(string, string)>, target: string, p: Pair)
    ensures p in Matching(table, target) <==>
      exists k :: 0 <= k < |table| && StartsWith(table[k].0, target) && p == Candidate(table[k])
  {
    if table != [] {
      var front := table[..|table| - 1];
      MatchingMembers(front, target, p);
      if p in Matching(table, target) && p !in Matching(front, target) {
        assert table[|table| - 1] == table[|table| - 1];
      }
      if exists k :: 0 <= k < |table| && StartsWith(table[k].0, target) && p == Candidate(table[k]) {
        var k :| 0 <= k < |table| && StartsWith(table[k].0, target) && p == Candidate(table[k]);
        if k < |table| - 1 { assert front[k] == table[k]; }
      }
    }
  }

  /** With no target every row is offered, in table order. */
  lemma {:induction false} MatchingAll(table: seq<(string, string)>)
    ensures |Matching(table, "")| == |table|
    ensures forall k :: 0 <= k < |table| ==> Matching(table, "")[k] == Candidate(table[k])
  {
    if table != [] {
      var front := table[..|table| - 1];
      MatchingAll(front);
      assert StartsWith(table[|table| - 1].0, "");
      forall k | 0 <= k < |table| ensures Matching(table, "")[k] == Candidate(table[k]) {
        if k < |table| - 1 { assert front[k] == table[k]; }
      }
    }
  }

  /** `subcmd.unwrap_or("")`. */
  function Target(subcmd: seq<string>): string {
    if subcmd == [] then "" else subcmd[0]
  }

  /** `complete_git` and `complete_docker`, which differ only in their
      table: keep every row whose name starts with the target, and replace
      from `pos - len(target)`. */
  method CompleteTable(table: seq<(string, string)>, subcmd: seq<string>, pos: nat)
    returns (start: nat, matches: seq<Pair>)
    requires |Target(subcmd)| <= pos
    ensures start == pos - |Target(subcmd)|
    ensures matches == Matching(table, Target(subcmd))
  {
    var target := Target(subcmd);
    matches := [];
    var i := 0;
    while i < |table|
      invariant i <= |table|
      invariant matches == Matching(table[..i], target)
    {
      assert table[..i + 1][..i] == table[..i];
      var (name, desc) := table[i];
      if StartsWith(name, target) {
        matches := matches + [Pair(name + " - " + desc, name)];
      }
      i := i + 1;
    }
    assert table[..i] == table;
    start := pos - |target|;
  }

  /** The second word of the text before the cursor, if there is one. */
  function Second(parts: seq<string>): seq<string> {
    if |parts| >= 2 then [parts[1]] else []
  }

  /** `ChevCompleter::complete`, as written. */
  function Completed(line: string, pos: nat): (o: Outcome)
    requires pos <= |line|
    ensures o.Candidates? ==> o.start <= pos
  {
    var before := line[..pos];
    var parts := Words(before);
    WordsFit(before);
    if parts == [] then Candidates(pos, [])
    else if parts[0] == "git" then
      Candidates(pos - |Target(Second(parts))|, Matching(GitCommands, Target(Second(parts))))
    else if parts[0] == "docker" then
      Candidates(pos - |Target(Second(parts))|, Matching(DockerCommands, Target(Second(parts))))
    else Paths(before)
  }

  /** `complete`: dispatch on the first word before the cursor. */
  method Complete(line: string, pos: nat) returns (o: Outcome)
    requires pos <= |line|
    ensures o == Completed(line, pos)
  {
    var before := line[..pos];
    var parts := Words(before);
    if parts == [] {
      return Candidates(pos, []);
    }
    WordsFit(before);
    if parts[0] == "git" {
      var start, matches := CompleteTable(GitCommands, Second(parts), pos);
      return Candidates(start, matches);
    }
    if parts[0] == "docker" {
      var start, matches := CompleteTable(DockerCommands, Second(parts), pos);
      return Candidates(start, matches);
    }
    return Paths(before);
  }

  /** What `complete` offers: nothing before any word; for `git` and
      `docker`, exactly the rows whose name starts with the second word (all
      rows when there is none); anything else goes to path completion. */
  lemma CompletedMeaning(line: string, pos: nat, p: Pair)
    requires pos <= |line|
    ensures var parts := Words(line[..pos]); var o := Completed(line, pos);
      && (parts == [] ==> o == Candidates(pos, []))
      && (parts != [] && parts[0] == "git" ==>
          o.Candidates? && (p in o.matches <==>
            exists k :: 0 <= k < |GitCommands| && StartsWith(GitCommands[k].0, Target(Second(parts)))
              && p == Candidate(GitCommands[k])))
      && (parts != [] && parts[0] == "docker" ==>
          o.Candidates? && (p in o.matches <==>
            exists k :: 0 <= k < |DockerCommands| && StartsWith(DockerCommands[k].0, Target(Second(parts)))
              && p == Candidate(DockerCommands[k])))
      && (parts != [] && parts[0] != "git" && parts[0] != "docker" ==> o == Paths(line[..pos]))
  {
    var parts := Words(line[..pos]);
    MatchingMembers(GitCommands, Target(Second(parts)), p);
    MatchingMembers(DockerCommands, Target(Second(parts)), p);
  }

  // ---------------------------------------------------------------------
  // Where the replacement starts

  /** The word the cursor is in: the text after the last whitespace. */
  function TrailingWord(s: string): (w: string)
    ensures |w| <= |s| && s[|s| - |w|..] == w
  {
    if s == [] || IsWhitespace(s[|s| - 1]) then []
    else
      var w := TrailingWord(s[..|s| - 1]);
      assert s[..|s| - 1][|s| - 1 - |w|..] == w;
      w + [s[|s| - 1]]
  }

  /** After `git` and a completed sub-command followed by a space, the text
      `complete` replaces is not the sub-command it matched against: the
      start is still `pos - len(second word)`, which reaches back into that
      word. */
  lemma ReplacedTextAfterSpace(w: string)
    requires w != [] && NoWhitespace(w)
    ensures var line := "git " + w + " "; var o := Completed(line, |line|);
      o.Candidates? && line[o.start..|line|] != w
  {
    var line := "git " + w + " ";
    assert line[..|line|] == line;
    assert NoWhitespace("git");
    assert line == "git" + (" " + (w + " "));
    WordsCons("git", " " + (w + " "));
    WordsSpace(w + " ");
    WordsCons(w, " ");
    WordsSpace("");
    assert Words(line) == ["git", w];
    var o := Completed(line, |line|);
    assert o.start == |line| - |w|;
    assert line[o.start..][|w| - 1] == ' ';
    assert w[|w| - 1] != ' ';
  }

  /** `complete` with the start the menu evidently intends: candidates
      replace the word under the cursor. A sub-command is completed only
      while the cursor is in the second word, or just after the first. */
  function CompletedAtCursor(line: string, pos: nat): (o: Outcome)
    requires pos <= |line|
    ensures o.Candidates? ==> o.start <= pos
  {
    var before := line[..pos];
    var parts := Words(before);
    var current := TrailingWord(before);
    var inSecond := (|parts| == 2 && current != []) || (|parts| == 1 && current == []);
    if parts == [] then Candidates(pos, [])
    else if parts[0] == "git" then
      if inSecond then Candidates(pos - |current|, Matching(GitCommands, current)) else Candidates(pos, [])
    else if parts[0] == "docker" then
      if inSecond then Candidates(pos - |current|, Matching(DockerCommands, current)) else Candidates(pos, [])
    else Paths(before)
  }

  /** Every offered candidate extends exactly the text it replaces. */
  lemma CompletedAtCursorReplacesTyped(line: string, pos: nat, p: Pair)
    requires pos <= |line|
    requires CompletedAtCursor(line, pos).Candidates?
    requires p in CompletedAtCursor(line, pos).matches
    ensures var o := CompletedAtCursor(line, pos);
      StartsWith(p.replacement, line[o.start..pos])
  {
    var before := line[..pos];
    var current := TrailingWord(before);
    var o := CompletedAtCursor(line, pos);
    assert line[o.start..pos] == before[o.start..] == current;
    if Words(before)[0] == "git" {
      MatchingMembers(GitCommands, current, p);
    } else {
      MatchingMembers(DockerCommands, current, p);
    }
  }
}

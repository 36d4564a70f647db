/** The history list behind inline suggestions (`CommandTrie`) and the
    hint that prefers an abbreviation over the history. */
module Suggestions {
  import opened Wrappers
  import opened Strings

  /** `c` is a stored command that strictly extends `input`. */
  predicate Extends(c: string, input: string) {
    |input| < |c| && c[..|input|] == input
  }

  /** The list with every occurrence of `c` dropped, the rest in order. */
  function Dropped(cs: seq<string>, c: string): (r: seq<string>)
    ensures |r| <= |cs|
  {
    if cs == [] then []
    else if cs[0] == c then Dropped(cs[1..], c)
    else [cs[0]] + Dropped(cs[1..], c)
  }

  lemma {:induction false} DroppedMembers(cs: seq<string>, c: string, x: string)
    ensures x in Dropped(cs, c) <==> x in cs && x != c
  {
    if cs != [] {
      DroppedMembers(cs[1..], c, x);
      assert cs == [cs[0]] + cs[1..];
    }
  }

  /** Dropping keeps the survivors' relative order: it is `cs` with the
      occurrences of `c` filtered out. */
  lemma {:induction false} DroppedOrder(cs: seq<string>, c: string, x: string, y: string)
    requires x != y
    ensures Before(Dropped(cs, c), x, y) <==> x != c && y != c && Before(cs, x, y)
  {
    if cs != [] {
      DroppedOrder(cs[1..], c, x, y);
      DroppedMembers(cs[1..], c, y);
      BeforeCons(cs[0], cs[1..], x, y);
      if cs[0] != c {
        BeforeCons(cs[0], Dropped(cs[1..], c), x, y);
      }
    }
  }

  /** `x` occurs somewhere before `y`. */
  predicate Before(cs: seq<string>, x: string, y: string) {
    exists i, j :: 0 <= i < j < |cs| && cs[i] == x && cs[j] == y
  }

  lemma BeforeCons(h: string, t: seq<string>, x: string, y: string)
    requires x != y
    ensures Before([h] + t, x, y) <==> (h == x && y in t) || Before(t, x, y)
  {
    var s := [h] + t;
    if Before(s, x, y) {
      var i, j :| 0 <= i < j < |s| && s[i] == x && s[j] == y;
      if i > 0 { assert t[i - 1] == x && t[j - 1] == y; }
      else { assert t[j - 1] == y; }
    }
    if h == x && y in t {
      var j :| 0 <= j < |t| && t[j] == y;
      assert s[0] == x && s[j + 1] == y;
    }
    if Before(t, x, y) {
      var i, j :| 0 <= i < j < |t| && t[i] == x && t[j] == y;
      assert s[i + 1] == x && s[j + 1] == y;
    }
  }

  /** No command is stored twice. */
  predicate Distinct(cs: seq<string>) {
    forall i, j :: 0 <= i < j < |cs| ==> cs[i] != cs[j]
  }

  lemma {:induction false} DroppedDistinct(cs: seq<string>, c: string)
    requires Distinct(cs)
    ensures Distinct(Dropped(cs, c))
  {
    if cs != [] {
      assert Distinct(cs[1..]) by {
        forall i, j | 0 <= i < j < |cs[1..]| ensures cs[1..][i] != cs[1..][j] {
          assert cs[1..][i] == cs[i + 1] && cs[1..][j] == cs[j + 1];
        }
      }
      DroppedDistinct(cs[1..], c);
      if cs[0] != c {
        DroppedMembers(cs[1..], c, cs[0]);
        var d := Dropped(cs[1..], c);
        forall i, j | 0 <= i < j < |[cs[0]] + d| ensures ([cs[0]] + d)[i] != ([cs[0]] + d)[j] {
          if i == 0 { assert ([cs[0]] + d)[j] == d[j - 1]; }
          else { assert ([cs[0]] + d)[i] == d[i - 1] && ([cs[0]] + d)[j] == d[j - 1]; }
        }
      }
    }
  }

  /** The index of the most recent command that extends `input`. */
  function LatestFrom(cs: seq<string>, input: string, n: nat): (r: Option<nat>)
    requires n <= |cs|
    ensures r.Some? ==> r.value < n && Extends(cs[r.value], input)
    ensures r.Some? ==> forall k :: r.value < k < n ==> !Extends(cs[k], input)
    ensures r.None? ==> forall k :: 0 <= k < n ==> !Extends(cs[k], input)
  {
    if n == 0 then None
    else if Extends(cs[n - 1], input) then Some(n - 1)
    else LatestFrom(cs, input, n - 1)
  }

  /** `CommandTrie::suggest`: the rest of the most recent stored command
      that starts with, and is not equal to, the input. */
  function Suggest(cs: seq<string>, input: string): (r: Option<string>)
    ensures input == [] ==> r.None?
  {
    if input == [] then None
    else
      match LatestFrom(cs, input, |cs|)
      case None => None
      case Some(k) => Some(cs[k][|input|..])
  }

  /** What `suggest` promises, both ways: a suggestion is a non-empty tail
      completing the most recent extending command, and there is none
      exactly when the input is empty or no stored command extends it. */
  lemma SuggestMeaning(cs: seq<string>, input: string)
    ensures Suggest(cs, input).None? <==>
      input == [] || forall k :: 0 <= k < |cs| ==> !Extends(cs[k], input)
    ensures Suggest(cs, input).Some? ==>
      var s := Suggest(cs, input).value;
      && s != []
      && (exists k :: 0 <= k < |cs| && cs[k] == input + s
           && forall j :: k < j < |cs| ==> !Extends(cs[j], input))
  {
    if input != [] {
      var l := LatestFrom(cs, input, |cs|);
      if l.Some? {
        var k := l.value;
        assert cs[k] == cs[k][..|input|] + cs[k][|input|..];
      }
    }
  }

  /** Once `c` has been added, it is what any proper prefix of it
      suggests: the rest of `c`. */
  lemma AddThenSuggest(cs: seq<string>, c: string, input: string)
    requires input != [] && Extends(c, input)
    ensures Suggest(Dropped(cs, c) + [c], input) == Some(c[|input|..])
  {
  }

  class CommandTrie {
    var commands: seq<string>

    /** Commands are non-empty and stored once each. */
    ghost predicate Valid()
      reads this
    {
      Distinct(commands) && [] !in commands
    }

    /** `CommandTrie::new`. */
    constructor ()
      ensures Valid() && commands == []
    {
      commands := [];
    }

    /** `add`: an empty command is ignored; otherwise older copies are
        dropped and the command becomes the most recent entry. */
    method Add(cmd: string)
      requires Valid()
      modifies this
      ensures Valid()
      ensures cmd == [] ==> commands == old(commands)
      ensures cmd != [] ==> commands == Dropped(old(commands), cmd) + [cmd]
    {
      if cmd == [] {
        return;
      }
      DroppedDistinct(commands, cmd);
      DroppedMembers(commands, cmd, cmd);
      DroppedMembers(commands, cmd, []);
      var kept := Dropped(commands, cmd);
      commands := kept + [cmd];
      forall i, j | 0 <= i < j < |commands| ensures commands[i] != commands[j] {
        if j == |commands| - 1 {
          assert commands[i] == kept[i];
        } else {
          assert commands[i] == kept[i] && commands[j] == kept[j];
        }
      }
    }
  }

  /** After `add(c)` the command occurs exactly once, last, and every other
      command keeps its place relative to the others. */
  lemma AddMeaning(cs: seq<string>, c: string, x: string, y: string)
    requires c != [] && x != y
    ensures (Dropped(cs, c) + [c])[|Dropped(cs, c)|] == c
    ensures c !in Dropped(cs, c)
    ensures x != c && y != c ==> (Before(Dropped(cs, c) + [c], x, y) <==> Before(cs, x, y))
  {
    var d := Dropped(cs, c);
    DroppedMembers(cs, c, c);
    if x != c && y != c {
      DroppedOrder(cs, c, x, y);
      DroppedMembers(cs, c, y);
      AppendBefore(d, c, x, y);
    }
  }

  lemma AppendBefore(d: seq<string>, c: string, x: string, y: string)
    requires y != c
    ensures Before(d + [c], x, y) <==> Before(d, x, y)
  {
    if Before(d + [c], x, y) {
      var i, j :| 0 <= i < j < |d + [c]| && (d + [c])[i] == x && (d + [c])[j] == y;
      assert d[i] == x && d[j] == y;
    }
    if Before(d, x, y) {
      var i, j :| 0 <= i < j < |d| && d[i] == x && d[j] == y;
      assert (d + [c])[i] == x && (d + [c])[j] == y;
    }
  }

  /** `ShellHelper::hint`: nothing for an empty line; an abbreviation of the
      trimmed line, shown as " (expansion)", wins over the history, which
      answers every other line. */
  function Hint(line: string, abbreviations: map<string, string>, cs: seq<string>): (r: Option<string>)
    ensures line == [] ==> r.None?
    ensures line != [] && Trim(line) in abbreviations ==>
      r == Some(" (" + abbreviations[Trim(line)] + ")")
    ensures line != [] && Trim(line) !in abbreviations ==> r == Suggest(cs, line)
    ensures Trim(line) !in abbreviations && r.Some? ==>
      r.value != [] && exists k :: 0 <= k < |cs| && cs[k] == line + r.value
  {
    SuggestMeaning(cs, line);
    if line == [] then None
    else if Trim(line) in abbreviations then Some(" (" + abbreviations[Trim(line)] + ")")
    else Suggest(cs, line)
  }
}

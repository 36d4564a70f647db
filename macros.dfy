/** The macro store of `src/engine/macros.rs`: first-word templates with
    `$1`, `$2`, … and a catch-all `$`, an abbreviation map, and the two
    failure-context slots the executor and the prompt share. */
module Macros {
  import opened Wrappers
  import opened Strings

  /** `Macro`. */
  datatype Macro = Macro(name: string, template: string)

  /** `format!("${}", n)`. */
  function Placeholder(n: nat): (p: string)
    ensures |p| >= 2 && p[0] == '$'
  {
    "$" + NatToString(n)
  }

  /** The template after the first `n` passes of the loop: pass `i` replaces
      every `$i` by the `i`-th argument, in the text the earlier passes left. */
  function Substituted(t: string, args: seq<string>, n: nat): string
    requires n <= |args|
  {
    if n == 0 then t else Replace(Substituted(t, args, n - 1), Placeholder(n), args[n - 1])
  }

  /** What a template expands to with the given argument words. */
  function ExpandTemplate(t: string, args: seq<string>): string {
    if '$' in t then Replace(Substituted(t, args, |args|), "$", Join(args, " "))
    else if args == [] then t
    else t + " " + Join(args, " ")
  }

  /** `expand_macro` on a map from names to macros: the first word picks the
      macro and the other words are its arguments. */
  function ExpandLine(macros: map<string, Macro>, input: string): (r: Option<string>)
    ensures r.Some? <==> Words(input) != [] && Words(input)[0] in macros
    ensures r.Some? ==> r.value == ExpandTemplate(macros[Words(input)[0]].template, Words(input)[1..])
  {
    var parts := Words(input);
    if parts == [] then None
    else if parts[0] in macros then Some(ExpandTemplate(macros[parts[0]].template, parts[1..]))
    else None
  }

  /** A character in no part and not in the separator is not in the join. */
  lemma {:induction false} JoinKeepsOut(parts: seq<string>, sep: string, c: char)
    requires c !in sep
    requires forall k :: 0 <= k < |parts| ==> c !in parts[k]
    ensures c !in Join(parts, sep)
  {
    if |parts| > 1 {
      JoinKeepsOut(parts[1..], sep, c);
    }
  }

  /** In the `$` branch nothing of the template's `$` survives unless an
      argument brought one in. */
  lemma {:induction false} NoDollarLeft(t: string, args: seq<string>)
    requires '$' in t
    requires forall k :: 0 <= k < |args| ==> '$' !in args[k]
    ensures '$' !in ExpandTemplate(t, args)
  {
    JoinKeepsOut(args, " ", '$');
    ReplaceRemovesChar(Substituted(t, args, |args|), '$', Join(args, " "));
  }

  /** A template without `$` gets the arguments appended after one space. */
  lemma {:induction false} PlainTemplate(t: string, args: seq<string>)
    requires '$' !in t && args != []
    ensures ExpandTemplate(t, args) == t + " " + Join(args, " ")
    ensures ExpandTemplate(t, []) == t
  {
  }

  /** Runs of whitespace in the input do not matter: the words are joined
      again with single spaces. */
  lemma {:induction false} WhitespaceCollapsed(macros: map<string, Macro>, input: string)
    ensures ExpandLine(macros, input) == ExpandLine(macros, Join(Words(input), " "))
  {
    WordsAreWords(input);
    WordsOfJoin(Words(input));
  }

  /** A line written as a name and argument words expands that name's
      template with exactly those words. */
  lemma {:induction false} ExpandWords(macros: map<string, Macro>, name: string, args: seq<string>)
    requires name != [] && NoWhitespace(name)
    requires forall k :: 0 <= k < |args| ==> args[k] != [] && NoWhitespace(args[k])
    ensures ExpandLine(macros, Join([name] + args, " "))
         == if name in macros then Some(ExpandTemplate(macros[name].template, args)) else None
  {
    var ws := [name] + args;
    assert forall k :: 0 <= k < |ws| ==> ws[k] != [] && NoWhitespace(ws[k]) by {
      forall k | 0 <= k < |ws| ensures ws[k] != [] && NoWhitespace(ws[k]) {
        if k > 0 { assert ws[k] == args[k - 1]; }
      }
    }
    WordsOfJoin(ws);
    assert ws[1..] == args;
  }

  /** Setting a macro makes lines starting with its name use the new template
      and changes nothing for other lines. */
  lemma {:induction false} SetThenExpand(macros: map<string, Macro>, name: string, t: string, input: string)
    ensures ExpandLine(macros[name := Macro(name, t)], input)
         == if Words(input) != [] && Words(input)[0] == name
            then Some(ExpandTemplate(t, Words(input)[1..]))
            else ExpandLine(macros, input)
  {
  }

  /** Unsetting a macro makes lines starting with its name expand to nothing
      and changes nothing for other lines. */
  lemma {:induction false} UnsetThenExpand(macros: map<string, Macro>, name: string, input: string)
    ensures ExpandLine(macros - {name}, input)
         == if Words(input) != [] && Words(input)[0] == name then None
            else ExpandLine(macros, input)
  {
  }

  /** The `$` branch of a template, unfolded once. */
  lemma {:induction false} WithDollar(t: string, args: seq<string>)
    requires '$' in t
    ensures ExpandTemplate(t, args) == Replace(Substituted(t, args, |args|), "$", Join(args, " "))
  {
  }

  /** The two placeholder passes for two arguments. */
  lemma {:induction false} TwoPasses(t: string, a: string, b: string)
    ensures Substituted(t, [a], 1) == Replace(t, "$1", a)
    ensures Substituted(t, [a, b], 2) == Replace(Replace(t, "$1", a), "$2", b)
  {
    assert Placeholder(1) == "$1" && Placeholder(2) == "$2";
    assert Substituted(t, [a, b], 1) == Replace(t, "$1", a);
  }

  /** One occurrence of the pattern, with nothing of it before and nothing
      found after, is replaced once. */
  lemma {:induction false} ReplaceOnce(p: string, pat: string, x: string, rep: string)
    requires pat != [] && pat[0] !in p && Replace(x, pat, rep) == x
    ensures Replace(p + pat + x, pat, rep) == p + rep + x
  {
    assert p + pat + x == p + (pat + x);
    ReplaceFree(p, pat, rep, pat + x);
    ReplaceHere(pat, rep, x);
  }

  /** Text without `$` is what the catch-all pass leaves. */
  lemma {:induction false} DollarFree(s: string, pat: string, rep: string)
    requires pat != [] && pat[0] == '$' && '$' !in s
    ensures Replace(s, pat, rep) == s
  {
    ReplaceFree(s, pat, rep, []);
    assert s + [] == s;
  }

  /** A template whose only `$` is one `$1` slot puts a `$`-free argument
      in that slot; `$10` is such a template, so `$1` also rewrites it. */
  lemma {:induction false} OneSlot(p: string, q: string, a: string)
    requires '$' !in p && '$' !in q && '$' !in a
    ensures ExpandTemplate(p + "$1" + q, [a]) == p + a + q
  {
    var t := p + "$1" + q;
    assert t[|p|] == '$';
    WithDollar(t, [a]);
    TwoPasses(t, a, a);
    DollarFree(q, "$1", a);
    ReplaceOnce(p, "$1", q, a);
    DollarFree(p + a + q, "$", Join([a], " "));
  }

  /** `$1` is replaced inside `$10` too: the `0` stays behind. */
  lemma {:induction false} SlotTen(a: string)
    requires '$' !in a
    ensures ExpandTemplate("$10", [a]) == a + "0"
  {
    assert "$10" == [] + "$1" + "0";
    OneSlot([], "0", a);
    assert [] + a + "0" == a + "0";
  }

  /** `$2` followed by `$`-free text holds no `$1`. */
  lemma {:induction false} NoFirstSlot(m: string, q: string, a: string)
    requires '$' !in m && '$' !in q
    ensures Replace(m + "$2" + q, "$1", a) == m + "$2" + q
  {
    var y := "$2" + q;
    assert y[..2] != "$1" by { assert y[1] == '2'; }
    assert y[1..] == "2" + q;
    assert '$' !in "2" + q;
    DollarFree("2" + q, "$1", a);
    assert Replace(y, "$1", a) == y;
    assert m + "$2" + q == m + y;
    ReplaceFree(m, "$1", a, y);
  }

  /** Two slots `$1` and `$2` get the first and second arguments. */
  lemma {:induction false} TwoSlots(p: string, m: string, q: string, a: string, b: string)
    requires '$' !in p && '$' !in m && '$' !in q && '$' !in a && '$' !in b
    ensures ExpandTemplate(p + "$1" + m + "$2" + q, [a, b]) == p + a + m + b + q
  {
    var t := p + "$1" + m + "$2" + q;
    assert t[|p|] == '$';
    WithDollar(t, [a, b]);
    TwoPasses(t, a, b);
    FirstSlotPass(p, m, q, a);
    SecondSlotPass(p + a + m, q, b);
    DollarFree(p + a + m + b + q, "$", Join([a, b], " "));
  }

  lemma FirstSlotPass(p: string, m: string, q: string, a: string)
    requires '$' !in p && '$' !in m && '$' !in q
    ensures Replace(p + "$1" + m + "$2" + q, "$1", a) == p + a + m + "$2" + q
  {
    var x := m + "$2" + q;
    assert p + "$1" + m + "$2" + q == p + "$1" + x;
    NoFirstSlot(m, q, a);
    ReplaceOnce(p, "$1", x, a);
    assert p + a + x == p + a + m + "$2" + q;
  }

  lemma SecondSlotPass(pam: string, q: string, b: string)
    requires '$' !in pam && '$' !in q
    ensures Replace(pam + "$2" + q, "$2", b) == pam + b + q
  {
    DollarFree(q, "$2", b);
    ReplaceOnce(pam, "$2", q, b);
  }

  /** The placeholder passes leave a template ending in a lone `$` alone. */
  lemma {:induction false} RestSlotPasses(p: string, args: seq<string>, n: nat)
    requires '$' !in p && n <= |args|
    ensures Substituted(p + "$", args, n) == p + "$"
    decreases n
  {
    if n > 0 {
      RestSlotPasses(p, args, n - 1);
      var pat := Placeholder(n);
      ReplaceFree(p, pat, args[n - 1], "$");
      assert Replace("$", pat, args[n - 1]) == "$";
    }
  }

  /** A trailing `$` receives all the arguments joined by spaces. */
  lemma {:induction false} RestSlot(p: string, args: seq<string>)
    requires '$' !in p
    ensures ExpandTemplate(p + "$", args) == p + Join(args, " ")
  {
    var t := p + "$";
    assert t[|p|] == '$';
    RestSlotPasses(p, args, |args|);
    ReplaceFree(p, "$", Join(args, " "), "$");
    ReplaceHere("$", Join(args, " "), []);
    assert "$" + [] == "$";
    assert Join(args, " ") + [] == Join(args, " ");
  }

  /** With no arguments only the catch-all pass does anything. */
  lemma {:induction false} NoArguments(t: string)
    requires '$' in t
    ensures ExpandTemplate(t, []) == Replace(t, "$", [])
  {
    WithDollar(t, []);
    assert Join([], " ") == [];
  }

  /** With no arguments the `$` of each slot is removed and its number stays. */
  lemma {:induction false} MissingArgument(p: string, q: string)
    requires '$' !in p && '$' !in q
    ensures ExpandTemplate(p + "$1" + q, []) == p + "1" + q
  {
    var rest := "1" + q;
    var t := p + "$1" + q;
    assert t == p + ("$" + rest) by { assert "$1" == "$" + "1"; }
    assert t[|p|] == '$';
    NoArguments(t);
    DropDollar(rest);
    ReplaceFree(p, "$", [], "$" + rest);
    assert p + rest == p + "1" + q;
  }

  lemma DropDollar(rest: string)
    requires '$' !in rest
    ensures Replace("$" + rest, "$", []) == rest
  {
    ReplaceFree(rest, "$", [], []);
    assert rest + [] == rest;
    ReplaceHere("$", [], rest);
  }

  /** Text an earlier pass puts in is rewritten by the later passes. */
  lemma {:induction false} InsertedPlaceholder(b: string)
    requires '$' !in b
    ensures ExpandTemplate("$1", ["$2", b]) == b
  {
    assert "$1"[0] == '$';
    WithDollar("$1", ["$2", b]);
    TwoPasses("$1", "$2", b);
    ReplaceHere("$1", "$2", []);
    assert "$1" + [] == "$1" && "$2" + [] == "$2";
    ReplaceHere("$2", b, []);
    assert b + [] == b;
    DollarFree(b, "$", Join(["$2", b], " "));
  }

  /** The macro tests' expansions: `g commit -m 'feat'` with `g` set to `git`. */
  lemma {:induction false} TestPlain()
    ensures ExpandTemplate("git", ["commit", "-m", "'feat'"]) == "git commit -m 'feat'"
  {
    PlainTemplate("git", ["commit", "-m", "'feat'"]);
  }

  /** `grep-src hello` with `grep-src` set to `rg $1 src/`. */
  lemma {:induction false} TestOneSlot(t: string)
    requires t == "rg $1 src/"
    ensures ExpandTemplate(t, ["hello"]) == "rg hello src/"
  {
    assert t == "rg " + "$1" + " src/";
    OneSlot("rg ", " src/", "hello");
  }

  /** `dual first second` with `dual` set to `echo $1 $2`. */
  lemma {:induction false} TestTwoSlots(t: string)
    requires t == "echo $1 $2"
    ensures ExpandTemplate(t, ["first", "second"]) == "echo first second"
  {
    assert t == "echo " + "$1" + " " + "$2" + [];
    NoDollar("echo ");
    NoDollar("first");
    NoDollar("second");
    TwoSlots("echo ", " ", [], "first", "second");
    TwoSlotsWords();
  }

  lemma TwoSlotsWords()
    ensures "echo " + "first" + " " + "second" + [] == "echo first second"
  {
  }

  /** `rest one two three` with `rest` set to `echo all: $`. */
  lemma {:induction false} TestRest(t: string)
    requires t == "echo all: $"
    ensures ExpandTemplate(t, ["one", "two", "three"]) == "echo all: one two three"
  {
    assert t == "echo all: " + "$";
    assert '$' !in "echo all: " by {
      NoDollar("echo all: ");
    }
    RestSlot("echo all: ", ["one", "two", "three"]);
    JoinThree("one", "two", "three");
    RestWords();
  }

  lemma NoDollar(s: string)
    requires forall k :: 0 <= k < |s| ==> s[k] != '$'
    ensures '$' !in s
  {
  }

  lemma RestWords()
    ensures "echo all: " + ("one" + " " + "two" + " " + "three") == "echo all: one two three"
  {
  }

  lemma JoinThree(a: string, b: string, c: string)
    ensures Join([a, b, c], " ") == a + " " + b + " " + c
  {
    assert [b, c][1..] == [c];
    assert Join([b, c], " ") == b + " " + c;
    assert [a, b, c][1..] == [b, c];
    assert Join([a, b, c], " ") == a + " " + (b + " " + c);
    assert a + " " + (b + " " + c) == a + " " + b + " " + c;
  }

  /** `rg $1 src/` with no argument loses only the `$`. */
  lemma {:induction false} TestMissing(t: string)
    requires t == "rg $1 src/"
    ensures ExpandTemplate(t, []) == "rg 1 src/"
  {
    assert t == "rg " + "$1" + " src/";
    MissingArgument("rg ", " src/");
  }

  /** `MacroManager`, without the JSON file behind it. */
  class MacroManager {
    var macros: map<string, Macro>
    var abbreviations: map<string, string>
    var lastSuggestion: Option<string>
    /** The last failed command and its captured standard error. */
    var lastError: Option<(string, string)>

    /** Each macro is stored under its own name. */
    ghost predicate Valid()
      reads this
    {
      forall n :: n in macros ==> macros[n].name == n
    }

    /** `MacroManager::new` before it loads the file. */
    constructor ()
      ensures Valid()
      ensures macros == map[] && abbreviations == map[]
      ensures lastSuggestion == None && lastError == None
    {
      macros := map[];
      abbreviations := map[];
      lastSuggestion := None;
      lastError := None;
    }

    /** `set_macro`. The map is updated before the file is written, so it
        changes whether or not the write succeeds. */
    method SetMacro(name: string, template: string, saved: bool) returns (r: Result<()>)
      requires Valid()
      modifies this`macros
      ensures Valid()
      ensures macros == old(macros)[name := Macro(name, template)]
      ensures r == if saved then Ok(()) else Err("Failed to save macros")
    {
      macros := macros[name := Macro(name, template)];
      r := if saved then Ok(()) else Err("Failed to save macros");
    }

    /** `unset_macro`. */
    method UnsetMacro(name: string, saved: bool) returns (r: Result<()>)
      requires Valid()
      modifies this`macros
      ensures Valid()
      ensures macros == old(macros) - {name}
      ensures r == if saved then Ok(()) else Err("Failed to save macros")
    {
      macros := macros - {name};
      r := if saved then Ok(()) else Err("Failed to save macros");
    }

    /** `set_abbreviation`; the macros are not touched. */
    method SetAbbreviation(name: string, expansion: string)
      modifies this`abbreviations
      ensures abbreviations == old(abbreviations)[name := expansion]
    {
      abbreviations := abbreviations[name := expansion];
    }

    /** `get_abbreviation`. */
    function GetAbbreviation(name: string): (r: Option<string>)
      reads this
      ensures r.Some? <==> name in abbreviations
      ensures r.Some? ==> r.value == abbreviations[name]
    {
      if name in abbreviations then Some(abbreviations[name]) else None
    }

    /** `list`: every macro, each under its own name. */
    function List(): (r: map<string, Macro>)
      reads this
      requires Valid()
      ensures forall n :: n in r ==> r[n].name == n
      ensures r.Keys == macros.Keys
    {
      macros
    }

    /** `expand_macro`: the placeholder passes run as a loop over the
        arguments; abbreviations play no part. */
    method ExpandMacro(input: string) returns (r: Option<string>)
      ensures r == ExpandLine(macros, input)
    {
      var parts := Words(input);
      if parts == [] {
        return None;
      }
      if parts[0] !in macros {
        return None;
      }
      var result := macros[parts[0]].template;
      var args := parts[1..];
      if '$' in result {
        var i := 0;
        while i < |args|
          invariant 0 <= i <= |args|
          invariant result == Substituted(macros[parts[0]].template, args, i)
        {
          result := Replace(result, Placeholder(i + 1), args[i]);
          i := i + 1;
        }
        result := Replace(result, "$", Join(args, " "));
      } else {
        if args != [] {
          result := result + " " + Join(args, " ");
        }
      }
      return Some(result);
    }
  }
}

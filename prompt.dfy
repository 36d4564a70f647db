/** The prompt: the shortened working directory and the plain and coloured
    prompt strings. Zero-width terminal codes are wrapped in `\x01 … \x02`,
    the readline convention for text that takes no columns. */
module Prompt {
  import opened Strings

  // ---------------------------------------------------------------------
  // shorten_path

  /** The path with a leading home directory replaced by `~`: a string
      prefix test, so `/home/ab` also abbreviates `/home/abc`. The first
      occurrence of a prefix is the prefix itself, so `replacen(home, "~", 1)`
      rewrites exactly that. */
  function Relative(path: string, home: string): (r: string)
    ensures StartsWith(path, home) ==> r == "~" + path[|home|..]
    ensures !StartsWith(path, home) ==> r == path
  {
    if StartsWith(path, home) then "~" + path[|home|..] else path
  }

  /** What component `i` of `parts` contributes: nothing for the empty
      piece before a leading `/`, `~` whole, the last component whole, any
      other component its first character (nothing when it is empty). */
  function ShortPart(parts: seq<string>, i: nat): (r: seq<string>)
    requires i < |parts|
    ensures |r| <= 1
  {
    var part := parts[i];
    if part == [] && i == 0 then []
    else if part == "~" then ["~"]
    else if i == |parts| - 1 then [part]
    else if part != [] then [part[..1]]
    else []
  }

  /** The pieces the loop has pushed after looking at the first `n` components. */
  function ShortParts(parts: seq<string>, n: nat): seq<string>
    requires n <= |parts|
  {
    if n == 0 then [] else ShortParts(parts, n - 1) + ShortPart(parts, n - 1)
  }

  /** `shorten_path`. */
  function Shortened(path: string, home: string): string {
    var rel := Relative(path, home);
    if rel == "/" || rel == "~" then rel
    else
      var parts := Split(rel, '/');
      var joined := Join(ShortParts(parts, |parts|), "/");
      if StartsWith(rel, "/") then "/" + joined else joined
  }

  /** `shorten_path` as the source runs it: one pass over the components. */
  method ShortenPath(path: string, home: string) returns (r: string)
    ensures r == Shortened(path, home)
  {
    var rel := Relative(path, home);
    if rel == "/" || rel == "~" {
      return rel;
    }
    var parts := Split(rel, '/');
    var shortened: seq<string> := [];
    var i := 0;
    while i < |parts|
      invariant i <= |parts|
      invariant shortened == ShortParts(parts, i)
    {
      var part := parts[i];
      if part == [] && i == 0 {
      } else if part == "~" {
        shortened := shortened + ["~"];
      } else if i == |parts| - 1 {
        shortened := shortened + [part];
      } else if part != [] {
        shortened := shortened + [part[..1]];
      }
      i := i + 1;
    }
    if StartsWith(rel, "/") {
      r := "/" + Join(shortened, "/");
    } else {
      r := Join(shortened, "/");
    }
  }

  lemma {:induction false} ShortPartsFirst(parts: seq<string>, n: nat)
    requires 1 <= n <= |parts|
    ensures |ShortPart(parts, 0)| <= |ShortParts(parts, n)|
    ensures ShortParts(parts, n)[..|ShortPart(parts, 0)|] == ShortPart(parts, 0)
  {
    if n > 1 {
      ShortPartsFirst(parts, n - 1);
    }
  }

  lemma {:induction false} ShortPartsNoSlash(parts: seq<string>, n: nat)
    requires n <= |parts|
    requires forall k :: 0 <= k < |parts| ==> '/' !in parts[k]
    ensures forall k :: 0 <= k < |ShortParts(parts, n)| ==> '/' !in ShortParts(parts, n)[k]
  {
    if n > 0 {
      ShortPartsNoSlash(parts, n - 1);
      var p := parts[n - 1];
      if p != [] { assert forall c :: c in p[..1] ==> c in p; }
    }
  }

  /** The shortened path starts with `/` exactly when the path does once
      home has been abbreviated. */
  lemma ShortenedLeadingSlash(path: string, home: string)
    ensures var r := Shortened(path, home); var rel := Relative(path, home);
      StartsWith(r, "/") <==> StartsWith(rel, "/")
  {
    var rel := Relative(path, home);
    var r := Shortened(path, home);
    if rel == "/" || rel == "~" {
    } else if StartsWith(rel, "/") {
      assert r[..1] == "/";
    } else if rel == [] {
      assert Split(rel, '/') == [[]];
      assert r == [];
    } else {
      var parts := Split(rel, '/');
      JoinSplit(rel, '/');
      assert parts[0] != [] by {
        if parts[0] == [] {
          assert false;
        }
      }
      var sp := ShortParts(parts, |parts|);
      ShortPartsFirst(parts, |parts|);
      ShortPartsNoSlash(parts, |parts|);
      assert sp[0] != [] && '/' !in sp[0];
      assert Join(sp, "/")[0] == sp[0][0];
    }
  }

  /** The last component survives whole: a path of two or more components
      ends with its last one. */
  lemma ShortenedKeepsLast(path: string, home: string)
    requires var rel := Relative(path, home); rel != "/" && rel != "~"
    requires |Split(Relative(path, home), '/')| >= 2
    ensures var parts := Split(Relative(path, home), '/');
      EndsWith(Shortened(path, home), parts[|parts| - 1])
  {
    var rel := Relative(path, home);
    var parts := Split(rel, '/');
    var n := |parts|;
    var sp := ShortParts(parts, n);
    assert sp == ShortParts(parts, n - 1) + [parts[n - 1]];
    var joined := Join(sp, "/");
    if ShortParts(parts, n - 1) == [] {
      assert sp == [parts[n - 1]];
    } else {
      JoinAppend(ShortParts(parts, n - 1), parts[n - 1], "/");
    }
    assert EndsWith(joined, parts[n - 1]);
    if StartsWith(rel, "/") {
      assert ("/" + joined)[|"/" + joined| - |parts[n - 1]|..] == joined[|joined| - |parts[n - 1]|..];
    }
  }

  /** Every component before the last shrinks to `~` or a single character. */
  lemma {:induction false} InteriorShrinks(parts: seq<string>, n: nat)
    requires n < |parts|
    ensures forall k :: 0 <= k < |ShortParts(parts, n)| ==>
      ShortParts(parts, n)[k] == "~" || |ShortParts(parts, n)[k]| == 1
  {
    if n > 0 {
      InteriorShrinks(parts, n - 1);
      var before := ShortParts(parts, n - 1);
      var here := ShortPart(parts, n - 1);
      assert forall x :: x in here ==> x == "~" || |x| == 1;
      assert ShortParts(parts, n) == before + here;
    }
  }

  /** A component that shortens to its first character: non-empty, not
      `~`, and free of separators. */
  predicate Component(c: string) {
    c != [] && c != "~" && '/' !in c
  }

  /** The first characters of the components, in order. */
  function Initials(cs: seq<string>): (r: seq<string>)
    ensures |r| == |cs|
  {
    if cs == [] then [] else Initials(cs[..|cs| - 1]) + [cs[|cs| - 1][..if cs[|cs| - 1] == [] then 0 else 1]]
  }

  lemma {:induction false} InitialsAreFirstChars(cs: seq<string>)
    requires forall k :: 0 <= k < |cs| ==> cs[k] != []
    ensures forall k :: 0 <= k < |cs| ==> Initials(cs)[k] == cs[k][..1]
  {
    if cs != [] {
      InitialsAreFirstChars(cs[..|cs| - 1]);
    }
  }

  /** Under `~`, interior components shrink to their first character. */
  lemma {:induction false} ShortPartsUnderHome(parts: seq<string>, n: nat)
    requires 1 <= n < |parts| && parts[0] == "~"
    requires forall k :: 1 <= k < |parts| ==> Component(parts[k])
    ensures ShortParts(parts, n) == ["~"] + Initials(parts[1..n])
  {
    if n > 1 {
      ShortPartsUnderHome(parts, n - 1);
      assert parts[1..n] == parts[1..n - 1] + [parts[n - 1]];
      assert parts[1..n][..n - 2] == parts[1..n - 1];
      assert Component(parts[n - 1]);
    } else {
      assert ShortParts(parts, 1) == ShortPart(parts, 0);
    }
  }

  /** A directory below home shows as `~`, the initials of the components
      in between, and the last component whole; the source's own test,
      `/Users/antonvice/Documents/programming/chev-shell/chev-shell` with
      home `/Users/antonvice` giving `~/D/p/c/chev-shell`, is an instance. */
  lemma ShortenedUnderHome(home: string, cs: seq<string>)
    requires |cs| >= 1
    requires forall k :: 0 <= k < |cs| ==> Component(cs[k])
    ensures Shortened(home + "/" + Join(cs, "/"), home)
      == Join(["~"] + Initials(cs[..|cs| - 1]) + [cs[|cs| - 1]], "/")
  {
    ShortPartsOfHome(cs);
    ShortenedOfHome(home, cs);
  }

  lemma ShortPartsOfHome(cs: seq<string>)
    requires |cs| >= 1
    requires forall k :: 0 <= k < |cs| ==> Component(cs[k])
    ensures ShortParts(["~"] + cs, |cs| + 1) == ["~"] + Initials(cs[..|cs| - 1]) + [cs[|cs| - 1]]
  {
    var parts := ["~"] + cs;
    PartsUnderHome(cs);
    ShortPartsUnderHome(parts, |cs|);
    LastPartUnderHome(cs);
    assert Component(cs[|cs| - 1]);
  }

  lemma ShortenedOfHome(home: string, cs: seq<string>)
    requires |cs| >= 1
    requires forall k :: 0 <= k < |cs| ==> Component(cs[k])
    ensures Shortened(home + "/" + Join(cs, "/"), home) == Join(ShortParts(["~"] + cs, |cs| + 1), "/")
  {
    PartsUnderHome(cs);
    RelativeUnderHome(home, cs);
    ShortenedOfParts(home + "/" + Join(cs, "/"), home, ["~"] + cs);
  }

  lemma PartsUnderHome(cs: seq<string>)
    requires forall k :: 0 <= k < |cs| ==> Component(cs[k])
    ensures var parts := ["~"] + cs;
      && (forall k :: 1 <= k < |parts| ==> Component(parts[k]))
      && (forall k :: 0 <= k < |parts| ==> '/' !in parts[k])
  {
    var parts := ["~"] + cs;
    forall k | 1 <= k < |parts| ensures Component(parts[k]) {
      assert parts[k] == cs[k - 1];
    }
  }

  lemma LastPartUnderHome(cs: seq<string>)
    requires |cs| >= 1
    ensures var parts := ["~"] + cs; var n := |parts|;
      && ShortParts(parts, n) == ShortParts(parts, n - 1) + ShortPart(parts, n - 1)
      && (cs[|cs| - 1] != [] ==> ShortPart(parts, n - 1) == [cs[|cs| - 1]])
      && parts[1..n - 1] == cs[..|cs| - 1]
  {
  }

  /** The shortened form of a path whose abbreviated form splits into
      `parts` under `~`. */
  lemma ShortenedOfParts(path: string, home: string, parts: seq<string>)
    requires |parts| >= 2 && parts[0] == "~"
    requires forall k :: 0 <= k < |parts| ==> '/' !in parts[k]
    requires Relative(path, home) == Join(parts, "/")
    ensures Shortened(path, home) == Join(ShortParts(parts, |parts|), "/")
  {
    var rel := Relative(path, home);
    assert rel == "~" + "/" + Join(parts[1..], "/");
    assert rel[0] == '~' && |rel| > 1;
    SplitJoin(parts, '/');
  }

  lemma RelativeUnderHome(home: string, cs: seq<string>)
    requires |cs| >= 1
    ensures var rel := Relative(home + "/" + Join(cs, "/"), home);
      rel == Join(["~"] + cs, "/") && rel[0] == '~' && |rel| > 1
  {
    var path := home + "/" + Join(cs, "/");
    assert path == home + ("/" + Join(cs, "/"));
    assert StartsWith(path, home);
    assert (["~"] + cs)[1..] == cs;
  }

  // ---------------------------------------------------------------------
  // PromptParts

  datatype PromptParts = PromptParts(user: string, hostname: string, path: string, git: string)

  const Shell: string := "\U{1f41a}"
  const PromptStart: string := "\U{01}\U{1b}]133;A\U{07}\U{02}"
  const CommandStart: string := "\U{01}\U{1b}]133;B\U{07}\U{02}"
  const Teal: string := "\U{01}\U{1b}[38;2;110;209;195m\U{02}"
  const Gray: string := "\U{01}\U{1b}[90m\U{02}"
  const Reset: string := "\U{01}\U{1b}[0m\U{02}"
  const BoldTeal: string := "\U{01}\U{1b}[1;38;2;110;209;195m\U{02}"

  /** The part both prompts start with: shell, user@host, path. */
  function Front(p: PromptParts): string {
    Shell + " " + p.user + "@" + p.hostname + " " + p.path
  }

  /** `to_plain_string`. */
  function PlainString(p: PromptParts): string {
    var gitText := if p.git == [] then "" else "(" + p.git + ") ";
    Front(p) + " " + gitText + "> "
  }

  function UserHost(p: PromptParts): string {
    Teal + p.user + "@" + Gray + p.hostname + Reset
  }

  function PathPart(p: PromptParts): string {
    BoldTeal + p.path + Reset
  }

  function GitPart(git: string): string {
    if git != [] then " " + Gray + "(" + git + ")" + Reset else ""
  }

  /** The coloured prompt between the semantic marks. */
  function Body(p: PromptParts): string {
    Shell + " " + UserHost(p) + " " + PathPart(p) + GitPart(p.git) + Teal + ">" + " " + Reset
  }

  /** `to_colored_string`: the same fields in colour, bracketed by the
      OSC 133 prompt-start and command-start marks when `semantic`. */
  function ColoredString(p: PromptParts, semantic: bool): string {
    var pStart := if semantic then PromptStart else "";
    var cStart := if semantic then CommandStart else "";
    pStart + Body(p) + cStart
  }

  /** The semantic marks are there exactly when asked for: the prompt
      starts with `133;A` and ends with `133;B` iff `semantic`. */
  lemma SemanticMarks(p: PromptParts, semantic: bool)
    ensures StartsWith(ColoredString(p, semantic), PromptStart) <==> semantic
    ensures EndsWith(ColoredString(p, semantic), CommandStart) <==> semantic
  {
    var body := Body(p);
    var r := ColoredString(p, semantic);
    if semantic {
      Framed(PromptStart, body, CommandStart);
    } else {
      assert r == body;
      assert r[0] == Shell[0] != PromptStart[0];
      assert r[|r| - 2] == Reset[|Reset| - 2] != CommandStart[|CommandStart| - 2];
    }
  }

  lemma Framed(a: string, b: string, c: string)
    ensures StartsWith(a + b + c, a) && EndsWith(a + b + c, c)
  {
    assert (a + b + c)[..|a|] == a;
    assert (a + b + c)[|a + b + c| - |c|..] == c;
  }

  // ---------------------------------------------------------------------
  // What the terminal shows

  /** The text after the first `\x02`: the rest of a zero-width run. */
  function AfterMark(s: string): (r: string)
    ensures |r| <= |s|
  {
    if s == [] then [] else if s[0] == '\U{02}' then s[1..] else AfterMark(s[1..])
  }

  /** The characters that take columns: every `\x01 … \x02` run removed. */
  function Visible(s: string): string
    decreases |s|
  {
    if s == [] then []
    else if s[0] == '\U{01}' then Visible(AfterMark(s[1..]))
    else [s[0]] + Visible(s[1..])
  }

  /** Every zero-width run that opens in `s` also closes in it. */
  predicate Closed(s: string)
    decreases |s|
  {
    if s == [] then true
    else if s[0] == '\U{01}' then '\U{02}' in s[1..] && Closed(AfterMark(s[1..]))
    else Closed(s[1..])
  }

  lemma {:induction false} AfterMarkConcat(a: string, b: string)
    requires '\U{02}' in a
    ensures AfterMark(a + b) == AfterMark(a) + b
  {
    assert a != [];
    assert (a + b)[1..] == a[1..] + b;
    if a[0] != '\U{02}' {
      AfterMarkConcat(a[1..], b);
    }
  }

  /** Visibility distributes over a concatenation whose left part closes
      all its runs; and closed parts make a closed whole. */
  lemma {:induction false} VisibleConcat(a: string, b: string)
    requires Closed(a)
    ensures Visible(a + b) == Visible(a) + Visible(b)
    ensures Closed(b) ==> Closed(a + b)
    decreases |a|
  {
    if a != [] {
      var ab := a + b;
      assert ab[0] == a[0] && ab[1..] == a[1..] + b;
      if a[0] == '\U{01}' {
        var rest := AfterMark(a[1..]);
        AfterMarkConcat(a[1..], b);
        VisibleConcat(rest, b);
        assert '\U{02}' in a[1..];
        assert '\U{02}' in ab[1..];
        assert AfterMark(ab[1..]) == rest + b;
      } else {
        VisibleConcat(a[1..], b);
        assert Visible(ab) == [a[0]] + Visible(a[1..] + b);
      }
    } else {
      assert a + b == b;
    }
  }

  /** A zero-width run: `\x01`, anything but `\x02`, then `\x02`. */
  predicate IsMark(m: string) {
    |m| >= 2 && m[0] == '\U{01}' && m[|m| - 1] == '\U{02}' && '\U{02}' !in m[1..|m| - 1]
  }

  lemma {:induction false} AfterMarkSkips(inner: string, b: string)
    requires '\U{02}' !in inner
    ensures AfterMark(inner + "\U{02}" + b) == b
  {
    if inner != [] {
      assert (inner + "\U{02}" + b)[1..] == inner[1..] + "\U{02}" + b;
      AfterMarkSkips(inner[1..], b);
    }
  }

  lemma MarkShowsNothing(m: string)
    requires IsMark(m)
    ensures Closed(m) && Visible(m) == []
  {
    var inner := m[1..|m| - 1];
    assert m == "\U{01}" + (inner + "\U{02}" + []);
    assert m[1..] == inner + "\U{02}" + [];
    AfterMarkSkips(inner, []);
  }

  lemma {:induction false} TextShowsItself(x: string)
    requires '\U{01}' !in x
    ensures Closed(x) && Visible(x) == x
  {
    if x != [] {
      assert x[0] in x;
      TextShowsItself(x[1..]);
    }
  }

  /** One step along a concatenation: closed parts with known visible text. */
  lemma Shows(a: string, b: string, va: string, vb: string)
    requires Closed(a) && Closed(b) && Visible(a) == va && Visible(b) == vb
    ensures Closed(a + b) && Visible(a + b) == va + vb
  {
    VisibleConcat(a, b);
  }

  lemma MarksAreMarks()
    ensures IsMark(PromptStart) && IsMark(CommandStart) && IsMark(Teal)
    ensures IsMark(Gray) && IsMark(Reset) && IsMark(BoldTeal)
  {
  }

  lemma UserHostShows(p: PromptParts)
    requires '\U{01}' !in p.user && '\U{01}' !in p.hostname
    ensures Closed(UserHost(p)) && Visible(UserHost(p)) == p.user + "@" + p.hostname
  {
    MarksAreMarks();
    MarkShowsNothing(Teal);
    MarkShowsNothing(Gray);
    MarkShowsNothing(Reset);
    TextShowsItself(p.user);
    TextShowsItself("@");
    TextShowsItself(p.hostname);
    Shows(Teal, p.user, [], p.user);
    Shows(Teal + p.user, "@", p.user, "@");
    Shows(Teal + p.user + "@", Gray, p.user + "@", []);
    Shows(Teal + p.user + "@" + Gray, p.hostname, p.user + "@", p.hostname);
    Shows(Teal + p.user + "@" + Gray + p.hostname, Reset, p.user + "@" + p.hostname, []);
  }

  lemma PathShows(p: PromptParts)
    requires '\U{01}' !in p.path
    ensures Closed(PathPart(p)) && Visible(PathPart(p)) == p.path
  {
    MarksAreMarks();
    MarkShowsNothing(BoldTeal);
    MarkShowsNothing(Reset);
    TextShowsItself(p.path);
    Shows(BoldTeal, p.path, [], p.path);
    Shows(BoldTeal + p.path, Reset, p.path, []);
  }

  /** What the git part shows: nothing, or " (branch)". */
  function ShownGit(git: string): string {
    if git != [] then " " + "(" + git + ")" else ""
  }

  lemma GitShows(git: string)
    requires '\U{01}' !in git
    ensures Closed(GitPart(git)) && Visible(GitPart(git)) == ShownGit(git)
  {
    if git == [] {
      TextShowsItself("");
    } else {
      MarksAreMarks();
      MarkShowsNothing(Gray);
      MarkShowsNothing(Reset);
      TextShowsItself(" ");
      ShowsBetween(" ", Gray, "(", git, ")", Reset);
    }
  }

  /** Text between two zero-width runs shows as itself. */
  lemma ShowsBetween(pre: string, m1: string, open: string, x: string, close: string, m2: string)
    requires Closed(pre) && Closed(m1) && Closed(m2) && Visible(m1) == [] && Visible(m2) == []
    requires '\U{01}' !in open && '\U{01}' !in x && '\U{01}' !in close
    ensures Closed(pre + m1 + open + x + close + m2)
    ensures Visible(pre + m1 + open + x + close + m2) == Visible(pre) + open + x + close
  {
    var v := Visible(pre);
    TextShowsItself(open);
    TextShowsItself(x);
    TextShowsItself(close);
    Shows(pre, m1, v, []);
    assert Visible(pre + m1) == v;
    Shows(pre + m1, open, v, open);
    Shows(pre + m1 + open, x, v + open, x);
    Shows(pre + m1 + open + x, close, v + open + x, close);
    Shows(pre + m1 + open + x + close, m2, v + open + x + close, []);
  }

  lemma Regroup(sh: string, sp: string, uh: string, u: string, at: string, h: string, pa: string)
    requires uh == u + at + h
    ensures sh + sp + uh + sp + pa == sh + sp + u + at + h + sp + pa
  {
  }

  /** The shell name, the user and host and the path show as `Front`. */
  lemma FrontShows(p: PromptParts)
    requires '\U{01}' !in p.user && '\U{01}' !in p.hostname && '\U{01}' !in p.path
    ensures var s := Shell + " " + UserHost(p) + " " + PathPart(p);
      Closed(s) && Visible(s) == Front(p)
  {
    MarksAreMarks();
    TextShowsItself(Shell);
    TextShowsItself(" ");
    UserHostShows(p);
    PathShows(p);
    var uh := p.user + "@" + p.hostname;
    Shows(Shell, " ", Shell, " ");
    Shows(Shell + " ", UserHost(p), Shell + " ", uh);
    Shows(Shell + " " + UserHost(p), " ", Shell + " " + uh, " ");
    Shows(Shell + " " + UserHost(p) + " ", PathPart(p), Shell + " " + uh + " ", p.path);
    Regroup(Shell, " ", uh, p.user, "@", p.hostname, p.path);
  }

  lemma BodyShows(p: PromptParts)
    requires '\U{01}' !in p.user && '\U{01}' !in p.hostname
    requires '\U{01}' !in p.path && '\U{01}' !in p.git
    ensures Closed(Body(p)) && Visible(Body(p)) == Front(p) + ShownGit(p.git) + ">" + " "
  {
    MarksAreMarks();
    MarkShowsNothing(Teal);
    MarkShowsNothing(Reset);
    TextShowsItself(" ");
    TextShowsItself(">");
    GitShows(p.git);
    FrontShows(p);
    var v := Front(p);
    var s := Shell + " " + UserHost(p) + " " + PathPart(p);
    Shows(s, GitPart(p.git), v, ShownGit(p.git));
    Shows(s + GitPart(p.git), Teal, v + ShownGit(p.git), []);
    Shows(s + GitPart(p.git) + Teal, ">", v + ShownGit(p.git), ">");
    Shows(s + GitPart(p.git) + Teal + ">", " ", v + ShownGit(p.git) + ">", " ");
    Shows(s + GitPart(p.git) + Teal + ">" + " ", Reset, v + ShownGit(p.git) + ">" + " ", []);
  }

  /** The visible text of the coloured prompt. */
  lemma ColoredShows(p: PromptParts, semantic: bool)
    requires '\U{01}' !in p.user && '\U{01}' !in p.hostname
    requires '\U{01}' !in p.path && '\U{01}' !in p.git
    ensures Visible(ColoredString(p, semantic)) == Front(p) + ShownGit(p.git) + ">" + " "
  {
    var pStart := if semantic then PromptStart else "";
    var cStart := if semantic then CommandStart else "";
    MarksAreMarks();
    if semantic { MarkShowsNothing(PromptStart); MarkShowsNothing(CommandStart); }
    else { TextShowsItself(""); }
    BodyShows(p);
    var v := Front(p) + ShownGit(p.git) + ">" + " ";
    Shows(pStart, Body(p), [], v);
    Shows(pStart + Body(p), cStart, v, []);
  }

  /** The coloured prompt shows the plain prompt's text except for the space
      before `>`: the plain one is the coloured one's visible text with its
      trailing "> " written " > ". The semantic marks take no columns. */
  lemma ColoredShowsPlain(p: PromptParts, semantic: bool)
    requires '\U{01}' !in p.user && '\U{01}' !in p.hostname
    requires '\U{01}' !in p.path && '\U{01}' !in p.git
    ensures var v := Visible(ColoredString(p, semantic));
      |v| >= 2 && v[|v| - 2..] == "> " && PlainString(p) == v[..|v| - 2] + " > "
  {
    ColoredShows(p, semantic);
    var front := Front(p) + ShownGit(p.git);
    var v := Visible(ColoredString(p, semantic));
    assert v == front + "> ";
    assert v[..|v| - 2] == front;
    var gitText := if p.git == [] then "" else "(" + p.git + ") ";
    assert " " + gitText == ShownGit(p.git) + " ";
    assert PlainString(p) == Front(p) + (" " + gitText) + "> ";
  }
}

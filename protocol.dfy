/** The terminal control strings of `src/ui/protocol.rs`: each action becomes
    an ECMA-48 Operating System Command (section 8.3.89 of ECMA-48), opened by
    ESC `]`, carrying the private code 1338, and closed by BEL. */
module Protocol {
  import opened Wrappers

  /** The `RioAction` variants whose payload is text or a flag. */
  datatype RioAction =
    | Notify(title: string, message: string)
    | Badge(text: string)
    | Ghost(text: string)
    | Preview(path: string)
    | MiniMap(enabled: bool)
    | BackgroundEffect(name: Option<string>)
    | Edit(path: string)
    | RequestHistory
    | ToggleHistory(enabled: bool)

  const Opener: string := "\U{1b}]1338;"
  const Bel: char := '\U{07}'

  /** `"1"` for on and `"0"` for off. */
  function Flag(b: bool): (r: string)
    ensures |r| == 1 && (r == "1" <==> b) && (r == "0" <==> !b)
  {
    if b then "1" else "0"
  }

  /** What follows the name and its `;` in each body. */
  function Fields(a: RioAction): string {
    match a
    case Notify(title, message) => title + ";" + message
    case Badge(text) => text
    case Ghost(text) => text
    case Preview(path) => path
    case MiniMap(enabled) => Flag(enabled)
    case BackgroundEffect(name) => if name.Some? then name.value else "none"
    case Edit(path) => path
    case RequestHistory => []
    case ToggleHistory(enabled) => Flag(enabled)
  }

  /** The text between the opener and BEL: the action's name, then a `;` and
      the fields, except for `request-history`, which has none. */
  function Body(a: RioAction): string {
    if a.RequestHistory? then Name(a) else Name(a) + ";" + Fields(a)
  }

  /** The control string `send_rio` writes for `a`: the opener, the body and
      BEL, with the body taken from the action's name and payload as they
      are, nothing escaped. */
  function Encode(a: RioAction): (r: string)
    ensures |r| >= |Opener| + 1
    ensures r[..|Opener|] == Opener && r[|r| - 1] == Bel
    ensures r[|Opener|..|r| - 1] == Body(a)
  {
    var r := Opener + Body(a) + [Bel];
    assert r[..|Opener|] == Opener;
    assert r[|Opener|..|r| - 1] == Body(a);
    r
  }

  /** The name before the first `;` of a body, when it has one. */
  function Name(a: RioAction): string {
    match a
    case Notify(_, _) => "notify"
    case Badge(_) => "badge"
    case Ghost(_) => "ghost"
    case Preview(_) => "preview"
    case MiniMap(_) => "minimap"
    case BackgroundEffect(_) => "effect"
    case Edit(_) => "edit"
    case RequestHistory => "request-history"
    case ToggleHistory(_) => "history-toggle"
  }

  /** The action's payload, read back from the body. */
  function Payload(a: RioAction): string {
    var n := |Name(a)|;
    var b := Body(a);
    if |b| > n then b[n + 1..] else []
  }

  /** Every body other than `request-history` is the action's name, a `;`,
      and the payload: the text verbatim, the flag as `1`/`0`, a missing
      effect as `none`, and a notification's title and message separated by
      a plain `;`. */
  lemma BodyShape(a: RioAction)
    ensures a.RequestHistory? ==> Body(a) == Name(a)
    ensures !a.RequestHistory? ==> Body(a) == Name(a) + ";" + Payload(a)
    ensures match a
      case Notify(title, message) => Payload(a) == title + ";" + message
      case Badge(text) => Payload(a) == text
      case Ghost(text) => Payload(a) == text
      case Preview(path) => Payload(a) == path
      case Edit(path) => Payload(a) == path
      case MiniMap(enabled) => Payload(a) == Flag(enabled)
      case ToggleHistory(enabled) => Payload(a) == Flag(enabled)
      case BackgroundEffect(name) => Payload(a) == (if name.Some? then name.value else "none")
      case RequestHistory => Payload(a) == []
  {
    if !a.RequestHistory? {
      AfterName(Name(a), Fields(a));
    }
  }

  lemma AfterName(name: string, rest: string)
    ensures (name + ";" + rest)[|name| + 1..] == rest
    ensures |name + ";" + rest| > |name|
  {
  }

  /** The first two letters of each name, which differ from name to name. */
  function Tag(a: RioAction): string {
    match a
    case Notify(_, _) => "no"
    case Badge(_) => "ba"
    case Ghost(_) => "gh"
    case Preview(_) => "pr"
    case MiniMap(_) => "mi"
    case BackgroundEffect(_) => "ef"
    case Edit(_) => "ed"
    case RequestHistory => "re"
    case ToggleHistory(_) => "hi"
  }

  lemma TagIsNamePrefix(a: RioAction)
    ensures |Name(a)| >= 2 && Name(a)[..2] == Tag(a)
  {
  }

  /** The first two letters of the name tell the names apart. */
  lemma NameDetermined(a: RioAction, b: RioAction)
    requires Name(a)[..2] == Name(b)[..2]
    ensures Name(a) == Name(b)
  {
    TagIsNamePrefix(a);
    TagIsNamePrefix(b);
  }

  /** Each body starts with its action's name and is at least two long. */
  lemma BodyStartsWithName(a: RioAction)
    ensures |Body(a)| >= 2 && Body(a)[..2] == Name(a)[..2]
  {
    BodyShape(a);
    var n := Name(a);
    assert |n| >= 2 && n[..2] == (n + ";" + Payload(a))[..2];
  }

  /** In `title;message` with no `;` in the title, the first `;` is the one
      after the title. */
  lemma {:induction false} FirstSemicolon(t: string, m: string)
    requires ';' !in t
    ensures (t + ";" + m)[|t|] == ';'
    ensures forall k :: 0 <= k < |t| ==> (t + ";" + m)[k] != ';'
  {
    assert forall k :: 0 <= k < |t| ==> (t + ";" + m)[k] == t[k];
  }

  /** A title without `;` is read back unambiguously from `title;message`. */
  lemma {:induction false} NotifySplit(t1: string, m1: string, t2: string, m2: string)
    requires ';' !in t1 && ';' !in t2
    requires t1 + ";" + m1 == t2 + ";" + m2
    ensures t1 == t2 && m1 == m2
  {
    var s1 := t1 + ";" + m1;
    var s2 := t2 + ";" + m2;
    FirstSemicolon(t1, m1);
    FirstSemicolon(t2, m2);
    assert |t1| == |t2|;
    assert t1 == s1[..|t1|] && t2 == s2[..|t2|];
    assert m1 == s1[|t1| + 1..] && m2 == s2[|t2| + 1..];
  }

  /** `effect;none` is both a cleared effect and an effect named "none". */
  lemma EffectNoneCollides()
    ensures Encode(BackgroundEffect(None)) == Encode(BackgroundEffect(Some("none")))
  {
  }

  /** Apart from that pair, two different actions never produce the same
      control string, as long as a notification title holds no `;`. */
  lemma EncodeInjective(a: RioAction, b: RioAction)
    requires a.Notify? ==> ';' !in a.title
    requires b.Notify? ==> ';' !in b.title
    requires a.BackgroundEffect? ==> a.name != Some("none")
    requires b.BackgroundEffect? ==> b.name != Some("none")
    requires Encode(a) == Encode(b)
    ensures a == b
  {
    assert Body(a) == Body(b) by {
      assert Body(a) == Encode(a)[|Opener|..|Encode(a)| - 1];
    }
    BodyStartsWithName(a);
    BodyStartsWithName(b);
    NameDetermined(a, b);
    BodyShape(a);
    BodyShape(b);
    if !a.RequestHistory? {
      var n := |Name(a)|;
      assert Payload(a) == Body(a)[n + 1..];
      assert Payload(a) == Payload(b);
    }
    if a.Notify? {
      NotifySplit(a.title, a.message, b.title, b.message);
    } else if a.MiniMap? || a.ToggleHistory? {
      assert Flag(a.enabled) == Flag(b.enabled);
    }
  }
}

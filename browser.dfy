/** The page-to-text extractor of the built-in browser: a one-pass scan
    that drops markup, skips script and style bodies, turns block tags into
    line breaks and picks up page metadata; then the text is cleaned into
    trimmed non-empty lines. Also the 44-column truncation of the card. */
module Browser {
  import opened Wrappers
  import opened Strings

  datatype PageMetadata = PageMetadata(title: string, description: string, imageUrl: Option<string>)

  const NoMetadata: PageMetadata := PageMetadata("", "", None)

  // ---------------------------------------------------------------------
  // extract_attr

  /** `extract_attr`: the text between the first `attr="` and the next
      quote, or nothing when either is missing. */
  function ExtractAttr(tag: string, attr: string): (r: string)
    ensures '"' !in r
  {
    var pattern := attr + "=\"";
    match Find(tag, pattern)
    case None => ""
    case Some(start) =>
      var contentStart := start + |pattern|;
      var rest := tag[contentStart..];
      match Find(rest, "\"")
      case None => ""
      case Some(end) =>
        assert forall j :: 0 <= j < end ==> rest[j] != '"' by {
          forall j | 0 <= j < end ensures rest[j] != '"' {
            assert !OccursAt(rest, "\"", j);
            assert rest[j..j + 1] == [rest[j]];
          }
        }
        rest[..end]
  }

  /** Reading back a written attribute: after its first `attr="`, a value
      free of quotes is returned whole. */
  lemma ExtractAttrWritten(pre: string, attr: string, v: string, post: string)
    requires '"' !in v
    requires forall j :: 0 <= j < |pre| ==> !OccursAt(pre + (attr + "=\"") + v + "\"" + post, attr + "=\"", j)
    ensures ExtractAttr(pre + (attr + "=\"") + v + "\"" + post, attr) == v
  {
    var pattern := attr + "=\"";
    var tag := pre + pattern + v + "\"" + post;
    assert tag[|pre|..|pre| + |pattern|] == pattern;
    assert OccursAt(tag, pattern, |pre|);
    var f := Find(tag, pattern);
    assert f == Some(|pre|);
    var rest := tag[|pre| + |pattern|..];
    assert rest == v + "\"" + post;
    assert rest[|v|..|v| + 1] == "\"";
    assert OccursAt(rest, "\"", |v|);
    forall j | 0 <= j < |v| ensures !OccursAt(rest, "\"", j) {
      assert rest[j..j + 1] == [v[j]];
      assert v[j] in v;
    }
    var g := Find(rest, "\"");
    assert g == Some(|v|);
    assert rest[..|v|] == v;
  }

  /** The value is missing when the tag has no `attr="` at all. */
  lemma ExtractAttrMissing(tag: string, attr: string)
    requires !Contains(tag, attr + "=\"")
    ensures ExtractAttr(tag, attr) == ""
  {
  }

  // ---------------------------------------------------------------------
  // The scan of extract_content

  /** The loop variables of `extract_content`. */
  datatype Scan = Scan(
    output: string, meta: PageMetadata, inTag: bool, inSkip: bool,
    tagContent: string, skipStack: nat)

  const Start: Scan := Scan("", NoMetadata, false, false, "", 0)

  /** Tags, opening or closing, that become a line break. */
  const BreakTags: set<string> := {
    "p", "div", "br", "h1", "h2", "h3", "li",
    "/p", "/div", "/h1", "/h2", "/h3", "/li"
  }

  predicate NamesTitle(tag: string) {
    Contains(tag, "property=\"og:title\"") || Contains(tag, "name=\"title\"")
  }

  predicate NamesImage(tag: string) {
    Contains(tag, "property=\"og:image\"") || Contains(tag, "name=\"image\"")
  }

  predicate NamesDescription(tag: string) {
    Contains(tag, "property=\"og:description\"") || Contains(tag, "name=\"description\"")
  }

  /** The metadata after a (lower-cased) tag: a `meta` tag fills each field
      it names, but only while that field is still unset. */
  function MetaAfter(meta: PageMetadata, tag: string): PageMetadata {
    if !StartsWith(tag, "meta") then meta
    else
      var m1 := if NamesTitle(tag) && meta.title == [] then meta.(title := ExtractAttr(tag, "content")) else meta;
      var m2 := if NamesImage(tag) && m1.imageUrl.None? then m1.(imageUrl := Some(ExtractAttr(tag, "content"))) else m1;
      if NamesDescription(tag) && m2.description == [] then m2.(description := ExtractAttr(tag, "content")) else m2
  }

  /** What a closing `>` does, with `tag` the lower-cased tag text. */
  function CloseTag(st: Scan): Scan {
    var tag := LowerAscii(st.tagContent);
    var st1 := st.(inTag := false, meta := MetaAfter(st.meta, tag));
    if StartsWith(tag, "script") || StartsWith(tag, "style") then
      st1.(inSkip := true, skipStack := st.skipStack + 1)
    else if tag == "/script" || tag == "/style" then
      var k := if st.skipStack == 0 then 0 else st.skipStack - 1;
      st1.(skipStack := k, inSkip := if k == 0 then false else st.inSkip)
    else if tag in BreakTags then st1.(output := st.output + "\n")
    else st1
  }

  /** One character of the scan. */
  function Step(st: Scan, c: char): Scan {
    if c == '<' then st.(inTag := true, tagContent := [])
    else if c == '>' then CloseTag(st)
    else if st.inTag then st.(tagContent := st.tagContent + [c])
    else if !st.inSkip then st.(output := st.output + [c])
    else st
  }

  /** The scan after the characters of `s`, from `st`. */
  function ScanFrom(st: Scan, s: string): Scan {
    if s == [] then st else Step(ScanFrom(st, s[..|s| - 1]), s[|s| - 1])
  }

  lemma {:induction false} ScanFromAppend(st: Scan, a: string, b: string)
    ensures ScanFrom(st, a + b) == ScanFrom(ScanFrom(st, a), b)
  {
    if b == [] {
      assert a + b == a;
    } else {
      assert (a + b)[..|a + b| - 1] == a + b[..|b| - 1];
      ScanFromAppend(st, a, b[..|b| - 1]);
    }
  }

  /** The skip flag is set exactly while the script/style counter is positive. */
  predicate SkipAgrees(st: Scan) {
    st.inSkip <==> st.skipStack > 0
  }

  lemma {:induction false} ScanKeepsSkipAgreeing(st: Scan, s: string)
    requires SkipAgrees(st)
    ensures SkipAgrees(ScanFrom(st, s))
  {
    if s != [] {
      ScanKeepsSkipAgreeing(st, s[..|s| - 1]);
    }
  }

  /** Inside a tag, characters other than `<` and `>` only collect the tag text. */
  lemma {:induction false} InTagScan(st: Scan, t: string)
    requires st.inTag && '<' !in t && '>' !in t
    ensures ScanFrom(st, t) == st.(tagContent := st.tagContent + t)
  {
    if t != [] {
      var front := t[..|t| - 1];
      assert forall c :: c in front ==> c in t;
      InTagScan(st, front);
      assert t[|t| - 1] in t;
      assert st.tagContent + front + [t[|t| - 1]] == st.tagContent + t;
    }
  }

  /** Outside tags, text is copied to the output unless a script or style
      body is being skipped. */
  lemma {:induction false} TextScan(st: Scan, t: string)
    requires !st.inTag && '<' !in t && '>' !in t
    ensures ScanFrom(st, t) == st.(output := st.output + if st.inSkip then "" else t)
  {
    if t != [] {
      var front := t[..|t| - 1];
      assert forall c :: c in front ==> c in t;
      TextScan(st, front);
      assert t[|t| - 1] in t;
      assert st.output + front + [t[|t| - 1]] == st.output + t;
    } else {
      assert st.output + "" == st.output;
    }
  }

  /** After `<` and the tag text, the scan is inside a tag holding that text. */
  lemma OpenScan(st: Scan, t: string)
    requires '<' !in t && '>' !in t
    ensures ScanFrom(st, "<" + t) == st.(inTag := true, tagContent := t)
  {
    var open := Step(st, '<');
    assert ScanFrom(st, "<") == open by {
      assert "<"[..0] == [];
    }
    ScanFromAppend(st, "<", t);
    InTagScan(open, t);
  }

  /** A complete tag `<t>` is read as its text, then closed. */
  lemma OpenTagScan(st: Scan, t: string)
    requires '<' !in t && '>' !in t
    ensures ScanFrom(st, "<" + t + ">") == CloseTag(st.(inTag := true, tagContent := t))
  {
    OpenScan(st, t);
    assert ("<" + t + ">")[..|"<" + t + ">"| - 1] == "<" + t;
  }

  /** Closing a tag adds at most a line break to the output. */
  lemma CloseTagOutput(st: Scan)
    ensures var tag := LowerAscii(st.tagContent);
      CloseTag(st).output
        == st.output + if tag in BreakTags && !StartsWith(tag, "script") && !StartsWith(tag, "style") then "\n" else ""
  {
  }

  /** A complete tag `<t>` adds nothing of its text to the output: exactly
      one line break when it is a block tag, nothing otherwise. */
  lemma TagScan(st: Scan, t: string)
    requires '<' !in t && '>' !in t
    ensures var tag := LowerAscii(t);
      ScanFrom(st, "<" + t + ">").output
        == st.output + if tag in BreakTags && !StartsWith(tag, "script") && !StartsWith(tag, "style") then "\n" else ""
  {
    OpenTagScan(st, t);
    CloseTagOutput(st.(inTag := true, tagContent := t));
  }

  /** Markup never reaches the output: no `<` or `>` is ever copied. */
  lemma {:induction false} NoMarkupInOutput(st: Scan, s: string)
    requires '<' !in st.output && '>' !in st.output
    ensures '<' !in ScanFrom(st, s).output && '>' !in ScanFrom(st, s).output
  {
    if s != [] {
      var before := ScanFrom(st, s[..|s| - 1]);
      NoMarkupInOutput(st, s[..|s| - 1]);
      CloseTagOutput(before);
    }
  }

  /** Closing a script or style tag counts down, saturating at zero. */
  lemma CloseSkipCounts(st: Scan)
    requires LowerAscii(st.tagContent) == "/script" || LowerAscii(st.tagContent) == "/style"
    requires SkipAgrees(st)
    ensures var after := CloseTag(st);
      after.skipStack == (if st.skipStack == 0 then 0 else st.skipStack - 1)
      && SkipAgrees(after) && after.output == st.output
  {
    var tag := LowerAscii(st.tagContent);
    assert !StartsWith(tag, "script") && !StartsWith(tag, "style") by {
      assert tag[0] == '/';
    }
  }

  /** A closing script or style tag counts down, saturating at zero; the
      skip ends when the count reaches zero. */
  lemma CloseSkipTag(st: Scan, t: string)
    requires LowerAscii(t) == "/script" || LowerAscii(t) == "/style"
    requires '<' !in t && '>' !in t && SkipAgrees(st)
    ensures var after := ScanFrom(st, "<" + t + ">");
      after.skipStack == (if st.skipStack == 0 then 0 else st.skipStack - 1)
      && SkipAgrees(after) && after.output == st.output
  {
    OpenTagScan(st, t);
    CloseSkipCounts(st.(inTag := true, tagContent := t));
  }

  /** One tag's metadata update never overwrites a field already set. */
  lemma MetaAfterFirstWins(meta: PageMetadata, tag: string)
    ensures var m := MetaAfter(meta, tag);
      && (meta.title != [] ==> m.title == meta.title)
      && (meta.description != [] ==> m.description == meta.description)
      && (meta.imageUrl.Some? ==> m.imageUrl == meta.imageUrl)
  {
  }

  /** Only a closing `>` touches the metadata. */
  lemma StepMeta(st: Scan, c: char)
    ensures Step(st, c).meta == if c == '>' then MetaAfter(st.meta, LowerAscii(st.tagContent)) else st.meta
  {
  }

  /** Metadata is first-wins: a field changes only while it is unset. */
  lemma {:induction false} MetaFirstWins(st: Scan, s: string)
    ensures var m := ScanFrom(st, s).meta;
      && (st.meta.title != [] ==> m.title == st.meta.title)
      && (st.meta.description != [] ==> m.description == st.meta.description)
      && (st.meta.imageUrl.Some? ==> m.imageUrl == st.meta.imageUrl)
  {
    if s != [] {
      var before := ScanFrom(st, s[..|s| - 1]);
      MetaFirstWins(st, s[..|s| - 1]);
      StepMeta(before, s[|s| - 1]);
      MetaAfterFirstWins(before.meta, LowerAscii(before.tagContent));
    }
  }

  // ---------------------------------------------------------------------
  // After the scan

  /** The `<title>` element as a fallback title: the trimmed text between
      the first `<title>` and the next `</title>`, found case-insensitively. */
  function TitleFallback(meta: PageMetadata, html: string): PageMetadata {
    TitleFrom(meta, html, LowerAscii(html))
  }

  /** The fallback, given the lower-cased page (of the same length). */
  function TitleFrom(meta: PageMetadata, html: string, lower: string): PageMetadata
    requires |lower| == |html|
  {
    if meta.title != [] then meta
    else
      var bounds := TitleBounds(lower);
      if bounds.None? then meta
      else meta.(title := Trim(html[bounds.value.start + 7..bounds.value.start + bounds.value.end]))
  }

  /** The first `<title>`, and the first `</title>` as an offset from it. */
  datatype Bounds = Bounds(start: nat, end: nat)

  /** Where the title text lies in the lower-cased page: the first
      `<title>`, and the first `</title>` after it, as an offset from it. */
  function TitleBounds(lower: string): (r: Option<Bounds>)
    ensures r.Some? ==> r.value.start + 7 <= r.value.start + r.value.end <= |lower|
  {
    match Find(lower, "<title>")
    case None => None
    case Some(start) =>
      match Find(lower[start..], "</title>")
      case None => None
      case Some(end) =>
        CloseAfterOpen(lower[start..]);
        Some(Bounds(start, end))
  }

  /** `</title>` cannot begin inside `<title>`, so the slice is well formed. */
  lemma CloseAfterOpen(s: string)
    requires StartsWith(s, "<title>")
    ensures forall j :: 0 <= j < 7 ==> !OccursAt(s, "</title>", j)
    ensures Find(s, "</title>").Some? ==> Find(s, "</title>").value >= 7
  {
    assert s[..7] == "<title>";
    forall j | 0 <= j < 7 ensures !OccursAt(s, "</title>", j) {
      if j + 8 > |s| {
      } else if j == 0 {
        assert s[j..j + 8][1] == s[1] == 't';
      } else {
        assert s[j..j + 8][0] == s[j] == "<title>"[j] != '<';
      }
    }
  }

  /** `p` is first found at `a` when it occurs there, not before `lo`, and
      no character from `lo` up to `a` starts it. */
  lemma FindAt(s: string, p: string, lo: nat, a: nat)
    requires p != [] && lo <= a && OccursAt(s, p, a)
    requires forall j :: 0 <= j < lo ==> !OccursAt(s, p, j)
    requires forall j :: lo <= j < a ==> s[j] != p[0]
    ensures Find(s, p) == Some(a)
  {
    forall j | lo <= j < a ensures !OccursAt(s, p, j) {
      if j + |p| <= |s| {
        assert s[j..j + |p|][0] == s[j];
      }
    }
  }

  lemma LowerAsciiAppend(a: string, b: string)
    ensures LowerAscii(a + b) == LowerAscii(a) + LowerAscii(b)
  {
    var l := LowerAscii(a + b);
    forall k | 0 <= k < |a + b| ensures l[k] == (LowerAscii(a) + LowerAscii(b))[k] {
      if k < |a| { assert (a + b)[k] == a[k]; } else { assert (a + b)[k] == b[k - |a|]; }
    }
  }

  lemma LowerAsciiNoAngle(s: string)
    requires '<' !in s
    ensures '<' !in LowerAscii(s)
  {
    forall k | 0 <= k < |s| ensures LowerAscii(s)[k] != '<' {
      assert s[k] in s;
    }
  }

  /** The first `<title>` of a lower-cased page whose text before it has no `<`. */
  lemma FindOpenTitle(l: string, rest: string)
    requires '<' !in l
    ensures Find(l + "<title>" + rest, "<title>") == Some(|l|)
  {
    var s := l + "<title>" + rest;
    assert s[|l|..|l| + 7] == "<title>";
    forall j | 0 <= j < |l| ensures s[j] != '<' {
      assert s[j] == l[j] && l[j] in l;
    }
    FindAt(s, "<title>", 0, |l|);
  }

  /** The `</title>` closing an element whose text has no `<`. */
  lemma FindCloseTitle(l: string, rest: string)
    requires '<' !in l
    ensures Find("<title>" + l + "</title>" + rest, "</title>") == Some(7 + |l|)
  {
    var s := "<title>" + l + "</title>" + rest;
    assert StartsWith(s, "<title>");
    CloseAfterOpen(s);
    assert s[7 + |l|..7 + |l| + 8] == "</title>";
    forall j | 7 <= j < 7 + |l| ensures s[j] != '<' {
      assert s[j] == l[j - 7] && l[j - 7] in l;
    }
    FindAt(s, "</title>", 7, 7 + |l|);
  }

  /** With no title from the metadata, the trimmed text of the page's
      first `<title>` element becomes the title, whatever the case of its
      tags. */
  lemma TitleFromPage(meta: PageMetadata, pre: string, open: string, t: string, close: string, post: string)
    requires meta.title == []
    requires LowerAscii(open) == "<title>" && LowerAscii(close) == "</title>"
    requires '<' !in pre && '<' !in t
    ensures TitleFallback(meta, pre + open + t + close + post).title == Trim(t)
  {
    LowerOfPage(pre, open, t, close, post);
    LowerAsciiNoAngle(pre);
    LowerAsciiNoAngle(t);
    TitleOfLowered(meta, pre, open, t, close, post, LowerAscii(pre), LowerAscii(t), LowerAscii(post));
  }

  lemma TitleOfLowered(meta: PageMetadata, pre: string, open: string, t: string, close: string, post: string,
                       lp: string, lt: string, lpost: string)
    requires meta.title == [] && '<' !in lp && '<' !in lt
    requires |lp| == |pre| && |open| == 7 && |lt| == |t| && |close| == 8 && |lpost| == |post|
    ensures TitleFrom(meta, pre + open + t + close + post, lp + "<title>" + lt + "</title>" + lpost).title == Trim(t)
  {
    var html := pre + open + t + close + post;
    TitleBoundsOfPage(lp, lt, lpost);
    assert html[|pre| + 7..|pre| + 7 + |t|] == t;
    TitleFromAt(meta, html, lp + "<title>" + lt + "</title>" + lpost, |pre|, 7 + |t|);
  }

  lemma LowerOfPage(pre: string, open: string, t: string, close: string, post: string)
    ensures LowerAscii(pre + open + t + close + post)
      == LowerAscii(pre) + LowerAscii(open) + LowerAscii(t) + LowerAscii(close) + LowerAscii(post)
  {
    LowerAsciiAppend(pre + open + t + close, post);
    LowerAsciiAppend(pre + open + t, close);
    LowerAsciiAppend(pre + open, t);
    LowerAsciiAppend(pre, open);
  }

  lemma TitleFromAt(meta: PageMetadata, html: string, lower: string, a: nat, b: nat)
    requires |lower| == |html| && meta.title == [] && TitleBounds(lower) == Some(Bounds(a, b))
    ensures a + b <= |html|
    ensures TitleFrom(meta, html, lower).title == Trim(html[a + 7..a + b])
  {
  }

  lemma TitleBoundsOfPage(l: string, t: string, rest: string)
    requires '<' !in l && '<' !in t
    ensures TitleBounds(l + "<title>" + t + "</title>" + rest) == Some(Bounds(|l|, 7 + |t|))
  {
    var lower := l + "<title>" + t + "</title>" + rest;
    assert lower == l + "<title>" + (t + "</title>" + rest);
    FindOpenTitle(l, t + "</title>" + rest);
    assert lower[|l|..] == "<title>" + t + "</title>" + rest;
    FindCloseTitle(t, rest);
  }

  /** The non-empty trimmed lines of the output. */
  function CleanLines(lines: seq<string>): (r: seq<string>)
    ensures |r| <= |lines|
  {
    if lines == [] then []
    else
      var l := Trim(lines[|lines| - 1]);
      CleanLines(lines[..|lines| - 1]) + if l == [] then [] else [l]
  }

  lemma {:induction false} TrimStartKeepsOut(s: string, c: char)
    requires c !in s
    ensures c !in TrimStart(s)
  {
    if s != [] && IsWhitespace(s[0]) {
      assert forall x :: x in s[1..] ==> x in s;
      TrimStartKeepsOut(s[1..], c);
    }
  }

  lemma {:induction false} CleanLinesShape(lines: seq<string>)
    requires forall k :: 0 <= k < |lines| ==> '\n' !in lines[k]
    ensures forall k :: 0 <= k < |CleanLines(lines)| ==>
      var l := CleanLines(lines)[k];
      l != [] && '\n' !in l && !IsWhitespace(l[0]) && !IsWhitespace(l[|l| - 1])
  {
    if lines != [] {
      CleanLinesShape(lines[..|lines| - 1]);
      var last := lines[|lines| - 1];
      TrimStartKeepsOut(last, '\n');
      assert TrimEnd(TrimStart(last)) <= TrimStart(last);
    }
  }

  /** `extract_content`. */
  method ExtractContent(html: string) returns (text: string, meta: PageMetadata)
    ensures var scan := ScanFrom(Start, html);
      && text == Join(CleanLines(Split(scan.output, '\n')), "\n")
      && meta == TitleFallback(scan.meta, html)
  {
    var output: string := "";
    meta := NoMetadata;
    var inTag := false;
    var inSkip := false;
    var tagContent: string := "";
    var skipStack: nat := 0;
    var i := 0;
    while i < |html|
      invariant i <= |html|
      invariant Scan(output, meta, inTag, inSkip, tagContent, skipStack) == ScanFrom(Start, html[..i])
    {
      assert html[..i + 1][..i] == html[..i];
      ghost var next := Step(Scan(output, meta, inTag, inSkip, tagContent, skipStack), html[i]);
      assert ScanFrom(Start, html[..i + 1]) == next;
      var c := html[i];
      if c == '<' {
        inTag := true;
        tagContent := "";
      } else if c == '>' {
        inTag := false;
        var tag := LowerAscii(tagContent);
        meta := MetaAfter(meta, tag);
        if StartsWith(tag, "script") || StartsWith(tag, "style") {
          inSkip := true;
          skipStack := skipStack + 1;
        } else if tag == "/script" || tag == "/style" {
          skipStack := if skipStack == 0 then 0 else skipStack - 1;
          if skipStack == 0 {
            inSkip := false;
          }
        } else if tag in BreakTags {
          output := output + "\n";
        }
      } else if inTag {
        tagContent := tagContent + [c];
      } else if !inSkip {
        output := output + [c];
      }
      i := i + 1;
    }
    assert html[..i] == html;
    meta := TitleFallback(meta, html);
    text := Join(CleanLines(Split(output, '\n')), "\n");
  }

  /** The text is its cleaned lines joined by line breaks: splitting it
      again gives them back, each non-empty and trimmed. */
  lemma ExtractedLines(output: string)
    requires CleanLines(Split(output, '\n')) != []
    ensures var lines := CleanLines(Split(output, '\n'));
      Split(Join(lines, "\n"), '\n') == lines
      && forall k :: 0 <= k < |lines| ==>
           (lines[k] != [] && !IsWhitespace(lines[k][0]) && !IsWhitespace(lines[k][|lines[k]| - 1]))
  {
    CleanLinesShape(Split(output, '\n'));
    SplitJoin(CleanLines(Split(output, '\n')), '\n');
  }

  // ---------------------------------------------------------------------
  // render_mini_card

  /** A card field: more than 44 characters become the first 41 and "...". */
  function Truncated(s: string): (r: string)
    ensures |r| <= 44
    ensures |s| <= 44 ==> r == s
    ensures |s| > 44 ==> |r| == 44 && r == s[..41] + "..."
  {
    if |s| > 44 then s[..41] + "..." else s
  }

  /** Truncating twice changes nothing more. */
  lemma TruncatedIdempotent(s: string)
    ensures Truncated(Truncated(s)) == Truncated(s)
  {
  }

  /** The card's title line: the page title, or "Webpage Content". */
  function CardTitle(meta: PageMetadata): (r: string)
    ensures meta.title == [] ==> r == "Webpage Content"
    ensures meta.title != [] ==> r == Truncated(meta.title)
  {
    Truncated(if meta.title == [] then "Webpage Content" else meta.title)
  }
}

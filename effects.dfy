/** The line segmentation behind the start-up animation: a line is cut into
    escape sequences, kept whole, and runs of visible text, and its visible
    width is counted. An escape sequence is ESC up to and including the
    first ASCII letter, the simplified reading of the control sequences of
    section 5.4 of ECMA-48. */
module Effects {
  import opened Strings

  const Esc: char := '\U{1b}'

  /** `char::is_ascii_alphabetic`. */
  predicate IsAsciiAlpha(c: char) {
    'a' <= c <= 'z' || 'A' <= c <= 'Z'
  }

  /** `StringSegment`. */
  datatype Segment = Ansi(code: string) | Text(chars: string)

  /** `AnsiAwareLine`. */
  datatype AwareLine = AwareLine(isSecondary: bool, segments: seq<Segment>, totalVisibleLen: nat)

  function Content(s: Segment): string {
    match s
    case Ansi(code) => code
    case Text(chars) => chars
  }

  /** The characters of the segments, in order. */
  function Flatten(segs: seq<Segment>): string {
    if segs == [] then [] else Flatten(segs[..|segs| - 1]) + Content(segs[|segs| - 1])
  }

  /** The number of characters in text segments. */
  function VisibleLen(segs: seq<Segment>): nat {
    if segs == [] then 0
    else VisibleLen(segs[..|segs| - 1]) + if segs[|segs| - 1].Text? then |segs[|segs| - 1].chars| else 0
  }

  /** ESC, then no letter, then the terminating letter. */
  predicate Terminated(a: string) {
    && |a| >= 2 && a[0] == Esc && IsAsciiAlpha(a[|a| - 1])
    && forall k :: 1 <= k < |a| - 1 ==> !IsAsciiAlpha(a[k])
  }

  /** ESC, then no letter at all: a sequence the line ended inside. */
  predicate Unterminated(a: string) {
    |a| >= 1 && a[0] == Esc && forall k :: 1 <= k < |a| ==> !IsAsciiAlpha(a[k])
  }

  /** The shape the segmentation produces: escape sequences end at their
      first letter (only the last may be cut short by the end of the line),
      text runs are non-empty, hold no ESC, and never sit side by side. */
  predicate WellSegmented(segs: seq<Segment>) {
    && (forall k :: 0 <= k < |segs| && segs[k].Ansi? ==>
          Terminated(segs[k].code) || (k == |segs| - 1 && Unterminated(segs[k].code)))
    && (forall k :: 0 <= k < |segs| && segs[k].Text? ==> segs[k].chars != [] && Esc !in segs[k].chars)
    && (forall k :: 0 <= k < |segs| - 1 ==> segs[k].Ansi? || segs[k + 1].Ansi?)
  }

  /** The loop invariant's shape: as above, but with every segment so far
      followed by more of the line, so the last one is an escape sequence. */
  predicate Pending(segs: seq<Segment>, atEnd: bool) {
    && (forall k :: 0 <= k < |segs| && segs[k].Ansi? ==>
          Terminated(segs[k].code) || (atEnd && k == |segs| - 1 && Unterminated(segs[k].code)))
    && (forall k :: 0 <= k < |segs| && segs[k].Text? ==> segs[k].chars != [] && Esc !in segs[k].chars)
    && (forall k :: 0 <= k < |segs| - 1 ==> segs[k].Ansi? || segs[k + 1].Ansi?)
    && (segs != [] ==> segs[|segs| - 1].Ansi?)
  }

  /** A sequence cannot be both complete and cut short. */
  lemma TerminatedExclusive(a: string)
    requires Terminated(a)
    ensures !Unterminated(a)
  {
    assert !IsAsciiAlpha(a[|a| - 1]) ==> !Terminated(a);
  }

  lemma FlattenAppend(segs: seq<Segment>, s: Segment)
    ensures Flatten(segs + [s]) == Flatten(segs) + Content(s)
    ensures VisibleLen(segs + [s]) == VisibleLen(segs) + if s.Text? then |s.chars| else 0
  {
    assert (segs + [s])[..|segs|] == segs;
  }

  /** Well segmented, with every escape sequence complete. */
  predicate Settled(segs: seq<Segment>) {
    && (forall k :: 0 <= k < |segs| && segs[k].Ansi? ==> Terminated(segs[k].code))
    && (forall k :: 0 <= k < |segs| && segs[k].Text? ==> segs[k].chars != [] && Esc !in segs[k].chars)
    && (forall k :: 0 <= k < |segs| - 1 ==> segs[k].Ansi? || segs[k + 1].Ansi?)
  }

  lemma PendingText(segs: seq<Segment>, t: string)
    requires Pending(segs, false) && t != [] && Esc !in t
    ensures Settled(segs + [Text(t)])
  {
    var segs' := segs + [Text(t)];
    forall k | 0 <= k < |segs'| - 1 ensures segs'[k].Ansi? || segs'[k + 1].Ansi? {
      assert segs'[k] == segs[k];
      if k + 1 < |segs| { assert segs'[k + 1] == segs[k + 1]; }
    }
  }

  lemma PendingAnsi(segs: seq<Segment>, a: string, atEnd: bool)
    requires Settled(segs)
    requires Terminated(a) || (atEnd && Unterminated(a))
    ensures Pending(segs + [Ansi(a)], atEnd)
  {
    var segs' := segs + [Ansi(a)];
    forall k | 0 <= k < |segs'| - 1 ensures segs'[k].Ansi? || segs'[k + 1].Ansi? {
      assert segs'[k] == segs[k];
      if k + 1 < |segs| { assert segs'[k + 1] == segs[k + 1]; }
    }
  }

  /** A pending list whose last escape sequence is complete has them all complete. */
  lemma PendingTerminated(segs: seq<Segment>, atEnd: bool)
    requires Pending(segs, atEnd)
    requires segs != [] ==> !Unterminated(segs[|segs| - 1].code)
    ensures Settled(segs)
  {
  }

  lemma PendingDone(segs: seq<Segment>, t: string)
    requires Pending(segs, true) && Esc !in t
    requires t != [] && segs != [] ==> !Unterminated(segs[|segs| - 1].code)
    ensures WellSegmented(if t == [] then segs else segs + [Text(t)])
  {
    if t != [] {
      PendingTerminated(segs, true);
      var segs' := segs + [Text(t)];
      forall k | 0 <= k < |segs'| - 1 ensures segs'[k].Ansi? || segs'[k + 1].Ansi? {
        assert segs'[k] == segs[k];
        if k + 1 < |segs| { assert segs'[k + 1] == segs[k + 1]; }
      }
      forall k | 0 <= k < |segs'| && segs'[k].Ansi?
        ensures Terminated(segs'[k].code) || (k == |segs'| - 1 && Unterminated(segs'[k].code))
      {
        assert segs'[k] == segs[k];
      }
    }
  }

  /** The inner loop: the escape sequence starting at `start`, up to and
      including the first letter after it, or to the end of the line. */
  method ReadEscape(line: string, start: nat) returns (ansi: string, next: nat)
    requires start < |line| && line[start] == Esc
    ensures start < next <= |line| && ansi == line[start..next]
    ensures line[..next] == line[..start] + ansi
    ensures Terminated(ansi) || (next == |line| && Unterminated(ansi))
  {
    ansi := [Esc];
    next := start + 1;
    while next < |line| && !IsAsciiAlpha(line[next])
      invariant start < next <= |line|
      invariant ansi == line[start..next] && Unterminated(ansi)
    {
      ansi := ansi + [line[next]];
      next := next + 1;
    }
    if next < |line| {
      ansi := ansi + [line[next]];
      next := next + 1;
    }
    assert line[..next] == line[..start] + line[start..next];
  }

  /** The loop invariant: the segments and the pending text hold the first
      `i` characters of the line, and `total` counts the visible ones. */
  predicate Scanned(line: string, i: nat, segs: seq<Segment>, current: string, total: nat) {
    && i <= |line|
    && Flatten(segs) + current == line[..i]
    && total == VisibleLen(segs) + |current|
    && Pending(segs, i == |line|)
    && Esc !in current
    && (segs != [] && Unterminated(segs[|segs| - 1].code) ==> i == |line| && current == [])
  }

  lemma ScannedText(line: string, i: nat, segs: seq<Segment>, current: string, total: nat)
    requires Scanned(line, i, segs, current, total) && i < |line| && line[i] != Esc
    ensures Scanned(line, i + 1, segs, current + [line[i]], total + 1)
  {
    assert line[..i + 1] == line[..i] + [line[i]];
    assert Flatten(segs) + (current + [line[i]]) == Flatten(segs) + current + [line[i]];
  }

  /** Flushing the pending text before an escape sequence. */
  lemma ScannedFlush(line: string, i: nat, segs: seq<Segment>, current: string, total: nat)
    requires Scanned(line, i, segs, current, total) && i < |line|
    ensures var flushed := if current == [] then segs else segs + [Text(current)];
      Flatten(flushed) == line[..i] && VisibleLen(flushed) == total && Settled(flushed)
  {
    PendingTerminated(segs, false);
    if current != [] {
      FlattenAppend(segs, Text(current));
      PendingText(segs, current);
    }
  }

  lemma ScannedEscape(line: string, i: nat, segs: seq<Segment>, current: string, total: nat, ansi: string, next: nat)
    requires Scanned(line, i, segs, current, total) && i < |line| && line[i] == Esc
    requires i < next <= |line| && line[..next] == line[..i] + ansi
    requires Terminated(ansi) || (next == |line| && Unterminated(ansi))
    ensures var flushed := if current == [] then segs else segs + [Text(current)];
      Scanned(line, next, flushed + [Ansi(ansi)], [], total)
  {
    var flushed := if current == [] then segs else segs + [Text(current)];
    ScannedFlush(line, i, segs, current, total);
    FlattenAppend(flushed, Ansi(ansi));
    PendingAnsi(flushed, ansi, next == |line|);
    if next < |line| {
      TerminatedExclusive(ansi);
    }
  }

  lemma ScannedDone(line: string, segs: seq<Segment>, current: string, total: nat)
    requires Scanned(line, |line|, segs, current, total)
    ensures var flushed := if current == [] then segs else segs + [Text(current)];
      Flatten(flushed) == line && WellSegmented(flushed) && total == VisibleLen(flushed)
  {
    assert line[..|line|] == line;
    PendingDone(segs, current);
    if current != [] {
      FlattenAppend(segs, Text(current));
    }
  }

  /** The segmentation loop of `display_parallel_intro`, for one line. */
  method SegmentLine(line: string) returns (l: AwareLine)
    ensures l.isSecondary <==> StartsWith(line, " ")
    ensures Flatten(l.segments) == line
    ensures WellSegmented(l.segments)
    ensures l.totalVisibleLen == VisibleLen(l.segments)
  {
    var isSecondary := StartsWith(line, " ");
    var segments: seq<Segment> := [];
    var current: string := [];
    var i := 0;
    var total := 0;
    while i < |line|
      invariant Scanned(line, i, segments, current, total)
    {
      if line[i] == Esc {
        ghost var segs0, current0 := segments, current;
        if current != [] {
          segments := segments + [Text(current)];
          current := [];
        }
        var ansi, next := ReadEscape(line, i);
        ScannedEscape(line, i, segs0, current0, total, ansi, next);
        segments := segments + [Ansi(ansi)];
        i := next;
      } else {
        ScannedText(line, i, segments, current, total);
        current := current + [line[i]];
        total := total + 1;
        i := i + 1;
      }
    }
    ScannedDone(line, segments, current, total);
    if current != [] {
      segments := segments + [Text(current)];
    }
    l := AwareLine(isSecondary, segments, total);
  }
}

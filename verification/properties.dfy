/** Properties of `parse_yaml`: which lines it reads, how the package section
    ends, what one key line stores, how the active platform is chosen, and
    which line raises which error. */
module ParserProperties {
  import opened Wrappers
  import opened PyStr
  import opened Packages
  import opened LockfileParser

  /** No line of `lines` is the section header. */
  predicate NoHeader(lines: seq<string>) {
    forall i :: 0 <= i < |lines| ==> lines[i] != Header
  }

  /** Scanning `a + b` is scanning `a` and, if that ran out of lines without
      raising or ending the section, carrying on with `b`. */
  lemma {:induction false} ScanAppend(a: seq<string>, b: seq<string>, specified: Option<string>, st: Scanner)
    ensures Scan(a + b, specified, st) ==
              match Scan(a, specified, st)
              case Success(Ended(s, false)) => Scan(b, specified, s)
              case r => r
    decreases |a|
  {
    if |a| > 0 {
      assert (a + b)[0] == a[0];
      assert (a + b)[1..] == a[1..] + b;
      match Step(specified, Count(st), a[0])
      case Fail(e) =>
      case Stop(s) =>
      case Next(s) => ScanAppend(a[1..], b, specified, s);
    } else {
      assert a + b == b;
    }
  }

  /** Before the header every line only advances the line counter. */
  lemma {:induction false} ScanPreamble(pre: seq<string>, specified: Option<string>, st: Scanner)
    requires !st.headerSeen && NoHeader(pre)
    ensures Scan(pre, specified, st) == Success(Ended(st.(lineNo := st.lineNo + |pre|), false))
    decreases |pre|
  {
    if |pre| > 0 {
      assert Step(specified, Count(st), pre[0]) == Next(Count(st));
      ScanPreamble(pre[1..], specified, Count(st));
    }
  }

  /** A lockfile without a `package:` line yields an empty table. */
  lemma NoHeaderNoPackages(lines: seq<string>, specified: Option<string>)
    requires NoHeader(lines)
    ensures ParseYaml(lines, specified) == Success([])
  {
    ScanPreamble(lines, specified, Init(specified));
  }

  /** Lines before the first `package:` line are ignored: replacing them by
      any other header-free lines of the same number changes nothing. */
  lemma PreambleIgnored(pre1: seq<string>, pre2: seq<string>, post: seq<string>, specified: Option<string>)
    requires |pre1| == |pre2| && NoHeader(pre1) && NoHeader(pre2)
    ensures ParseYaml(pre1 + post, specified) == ParseYaml(pre2 + post, specified)
  {
    ScanAppend(pre1, post, specified, Init(specified));
    ScanAppend(pre2, post, specified, Init(specified));
    ScanPreamble(pre1, specified, Init(specified));
    ScanPreamble(pre2, specified, Init(specified));
  }

  /** Once a line ends the package section, the lines after it are never
      read, and the record in progress is still flushed, citing that line:
      `s` is the state after the lines `pre`. */
  lemma SectionEndIgnoresRest(pre: seq<string>, line: string, rest: seq<string>, specified: Option<string>, s: Scanner)
    requires Scan(pre, specified, Init(specified)) == Success(Ended(s, false))
    requires Step(specified, Count(s), line).Stop?
    ensures ParseYaml(pre + [line] + rest, specified) == Finish(Step(specified, Count(s), line).s)
  {
    var tail := [line] + rest;
    assert pre + [line] + rest == pre + tail;
    ScanAppend(pre, tail, specified, Init(specified));
    assert tail[0] == line;
    assert Scan(pre + [line] + rest, specified, Init(specified)) == Success(Ended(Step(specified, Count(s), line).s, true));
    ParseYamlUnfold(pre + [line] + rest, specified);
  }

  /** `ParseYaml` is the scan followed by the final flush. */
  lemma ParseYamlUnfold(lines: seq<string>, specified: Option<string>)
    ensures ParseYaml(lines, specified) ==
              match Scan(lines, specified, Init(specified))
              case Failure(e) => Failure(e)
              case Success(end) => Finish(end.s)
  {
  }

  /** A line is blank or a comment exactly when it is all whitespace or its
      first non-whitespace character is `#`. */
  lemma BlankOrCommentMeaning(line: string)
    ensures BlankOrComment(line) <==> LStrip(line) == [] || LStrip(line)[0] == '#'
  {
    LeadingSpacePrefix(line);
  }

  /** After the header, blank and comment lines change nothing but the line
      number, which `Scan` advances before the step. */
  lemma BlankLineSkipped(specified: Option<string>, st: Scanner, line: string)
    requires st.headerSeen && BlankOrComment(line)
    ensures Step(specified, st, line) == Next(st)
  {
  }

  /** A content line with fewer leading spaces than the `-` column ends the
      section, leaving the state as it was. */
  lemma ListDedentStops(specified: Option<string>, st: Scanner, line: string)
    requires st.headerSeen && st.listIndent.Some?
    requires !BlankOrComment(line) && !StartsWithSpaces(line, st.listIndent.value)
    ensures Step(specified, st, line) == Stop(st)
  {
  }

  /** A non-item line with fewer leading spaces than the key column (counted
      after the `-` column) ends the section, leaving the state as it was. */
  lemma KeyDedentStops(specified: Option<string>, st: Scanner, line: string)
    requires st.headerSeen && st.listIndent.Some? && st.itemIndent.Some? && st.current.Some?
    requires !BlankOrComment(line) && StartsWithSpaces(line, st.listIndent.value)
    requires |line| > st.listIndent.value && line[st.listIndent.value] != '-'
    requires !StartsWithSpaces(line[st.listIndent.value..], st.itemIndent.value)
    ensures Step(specified, st, line) == Stop(st)
  {
  }

  /** A line indented beyond the key column is skipped: only the line
      counter moves. */
  lemma NestedLineSkipped(specified: Option<string>, st: Scanner, line: string)
    requires st.headerSeen && st.listIndent.Some? && st.itemIndent.Some? && st.current.Some?
    requires !BlankOrComment(line)
    requires StartsWithSpaces(line, st.listIndent.value + st.itemIndent.value + 1)
    ensures Step(specified, st, line) == Next(st)
  {
    var c := st.listIndent.value;
    ContentAfterSpaces(line, c);
    var line2 := line[c..];
    assert StartsWithSpaces(line2, st.itemIndent.value + 1);
    LStripAfterSpaces(line, c);
    KeyLineSkipsNested(specified, st, line2, line);
  }

  /** A key-level line whose text goes past the key column is skipped. */
  lemma KeyLineSkipsNested(specified: Option<string>, st: Scanner, line2: string, line: string)
    requires st.itemIndent.Some? && st.current.Some?
    requires StartsWithSpaces(line2, st.itemIndent.value + 1)
    requires LStrip(line2) != [] && LStrip(line2)[0] != '#'
    ensures ListLine(specified, st, line2, line) == Next(st)
  {
    var k := st.itemIndent.value;
    LStripAfterSpaces(line2, k);
    assert line2[k..][0] == ' ';
    assert KeyLine(specified, st, line2, line) == Next(st);
  }

  /** A record still open when the lines run out is flushed at the end, and
      a flush error cites the last line, not the line the record began on. */
  lemma FlushAtEndCitesLastLine(lines: seq<string>, specified: Option<string>, s: Scanner)
    requires Scan(lines, specified, Init(specified)) == Success(Ended(s, false))
    ensures s.lineNo == |lines|
    ensures ParseYaml(lines, specified) == Finish(s)
    ensures s.current.Some? && NameKey !in s.current.value ==> ParseYaml(lines, specified) == Failure(NoName(|lines|))
  {
    ParseYamlUnfold(lines, specified);
  }

  /** A specified platform is the active platform in every state of the scan. */
  lemma SpecifiedStaysActive(lines: seq<string>, p: string)
    ensures Scan(lines, Some(p), Init(Some(p))).Success? ==> Scan(lines, Some(p), Init(Some(p))).value.s.active == Some(p)
  {
    InitInv(Some(p));
    ScanInv(lines, Some(p), Init(Some(p)));
  }
}

/** `parse_yaml`: the line-oriented scanner that recovers the package table
    from the `package:` section of a lockfile, modelled as a fold of `Step`
    over the lockfile's lines. Splitting the text into lines is left to the
    caller; the fold receives the lines themselves. */
module LockfileParser {
  import opened Wrappers
  import opened PyStr
  import opened Packages

  /** The exact line that opens the package section. */
  const Header: string := "package:"

  /** The local variables of `parse_yaml` between two lines. */
  datatype Scanner = Scanner(
    lineNo: nat,                // `line_no`: number of the line last read (0 before any)
    headerSeen: bool,           // `encountered_package_header`
    listIndent: Option<nat>,    // `package_list_indentation`: column of the `-`
    itemIndent: Option<nat>,    // `package_indentation`: column of an item's keys
    current: Option<Record>,    // `current_package`: the record being accumulated
    active: Option<string>,     // `active_platform`
    observed: set<string>,      // `observed_platforms`
    table: Table)               // `packages`

  /** What one line does to the scan: carry on, end the section (`break`), or
      raise. */
  datatype Outcome = Next(s: Scanner) | Stop(s: Scanner) | Fail(err: ParseError)

  /** Where the fold over the lines ended: the last state, and whether the
      section ended by a dedent rather than by running out of lines. */
  datatype Ended = Ended(s: Scanner, stopped: bool)

  /** The state before the first line, for an optional caller-specified platform. */
  function Init(specified: Option<string>): (st: Scanner) {
    Scanner(0, false, None, None, None, specified,
            if specified.Some? then {specified.value} else {}, [])
  }

  /** `line.strip() == "" or line.strip().startswith("#")`. */
  predicate BlankOrComment(line: string) {
    var t := Strip(line);
    t == [] || t[0] == '#'
  }

  /** `value` with one pair of matching surrounding quotes removed, if it has
      them: `"x"` and `'x'` become `x`; anything else, including a lone quote
      and mismatched quotes, is returned as is. */
  function Unquote(value: string): (r: string)
    ensures |r| == |value| || |r| + 2 == |value|
    ensures |r| == |value| ==> r == value
    ensures |r| + 2 == |value| <==>
              |value| >= 2 && value[0] == value[|value| - 1] && (value[0] == '"' || value[0] == '\'')
    ensures |r| + 2 == |value| ==> value == [value[0]] + r + [value[0]]
  {
    if |value| >= 2 && value[0] == value[|value| - 1] == '"' then value[1..|value| - 1]
    else if |value| >= 2 && value[0] == value[|value| - 1] == '\'' then value[1..|value| - 1]
    else value
  }

  /** A `key: value` line split at its first `:`: the key and value are
      stripped and the value unquoted. `None` when the line has no `:`. */
  function KeyValue(text: string): (r: Option<(string, string)>)
    ensures r.None? <==> ':' !in text
    ensures r.Some? ==> ':' !in r.value.0 && |r.value.0| < |text|
  {
    match SplitFirst(text, ':')
    case None => None
    case Some((k, v)) =>
      StripKeeps(k, ':');
      Some((Strip(k), Unquote(Strip(v))))
  }

  /** One stored `key: value` pair, including the platform bookkeeping that
      follows `current_package[key] = value`: a non-empty value is set on the record; a `platform` key
      (even with an empty value) joins the observed platforms, becomes the
      active platform if there is none yet, and, when no platform was
      specified, a second distinct one is an error. */
  function SetField(specified: Option<string>, st: Scanner, key: string, value: string): (o: Outcome)
    requires st.current.Some?
    ensures o.Next? ==> o.s.current.Some? && o.s.table == st.table && o.s.lineNo == st.lineNo
    ensures o.Next? ==> o.s.itemIndent == st.itemIndent && o.s.listIndent == st.listIndent
    ensures o.Next? && value != "" ==> o.s.current.value == st.current.value[key := value]
    ensures o.Next? && value == "" ==> o.s.current.value == st.current.value
    ensures key != PlatformKey ==> o.Next? && o.s.active == st.active && o.s.observed == st.observed
    ensures o.Fail? ==> key == PlatformKey && specified.None? && o.err == MultiplePlatforms(st.observed + {value})
  {
    var rec := if value != "" then st.current.value[key := value] else st.current.value;
    var st := st.(current := Some(rec));
    if key != PlatformKey then Next(st)
    else
      var observed := st.observed + {value};
      var active := if st.active.None? then Some(value) else st.active;
      if specified.None? && |observed| > 1 then Fail(MultiplePlatforms(observed))
      else Next(st.(observed := observed, active := active))
  }

  /** From `if ":" not in line3` on, for a line whose key text `text`
      starts at the key column: split it at the first `:` and store the pair. */
  function KeyField(specified: Option<string>, st: Scanner, text: string, line: string): (o: Outcome)
    requires st.current.Some?
    ensures o.Next? ==> o.s.lineNo == st.lineNo && o.s.table == st.table
    ensures o.Next? ==> o.s.itemIndent == st.itemIndent
    ensures !o.Stop?
  {
    match KeyValue(text)
    case None => Fail(MissingColon(st.lineNo, line))
    case Some((key, value)) =>
      if key == "" then Fail(EmptyKey(st.lineNo, line))
      else SetField(specified, st, key, value)
  }

  /** One line's processing from `if not line2.startswith(" " *
      package_indentation)` on: `line2` is the line with the list column
      removed (and an item's `-` turned into a space). */
  function KeyLine(specified: Option<string>, st: Scanner, line2: string, line: string): (o: Outcome)
    requires st.itemIndent.Some? && st.current.Some?
    // the line breaks out of the section exactly when it is short of the key column
    ensures o.Stop? <==> !StartsWithSpaces(line2, st.itemIndent.value)
    ensures o.Stop? ==> o.s == st
    ensures o.Next? ==> o.s.lineNo == st.lineNo && o.s.table == st.table
  {
    var n := st.itemIndent.value;
    if !StartsWithSpaces(line2, n) then Stop(st)
    else
      var line3 := line2[n..];
      if |LStrip(line3)| == 0 then Fail(BareListItem(st.lineNo, line))
      else if LStrip(line3)[0] == '#' then Fail(EmptyListItem(st.lineNo, line))
      else if line3[0] == ' ' then Next(st)
      else KeyField(specified, st, line3, line)
  }

  /** A line that is neither blank nor a comment and starts with `n` spaces
      has a character after them. */
  lemma ContentAfterSpaces(line: string, n: nat)
    requires !BlankOrComment(line) && StartsWithSpaces(line, n)
    ensures n < |line|
  {
    LStripAfterSpaces(line, n);
  }

  /** The `if line2[0] == "-"` branch and what follows it: flush the pending record (the
      flush reports this line's number), start an empty one, turn the `-`
      into a space, and take the key column from this line's leading
      whitespace. */
  function ItemLine(specified: Option<string>, st: Scanner, line2: string, line: string): (o: Outcome)
    requires |line2| > 0
    ensures o.Next? || o.Stop? ==> o.s.lineNo == st.lineNo
    // unless it raises, the pending record has gone through the flush into the table
    ensures o.Next? || o.Stop? ==>
              if st.current.Some? then AddPackage(st.table, st.current.value, st.lineNo, st.active) == Success(o.s.table)
              else o.s.table == st.table
  {
    var flushed :=
      if st.current.Some? then AddPackage(st.table, st.current.value, st.lineNo, st.active)
      else Success(st.table);
    if flushed.Failure? then Fail(flushed.error)
    else
      var item := [' '] + line2[1..];
      KeyLine(specified, st.(table := flushed.value, current := Some(map[]),
                             itemIndent := Some(LeadingSpace(item))), item, line)
  }

  /** From `if line2[0] == "-"` to the missing-list-item check, for a line
      inside the list column: `line2` is the line
      with the list column removed. A `-` starts a new record; any other line
      needs a record in progress. (`line2` is never empty here: see
      `ContentAfterSpaces`.) */
  function ListLine(specified: Option<string>, st: Scanner, line2: string, line: string): (o: Outcome)
    ensures o.Next? || o.Stop? ==> o.s.lineNo == st.lineNo
  {
    if |line2| > 0 && line2[0] == '-' then ItemLine(specified, st, line2, line)
    else if st.itemIndent.None? || st.current.None? then Fail(NoListItem(st.lineNo, line))
    else KeyLine(specified, st, line2, line)
  }

  /** The `line.startswith(" " * package_list_indentation)` test for a
      content line once the `-` column `c` is known: a
      line without `c` leading spaces ends the section; otherwise the rest of
      the line goes on to `ListLine`. */
  function InSection(specified: Option<string>, st: Scanner, c: nat, line: string): (o: Outcome)
    ensures o.Next? || o.Stop? ==> o.s.lineNo == st.lineNo
  {
    if !StartsWithSpaces(line, c) then Stop(st)
    else ListLine(specified, st, line[c..], line)
  }

  /** A content line after the header: the first one fixes the `-` column
      with `line.index("-")`, and raises when it has no `-`. */
  function ContentLine(specified: Option<string>, st: Scanner, line: string): (o: Outcome)
    ensures o.Next? || o.Stop? ==> o.s.lineNo == st.lineNo
  {
    match st.listIndent
    case Some(c) => InSection(specified, st, c, line)
    case None =>
      match IndexOf(line, '-')
      case None => Fail(MissingListDelimiter(st.lineNo, line))
      case Some(c) => InSection(specified, st.(listIndent := Some(c)), c, line)
  }

  /** The body of the `for` loop of `parse_yaml` for one line, once `st`
      carries its number: lines before the header only look for it; blank and
      comment lines are skipped. */
  function Step(specified: Option<string>, st: Scanner, line: string): (o: Outcome)
    ensures o.Next? || o.Stop? ==> o.s.lineNo == st.lineNo
  {
    if !st.headerSeen then Next(st.(headerSeen := line == Header))
    else if BlankOrComment(line) then Next(st)
    else ContentLine(specified, st, line)
  }

  /** The state in which line `lineNo + 1` is processed. */
  function Count(st: Scanner): (r: Scanner)
    ensures r.lineNo == st.lineNo + 1
  {
    st.(lineNo := st.lineNo + 1)
  }

  /** The `for` loop of `parse_yaml`: number each line and fold `Step` over
      the lines until one raises or ends the section. */
  function Scan(lines: seq<string>, specified: Option<string>, st: Scanner): (r: Result<Ended, ParseError>)
    ensures r.Success? && !r.value.stopped ==> r.value.s.lineNo == st.lineNo + |lines|
    ensures r.Success? && r.value.stopped ==> st.lineNo < r.value.s.lineNo <= st.lineNo + |lines|
    decreases |lines|
  {
    if |lines| == 0 then Success(Ended(st, false))
    else match Step(specified, Count(st), lines[0])
      case Fail(e) => Failure(e)
      case Stop(s) => Success(Ended(s, true))
      case Next(s) => Scan(lines[1..], specified, s)
  }

  /** The flush after the `for` loop: flush the record still being
      accumulated, citing the line the scan ended on. */
  function Finish(st: Scanner): (r: Result<Table, ParseError>) {
    if st.current.Some? then AddPackage(st.table, st.current.value, st.lineNo, st.active)
    else Success(st.table)
  }

  /** The facts that hold between any two lines of a scan started by `Init`. */
  ghost predicate Inv(specified: Option<string>, st: Scanner) {
    && (specified.Some? ==> st.active == specified && specified.value in st.observed)
    && (specified.None? ==> st.observed == if st.active.Some? then {st.active.value} else {})
    && (st.current.Some? <==> st.itemIndent.Some?)
    && (st.itemIndent.Some? ==> st.itemIndent.value > 0)
    && (st.current.Some? ==> ValuesNonEmpty(st.current.value))
    && (st.current.Some? && PlatformKey in st.current.value ==> st.active.Some?)
    && WellFormed(st.table)
    && (|st.table| > 0 ==> st.active.Some?)
    && (st.active.Some? ==> OnPlatform(st.table, st.active.value))
  }

  /** `parse_yaml(s, specified_platform)` on the lines of `s`. The result is a
      well-formed table: every entry is stored under its own `name`, carries a
      `platform`, has no empty value, and no name occurs twice; all entries
      share one platform, which is the specified one when there is one. A
      second platform is an error only when none was specified, and the
      `RuntimeError` for a missing active platform is never raised. */
  function ParseYaml(lines: seq<string>, specified: Option<string>): (r: Result<Table, ParseError>)
    ensures r.Success? ==> WellFormed(r.value)
    ensures r.Success? && |r.value| > 0 ==> OnPlatform(r.value, r.value[0].record[PlatformKey])
    ensures r.Success? && specified.Some? ==> OnPlatform(r.value, specified.value)
    ensures r.Failure? ==> !r.error.NoActivePlatform?
    ensures r.Failure? && r.error.MultiplePlatforms? ==> specified.None? && |r.error.observed| == 2
  {
    InitInv(specified);
    ScanInv(lines, specified, Init(specified));
    match Scan(lines, specified, Init(specified))
    case Failure(e) => Failure(e)
    case Success(end) =>
      FinishInv(specified, end.s);
      Finish(end.s)
  }

  /** The final flush from a state satisfying `Inv` yields a well-formed
      table on the active platform, or a `GoodError`. */
  lemma FinishInv(specified: Option<string>, st: Scanner)
    requires Inv(specified, st)
    ensures Finish(st).Success? ==> WellFormed(Finish(st).value)
    ensures Finish(st).Success? && st.active.Some? ==> OnPlatform(Finish(st).value, st.active.value)
    ensures Finish(st).Success? && |Finish(st).value| > 0 ==> st.active.Some?
    ensures Finish(st).Failure? ==> GoodError(specified, Finish(st).error)
  {
    if st.current.Some? && AddPackage(st.table, st.current.value, st.lineNo, st.active).Success? {
      AddPackageKeeps(st.table, st.current.value, st.lineNo, st.active);
    }
  }

  lemma InitInv(specified: Option<string>)
    ensures Inv(specified, Init(specified))
  {
  }

  /** Every state a scan passes through satisfies `Inv`; it fails with two
      observed platforms only when none was specified, and never with the
      missing-active-platform error. */
  lemma {:induction false} ScanInv(lines: seq<string>, specified: Option<string>, st: Scanner)
    requires Inv(specified, st)
    ensures Scan(lines, specified, st).Success? ==> Inv(specified, Scan(lines, specified, st).value.s)
    ensures Scan(lines, specified, st).Failure? ==> GoodError(specified, Scan(lines, specified, st).error)
    decreases |lines|
  {
    if |lines| > 0 {
      CountInv(specified, st, Count(st));
      StepInv(specified, Count(st), lines[0]);
      match Step(specified, Count(st), lines[0])
      case Fail(e) =>
      case Stop(s) =>
      case Next(s) => ScanInv(lines[1..], specified, s);
    }
  }

  /** The errors a scan from a state satisfying `Inv` can raise. */
  ghost predicate GoodError(specified: Option<string>, e: ParseError) {
    && !e.NoActivePlatform?
    && (e.MultiplePlatforms? ==> specified.None? && |e.observed| == 2)
  }

  /** A line's outcome keeps `Inv` or raises a `GoodError`. */
  ghost predicate Preserved(specified: Option<string>, o: Outcome) {
    if o.Fail? then GoodError(specified, o.err) else Inv(specified, o.s)
  }

  /** Each line keeps `Inv`. */
  lemma StepInv(specified: Option<string>, st: Scanner, line: string)
    requires Inv(specified, st)
    ensures Preserved(specified, Step(specified, st, line))
  {
    if !st.headerSeen {
      CountInv(specified, st, st.(headerSeen := line == Header));
    } else if !BlankOrComment(line) {
      ContentLineInv(specified, st, line);
    }
  }

  /** `Inv` does not look at the line counter or the header flag. */
  lemma CountInv(specified: Option<string>, st: Scanner, st': Scanner)
    requires Inv(specified, st)
    requires st' == st.(lineNo := st'.lineNo, headerSeen := st'.headerSeen)
    ensures Inv(specified, st')
  {
  }

  lemma ContentLineInv(specified: Option<string>, st: Scanner, line: string)
    requires Inv(specified, st)
    ensures Preserved(specified, ContentLine(specified, st, line))
  {
    match st.listIndent
    case Some(c) => InSectionInv(specified, st, c, line);
    case None =>
      match IndexOf(line, '-')
      case None =>
      case Some(c) => InSectionInv(specified, st.(listIndent := Some(c)), c, line);
  }

  lemma InSectionInv(specified: Option<string>, st: Scanner, c: nat, line: string)
    requires Inv(specified, st)
    ensures Preserved(specified, InSection(specified, st, c, line))
  {
    if StartsWithSpaces(line, c) {
      ListLineInv(specified, st, line[c..], line);
    }
  }

  lemma ListLineInv(specified: Option<string>, st: Scanner, line2: string, line: string)
    requires Inv(specified, st)
    ensures Preserved(specified, ListLine(specified, st, line2, line))
  {
    if |line2| > 0 && line2[0] == '-' {
      ItemLineInv(specified, st, line2, line);
    } else if st.itemIndent.Some? && st.current.Some? {
      KeyLineInv(specified, st, line2, line);
    }
  }

  lemma ItemLineInv(specified: Option<string>, st: Scanner, line2: string, line: string)
    requires Inv(specified, st) && |line2| > 0
    ensures Preserved(specified, ItemLine(specified, st, line2, line))
  {
    var o := ItemLine(specified, st, line2, line);
    var item := [' '] + line2[1..];
    var indent := Some(LeadingSpace(item));
    if st.current.Some? {
      var f := AddPackage(st.table, st.current.value, st.lineNo, st.active);
      if f.Success? {
        AddPackageKeeps(st.table, st.current.value, st.lineNo, st.active);
        var st' := st.(table := f.value, current := Some(map[]), itemIndent := indent);
        KeyLineInv(specified, st', item, line);
        assert o == KeyLine(specified, st', item, line);
      } else {
        assert o == Fail(f.error);
      }
    } else {
      var st' := st.(current := Some(map[]), itemIndent := indent);
      KeyLineInv(specified, st', item, line);
      assert o == KeyLine(specified, st', item, line);
    }
  }

  lemma KeyLineInv(specified: Option<string>, st: Scanner, line2: string, line: string)
    requires st.itemIndent.Some? && st.current.Some? && Inv(specified, st)
    ensures Preserved(specified, KeyLine(specified, st, line2, line))
  {
    var n := st.itemIndent.value;
    if StartsWithSpaces(line2, n) {
      var line3 := line2[n..];
      if |LStrip(line3)| > 0 && LStrip(line3)[0] != '#' && line3[0] != ' ' {
        KeyFieldInv(specified, st, line3, line);
      }
    }
  }

  lemma KeyFieldInv(specified: Option<string>, st: Scanner, text: string, line: string)
    requires st.current.Some? && Inv(specified, st)
    ensures Preserved(specified, KeyField(specified, st, text, line))
  {
    match KeyValue(text)
    case None =>
    case Some((key, value)) =>
      if key != "" {
        SetFieldInv(specified, st, key, value);
      }
  }

  lemma SetFieldInv(specified: Option<string>, st: Scanner, key: string, value: string)
    requires st.current.Some? && Inv(specified, st)
    ensures Preserved(specified, SetField(specified, st, key, value))
  {
    if key == PlatformKey && specified.None? && st.active.Some? && value != st.active.value {
      assert st.observed + {value} == {st.active.value, value};
    }
  }
}

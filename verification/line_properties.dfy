/** Properties of single lines of the package section: how a `key: value`
    line is split and stored, how quotes are removed, how the active platform
    is chosen, and which line raises which structural error. */
module LineProperties {
  import opened Wrappers
  import opened PyStr
  import opened Packages
  import opened LockfileParser

  /** `line3.split(":", 1)` followed by the stripping and unquoting: the key
      is the stripped text before the FIRST `:`, the value the stripped and
      unquoted text after it, which may itself contain `:`. This is also the
      value a `platform` line observes and adopts. */
  lemma KeyValueSplit(k: string, v: string)
    requires ':' !in k
    ensures KeyValue(k + [':'] + v) == Some((Strip(k), Unquote(Strip(v))))
  {
    SplitFirstUnique(k, ':', v);
  }

  /** A key line with a non-empty key stores the pair `KeyValueSplit` gives,
      for every key including `platform`. For other keys a non-empty value is
      set on the record, an empty one is not, and nothing else about the
      state changes. */
  lemma KeyFieldStores(specified: Option<string>, st: Scanner, k: string, v: string, line: string)
    requires st.current.Some? && ':' !in k && Strip(k) != ""
    ensures KeyField(specified, st, k + [':'] + v, line) == SetField(specified, st, Strip(k), Unquote(Strip(v)))
    ensures Strip(k) != PlatformKey ==> KeyField(specified, st, k + [':'] + v, line).Next?
    ensures Strip(k) != PlatformKey ==>
              KeyField(specified, st, k + [':'] + v, line).s ==
              st.(current := Some(if Unquote(Strip(v)) == "" then st.current.value
                                  else st.current.value[Strip(k) := Unquote(Strip(v))]))
  {
    KeyValueSplit(k, v);
  }

  /** A key line without any `:` raises the missing-delimiter error, citing
      the line. */
  lemma KeyFieldMissingColon(specified: Option<string>, st: Scanner, text: string, line: string)
    requires st.current.Some? && ':' !in text
    ensures KeyField(specified, st, text, line) == Fail(MissingColon(st.lineNo, line))
  {
  }

  /** A key line whose text before the first `:` is empty after stripping
      raises the empty-key error, citing the line. */
  lemma KeyFieldEmptyKey(specified: Option<string>, st: Scanner, k: string, v: string, line: string)
    requires st.current.Some? && ':' !in k && AllSpace(k)
    ensures KeyField(specified, st, k + [':'] + v, line) == Fail(EmptyKey(st.lineNo, line))
  {
    SplitFirstUnique(k, ':', v);
  }

  /** One pair of matching double or single quotes is removed, and only one:
      quotes inside the pair stay. */
  lemma UnquoteQuoted(q: char, x: string)
    requires q == '"' || q == '\''
    ensures Unquote([q] + x + [q]) == x
  {
    var v := [q] + x + [q];
    assert v[1..|v| - 1] == x;
  }

  /** A value whose ends differ, or that is shorter than two characters, is
      kept as it is; in particular a lone quote is not removed. */
  lemma UnquoteKeeps(v: string)
    requires |v| < 2 || v[0] != v[|v| - 1] || (v[0] != '"' && v[0] != '\'')
    ensures Unquote(v) == v
  {
  }

  /** With no specified platform and none seen yet, the first `platform`
      line adopts its value as the active platform, even an empty value,
      which is observed but not stored in the record. */
  lemma FirstPlatformAdopted(st: Scanner, value: string)
    requires st.current.Some? && st.active.None? && st.observed == {}
    ensures SetField(None, st, PlatformKey, value).Next?
    ensures SetField(None, st, PlatformKey, value).s.active == Some(value)
    ensures SetField(None, st, PlatformKey, value).s.observed == {value}
    ensures value == "" ==> SetField(None, st, PlatformKey, value).s.current == st.current
  {
  }

  /** With no specified platform, a `platform` line naming a platform other
      than the active one raises the multiple-platforms error with both
      platforms. */
  lemma SecondPlatformFails(st: Scanner, value: string)
    requires st.current.Some? && st.active.Some? && st.observed == {st.active.value}
    requires value != st.active.value
    ensures SetField(None, st, PlatformKey, value) == Fail(MultiplePlatforms({st.active.value, value}))
  {
    assert st.observed + {value} == {st.active.value, value};
  }

  /** A `platform` line that repeats the active platform changes neither the
      active platform nor the observed set. */
  lemma SamePlatformAccepted(specified: Option<string>, st: Scanner, value: string)
    requires st.current.Some? && st.active == Some(value) && st.observed == {value}
    ensures SetField(specified, st, PlatformKey, value).Next?
    ensures SetField(specified, st, PlatformKey, value).s.active == Some(value)
    ensures SetField(specified, st, PlatformKey, value).s.observed == {value}
  {
    assert st.observed + {value} == {value};
  }

  /** With a specified platform, a `platform` line never raises and never
      changes the active platform, whatever value it names. */
  lemma SpecifiedPlatformKept(p: string, st: Scanner, value: string)
    requires st.current.Some? && st.active == Some(p)
    ensures SetField(Some(p), st, PlatformKey, value).Next?
    ensures SetField(Some(p), st, PlatformKey, value).s.active == Some(p)
    ensures SetField(Some(p), st, PlatformKey, value).s.observed == st.observed + {value}
  {
  }

  /** The first content line after the header must contain a `-`; without
      one it raises, citing the line. */
  lemma FirstContentWithoutDash(specified: Option<string>, st: Scanner, line: string)
    requires st.headerSeen && st.listIndent.None? && !BlankOrComment(line) && '-' !in line
    ensures Step(specified, st, line) == Fail(MissingListDelimiter(st.lineNo, line))
  {
  }

  /** The `-` column is the position of the first `-` anywhere in the
      first content line; when text other than spaces comes before it, that
      same line already ends the section, with the column fixed. */
  lemma FirstContentDashLate(specified: Option<string>, st: Scanner, line: string, c: nat)
    requires st.headerSeen && st.listIndent.None? && !BlankOrComment(line)
    requires c < |line| && line[c] == '-' && '-' !in line[..c]
    requires exists i :: 0 <= i < c && line[i] != ' '
    ensures Step(specified, st, line) == Stop(st.(listIndent := Some(c)))
  {
  }

  /** A content line at the list column that is not a `-` item, before any
      item has started, raises, citing the line. */
  lemma ContentBeforeItem(specified: Option<string>, st: Scanner, line: string)
    requires st.headerSeen && st.listIndent.Some? && st.current.None?
    requires !BlankOrComment(line) && StartsWithSpaces(line, st.listIndent.value)
    requires st.listIndent.value < |line| && line[st.listIndent.value] != '-'
    ensures Step(specified, st, line) == Fail(NoListItem(st.lineNo, line))
  {
  }

  /** A `-` item line starts a new record: the pending one is flushed first,
      and a flush error cites the item line, not the line the record began
      on. */
  lemma ItemFlushCitesItemLine(specified: Option<string>, st: Scanner, line2: string, line: string)
    requires |line2| > 0 && st.current.Some?
    requires AddPackage(st.table, st.current.value, st.lineNo, st.active).Failure?
    ensures ItemLine(specified, st, line2, line) == Fail(AddPackage(st.table, st.current.value, st.lineNo, st.active).error)
  {
  }

  /** Every `-` item line sets the key column afresh from its own leading
      whitespace (the `-` counting as a space), whatever the previous item
      used; the record it starts holds only what this line stores. */
  lemma ItemSetsKeyColumn(specified: Option<string>, st: Scanner, line2: string, line: string)
    requires |line2| > 0
    ensures ItemLine(specified, st, line2, line).Next? ==>
              ItemLine(specified, st, line2, line).s.itemIndent == Some(LeadingSpace([' '] + line2[1..]))
    ensures ItemLine(specified, st, line2, line).Next? ==>
              ItemLine(specified, st, line2, line).s.current.Some? &&
              |ItemLine(specified, st, line2, line).s.current.value| <= 1
  {
    var flushed :=
      if st.current.Some? then AddPackage(st.table, st.current.value, st.lineNo, st.active)
      else Success(st.table);
    if flushed.Success? {
      var item := [' '] + line2[1..];
      var st' := st.(table := flushed.value, current := Some(map[]), itemIndent := Some(LeadingSpace(item)));
      assert ItemLine(specified, st, line2, line) == KeyLine(specified, st', item, line);
      KeyLineFresh(specified, st', item, line);
    }
  }

  /** A key line read into an empty record keeps the key column and stores
      at most one attribute. */
  lemma KeyLineFresh(specified: Option<string>, st: Scanner, line2: string, line: string)
    requires st.itemIndent.Some? && st.current == Some(map[])
    ensures KeyLine(specified, st, line2, line).Next? ==>
              KeyLine(specified, st, line2, line).s.itemIndent == st.itemIndent &&
              KeyLine(specified, st, line2, line).s.current.Some? &&
              |KeyLine(specified, st, line2, line).s.current.value| <= 1
  {
    var n := st.itemIndent.value;
    if StartsWithSpaces(line2, n) {
      var line3 := line2[n..];
      if |LStrip(line3)| > 0 && LStrip(line3)[0] != '#' && line3[0] != ' ' {
        match KeyValue(line3)
        case None =>
        case Some((key, value)) =>
          if key != "" && value != "" {
            assert st.current.value[key := value].Keys == {key};
          }
      }
    }
  }

  /** A `-` with nothing after it raises (Python's `IndexError` on the empty
      key text), citing the line, once any pending record has been flushed
      without error. */
  lemma BareDashFails(specified: Option<string>, st: Scanner, c: nat)
    requires st.headerSeen && st.listIndent == Some(c)
    requires st.current.None? || AddPackage(st.table, st.current.value, st.lineNo, st.active).Success?
    ensures Step(specified, st, Spaces(c) + "-") == Fail(BareListItem(st.lineNo, Spaces(c) + "-"))
  {
    var line := Spaces(c) + "-";
    assert line[c..] == "-";
    assert !BlankOrComment(line) by {
      LStripAfterSpaces(line, c);
      assert LStrip(line) == "-";
    }
    var table := if st.current.Some? then AddPackage(st.table, st.current.value, st.lineNo, st.active).value else st.table;
    assert LeadingSpace(" ") == 1;
    var st' := st.(table := table, current := Some(map[]), itemIndent := Some(1));
    assert ItemLine(specified, st, "-", line) == KeyLine(specified, st', " ", line);
  }

  /** An item whose key text is a comment raises, citing the line, once any
      pending record has been flushed without error. */
  lemma CommentedItemFails(specified: Option<string>, st: Scanner, c: nat, x: string)
    requires st.headerSeen && st.listIndent == Some(c)
    requires st.current.None? || AddPackage(st.table, st.current.value, st.lineNo, st.active).Success?
    ensures Step(specified, st, Spaces(c) + "- #" + x) == Fail(EmptyListItem(st.lineNo, Spaces(c) + "- #" + x))
  {
    var line := Spaces(c) + "- #" + x;
    assert line[c..] == "- #" + x;
    assert !BlankOrComment(line) by {
      LStripAfterSpaces(line, c);
      assert LStrip(line) == "- #" + x;
    }
    var item := "  #" + x;
    assert [' '] + ("- #" + x)[1..] == item;
    assert item == "  " + ("#" + x);
    LeadingTwo("#" + x);
    assert item[2..] == "#" + x;
    var st' := st.(current := Some(map[]), itemIndent := Some(2));
    assert Step(specified, st, line) == KeyLine(specified, st', item, line);
  }

  /** Text that is a possible key: non-empty, free of `:`, and neither
      starting nor ending with whitespace nor starting with `#`. */
  predicate PlainKey(k: string) {
    k != [] && ':' !in k && !IsSpace(k[0]) && !IsSpace(k[|k| - 1]) && k[0] != '#'
  }

  /** Text that stripping leaves alone. */
  predicate Trimmed(v: string) {
    v == [] || (!IsSpace(v[0]) && !IsSpace(v[|v| - 1]))
  }

  /** `k: v` splits into the key `k` and the unquoted value `v`. */
  lemma KeyValueOf(k: string, v: string)
    requires PlainKey(k) && Trimmed(v)
    ensures KeyValue(k + ": " + v) == Some((k, Unquote(v)))
  {
    SplitFirstUnique(k, ':', " " + v);
    assert k + [':'] + (" " + v) == k + ": " + v;
    StripTrimmed(k);
    StripTrimmed(v);
  }

  /** The first item line `- k: v` after the header fixes the `-` column at
      0 and the key column at 2, and stores `k: v` in a fresh record. */
  lemma FirstItemLine(specified: Option<string>, st: Scanner, k: string, v: string)
    requires st.headerSeen && st.listIndent.None? && st.current.None?
    requires PlainKey(k) && Trimmed(v)
    ensures Step(specified, st, "- " + k + ": " + v) ==
              SetField(specified, st.(listIndent := Some(0), itemIndent := Some(2), current := Some(map[])), k, Unquote(v))
  {
    var line := "- " + k + ": " + v;
    var text := k + ": " + v;
    var item := [' '] + line[1..];
    assert item == "  " + text && text[0] == k[0];
    LeadingTwo(text);
    FirstDashLine(specified, st, line);
    var st' := st.(listIndent := Some(0), itemIndent := Some(2), current := Some(map[]));
    KeyLineText(specified, st', item, line, text);
    KeyValueOf(k, v);
  }

  /** A key line `  k: v` inside an item whose `-` is at column 0 stores
      `k: v` in the record in progress. */
  lemma KeyLineAtColumn(specified: Option<string>, st: Scanner, k: string, v: string)
    requires st.headerSeen && st.listIndent == Some(0) && st.itemIndent == Some(2) && st.current.Some?
    requires PlainKey(k) && Trimmed(v)
    ensures Step(specified, st, "  " + k + ": " + v) == SetField(specified, st, k, Unquote(v))
  {
    var text := k + ": " + v;
    var line := "  " + text;
    assert line == "  " + k + ": " + v;
    assert text[0] == k[0];
    KeyLineText(specified, st, line, line, text);
    LStripAfterSpaces(line, 2);
    ColumnZeroKeyLine(specified, st, line);
    KeyValueOf(k, v);
  }

  /** A first content line starting with `-` is an item at column 0. */
  lemma FirstDashLine(specified: Option<string>, st: Scanner, line: string)
    requires st.headerSeen && st.listIndent.None? && st.current.None?
    requires line != [] && line[0] == '-'
    ensures Step(specified, st, line) ==
              KeyLine(specified, st.(listIndent := Some(0), current := Some(map[]), itemIndent := Some(LeadingSpace([' '] + line[1..]))),
                      [' '] + line[1..], line)
  {
    assert LStrip(line) == line;
    assert line[0..] == line;
  }

  /** A non-item content line of a list at column 0 goes to the key
      column check unchanged. */
  lemma ColumnZeroKeyLine(specified: Option<string>, st: Scanner, line: string)
    requires st.headerSeen && st.listIndent == Some(0) && st.itemIndent.Some? && st.current.Some?
    requires LStrip(line) != [] && LStrip(line)[0] != '#' && line[0] != '-'
    ensures Step(specified, st, line) == KeyLine(specified, st, line, line)
  {
    LeadingSpacePrefix(line);
    assert !BlankOrComment(line);
    assert line[0..] == line;
  }

  /** A line whose key column holds the start of `text` (not whitespace,
      not `#`) is a key line for `text`. */
  lemma KeyLineText(specified: Option<string>, st: Scanner, line2: string, line: string, text: string)
    requires st.itemIndent.Some? && st.current.Some?
    requires StartsWithSpaces(line2, st.itemIndent.value) && line2[st.itemIndent.value..] == text
    requires text != [] && !IsSpace(text[0]) && text[0] != '#'
    ensures LStrip(text) == text
    ensures KeyLine(specified, st, line2, line) == KeyField(specified, st, text, line)
  {
  }

  /** Two spaces before text that does not start with whitespace. */
  lemma LeadingTwo(x: string)
    requires x != [] && !IsSpace(x[0])
    ensures LeadingSpace("  " + x) == 2
  {
    var item := "  " + x;
    assert item[1..][1..] == x;
    assert LStrip(item[1..]) == LStrip(x);
  }
}

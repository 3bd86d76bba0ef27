/** A worked lockfile: what `parse_yaml` returns for a short package
    section, line by line, with no platform specified and with another
    platform specified. */
module ParserExamples {
  import opened Wrappers
  import opened PyStr
  import opened Packages
  import opened LockfileParser
  import opened ParserProperties
  import opened LineProperties

  const Lockfile: seq<string> := ["version: 1", "package:", "- name: foo", "  platform: linux-64"]

  /** The record `foo` once both of its lines are read. */
  const Foo: Record := map[NameKey := "foo", PlatformKey := "linux-64"]

  /** With no platform specified, the one record of the lockfile is stored
      under its name, and its platform becomes the active one. */
  lemma OneRecordParsed()
    ensures ParseYaml(Lockfile, None) == Success([Entry("foo", Foo)])
  {
    var a := FirstThreeLines(None);
    var b := a.(lineNo := 4, current := Some(Foo), active := Some("linux-64"), observed := {"linux-64"});
    KeyRead(None, a, b);
    ParseYamlUnfold(Lockfile, None);
    FooFlushed(b);
  }

  /** With another platform specified, the record is read but dropped at the
      flush, and its platform is observed without raising. */
  lemma OtherPlatformDropped()
    ensures ParseYaml(Lockfile, Some("osx-64")) == Success([])
  {
    var p := Some("osx-64");
    var a := FirstThreeLines(p);
    var b := a.(lineNo := 4, current := Some(Foo), observed := {"osx-64", "linux-64"});
    assert {"osx-64"} + {"linux-64"} == {"osx-64", "linux-64"};
    KeyRead(p, a, b);
    ParseYamlUnfold(Lockfile, p);
    FooFacts();
    assert "osx-64"[0] != "linux-64"[0];
  }

  /** The scan of the first three lines: the preamble, the header, and the
      item line that starts `foo`. */
  lemma FirstThreeLines(specified: Option<string>) returns (a: Scanner)
    ensures a == Init(specified).(lineNo := 3, headerSeen := true, listIndent := Some(0), itemIndent := Some(2),
                                  current := Some(map[NameKey := "foo"]))
    ensures Scan(Lockfile, specified, Init(specified)) == Scan(Lockfile[3..], specified, a)
  {
    var s0 := Init(specified);
    var s1 := Count(s0);
    var s2 := Count(s1).(headerSeen := true);
    assert Step(specified, s1, Lockfile[0]) == Next(s1);
    assert Step(specified, Count(s1), Lockfile[1]) == Next(s2);
    a := Count(s2).(listIndent := Some(0), itemIndent := Some(2), current := Some(map[NameKey := "foo"]));
    ItemRead(specified, Count(s2), a);
    assert Lockfile[1..][1..] == Lockfile[2..] && Lockfile[2..][1..] == Lockfile[3..];
  }

  /** Line 3, `- name: foo`, starts the record `foo`. */
  lemma ItemRead(specified: Option<string>, st: Scanner, a: Scanner)
    requires st.headerSeen && st.listIndent.None? && st.current.None?
    requires a == st.(listIndent := Some(0), itemIndent := Some(2), current := Some(map[NameKey := "foo"]))
    ensures Step(specified, st, "- name: foo") == Next(a)
  {
    assert "- name: foo" == "- " + NameKey + ": " + "foo";
    FirstItemLine(specified, st, NameKey, "foo");
  }

  /** Line 4, `  platform: linux-64`, sets the record's platform and adds it
      to the observed ones; it becomes the active one when none is active.
      `a` is the state after line 3, `b` the state after line 4. */
  lemma KeyRead(specified: Option<string>, a: Scanner, b: Scanner)
    requires a.headerSeen && a.listIndent == Some(0) && a.itemIndent == Some(2)
    requires a.current == Some(map[NameKey := "foo"])
    requires specified.None? ==> a.active.None? && a.observed == {}
    requires b == a.(lineNo := a.lineNo + 1, current := Some(Foo),
                     active := if a.active.None? then Some("linux-64") else a.active,
                     observed := a.observed + {"linux-64"})
    ensures Scan(Lockfile[3..], specified, a) == Success(Ended(b, false))
  {
    PlatformStep(specified, Count(a), b);
    assert Lockfile[3..] == ["  platform: linux-64"];
  }

  /** The step for line 4 itself. */
  lemma PlatformStep(specified: Option<string>, st: Scanner, b: Scanner)
    requires st.headerSeen && st.listIndent == Some(0) && st.itemIndent == Some(2)
    requires st.current == Some(map[NameKey := "foo"])
    requires specified.None? ==> st.active.None? && st.observed == {}
    requires b == st.(current := Some(Foo), active := if st.active.None? then Some("linux-64") else st.active,
                      observed := st.observed + {"linux-64"})
    ensures Step(specified, st, "  platform: linux-64") == Next(b)
  {
    assert "  platform: linux-64" == "  " + PlatformKey + ": " + "linux-64";
    KeyLineAtColumn(specified, st, PlatformKey, "linux-64");
    assert Unquote("linux-64") == "linux-64";
    PlatformSet(specified, st, b);
  }

  /** Storing `platform: linux-64` in the record of line 4. */
  lemma PlatformSet(specified: Option<string>, st: Scanner, b: Scanner)
    requires st.current == Some(map[NameKey := "foo"])
    requires specified.None? ==> st.active.None? && st.observed == {}
    requires b == st.(current := Some(Foo), active := if st.active.None? then Some("linux-64") else st.active,
                      observed := st.observed + {"linux-64"})
    ensures SetField(specified, st, PlatformKey, "linux-64") == Next(b)
  {
    assert st.current.value[PlatformKey := "linux-64"] == Foo;
    assert specified.None? ==> |st.observed + {"linux-64"}| == 1;
  }

  /** The keys of `foo`. */
  lemma FooFacts()
    ensures NameKey != PlatformKey
    ensures Foo[NameKey] == "foo" && Foo[PlatformKey] == "linux-64"
  {
    assert NameKey[0] != PlatformKey[0];
  }

  /** The end of the lockfile flushes `foo` into the empty table. */
  lemma FooFlushed(st: Scanner)
    requires st.current == Some(Foo) && st.table == [] && st.active == Some("linux-64")
    ensures Finish(st) == Success([Entry("foo", Foo)])
  {
    FooFacts();
    assert !HasName([], "foo");
    assert st.table + [Entry("foo", Foo)] == [Entry("foo", Foo)];
  }
}

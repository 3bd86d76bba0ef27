/** Package records, the package table the parser builds, the parser's error
    taxonomy, and the flush step `_add_package_to_package_dict` that moves one
    finished record into the table. */
module Packages {
  import opened Wrappers

  /** One list item of the `package:` section: attribute name to value. */
  type Record = map<string, string>

  /** One table slot: the package name it is keyed by, and the record. */
  datatype Entry = Entry(name: string, record: Record)

  /** The package table. Python's dict keeps insertion order, and the order
      of the URL manifest follows it, so the table is an ordered sequence of
      entries whose names are distinct (see `WellFormed`). */
  type Table = seq<Entry>

  const NameKey: string := "name"
  const PlatformKey: string := "platform"

  /** Every way parsing can fail. Structural errors carry the offending line
      number (1-based) and the raw line text. */
  datatype ParseError =
    | MissingListDelimiter(lineNo: nat, line: string)  // `line.index("-")` finds no `-`
    | NoListItem(lineNo: nat, line: string)            // content before any `-` item
    | BareListItem(lineNo: nat, line: string)          // nothing after the item's `-` (an IndexError)
    | EmptyListItem(lineNo: nat, line: string)         // the item's key text starts with `#`
    | MissingColon(lineNo: nat, line: string)          // no `:` delimiter
    | EmptyKey(lineNo: nat, line: string)              // nothing before the `:`
    | MultiplePlatforms(observed: set<string>)         // two platforms, none specified
    | NoName(lineNo: nat)                              // a flushed record lacks `name`
    | NoPlatform(lineNo: nat)                          // a flushed record lacks `platform`
    | NoActivePlatform(lineNo: nat)                    // the RuntimeError; never raised
    | DuplicatePackage(name: string, lineNo: nat)      // the name is already in the table

  /** Python's `name in packages`. */
  predicate HasName(t: Table, name: string) {
    exists i :: 0 <= i < |t| && t[i].name == name
  }

  /** No attribute is stored with an empty value. */
  predicate ValuesNonEmpty(rec: Record) {
    forall k :: k in rec ==> rec[k] != ""
  }

  /** The shape every table produced by the parser has: each entry carries a
      `name` equal to the key it is stored under, and a `platform`; no value is
      empty; and no name occurs twice. */
  predicate WellFormed(t: Table) {
    && (forall i :: 0 <= i < |t| ==>
          && NameKey in t[i].record
          && PlatformKey in t[i].record
          && t[i].record[NameKey] == t[i].name
          && ValuesNonEmpty(t[i].record))
    && (forall i, j :: 0 <= i < j < |t| ==> t[i].name != t[j].name)
  }

  /** Every entry of the table is for platform `p`. */
  predicate OnPlatform(t: Table, p: string) {
    forall i :: 0 <= i < |t| ==> PlatformKey in t[i].record && t[i].record[PlatformKey] == p
  }

  /** `_add_package_to_package_dict`: validate a finished record and insert it
      under its name when it is for the active platform. `lineNo` is the line
      the scanner is on when it flushes, which is reported in the errors. */
  function AddPackage(table: Table, rec: Record, lineNo: nat, active: Option<string>): (r: Result<Table, ParseError>)
    // a record without a name, or without a platform, is an error
    ensures NameKey !in rec ==> r == Failure(NoName(lineNo))
    ensures NameKey in rec && PlatformKey !in rec ==> r == Failure(NoPlatform(lineNo))
    // the RuntimeError needs a platform-carrying record with no active platform
    ensures r == Failure(NoActivePlatform(lineNo)) <==> NameKey in rec && PlatformKey in rec && active.None?
    // a record for another platform is dropped without error
    ensures NameKey in rec && PlatformKey in rec && active.Some? && rec[PlatformKey] != active.value ==>
              r == Success(table)
    // a record for the active platform is a duplicate or is appended under its name
    ensures NameKey in rec && PlatformKey in rec && active.Some? && rec[PlatformKey] == active.value ==>
              if HasName(table, rec[NameKey])
              then r == Failure(DuplicatePackage(rec[NameKey], lineNo))
              else r == Success(table + [Entry(rec[NameKey], rec)])
  {
    if NameKey !in rec then Failure(NoName(lineNo))
    else if PlatformKey !in rec then Failure(NoPlatform(lineNo))
    else if active.None? then Failure(NoActivePlatform(lineNo))
    else
      var name := rec[NameKey];
      if rec[PlatformKey] == active.value then
        if HasName(table, name) then Failure(DuplicatePackage(name, lineNo))
        else Success(table + [Entry(name, rec)])
      else Success(table)
  }

  /** A successful flush keeps the table well-formed (given a record without
      empty values) and on the active platform. */
  lemma AddPackageKeeps(table: Table, rec: Record, lineNo: nat, active: Option<string>)
    requires AddPackage(table, rec, lineNo, active).Success?
    ensures WellFormed(table) && ValuesNonEmpty(rec) ==> WellFormed(AddPackage(table, rec, lineNo, active).value)
    ensures active.Some? && OnPlatform(table, active.value) ==> OnPlatform(AddPackage(table, rec, lineNo, active).value, active.value)
  {
  }
}

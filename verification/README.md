# Locked pip dependencies: the lockfile parser and the pip selection

This project models, in Dafny, the part of `micromamba-install-locked-pip-dependencies` that reads a conda-lock style lockfile without a YAML library, and proves properties of that model. It has three parts:

- **`parse_yaml`.** This scans the lockfile line by line. It skips everything up to the exact line `package:` and skips blank and comment lines. It infers the `-` list column from the first content line and the key column from each `-` item line. A dedent ends the section, and lines nested deeper than the keys are skipped. Each `key: value` line is split at its first `:`, and the value loses one pair of matching quotes. The records build up one at a time, and the parser tracks the active platform (given by the caller or taken from the first `platform` line).
- **`_add_package_to_package_dict`.** This flushes a finished record into the name-keyed package table:
  - it rejects records without a `name` or a `platform`;
  - it drops records for another platform;
  - it rejects duplicate names.
- **The selection step of `main`.** This picks the records whose manager is `pip` and whose category was requested (default `main`). It fails with every selected name that has no `url`; otherwise it lists the URLs in table order.

The lockfile arrives as a sequence of lines (`seq<string>`). The package table is an insertion-ordered sequence of entries, because Python's `dict` keeps insertion order and the URL list inherits it. Every error the code raises is a constructor of `Packages.ParseError` or `Selection.SelectionError`.

Modules:

- `Wrappers`: `Option` and `Result`.
- `PyStr`: the Python `str` operations the parser uses, with Python's `isspace` character set.
- `Packages`: records, the table, the error taxonomy, and the flush.
- `LockfileParser`: the scanner, which is `Step` folded over the lines by `Scan`, then `ParseYaml`. It also holds the invariant `Inv` preserved by every line.
- `ParserProperties` and `LineProperties`: lemmas about whole scans and about single lines.
- `Selection`: the selection step.
- `ParserExamples` and `SelectionExamples`: worked inputs.

### Quirks of the code the model keeps

- **The key column is not fixed.** The key column (`package_indentation`) is not fixed by the first record. Every `-` item line sets it afresh from its own leading whitespace (`LineProperties.ItemSetsKeyColumn`).
- **Flush errors cite the line where the flush happens, not the line the record started on:**
  - the next `-` item (`LineProperties.ItemFlushCitesItemLine`);
  - the line that ended the section (`ParserProperties.SectionEndIgnoresRest`);
  - the last line of the file (`ParserProperties.FlushAtEndCitesLastLine`).
- **A bare `-` raises an `IndexError`.** It is not the "empty list item" `ValueError`: the key text is empty and `line3[0]` raises. The test `line3[0] == ""` can never be true. The model has one error for this case, `BareListItem` (`LineProperties.BareDashFails`).
- **The `-` column is the first `-` anywhere in the first content line.** If other text comes before that `-`, the same line ends the section (`LineProperties.FirstContentDashLate`).
- **An empty `platform:` value still counts as a platform.** It joins the observed platforms and can become the active platform, although an empty value is never stored in the record (`LineProperties.FirstPlatformAdopted`).

## Model

All source paths are relative to the repository root; `cli.py` below stands for `micromamba_install_locked_pip_dependencies/cli.py`.

| member | source | states |
|---|---|---|
| PyStr.LStrip | micromamba_install_locked_pip_dependencies/cli.py:180 | `lstrip` never lengthens its input, and what it returns is empty or starts with a non-whitespace character |
| PyStr.LStripSuffix | micromamba_install_locked_pip_dependencies/cli.py:168 | `lstrip` drops exactly a whitespace prefix: the result is a suffix of the input and every dropped character is whitespace |
| PyStr.RStrip | micromamba_install_locked_pip_dependencies/cli.py:143 | `rstrip` never lengthens its input, and what it returns is empty or ends with a non-whitespace character |
| PyStr.RStripPrefix | micromamba_install_locked_pip_dependencies/cli.py:143 | `rstrip` drops exactly a whitespace suffix: the result is a prefix of the input and every dropped character is whitespace |
| PyStr.Strip | micromamba_install_locked_pip_dependencies/cli.py:143 | `strip()` is empty exactly when the line is all whitespace; otherwise its first character is the first non-whitespace one of the line and neither end is whitespace |
| PyStr.StripFacts | micromamba_install_locked_pip_dependencies/cli.py:143 | `rstrip(lstrip(s))` is empty iff `s` is all whitespace, and begins at `lstrip(s)`'s first character |
| PyStr.StripKeeps | micromamba_install_locked_pip_dependencies/cli.py:189-190 | stripping only removes characters, so the key before the first `:` has no `:` after stripping either |
| PyStr.LeadingSpace | micromamba_install_locked_pip_dependencies/cli.py:168 | `len(s) - len(s.lstrip())` is at most `len(s)`, and the character after the counted ones is not whitespace |
| PyStr.LeadingSpacePrefix | micromamba_install_locked_pip_dependencies/cli.py:168 | the counted characters are all whitespace, and they are the whole string exactly when it is all whitespace |
| PyStr.IndexOf | micromamba_install_locked_pip_dependencies/cli.py:149 | `index` finds the first occurrence (no earlier one exists), and fails exactly when the character is absent |
| PyStr.SplitFirst | micromamba_install_locked_pip_dependencies/cli.py:189 | `split(":", 1)` puts the two parts back together as the input, with no `:` in the first part, and fails exactly when there is no `:` |
| PyStr.SplitFirstUnique | micromamba_install_locked_pip_dependencies/cli.py:189 | any decomposition `k + ":" + v` with no `:` in `k` is the one `split(":", 1)` returns, so `v` may contain `:` |
| PyStr.LStripAfterSpaces | micromamba_install_locked_pip_dependencies/cli.py:157 | cutting off leading spaces that `startswith` checked changes neither `lstrip` nor whether the line is blank |
| PyStr.StripTrimmed | micromamba_install_locked_pip_dependencies/cli.py:190-191 | text that starts and ends with non-whitespace, alone or after one space, strips to itself |
| Packages.AddPackage | micromamba_install_locked_pip_dependencies/cli.py:219-232 | a record without a name, or without a platform, fails citing the flush line; the RuntimeError happens exactly for a complete record with no active platform; a record for another platform leaves the table as it was; a record for the active platform is a duplicate error if its name is taken and is appended under its name otherwise |
| Packages.AddPackageKeeps | micromamba_install_locked_pip_dependencies/cli.py:228-232 | a successful flush keeps the table well-formed (each entry under its own name, with a platform, no empty value, no repeated name) and keeps every entry on the active platform |
| LockfileParser.Unquote | micromamba_install_locked_pip_dependencies/cli.py:192-197 | the value loses exactly two characters when it has at least two, and its ends are the same `"` or `'`; the kept text is then what was between them. Otherwise the value is unchanged |
| LockfileParser.KeyValue | micromamba_install_locked_pip_dependencies/cli.py:187-197 | there is a key and value exactly when the line has a `:`, and the key is shorter than the line and has no `:` (what the pair is: `LineProperties.KeyValueSplit`) |
| LockfileParser.SetField | micromamba_install_locked_pip_dependencies/cli.py:200-210 | a non-empty value is stored under the key and an empty one is not; only a `platform` key changes the platforms, and only it can fail, with the multiple-platforms error over the observed set, and only when no platform was specified |
| LockfileParser.KeyField | micromamba_install_locked_pip_dependencies/cli.py:187-210 | a key line raises or carries on, never ends the section, and leaves the line number, the table and the key column as they were |
| LockfileParser.KeyLine | micromamba_install_locked_pip_dependencies/cli.py:174-186 | a line ends the section exactly when it is short of the key column, and then the state is untouched; otherwise the table is untouched |
| LockfileParser.ContentAfterSpaces | micromamba_install_locked_pip_dependencies/cli.py:157-159 | a non-blank line that starts with `n` spaces is longer than `n`, so `line2` is never empty |
| LockfileParser.ItemLine | micromamba_install_locked_pip_dependencies/cli.py:160-168 | unless a `-` item line raises, the pending record has gone through the flush into the table (the table is unchanged when there was none), and the line number is kept |
| LockfileParser.ListLine | micromamba_install_locked_pip_dependencies/cli.py:160-173 | a line inside the list column keeps the line number whatever it does |
| LockfileParser.InSection | micromamba_install_locked_pip_dependencies/cli.py:151-157 | a content line with the list column known keeps the line number whatever it does |
| LockfileParser.ContentLine | micromamba_install_locked_pip_dependencies/cli.py:146-157 | a content line after the header keeps the line number whatever it does |
| LockfileParser.Step | micromamba_install_locked_pip_dependencies/cli.py:139-145 | one loop iteration never changes the line number it is given |
| LockfileParser.Scan | micromamba_install_locked_pip_dependencies/cli.py:138 | a scan that runs out of lines has counted all of them; one that ends the section stopped on one of them |
| LockfileParser.ParseYaml | micromamba_install_locked_pip_dependencies/cli.py:119-216 | a parsed table is well-formed and all on one platform, the specified one if there is one; the RuntimeError is never raised; the multiple-platforms error needs an unspecified platform and names exactly two platforms |
| LockfileParser.InitInv | micromamba_install_locked_pip_dependencies/cli.py:128-137 | the initial state (empty table, the specified platform active and observed) satisfies the scan invariant |
| LockfileParser.FinishInv | micromamba_install_locked_pip_dependencies/cli.py:212-216 | the final flush from any invariant state yields a well-formed table on the active platform, never the RuntimeError, and a non-empty table only when a platform is active |
| LockfileParser.ScanInv | micromamba_install_locked_pip_dependencies/cli.py:138-210 | every state the loop reaches keeps the invariant: the specified platform stays active, at most one platform is observed when none was specified, and every platform-carrying record has an active platform. The table stays well-formed and on the active platform; the loop raises only the errors allowed above |
| LockfileParser.StepInv | micromamba_install_locked_pip_dependencies/cli.py:139-210 | each loop iteration keeps the invariant or raises an allowed error |
| LockfileParser.CountInv | micromamba_install_locked_pip_dependencies/cli.py:138-140 | advancing the line number and noticing the header do not disturb the invariant |
| LockfileParser.ItemLineInv | micromamba_install_locked_pip_dependencies/cli.py:160-168 | flushing at a `-` item and starting an empty record keep the invariant |
| LockfileParser.SetFieldInv | micromamba_install_locked_pip_dependencies/cli.py:200-210 | storing a field keeps the invariant; a second distinct platform with none specified is the two-platform error |
| ParserProperties.ScanAppend | micromamba_install_locked_pip_dependencies/cli.py:138 | the loop over `a + b` is the loop over `a` continued on `b` from where it left off, unless it raised or ended the section in `a` |
| ParserProperties.ScanPreamble | micromamba_install_locked_pip_dependencies/cli.py:139-142 | before the header, each line only advances the line number |
| ParserProperties.NoHeaderNoPackages | micromamba_install_locked_pip_dependencies/cli.py:138-142 | a lockfile with no line exactly `package:` parses to the empty table |
| ParserProperties.PreambleIgnored | micromamba_install_locked_pip_dependencies/cli.py:139-142 | the content of the lines before the header never matters, only how many there are |
| ParserProperties.SectionEndIgnoresRest | micromamba_install_locked_pip_dependencies/cli.py:151-154 | after a line ends the section, no later line is read, and the pending record is still flushed, citing that line |
| ParserProperties.ParseYamlUnfold | micromamba_install_locked_pip_dependencies/cli.py:212-216 | parsing is the loop followed by the final flush |
| ParserProperties.BlankOrCommentMeaning | micromamba_install_locked_pip_dependencies/cli.py:143 | a line counts as blank or comment exactly when it is all whitespace or its first non-whitespace character is `#` |
| ParserProperties.BlankLineSkipped | micromamba_install_locked_pip_dependencies/cli.py:143-145 | after the header a blank or comment line changes nothing but the line number |
| ParserProperties.ListDedentStops | micromamba_install_locked_pip_dependencies/cli.py:151-154 | a content line with fewer leading spaces than the list column ends the section without touching the state |
| ParserProperties.KeyDedentStops | micromamba_install_locked_pip_dependencies/cli.py:174-177 | a non-item line short of the key column ends the section without touching the state |
| ParserProperties.NestedLineSkipped | micromamba_install_locked_pip_dependencies/cli.py:184-186 | a line indented beyond the key column changes nothing |
| ParserProperties.KeyLineSkipsNested | micromamba_install_locked_pip_dependencies/cli.py:184-186 | at the key level, a line with a space at the key column is skipped without change |
| ParserProperties.FlushAtEndCitesLastLine | micromamba_install_locked_pip_dependencies/cli.py:212-215 | a record still open at the end is flushed with the last line's number, so a nameless one fails citing the last line |
| ParserProperties.SpecifiedStaysActive | micromamba_install_locked_pip_dependencies/cli.py:130-132 | with a specified platform, it is the active platform in every state of the loop |
| LineProperties.KeyValueSplit | micromamba_install_locked_pip_dependencies/cli.py:189-197 | for any line, the key is the stripped text before the first `:` and the value the stripped, unquoted text after it, which may contain `:` |
| LineProperties.KeyFieldStores | micromamba_install_locked_pip_dependencies/cli.py:189-210 | a key line with a non-empty key stores exactly that pair, `platform` included; for other keys a non-empty value is set on the record, an empty one is not, and nothing else changes |
| LineProperties.KeyFieldMissingColon | micromamba_install_locked_pip_dependencies/cli.py:187-188 | a key line without `:` raises the missing-delimiter error citing the line |
| LineProperties.KeyFieldEmptyKey | micromamba_install_locked_pip_dependencies/cli.py:198-199 | a key line with only whitespace before its first `:` raises the empty-key error citing the line |
| LineProperties.UnquoteQuoted | micromamba_install_locked_pip_dependencies/cli.py:193-197 | exactly one pair of matching `"` or `'` is removed; inner quotes stay |
| LineProperties.UnquoteKeeps | micromamba_install_locked_pip_dependencies/cli.py:193-197 | mismatched quotes, non-quote ends and values shorter than two are left as they are |
| LineProperties.FirstPlatformAdopted | micromamba_install_locked_pip_dependencies/cli.py:202-205 | with no platform specified or seen, the first `platform` value becomes active and observed, even an empty value, which is not stored |
| LineProperties.SecondPlatformFails | micromamba_install_locked_pip_dependencies/cli.py:206-210 | with no platform specified, a second distinct platform raises the error naming both |
| LineProperties.SamePlatformAccepted | micromamba_install_locked_pip_dependencies/cli.py:202-206 | repeating the active platform changes neither the active platform nor the observed set |
| LineProperties.SpecifiedPlatformKept | micromamba_install_locked_pip_dependencies/cli.py:202-210 | with a specified platform, a `platform` line never raises and never changes the active platform, only the observed set |
| LineProperties.FirstContentWithoutDash | micromamba_install_locked_pip_dependencies/cli.py:146-149 | the first content line without any `-` raises, citing the line |
| LineProperties.FirstContentDashLate | micromamba_install_locked_pip_dependencies/cli.py:146-154 | the list column is the first `-` anywhere; when non-spaces precede it, that line ends the section |
| LineProperties.ContentBeforeItem | micromamba_install_locked_pip_dependencies/cli.py:169-173 | content at the list column before any item raises the no-list-item error citing the line |
| LineProperties.ItemFlushCitesItemLine | micromamba_install_locked_pip_dependencies/cli.py:162-165 | a failing flush at a new `-` item raises the flush error, which cites the item line |
| LineProperties.ItemSetsKeyColumn | micromamba_install_locked_pip_dependencies/cli.py:166-168 | every item line sets the key column from its own leading whitespace, with the `-` counted as a space, and its record holds at most what that line stores |
| LineProperties.KeyLineFresh | micromamba_install_locked_pip_dependencies/cli.py:174-201 | reading one line into an empty record keeps the key column and stores at most one attribute |
| LineProperties.BareDashFails | micromamba_install_locked_pip_dependencies/cli.py:162-180 | an item `-` with nothing after it raises (the IndexError) citing the line, whether it is the first item or follows a pending record that flushes without error |
| LineProperties.CommentedItemFails | micromamba_install_locked_pip_dependencies/cli.py:162-183 | an item whose key text begins with `#` raises the empty-list-item error citing the line, whether it is the first item or follows a pending record that flushes without error |
| LineProperties.KeyValueOf | micromamba_install_locked_pip_dependencies/cli.py:189-197 | `k: v` with a plain key and trimmed value splits into `k` and the unquoted `v` |
| LineProperties.FirstItemLine | micromamba_install_locked_pip_dependencies/cli.py:146-168 | the first item `- k: v` fixes the list column at 0 and the key column at 2, and stores `k: v` in a fresh record |
| LineProperties.KeyLineAtColumn | micromamba_install_locked_pip_dependencies/cli.py:174-201 | `  k: v` inside an item at column 0 stores `k: v` in the pending record |
| LineProperties.FirstDashLine | micromamba_install_locked_pip_dependencies/cli.py:146-168 | a first content line starting with `-` is an item at column 0, whose key text is the line with the `-` turned into a space |
| LineProperties.ColumnZeroKeyLine | micromamba_install_locked_pip_dependencies/cli.py:151-174 | with the list at column 0, a non-item line goes whole to the key column check |
| LineProperties.KeyLineText | micromamba_install_locked_pip_dependencies/cli.py:174-187 | text at the key column that starts with neither whitespace nor `#` is read as a key line |
| LineProperties.LeadingTwo | micromamba_install_locked_pip_dependencies/cli.py:168 | two spaces before non-whitespace count as a key column of 2 |
| Selection.Filter | micromamba_install_locked_pip_dependencies/cli.py:21-30 | a comprehension keeps exactly the entries meeting its condition, and never more entries than it was given |
| Selection.FilterAppend | micromamba_install_locked_pip_dependencies/cli.py:21-30 | a comprehension keeps table order: over a concatenation it is the concatenation of the parts |
| Selection.Select | micromamba_install_locked_pip_dependencies/cli.py:21-30 | the selected records are exactly those managed by `pip` whose category is among those requested |
| Selection.Names | micromamba_install_locked_pip_dependencies/cli.py:32-36 | the missing-URL names have one name per record, in record order, and a name is listed exactly when some record carries it |
| Selection.Urls | micromamba_install_locked_pip_dependencies/cli.py:41 | the URL list has one URL per record, in record order, and a URL is listed exactly when some record carries it |
| Selection.PlanInstall | micromamba_install_locked_pip_dependencies/cli.py:14-41 | failure happens exactly when a selected record has no `url`. The error lists every such record's name and only such names. On success, every selected record's URL appears, each listed URL belongs to a selected record, and there is one URL per selected record |
| Selection.MissingFacts | micromamba_install_locked_pip_dependencies/cli.py:31-40 | the missing-URL list names every selected record without a URL and nothing else |
| Selection.UrlFacts | micromamba_install_locked_pip_dependencies/cli.py:41 | when none is missing, every selected record's URL is listed and only those |
| Selection.SelectAppend | micromamba_install_locked_pip_dependencies/cli.py:21-30 | selection keeps table order across a concatenation |
| Selection.PlanFromSelection | micromamba_install_locked_pip_dependencies/cli.py:37-41 | when every selected record has a URL, the result is their URLs in selection order |
| Selection.UrlsInTableOrder | micromamba_install_locked_pip_dependencies/cli.py:41 | the URLs follow table order: for a table in two parts, the first part's URLs come first |
| Selection.UrlsAppend | micromamba_install_locked_pip_dependencies/cli.py:41 | the URL list of a concatenation is the concatenation of the URL lists |
| Selection.NamesAppend | micromamba_install_locked_pip_dependencies/cli.py:32-36 | the missing-URL names follow table order: for a table in two parts, the first part's names come first |
| SelectionExamples.DefaultSelectionIsFoo | micromamba_install_locked_pip_dependencies/cli.py:14-41 | with the default category, a `pip`/`main` record `foo` with a URL next to a `conda` record `bar` yields exactly `foo`'s URL |
| SelectionExamples.MissingUrlNamesFoo | micromamba_install_locked_pip_dependencies/cli.py:31-40 | the same table without `foo`'s URL fails naming `["foo"]` |
| ParserExamples.OneRecordParsed | micromamba_install_locked_pip_dependencies/cli.py:119-216 | a preamble line, `package:`, `- name: foo`, `  platform: linux-64` parse to the one entry `foo` with both attributes |
| ParserExamples.OtherPlatformDropped | micromamba_install_locked_pip_dependencies/cli.py:228-232 | the same lockfile with `osx-64` specified parses to the empty table, without error |
| ParserExamples.FirstThreeLines | micromamba_install_locked_pip_dependencies/cli.py:138-168 | the preamble and the header only move the counter, and the item line fixes both columns and stores the name |
| ParserExamples.ItemRead | micromamba_install_locked_pip_dependencies/cli.py:160-168 | `- name: foo` starts a record holding only the name |
| ParserExamples.KeyRead | micromamba_install_locked_pip_dependencies/cli.py:189-205 | the last line stores the platform and the loop ends having read every line |
| ParserExamples.PlatformStep | micromamba_install_locked_pip_dependencies/cli.py:174-205 | `  platform: linux-64` adds the platform to the record and to the observed set |
| ParserExamples.PlatformSet | micromamba_install_locked_pip_dependencies/cli.py:200-205 | storing `linux-64` adopts it as active when none is, and raises nothing |
| ParserExamples.FooFlushed | micromamba_install_locked_pip_dependencies/cli.py:212-215 | the final flush puts `foo` into the empty table under its name |

## Left out

- Argument parsing (`cli.py:75-116`) is left out: it is command-line plumbing. Its result reaches the model as the requested categories and the optional platform.
- Reading the lockfile and splitting it into lines (`cli.py:19`, `cli.py:138`) are left out. The model takes the lines as given and does not reproduce Python's set of `splitlines` terminators.
- The temporary URL file, the pip command line, dry-run printing, the `shlex` version check and `subprocess.run` (`cli.py:42-72`) are left out: they are I/O and an external process. The model stops at the list of URLs written to the file.
- Exception types and message text are left out. Each error is a constructor that carries the line number and raw line where the code reports them, the observed set, or the missing names.
- The empty-selection branch prints "No packages found to install." in dry-run mode; that is output only. The model returns an empty URL list there.
- Both `IndexError`s (on an empty `line3` and on an all-whitespace `line3`) are one error, `BareListItem`, because they are the same kind of exception. The dead `line3[0] == ""` test has no counterpart.
- The selection comprehensions build dicts keyed by name. The model keeps the table's sequence, which is the same because the table's names are distinct.
- Host-platform auto-detection is not part of this code; the platform is only what the caller passes.
- LockfileParser.ParseYaml: its contract states the shape of every result. Single-line behaviour is stated by the lemmas of `LineProperties` and `ParserProperties` rather than in the contract.
- LockfileParser.Scan: its contract states only the line count. Its invariant is in `LockfileParser.ScanInv`, and its composition over concatenated inputs is in `ParserProperties.ScanAppend`.

# Firefox cookie extractor — verified model of its decision logic

The script `firefox-cookie-extractor.py` finds a Firefox profile, copies its
`cookies.sqlite` database (and the `-wal` / `-shm` side files when present)
to a temporary directory, queries the copy for cookies whose host matches a
domain, and writes them to `cookie-<domain with dots as dashes>.txt` as one
`name=value; name=value` line.

This project models the logic between the I/O calls. The I/O results are
inputs to the model: the parsed `profiles.ini` sections, the set of paths
that exist, the temporary directory and the rows the query returns.

- `Manifest` (`manifest.dfy`): the default-profile search and the profile
  listing over the ordered `profiles.ini` sections.
- `CookieOutput` (`output.dfy`): the domain label, the output file name, the
  `"; "`-joined cookie string, the write decision, and a parser that inverts
  the cookie string.
- `Snapshot` (`snapshot.dfy`): POSIX path joining, the database path, and the
  copy loop over the side files. The loop is a method proved against a
  specification function.
- `Cli` (`cli.dfy`): flag dispatch, argument defaults, profile precedence, exit
  codes, and `Run`, a method for the whole top-level script. `Run` returns an
  `Outcome` for each way a run can end.
- `Wrappers` (`wrappers.dfy`): `Option`.

Design notes:

- The script's own behaviour is what is modelled. It has no alternate (PWA)
  profile store, no per-domain cookie-name allow-lists, no access-time
  ordering and no `--pwa` flag.
- The temporary directory is removed only on the normal path. The script has
  no cleanup on error, so the model does not claim a cleanup invariant.
- `config.get(section, "Path")` raises when a section has `Default=1` but
  no `Path`. The model represents this as `Lookup.Raised` and
  `Outcome.ManifestError`. That outcome exits with status 1, as an uncaught
  Python exception does.
- The precedence is evaluated lazily, as Python's `or` is. The manifest is
  read only when there is no second argument and `USER_DEFINED_PROFILE` is
  empty.
- A second argument wins even when it is empty. The `if not profile_name`
  check then stops the run with status 1.

## Model

| member | source | states |
|---|---|---|
| Manifest.FirstDefaultIndex | firefox-cookie-extractor.py:33-35 | the scan finds no index iff no section has `Default == "1"`; a found index is a default section with no default section before it |
| Manifest.FirstDefaultUnique | firefox-cookie-extractor.py:33-35 | at most one section is the first default section, so the choice is never ambiguous |
| Manifest.FindDefaultProfile | firefox-cookie-extractor.py:23-37 | absent manifest, or no default section: nothing; otherwise the result is determined by the first default section: its `Path`, or the raised lookup error when it has none |
| Manifest.SingleDefault | firefox-cookie-extractor.py:33-35 | with exactly one default section that has a `Path`, that `Path` is returned |
| Manifest.FindDefaultIgnoresTail | firefox-cookie-extractor.py:33-35 | once a default section has appeared, sections after it cannot change the result (early return) |
| Manifest.ListedEntries | firefox-cookie-extractor.py:52-56 | the listing has at most one entry per section, and one for every section when all have both `Name` and `Path` |
| Manifest.ListProfiles | firefox-cookie-extractor.py:40-56 | the result is None (the not-found message, lines 44-46) iff `profiles.ini` is absent; otherwise it is the listing of the sections, which may be empty (only the header is printed) and has at most one entry per section |
| Manifest.ListedEntriesAppend | firefox-cookie-extractor.py:52-56 | the listing of concatenated sections is the concatenation of their listings, so section order is kept |
| Manifest.ListedEntryPosition | firefox-cookie-extractor.py:52-56 | a section with both keys appears as `(Name, Path)` at the position equal to the number of listed sections before it |
| Manifest.ListedEntriesMembers | firefox-cookie-extractor.py:52-56 | an entry is listed iff some section has both keys with exactly that name and path; sections missing either key are skipped |
| CookieOutput.DomainLabel | firefox-cookie-extractor.py:100 | the label has the domain's length, has `-` wherever the domain has `.` and the domain's character elsewhere, and contains no `.` |
| CookieOutput.DomainLabelIdempotent | firefox-cookie-extractor.py:100 | replacing dots a second time changes nothing |
| CookieOutput.DomainLabelInjective | firefox-cookie-extractor.py:100-102 | two domains without `-` that give the same label are equal |
| CookieOutput.DomainLabelCollision | firefox-cookie-extractor.py:100-102 | `a.b` and `a-b` share one output file name |
| CookieOutput.OutputName | firefox-cookie-extractor.py:100-102 | the file name is `cookie-`, then the label, then `.txt`, and its length is the domain's plus 11 |
| CookieOutput.CookieString | firefox-cookie-extractor.py:134 | the joined string is empty iff there are no rows, and it starts with the first row's `name=value` |
| CookieOutput.CookieStringSnoc | firefox-cookie-extractor.py:134 | adding one more row adds `"; "` and that row's `name=value` at the end, so rows appear in result order |
| CookieOutput.TwoCookies | firefox-cookie-extractor.py:134 | rows `(a,1)`, `(b,2)` give exactly `a=1; b=2` |
| CookieOutput.ParseCookieStringRoundTrip | firefox-cookie-extractor.py:134 | splitting the cookie string at `"; "` and each element at its first `=` gives the rows back, provided no name contains `=` or `;` and no value contains `;` |
| CookieOutput.FileContent | firefox-cookie-extractor.py:139-141 | a file is written iff there is at least one row, and its content is the cookie string followed by one newline |
| Snapshot.PathJoin | firefox-cookie-extractor.py:97 | the joined path ends with the last component; an absolute component replaces what came before; an empty directory gives the component itself; otherwise the directory is followed by exactly one `/` (added only when it does not already end in one) and then the component |
| Snapshot.DatabasePath | firefox-cookie-extractor.py:96-97 | the database path ends in `cookies.sqlite`, and for a nonempty profile in `/cookies.sqlite` |
| Snapshot.SidecarCopies | firefox-cookie-extractor.py:116-120 | the side-file copies planned for a list of suffixes, in suffix order, at most one per suffix; defines what the loop builds |
| Snapshot.SidecarCopiesMembers | firefox-cookie-extractor.py:116-120 | a side-file copy is planned iff its source exists, and its destination is the temporary database path plus the same suffix |
| Snapshot.PlanCopies | firefox-cookie-extractor.py:115-120 | the database is always copied first to the temporary path; then `-wal`, then `-shm`, each only when its source exists |
| Cli.Dispatch | firefox-cookie-extractor.py:77-86 | only the first argument is a flag: `--help` and `--list-profiles` each select their mode iff they are first; otherwise the domain is the first argument or `youtube.com`, and the profile argument is the second one when it exists |
| Cli.ProfileName | firefox-cookie-extractor.py:87 | a second argument wins whenever present; else a nonempty `USER_DEFINED_PROFILE`; else the manifest default |
| Cli.Usable | firefox-cookie-extractor.py:89 | a usable profile is a found, nonempty name; no profile, a raised lookup and the empty name are all rejected, as `not profile_name` is true for `None` and `""` |
| Cli.ShippedProfileFromManifest | firefox-cookie-extractor.py:74-87 | with the shipped empty `USER_DEFINED_PROFILE` and no second argument, the manifest default decides the profile |
| Cli.ExplicitProfileWins | firefox-cookie-extractor.py:87-91 | with a second argument, the run has a usable profile iff that argument is nonempty |
| Cli.ExitCode | firefox-cookie-extractor.py:77-144 | status 0 exactly for help, listing and extraction; status 1 for every other outcome |
| Cli.Run | firefox-cookie-extractor.py:77-144 | help and listing happen iff the first argument is that flag, and they list `ListProfiles`; otherwise a raised manifest lookup or an unusable profile ends the run before any database path is built; a missing database ends it with that path; otherwise the copy plan, the `%domain%` pattern and the output path follow from the resolved profile and the domain, the reported count is the number of rows, and what is written is `FileContent` of the rows: the cookie string and a newline iff there is a row |

## Left out

- Base-path resolution from `sys.platform`, `APPDATA` and the home directory (lines 14-20). It depends on the environment, so the base path is an input.
- Windows path joining: `Snapshot.PathJoin` follows POSIX `os.path.join` only.
- INI parsing by `configparser` (lines 30-31, 48-49). It is a foreign library. Parsed sections are the input; its lower-casing of keys, its `DEFAULT` section and its duplicate-section errors are not modelled.
- The SQLite query (lines 123-130). The rows are an input to `Cli.Run`. `LIKE`'s case folding and its `%`/`_` wildcards are not modelled; only the pattern string is computed.
- Creating the temporary directory, `shutil.copy2`, `rmtree`, `makedirs`, opening and writing files, and `print` (help text, listing lines, messages). These are I/O. The model gives the copies to perform, the entries to list and the content to write.
- Exceptions from I/O or SQLite during copying or querying. They are outside the model, as is the temporary directory they leave behind.

# Contribution utilities of an event-management system, in Dafny

This project models the core of indico's contribution utilities
(`indico/modules/events/contributions/util.py`) and proves properties of
that model. It covers four operations.

- **CSV import** (`import_contributions_from_csv`) is modelled by `CsvImport`.
  - A validation pass strips every column, lower-cases the email and checks each row in a fixed order:
    - the row has seven columns;
    - the start date parses;
    - the duration is an integer within the range of `timedelta`;
    - there is a title;
    - the email is valid.
  - The first failing row aborts the pass with its row number and error; otherwise the pass yields one record per row. An out-of-range duration aborts through an uncaught `OverflowError` rather than a `UserValueError`; the model reports it as the error `DurationOverflow`.
  - Only then does a creation pass run. It pre-allocates the friendly ids and creates one contribution per record. It links a speaker when the row has an email.
- **Contribution sorting** (`sort_contribs`) is modelled by `ContribSort`, with Python 2's ordering of the sort keys in `KeyOrder`.
  - The sort selector picks a key function.
  - The contributions are sorted stably by that key.
  - Under the schedule orderings, contributions without a start time go after those that have one. The same holds for a missing session under the session orderings, and for missing speakers under the speaker ordering.
- **The TeX archive loop** (`zip_tex_file`) is modelled by `TexArchive`. Every walked file that is not hidden and not Python code is written under its path relative to the source directory.
- **Linked roles** (`get_events_with_linked_contributions`) are modelled by `LinkedRoles`. The user's contribution ACL entries and contribution person links are turned into a `defaultdict(set)` of roles per event.

`PyStrings` models the Python string built-ins these operations rely on:
`strip`, `lower`, `startswith`, `endswith` and `int()`. `Wrappers` holds
`Option`.

The loops of the source are methods with loop invariants. Each is proved
equal to a recursive specification function, and the properties are lemmas
about those functions. Foreign code is modelled as follows:

- **Date parsing** (`dateutil` plus `localize`) is a function parameter. `None` stands for `ValueError`.
- **`validate_email`** is a function parameter.
- **ORM calls** (`allocate_friendly_ids`, `create_contribution`, `get_event_person`) are recorded, in order, as `OrmCall` values.
- **Database queries** are replaced by their results: a sequence of principal entries and a sequence of event ids.

## Model

| member | source | states |
|---|---|---|
| CsvImport.Normalise | indico/modules/events/contributions/util.py:235-237 | Renders the unpacking of a seven-column row into stripped fields, the email also lower-cased |
| CsvImport.CheckFields | indico/modules/events/contributions/util.py:241-268 | Renders the checks of one row, in source order (date, duration and its `timedelta` range, title, email), and the record appended when they all pass |
| CsvImport.ValidateRows | indico/modules/events/contributions/util.py:233-268 | The validation loop returns exactly `Validate`: the records of all rows, or the number and error of the first failing row |
| CsvImport.CheckRow | indico/modules/events/contributions/util.py:234-268 | One iteration of the validation loop applies the checks in source order with early exit, and its outcome is exactly `ValidateRow` of the row |
| CsvImport.NormaliseTrims | indico/modules/events/contributions/util.py:235-237 | After normalisation no field has whitespace at either end and the email has no upper-case letter; each field is empty exactly when its column is blank |
| CsvImport.ColumnsCheckedFirst | indico/modules/events/contributions/util.py:234-240 | A row is malformed exactly when it does not have seven columns; otherwise the field checks alone decide |
| CsvImport.CheckOrder | indico/modules/events/contributions/util.py:241-256 | A row is accepted exactly when it passes every check, the duration check including `timedelta`'s range; when rejected, the reported check fails and every earlier check passes |
| CsvImport.CheckFieldsRecord | indico/modules/events/contributions/util.py:241-268 | Date errors arise exactly for non-empty unparsable dates; each error quotes its own field; a bad duration is one that is no integer literal, an overflow one whose value is outside `timedelta`'s range; a valid record has no start time for an empty date, 20 minutes for an empty or zero duration, the parsed duration otherwise, always within `timedelta`'s range, a non-empty title and the row's speaker data |
| CsvImport.DurationLimits | indico/modules/events/contributions/util.py:246-260 | A duration spelling integer n is accepted exactly when n is within `timedelta`'s range (as n minutes, or 20 for zero) and otherwise aborts with an overflow |
| CsvImport.FirstFailure | indico/modules/events/contributions/util.py:233-268 | Success exactly when every row is valid, with one record per row in order; a failure names a row whose outcome is that error, all rows before it being valid |
| CsvImport.RowOutcomes | indico/modules/events/contributions/util.py:233-268 | One outcome per row, in row order |
| CsvImport.RowOutcomeAt | indico/modules/events/contributions/util.py:233-268 | The outcome recorded for row j+1 is the validation of that row |
| CsvImport.FirstInvalidRowReported | indico/modules/events/contributions/util.py:233-256 | When row k+1 is the first invalid row, the pass fails with number k+1 and that row's own error |
| CsvImport.MalformedRowReported | indico/modules/events/contributions/util.py:233-240 | A row without seven columns after valid rows fails as malformed under its own (1-based) number |
| CsvImport.FirstFailurePrefix | indico/modules/events/contributions/util.py:233-256 | A failure among the first rows is the failure of the whole pass: later rows are never looked at |
| CsvImport.Created | indico/modules/events/contributions/util.py:276-303 | Renders the contribution made from one record: its fields, and a speaker person link exactly when the record has an email |
| CsvImport.CallsFor | indico/modules/events/contributions/util.py:276-296 | Renders the ORM calls for one record: the creation, then the person lookup when the record has an email |
| CsvImport.CreateContributions | indico/modules/events/contributions/util.py:276-303 | The creation loop returns one contribution per record, in order, and makes a create call per record followed by a person lookup exactly when the record has an email |
| CsvImport.CreateAll | indico/modules/events/contributions/util.py:276-303 | As many contributions as records, the i-th made from the i-th record |
| CsvImport.ImportContributionsFromCsv | indico/modules/events/contributions/util.py:228-305 | A rejected import, whether by a `UserValueError` or a duration overflow, makes no ORM call at all; an accepted one allocates friendly ids for exactly the number of records first, then runs the creation pass |
| CsvImport.CreationCallsShape | indico/modules/events/contributions/util.py:276-280 | The creation pass creates exactly one contribution per record and allocates no friendly ids |
| CsvImport.ImportCalls | indico/modules/events/contributions/util.py:270-280 | An accepted import allocates once, as its first call, and creates as many contributions as there are records |
| CsvImport.ImportedSpeakers | indico/modules/events/contributions/util.py:276-303 | Contribution j carries row j+1's title, and has exactly one speaker link with that row's normalised person data when its email column is not blank, and no person link otherwise |
| PyStrings.Strip | indico/modules/events/contributions/util.py:236 | Renders `strip()`: drops Python 2.7's unicode whitespace from both ends |
| PyStrings.Lower | indico/modules/events/contributions/util.py:237 | Renders `lower()` character by character |
| PyStrings.ParseInt | indico/modules/events/contributions/util.py:247 | Renders `int()` on a stripped string: an optional sign and decimal digits, anything else a `ValueError` |
| PyStrings.StripLeftSpec | indico/modules/events/contributions/util.py:236 | Left-stripping keeps a suffix that does not start with whitespace and drops only whitespace |
| PyStrings.StripRightSpec | indico/modules/events/contributions/util.py:236 | Right-stripping keeps a prefix that does not end with whitespace and drops only whitespace |
| PyStrings.StripSpec | indico/modules/events/contributions/util.py:236 | The stripped string is no longer than the input, has no whitespace at either end, and is empty exactly when the input is all whitespace |
| PyStrings.StripPadding | indico/modules/events/contributions/util.py:236 | Stripping removes exactly the whitespace padding around a trimmed string |
| PyStrings.StripIdempotent | indico/modules/events/contributions/util.py:236 | Stripping twice is stripping once |
| PyStrings.LowerSpec | indico/modules/events/contributions/util.py:237 | Lower-casing keeps the length, maps each character on its own and leaves no upper-case letter |
| PyStrings.LowerKeepsSpace | indico/modules/events/contributions/util.py:237 | Lower-casing a character neither makes nor removes whitespace |
| PyStrings.LowerIdempotent | indico/modules/events/contributions/util.py:237 | Lower-casing twice is lower-casing once |
| PyStrings.ParseIntSpec | indico/modules/events/contributions/util.py:247 | `int()` succeeds exactly on an optional sign followed by digits, and yields zero exactly when all digits are zero |
| PyStrings.ParseIntFormat | indico/modules/events/contributions/util.py:247 | Parsing the decimal spelling of any integer gives that integer back |
| KeyOrder.StrLeTotal | indico/modules/events/contributions/util.py:106-128 | String order is total |
| KeyOrder.StrLeAntisymmetric | indico/modules/events/contributions/util.py:106-128 | String order is antisymmetric |
| KeyOrder.StrLeTransitive | indico/modules/events/contributions/util.py:106-128 | String order is transitive |
| KeyOrder.KeyLeReflexive | indico/modules/events/contributions/util.py:106-128 | Tuple order is reflexive |
| KeyOrder.KeyLeTotal | indico/modules/events/contributions/util.py:106-128 | Any two sort keys are comparable |
| KeyOrder.KeyLeAntisymmetric | indico/modules/events/contributions/util.py:106-128 | Keys ordered both ways are equal |
| KeyOrder.KeyLeTransitive | indico/modules/events/contributions/util.py:106-128 | Tuple order is transitive |
| KeyOrder.FalseFlagFirst | indico/modules/events/contributions/util.py:106-123 | A key whose leading flag is `False` sorts strictly before one whose flag is `True` |
| KeyOrder.KeyLe | indico/modules/events/contributions/util.py:128 | Renders the Python 2 comparison `sorted` applies to the keys: `None` lowest, bools as 0 and 1, numbers before strings, strings by code point, tuples decided by their first differing element, a proper prefix first |
| KeyOrder.AtomOrder | indico/modules/events/contributions/util.py:128 | `None` sorts strictly below numbers and strings, numbers strictly below strings, numbers by value and strings by code point |
| KeyOrder.PrefixFirst | indico/modules/events/contributions/util.py:128 | A key tuple sorts before every tuple that extends it |
| KeyOrder.FirstDifferenceDecides | indico/modules/events/contributions/util.py:128 | Two key tuples with a common prefix and different next elements are ordered exactly as those elements are |
| ContribSort.ChooseKey | indico/modules/events/contributions/util.py:104-127 | Renders the `if`/`elif` chain: a field selector picks its field key, a non-empty string the attribute it names after the `number`/`name` aliases, anything else `title` |
| ContribSort.SortKey | indico/modules/events/contributions/util.py:105-123 | Renders each field's key tuple: the missing-value flag first, session titles lower-cased, board numbers as they are or empty |
| ContribSort.Attribute | indico/modules/events/contributions/util.py:116-127 | Renders `attrgetter(name)(c)` for the five attributes `id`, `friendly_id`, `title`, `board_number` and `start_dt`; any other name is an `AttributeError` (`KnownAttribute`), and a missing `start_dt` reads as `None`, which sorts first |
| ContribSort.Sort | indico/modules/events/contributions/util.py:128 | Renders `sorted` as a stable insertion sort on the key order |
| ContribSort.SortContribs | indico/modules/events/contributions/util.py:103-128 | With an unknown attribute name, the sort fails with that name exactly when there is something to sort; otherwise the result is a permutation of the input ordered by the chosen key |
| ContribSort.SameKeySameResult | indico/modules/events/contributions/util.py:103-128 | Two selectors that choose the same key function give the same result |
| ContribSort.SelectorAliases | indico/modules/events/contributions/util.py:104-127 | `number` sorts as `id`, `name` as `title`, an empty or non-string selector as `title`, and any other string as that attribute |
| ContribSort.SortContribsStable | indico/modules/events/contributions/util.py:128 | Contributions with equal keys keep their input order |
| ContribSort.SortSpec | indico/modules/events/contributions/util.py:128 | The sort returns a permutation of its input, sorted by the key |
| ContribSort.InsertSpec | indico/modules/events/contributions/util.py:128 | Inserting into a sorted sequence adds exactly that element and keeps it sorted |
| ContribSort.SortStable | indico/modules/events/contributions/util.py:128 | For every key, the elements with that key come out in input order |
| ContribSort.InsertStable | indico/modules/events/contributions/util.py:128 | Inserting an element puts it before every element with the same key |
| ContribSort.MissingStartLast | indico/modules/events/contributions/util.py:105-123 | Under the schedule orderings no unscheduled contribution precedes a scheduled one |
| ContribSort.MissingSessionLast | indico/modules/events/contributions/util.py:107-123 | Under the session orderings no contribution without a session precedes one with a session |
| ContribSort.MissingSpeakersLast | indico/modules/events/contributions/util.py:109-114 | Under the speaker ordering no contribution without speakers precedes one with speakers |
| TexArchive.Included | indico/modules/events/contributions/util.py:325 | Renders the filter: a file is kept unless its name starts with a dot or ends in `.py`, `.pyc` or `.pyo` |
| TexArchive.RelPath | indico/modules/events/contributions/util.py:327-329 | Renders the archive name: the file's path relative to the source directory, joined with `/` |
| TexArchive.ZipTexFile | indico/modules/events/contributions/util.py:320-331 | The archive loop writes exactly `ArchiveNames`: the included files of each walked directory, in walk order, under their relative paths |
| TexArchive.EntryMembers | indico/modules/events/contributions/util.py:324-329 | A directory contributes a name exactly when one of its files is included and has that relative path |
| TexArchive.ArchiveMembers | indico/modules/events/contributions/util.py:322-331 | A name is in the archive exactly when some walked file is included and has that relative path; a file in a hidden directory is kept |
| TexArchive.RelPathShape | indico/modules/events/contributions/util.py:327-329 | A file in the source directory is archived under its own name, any other under its directory path, a separator and its name |
| TexArchive.NoPythonArchived | indico/modules/events/contributions/util.py:325 | No archived name ends in `.py`, `.pyc` or `.pyo` |
| TexArchive.SuffixOfName | indico/modules/events/contributions/util.py:325-329 | A relative path ends in a suffix without a separator exactly when the file name itself does, so the suffix filter on names decides the archive names |
| LinkedRoles.EventsWithLinkedContributions | indico/modules/events/contributions/util.py:47-90 | The two loops return exactly `LinkedRoles` of the principal entries and the person-linked events |
| LinkedRoles.Granted | indico/modules/events/contributions/util.py:64-69 | Renders the three role tests of one ACL entry |
| LinkedRoles.AddRoles | indico/modules/events/contributions/util.py:63-85 | Renders a lookup in the `defaultdict(set)` followed by adding roles: the event's key is created even when no role is added |
| LinkedRoles.GrantedSpec | indico/modules/events/contributions/util.py:64-69 | `submit` grants submission, full access grants management, read access grants access, and the contributor role never comes from an ACL entry |
| LinkedRoles.AfterAclKeys | indico/modules/events/contributions/util.py:62-63 | The ACL loop keeps every event it finds and adds the event of every entry, even one that grants no role (the `defaultdict` lookup creates it) |
| LinkedRoles.AfterAclRoles | indico/modules/events/contributions/util.py:62-69 | The ACL loop keeps every role it finds and adds exactly the roles granted by the entries for that event |
| LinkedRoles.AfterContribSpec | indico/modules/events/contributions/util.py:84-85 | The person-link loop adds every listed event and the contributor role for it, and nothing else |
| LinkedRoles.LinkedRolesSpec | indico/modules/events/contributions/util.py:47-90 | An event is in the result exactly when an ACL entry or a person link names it, and holds exactly the roles granted there |
| LinkedRoles.RolesNeverRemoved | indico/modules/events/contributions/util.py:62-85 | Roles are only added: every key and role present before the loops is still present after them |
| LinkedRoles.EmptyGrantKeepsEvent | indico/modules/events/contributions/util.py:63 | An ACL entry with none of the three rights still puts its event in the result |

## Left out

- `csv.reader` and `f.read().splitlines()`: the rows arrive already split into columns; quoting and line splitting are not modelled.
- `to_unicode`: columns are taken as already decoded text.
- `dateutil.parser.parse` and `event.tzinfo.localize` are one function parameter; an `OverflowError` or other non-`ValueError` exception from them is not modelled.
- `validate_email` is a function parameter.
- PyStrings.Lower: lower-cases ASCII letters only (Python's `unicode.lower` also maps other scripts), because the model has no Unicode case tables.
- PyStrings.ParseInt: accepts ASCII digits only (Python 2's `int()` on unicode also accepts other decimal digits), and rejects whitespace between the sign and the digits, which Python 2 accepts.
- `timedelta`: durations are whole minutes; a negative duration within `timedelta`'s range is accepted, as in the source.
- The friendly-id values, `track_time_changes` and `all_changes`: the model records that the allocation and creation calls happen, in order, but not what they return or the time changes they collect.
- `ContributionPersonLink` and `populate_from_dict`: the person link is modelled as a value holding the speaker data; the identity of the `EventPerson` the lookup returns, and aliasing between links, are not modelled.
- The SQLAlchemy queries of `get_events_with_linked_contributions`, including the `dt` filter and the deleted-object filters: their results are inputs.
- `get_full_name` formatting and the other `BOASortField` members: a speaker is sorted by a given full name; other enum members are not part of this model.
- ContribSort.ChooseKey: a selector is either a `BOASortField` member or a string, and the two never compare equal, so a string such as `"schedule"` sorts by the attribute of that name. This holds only if `BOASortField` is not a string-valued enum; its definition is not part of this model.
- ContribSort.Attribute: `attrgetter` is modelled for `id`, `friendly_id`, `title`, `board_number` and `start_dt`; dotted names and other attributes raise `AttributeError` in the model. Sorting by the raw `start_dt` attribute when some contributions have no start time raises `TypeError` in Python 2 (`datetime` against `None`); the model orders `None` first instead.
- Datetimes are integers on a time line; timezones are not modelled.
- `os.walk`, `ZipFile`, `NamedTemporaryFile`, `chmod_umask`, `send_file` and `render_archive`: the walk is an input sequence of directories and file names, and the archive is the sequence of names written; `followlinks`, absolute paths, file contents and the UTF-8 encoding of names are not modelled.
- The rest of the repository is not part of this model. This covers `serialize_contribution_person_link`, `generate_spreadsheet_from_contributions`, the iCal and PDF renderers, `make_contribution_form`, `contribution_type_row`, the submitter queries and `bookings.py`. They are serialisation, templating or ORM plumbing.

# vereins-tools score upload — a Dafny model

This project models the score-ingestion core of vereins-tools, together with the PDF image extractor from the same repository.

The score upload reads tournament records: one row per player, holding a name, an id, a total entry count and up to 40 "Entry i"/"Points i" slot pairs. It then:

- sorts each row into skipped, rejected or accepted;
- builds one player document per accepted row;
- either previews the first players (dry run) or replaces the `tournament` collection with the accepted players (live run).

The model covers four source files:

- **`event_manager/upload_scores/uploader.py`** is modelled in `uploader.dfy`, module `Uploader`. This covers:
  - the row pass: `ProcessRow` and `ProcessAll` as functions, `ProcessRecords` as the loop and `HandleRow` as its body;
  - the 40-slot entry loop: `EntriesUpTo` and `BuildEntries`;
  - the collection: a `Collection` class whose `docs` map is keyed by `playerId`;
  - `display_preview` (`DisplayPreview`);
  - `main` (`Run`);
  - `validate_entry` (`ValidateEntry`).
- **`event_manager/upload_scores/models.py`** is modelled in `models.dfy`, module `Models`. It holds the `PlayerEntry` record, its field constraints and the `player_name_not_empty` check, which is defined on the class but never registered as a validator.
- **`event_manager/upload_scores/config.py`** is modelled in `config.dfy`, module `Config`. It holds `check_env_vars` over an environment given as a map.
- **`pdf_tools/extract_images.py`** is modelled in `extract_images.dfy`, module `ExtractImages`. It holds `extract_images_from_pdf` as a nested loop over the pages' images, writing into a `FileSystem` object whose `files` map goes from path to bytes.

Two more files support the model:

- `pystr.dfy` (module `PyStr`) models the Python built-ins the core relies on:
  - `str.strip`, following Python's whitespace set;
  - `int(str)` and `str(int)`;
  - `str.startswith`;
  - ASCII `lower`;
  - `lstrip` of one character;
  - `", ".join`;
  - the `03d` format.
- `wrappers.dfy` holds `Option`, `Result` and `Outcome`.

A raised exception becomes a result value:

- a rejected row is a `Rejection` in the batch's error list;
- the `ValueError` that escapes the row loop is a `Failure(Abort(..))`;
- a failed `check_env_vars`, or a failed connectivity check, is a `RunOutcome`.

A record is a `map<string, string>`. An absent key stands for a cell that `row.get` returns as `None`.

## Behaviour worth knowing

These follow from the code as written and are modelled that way.

- **A malformed points cell ends the run.** A `Points i` cell that `int()` refuses is not coerced to 0. `int(row.get('Points i', 0) or 0)` raises at uploader.py:123, outside the `try` of uploader.py:106-114, so the `ValueError` escapes `main` and the run ends before anything is written. The points cell is parsed for every slot, including slots whose `Entry i` cell is empty. See `EntriesAbortIff`, `FirstBadSlot`, `BadPointsEndsRun`, `ProcessAllAbortIff` and `Run`.
- **Blank names are accepted.** `player_name_not_empty` (models.py:8-12) is never registered as a validator. Only an absent (None) name fails the required-field check at uploader.py:107, and a name made of whitespace is imported verbatim. See `BlankNameAccepted`, `BlankNameRowAccepted` and `ValidateAccepted`.
- **`totalEntries` is parsed before the name is checked.** `int(...)` at uploader.py:110 runs before `PlayerEntry` is built, so an unparseable `totalEntries` is reported even when the name is also missing. A missing name together with a negative total yields both field errors in one rejection. See `TotalEntriesRule` and `NewPlayerEntry`.
- **The short-id warning counts characters, not digits.** uploader.py:102 tests `len(str(id)) < 10`, so the minus sign counts. The warned ids are exactly those strictly between -10^8 and 10^9. See `ShortStrIff` and `WarningsAreShortIds`.
- **`int()` skips less whitespace than `str.strip()`.** The blank test at uploader.py:92 strips every `str.isspace` character, but `int()` at uploader.py:97 does not skip the ASCII separators U+001C..U+001F. An id cell "\x1c5" is therefore not blank, yet rejected as not a valid integer. See `SeparatorNotSkipped` and `SeparatorIdScenario`.
- **An integer wider than 8 bytes crashes a live run after the clear.** BSON stores at most 8-byte integers. pymongo raises `OverflowError` while encoding the `bulk_write` of uploader.py:156, and that error is not caught by the `PyMongoError` handler at uploader.py:166. The collection has already been cleared at uploader.py:154. See `Collection.BulkWrite` and `Run`.
- **`validate_entry` is never called by `main`.** It is modelled on its own terms, and `ValidateAccepted` relates it to the row pass.

## Model

| member | source | states |
|---|---|---|
| Models.NewPlayerEntry | event_manager/upload_scores/models.py:3-12 | construction succeeds iff a name is given and totalEntries >= 0; the fields read back as given; a failure lists each violated field exactly once and nothing else, the missing name first |
| Models.PlayerNameNotEmpty | event_manager/upload_scores/models.py:8-12 | passes iff the name is present and has a non-whitespace character, returning it unchanged; otherwise fails with "playerName must not be empty." |
| Models.BlankNameAccepted | event_manager/upload_scores/models.py:3-12 | a whitespace-only name is rejected by the name check yet still yields a PlayerEntry, because the check is not wired into construction |
| Config.GetEnv | event_manager/upload_scores/config.py:10 | definition: `os.getenv(name, default)`, the value when the name is set, else the default |
| Config.UsesGoogleSheets | event_manager/upload_scores/config.py:10 | definition: the flag, defaulting to "false", lowers to exactly "true" |
| Config.IsSet | event_manager/upload_scores/config.py:12 | definition: `os.getenv(var)` is truthy, i.e. set and not empty |
| Config.Unset | event_manager/upload_scores/config.py:12 | definition: the names of the list that are not set, keeping the list order |
| Config.Missing | event_manager/upload_scores/config.py:12 | definition: the unset names among the required variables |
| Config.RequiredVars | event_manager/upload_scores/config.py:9-11 | the three base variables come first; the two Google variables are appended iff USE_GOOGLE_SHEETS lowers to "true" |
| Config.CheckEnvVars | event_manager/upload_scores/config.py:8-14 | fails iff some required variable is unset or empty, with "Missing required environment variables: " followed by the missing names joined by ", " |
| Config.MissingIff | event_manager/upload_scores/config.py:12 | a name is listed as missing iff it is in the list and unset or empty; the missing list is no longer than the list |
| Config.UnsetAppend | event_manager/upload_scores/config.py:11-12 | the missing names keep the order of the required list: base names first, then Google names |
| Config.BaseAlwaysRequired | event_manager/upload_scores/config.py:9-14 | MONGO_URI, USE_GOOGLE_SHEETS and CSV_PATH are always required and reported whenever unset |
| Config.GoogleRequiredIff | event_manager/upload_scores/config.py:10-11 | each Google credential variable is required iff the flag lowers to "true" |
| Config.UnsetFlag | event_manager/upload_scores/config.py:9-14 | an unset USE_GOOGLE_SHEETS defaults to "false", so the Google variables are not required, but the flag itself is reported missing and the check fails |
| PyStr.IsSpace | event_manager/upload_scores/uploader.py:92 | definition: `str.isspace` of one character, the whitespace `str.strip()` removes |
| PyStr.IsIntSpace | event_manager/upload_scores/uploader.py:97 | definition: the whitespace `int()` skips around a number, `str.isspace` without U+001C..U+001F |
| PyStr.TrimLeft | event_manager/upload_scores/uploader.py:92-97 | definition: `lstrip()` over `str.isspace`, or over the whitespace int() skips |
| PyStr.TrimRight | event_manager/upload_scores/uploader.py:92-97 | definition: `rstrip()` over `str.isspace`, or over the whitespace int() skips |
| PyStr.Strip | event_manager/upload_scores/uploader.py:92 | definition: `str.strip()`, dropping leading and trailing `str.isspace` characters |
| PyStr.IsBlank | event_manager/upload_scores/uploader.py:92 | definition: `str(s).strip() == ''` |
| PyStr.IntStrip | event_manager/upload_scores/uploader.py:97 | definition: what `int()` keeps after skipping its whitespace around the number |
| PyStr.ParseInt | event_manager/upload_scores/uploader.py:97 | definition: `int(s)` in base 10, its whitespace around an optional sign and one or more ASCII digits, else a failure |
| PyStr.NatStr | event_manager/upload_scores/uploader.py:102 | definition: the decimal digits of a natural number without leading zeros |
| PyStr.Str | event_manager/upload_scores/uploader.py:102 | definition: `str(n)`, a minus sign for negatives, then the digits |
| PyStr.Join | event_manager/upload_scores/uploader.py:52 | definition: `sep.join(xs)`, the items with the separator between consecutive items |
| PyStr.JoinConcat | event_manager/upload_scores/uploader.py:52 | for any two non-empty lists, `sep.join(xs + ys)` is `sep.join(xs) + sep + sep.join(ys)`: exactly one separator between consecutive items |
| PyStr.StartsWith | event_manager/upload_scores/uploader.py:128 | definition: `s.startswith(p)`, p is a prefix of s |
| PyStr.AsciiLower | pdf_tools/extract_images.py:26 | definition: `str.lower()` on ASCII letters, other characters kept |
| PyStr.BlankIffAllSpace | event_manager/upload_scores/uploader.py:92 | `s.strip() == ''` holds iff every character is Python whitespace |
| PyStr.ParsedNotBlank | event_manager/upload_scores/uploader.py:92-97 | text that int() accepts is never empty or whitespace-only |
| PyStr.SeparatorNotSkipped | event_manager/upload_scores/uploader.py:92-97 | `str.strip()` removes U+001C but `int()` refuses it: "\x1c5" is not blank and does not parse |
| PyStr.ParseStrRoundTrip | event_manager/upload_scores/uploader.py:97-102 | int(str(n)) == n for every integer n |
| PyStr.ShortStrIff | event_manager/upload_scores/uploader.py:102 | len(str(n)) < 10 iff -10^8 < n < 10^9 |
| PyStr.DigitsValue | event_manager/upload_scores/uploader.py:97 | definition: the value of a string of decimal digits, most significant first |
| PyStr.NatStrValue | event_manager/upload_scores/uploader.py:102 | str(n) of a natural n is all digits, has no leading zero unless n is 0, and reads back as n |
| PyStr.NatStrLength | event_manager/upload_scores/uploader.py:102 | the decimal form of n has at most k digits iff n < 10^k |
| PyStr.AsciiLowerChars | pdf_tools/extract_images.py:26 | each upper-case ASCII letter becomes its lower-case letter and every other character is kept |
| PyStr.LStripChar | pdf_tools/extract_images.py:26 | the result is a suffix with no leading c, and everything removed was c |
| PyStr.PadDigits | pdf_tools/extract_images.py:28 | definition: `f"{n:0{width}d}"`, the digits of n left-padded with zeros |
| PyStr.Pad3 | pdf_tools/extract_images.py:28 | definition: `f"{n:03d}"` |
| PyStr.PadDigitsUnpadded | pdf_tools/extract_images.py:28 | with no width to fill, the padded form is exactly `str(n)` |
| PyStr.PadDigitsValue | pdf_tools/extract_images.py:28 | the zero-padded form is all digits and reads back as the number |
| PyStr.PadDigitsLength | pdf_tools/extract_images.py:28 | the zero-padded form is exactly max(width, number of digits) long |
| PyStr.Pad3Value | pdf_tools/extract_images.py:28 | the `03d` form is all digits, reads back as the number, and is exactly max(3, number of digits) long |
| Uploader.Cell | event_manager/upload_scores/uploader.py:87 | definition: `row.get(key)`, an absent key standing for None |
| Uploader.Truthy | event_manager/upload_scores/uploader.py:87 | definition: a cell is truthy when present and not empty |
| Uploader.EntryKey | event_manager/upload_scores/uploader.py:122 | definition: the column name "Entry i" |
| Uploader.PointsKey | event_manager/upload_scores/uploader.py:123 | definition: the column name "Points i" |
| Uploader.SlotEntry | event_manager/upload_scores/uploader.py:125-129 | definition: the entry of a filled slot, the group name verbatim, its score, and sub iff the name starts with "Sub" |
| Uploader.EntriesUpTo | event_manager/upload_scores/uploader.py:120-129 | definition: the entries of slots 1..k; each slot parses its points cell first (a failure ends the loop), then adds an entry when its group cell is truthy |
| Uploader.Entries | event_manager/upload_scores/uploader.py:120-129 | definition: the entries of all 40 slots, or the malformed points cell that ends the loop |
| Uploader.OccupiedSlots | event_manager/upload_scores/uploader.py:124 | definition: the slots among 1..k whose group cell is truthy, ascending |
| Uploader.FromSlot | event_manager/upload_scores/uploader.py:122-129 | definition: an entry is slot i's when it has the slot's group name and parsed points, and sub iff the name starts with "Sub" |
| Uploader.PointsOk | event_manager/upload_scores/uploader.py:123 | definition: `int(row.get('Points i', 0) or 0)` does not raise |
| Uploader.IntOrZero | event_manager/upload_scores/uploader.py:110 | `int(cell or 0)`: an absent or empty cell gives 0, a non-empty cell gives exactly what int() gives, and the result fails iff the cell is non-empty and int() rejects it |
| Uploader.EntriesFromSlots | event_manager/upload_scores/uploader.py:120-129 | the entries are exactly the slots with a non-empty Entry cell, in slot order; each has the group name verbatim, sub iff it starts with "Sub", and the parsed points (0 when empty) |
| Uploader.EntriesAbortIff | event_manager/upload_scores/uploader.py:121-123 | the slot loop raises iff some slot's Points cell is malformed, whether or not its Entry cell is filled |
| Uploader.FirstBadSlot | event_manager/upload_scores/uploader.py:121-123 | the slot reported is the first with a malformed Points cell, with that cell's text, which int() refuses |
| Uploader.FailurePersists | event_manager/upload_scores/uploader.py:121-123 | once a slot has raised, later slots change nothing |
| Uploader.EntriesAtMost40 | event_manager/upload_scores/uploader.py:121 | a player never has more than 40 entries |
| Uploader.BuildEntries | event_manager/upload_scores/uploader.py:120-129 | the slot loop's result equals the slot specification Entries |
| Uploader.BlankRow | event_manager/upload_scores/uploader.py:87 | definition: both playerId and playerName are falsy |
| Uploader.ProcessRow | event_manager/upload_scores/uploader.py:87-136 | definition: the verdict on one row: skip when id and name are both falsy, else the first failing check in the order of the code, else the player; or the malformed points cell that ends the run |
| Uploader.ParsedId | event_manager/upload_scores/uploader.py:97-109 | definition: the integer id a row reached, for the accepted and the PlayerEntry-rejected rows |
| Uploader.ShortId | event_manager/upload_scores/uploader.py:102 | definition: `len(str(id)) < 10` |
| Uploader.RowSkipIff | event_manager/upload_scores/uploader.py:87-88 | a row is skipped iff both playerId and playerName are falsy |
| Uploader.RowIdRules | event_manager/upload_scores/uploader.py:90-100 | "missing or empty" iff the id is absent or whitespace-only; "not a valid integer", with the raw text, iff int() refuses the id |
| Uploader.RowIdParsed | event_manager/upload_scores/uploader.py:96-110 | any later outcome, including ending the run, is reached iff the id parses; an accepted or PlayerEntry-rejected outcome carries `int()` of the id cell |
| Uploader.TotalEntriesRule | event_manager/upload_scores/uploader.py:106-114 | a totalEntries cell that int() rejects, or a negative total, rejects the row; an absent or empty cell gives 0 |
| Uploader.AcceptedFromRow | event_manager/upload_scores/uploader.py:106-136 | a row is accepted as a player iff it has that name verbatim (blank included), an id int() reads as the player's id, a non-negative total read the same way, and the slot entries; the id's length plays no part; at most 40 entries |
| Uploader.BlankNameRowAccepted | event_manager/upload_scores/uploader.py:106-111 | a row with a whitespace-only name and otherwise valid cells is accepted with that name |
| Uploader.RowAbortIff | event_manager/upload_scores/uploader.py:106-129 | a row ends the run iff its name is present, its id parses, its total parses and is non-negative, and some Points cell among the 40 is refused by int() |
| Uploader.BadPointsEndsRun | event_manager/upload_scores/uploader.py:123 | when a row ends the run, the slot it names has a Points cell that int() rejects, with that text |
| Uploader.Record | event_manager/upload_scores/uploader.py:93-136 | definition: appends one verdict to the batch: a rejection to the errors, a player to the accepted list, and a reached short id to the warnings |
| Uploader.ProcessAll | event_manager/upload_scores/uploader.py:82-136 | definition: the verdicts of the rows folded into the batch in row order, or the first row that ends the run |
| Uploader.CountBlank | event_manager/upload_scores/uploader.py:87-88 | definition: the number of rows skipped silently |
| Uploader.AbortPersists | event_manager/upload_scores/uploader.py:86-136 | once a row has ended the run, later rows change nothing |
| Uploader.ProcessAllAbortIff | event_manager/upload_scores/uploader.py:86-136 | the run ends with an uncaught error iff some row ends it, and then it is the first such row |
| Uploader.ProcessAllCounts | event_manager/upload_scores/uploader.py:86-136 | every row that is not blank adds exactly one accepted player or one error |
| Uploader.ProcessAllPrefix | event_manager/upload_scores/uploader.py:82-136 | players, errors and warnings only grow by appending, so they keep the input order |
| Uploader.AcceptedHasRow | event_manager/upload_scores/uploader.py:106-136 | every accepted player comes from some row accepted with it |
| Uploader.LastRowKept | event_manager/upload_scores/uploader.py:131-136 | the player of an accepted last row is in the batch |
| Uploader.AcceptedRowKept | event_manager/upload_scores/uploader.py:106-136 | the player of every accepted row is in the batch |
| Uploader.ProcessAllAccepted | event_manager/upload_scores/uploader.py:106-136 | a player is accepted iff some row yields it |
| Uploader.ProcessAllRejected | event_manager/upload_scores/uploader.py:90-117 | an error is listed iff some row is rejected with it |
| Uploader.AcceptedWellFormed | event_manager/upload_scores/uploader.py:106-136 | every accepted player has totalEntries >= 0 and at most 40 entries |
| Uploader.WarningsAreShortIds | event_manager/upload_scores/uploader.py:102-104 | warned ids lie strictly between -10^8 and 10^9, and every accepted player in that range was warned about; the row is still imported because AcceptedFromRow's iff has no condition on the id's length |
| Uploader.HandleRow | event_manager/upload_scores/uploader.py:87-136 | the loop body for one row yields exactly the row specification ProcessRow: skip, the first failing check, the player, or the slot that ends the run |
| Uploader.ProcessRecords | event_manager/upload_scores/uploader.py:82-136 | the row loop's result equals the batch specification ProcessAll |
| Uploader.Ids | event_manager/upload_scores/uploader.py:158 | definition: the set of the players' ids |
| Uploader.IdsMembership | event_manager/upload_scores/uploader.py:156-163 | an id is in the batch's id set iff some player has it |
| Uploader.LastIndex | event_manager/upload_scores/uploader.py:156-163 | the last player in the batch with a given id |
| Uploader.Upserted | event_manager/upload_scores/uploader.py:156-163 | definition: the ordered upserts applied one by one, each replacing the document with the player's id |
| Uploader.Snapshot | event_manager/upload_scores/uploader.py:153-163 | definition: the collection after clearing it and upserting the batch |
| Uploader.FitsInt64 | event_manager/upload_scores/uploader.py:156 | definition: the integer fits in the 8 bytes BSON allows |
| Uploader.Encodable | event_manager/upload_scores/uploader.py:156-162 | definition: the id, the total and every score of the player fit in 8 bytes |
| Uploader.UpsertedContents | event_manager/upload_scores/uploader.py:156-163 | after the ordered upserts, every batch id holds the last player with that id; the other documents are untouched; the key set is the old keys plus the batch ids |
| Uploader.SnapshotLastWins | event_manager/upload_scores/uploader.py:153-163 | after clearing and upserting, the collection holds exactly one document per distinct accepted id, the last player with it |
| Uploader.UpsertIdempotent | event_manager/upload_scores/uploader.py:153-163 | upserting the same batch onto its own snapshot changes nothing |
| Uploader.Collection.DeleteMany | event_manager/upload_scores/uploader.py:154 | the collection becomes empty; the call is recorded |
| Uploader.Collection.BulkWrite | event_manager/upload_scores/uploader.py:156-163 | when every id, total and score fits in 8 bytes, the documents become the ordered upserts of the players, keyed by playerId, and the call is recorded; otherwise (OverflowError) nothing is written |
| Uploader.GroupNames | event_manager/upload_scores/uploader.py:52 | definition: the entries' group names, in entry order |
| Uploader.ExampleGroups | event_manager/upload_scores/uploader.py:52 | definition: the first three group names joined by ", " |
| Uploader.PreviewLine | event_manager/upload_scores/uploader.py:53-58 | definition: one preview line with the name, the id, the total and the example groups (colour codes omitted) |
| Uploader.PreviewLines | event_manager/upload_scores/uploader.py:51-59 | definition: the preview lines of the first n players, in order |
| Uploader.Preview | event_manager/upload_scores/uploader.py:49-59 | definition: the header, then the lines of the first three players |
| Uploader.GroupNamesAt | event_manager/upload_scores/uploader.py:52 | one group name per entry, in entry order |
| Uploader.PreviewLinesAt | event_manager/upload_scores/uploader.py:53-59 | the lines of the first n players are one per player, in player order |
| Uploader.PreviewShape | event_manager/upload_scores/uploader.py:49-59 | the preview is the header, then exactly one line per player among the first three, in order, each equal to that player's PreviewLine |
| Uploader.DisplayPreview | event_manager/upload_scores/uploader.py:49-59 | the loop prints exactly the preview specification Preview |
| Uploader.Run | event_manager/upload_scores/uploader.py:62-164 | a config error, an unreachable store, or an aborting row leaves the store untouched; a dry run only prints Preview(accepted); a live run clears the store, then upserts iff some player was accepted, leaving exactly Snapshot(accepted) when every value fits in 8 bytes, and an empty store (Overflowed) otherwise |
| Uploader.Get | event_manager/upload_scores/uploader.py:37-39 | definition: `entry.get(key)`, None for an absent key |
| Uploader.NameOk | event_manager/upload_scores/uploader.py:41 | definition: `isinstance(v, str) and v.strip()` |
| Uploader.IdOk | event_manager/upload_scores/uploader.py:43 | definition: `isinstance(v, (str, int))`, a bool counting as an int |
| Uploader.TotalOk | event_manager/upload_scores/uploader.py:45 | definition: `isinstance(v, int) and v >= 0`, True and False counting as 1 and 0 |
| Uploader.ValidateEntry | event_manager/upload_scores/uploader.py:36-46 | passes iff the name is a non-blank string, the id is a str or int, and the total is a non-negative int; otherwise it reports the first failing check, in that order, with its value |
| Uploader.AsDict | event_manager/upload_scores/uploader.py:131-136 | definition: the dict `main` appends for a player, with its name, id, entries and total |
| Uploader.ValidateAccepted | event_manager/upload_scores/uploader.py:36-46 | validate_entry would pass an accepted player iff its name is not blank |
| Uploader.NonIntegerIdScenario | event_manager/upload_scores/uploader.py:96-100 | the row {playerName: "Bob", playerId: "abc"} is rejected as a non-integer id |
| Uploader.SeparatorIdScenario | event_manager/upload_scores/uploader.py:92-100 | the row {playerName: "Bob", playerId: "\x1c5"} is not blank but is rejected as a non-integer id |
| ExtractImages.Ancestors | pdf_tools/extract_images.py:13 | definition: the folder and every parent folder, as `mkdir(parents=True)` creates them |
| ExtractImages.FileSystem.MakeDirs | pdf_tools/extract_images.py:13 | the output folder and all its ancestors exist afterwards; no file changes |
| ExtractImages.FileSystem.WriteFile | pdf_tools/extract_images.py:31-32 | the file at the path is created or replaced by the bytes; nothing else changes |
| ExtractImages.RFind | pdf_tools/extract_images.py:11 | the last position of the character, or -1 when it is absent |
| ExtractImages.Stem | pdf_tools/extract_images.py:11 | definition: `PurePath.stem` of a name as in Python up to 3.13, without its last suffix when that dot is neither first nor last |
| ExtractImages.PdfStem | pdf_tools/extract_images.py:10-11 | definition: the stem of the last path component |
| ExtractImages.OutputFolder | pdf_tools/extract_images.py:12 | definition: `Path(output_base) / pdf_name` |
| ExtractImages.StemDropsSuffix | pdf_tools/extract_images.py:11 | the stem of "base.ext" is base when base and ext are non-empty and ext has no dot |
| ExtractImages.ImageExt | pdf_tools/extract_images.py:23-26 | definition: the forced extension without leading dots and lower-cased when it is non-empty, else the image's own |
| ExtractImages.ForcedExtension | pdf_tools/extract_images.py:23-26 | a non-empty forced extension is used for every image, lower-cased and without leading dots; otherwise the image's own extension is used |
| ExtractImages.FileName | pdf_tools/extract_images.py:28 | definition: `f"{pdf_name}_{n:03d}.{image_ext}"` |
| ExtractImages.ImagePath | pdf_tools/extract_images.py:29 | definition: `output_folder / image_filename` |
| ExtractImages.FirstDotAfterDigits | pdf_tools/extract_images.py:28 | in "digits.ext" the first dot follows the digits |
| ExtractImages.NameNumberRoundTrip | pdf_tools/extract_images.py:28 | the counter reads back from the file name whatever the extension, so different counters never give the same name |
| ExtractImages.Flatten | pdf_tools/extract_images.py:18-19 | definition: the images of all pages, in page order |
| ExtractImages.TotalImages | pdf_tools/extract_images.py:18-34 | definition: the number of images over all pages |
| ExtractImages.TotalImagesAppend | pdf_tools/extract_images.py:18-19 | the image count of two page runs adds up |
| ExtractImages.FlattenLength | pdf_tools/extract_images.py:16-34 | the document's image sequence has one image per image on each page |
| ExtractImages.FlattenPrefix | pdf_tools/extract_images.py:18-19 | the images of the first pages come first |
| ExtractImages.PageImages | pdf_tools/extract_images.py:18-28 | numbering does not restart per page: the images of page p come right after the images of all earlier pages |
| ExtractImages.PathOf | pdf_tools/extract_images.py:28-29 | definition: the path of image k (0-based), written as number k + 1 |
| ExtractImages.WrittenUpTo | pdf_tools/extract_images.py:28-32 | definition: the files after writing the first n images in order, each at its numbered path |
| ExtractImages.Written | pdf_tools/extract_images.py:28-32 | definition: the files after writing all the images |
| ExtractImages.PathsDistinct | pdf_tools/extract_images.py:28-29 | the images of one call are written to pairwise distinct paths |
| ExtractImages.WrittenImage | pdf_tools/extract_images.py:28-32 | once written, each image's bytes stay at its own numbered path while later images are written |
| ExtractImages.WrittenInFolder | pdf_tools/extract_images.py:12-29 | every path the writes add lies directly inside `<output_base>/<stem>` |
| ExtractImages.WrittenKeepsOthers | pdf_tools/extract_images.py:29-32 | files at paths other than the numbered image paths keep their contents |
| ExtractImages.WriteImage | pdf_tools/extract_images.py:28-32 | writing image number n after images 1..n-1 adds exactly its numbered path; no directory changes |
| ExtractImages.WritePage | pdf_tools/extract_images.py:19-34 | one page's loop writes its images numbered on from the count so far, and advances the count by the page's image count |
| ExtractImages.WritePages | pdf_tools/extract_images.py:18-34 | the page loop writes every image of the document, numbered 1.. in page order, and counts them |
| ExtractImages.ExtractImagesFromPdf | pdf_tools/extract_images.py:5-36 | returns the total number of images; the files become the numbered images of all pages in order; the output folder exists |

## Left out

- The record sources in `event_manager/upload_scores/utils.py` (`load_csv`, `load_google_sheet`) and the source choice at uploader.py:77-80 are left out; the records are a parameter of `Run`.
- `load_config` (reading the `.env` file) is left out; the environment is a parameter.
- Connecting to MongoDB (`MongoClient`, `server_info`, `get_default_database`) becomes the boolean `reachable`. A failed check is the `StoreUnavailable` outcome.
- A `PyMongoError` raised by `delete_many` or `bulk_write`, and the `DatabaseConnectionError` that follows, are left out. The store after a failed write is not modelled.
- Uploader.Collection.BulkWrite: requires a non-empty list, as `bulk_write` does; the uploader only calls it when `processed_data` is not empty.
- Uploader.Collection.BulkWrite: the whole list is encoded as one message. pymongo splits very large lists (over 100,000 operations or the message-size limit) into several messages, so an `OverflowError` in a later message would leave the earlier ones written; the model writes nothing.
- Uploader.Collection.BulkWrite: each upsert replaces the whole document, where `$set` merges fields. After `delete_many` every document is written with all four fields, so the two agree. The Mongo `_id` field is not modelled.
- Logging, colour codes, the `tqdm` progress bar (250 rows and more) and the elapsed time are left out. Preview lines are modelled without colour codes. Warnings are kept as the list of warned ids.
- Uploader.ProcessRow: rejections are modelled as a `Rejection` value, not as the message text. The pydantic text embedded via `str(e)` is not reproduced.
- `int()` is modelled as optional surrounding whitespace (the `str.isspace` characters other than U+001C..U+001F), an optional sign and ASCII digits. Underscore separators and non-ASCII decimal digits are left out.
- PyStr.ParseInt: the limit of 4300 digits that current CPython puts on `int()` and `str()` (from 3.11 and the 2022 security releases of 3.7 to 3.10) is left out. CPython raises `ValueError` on a longer cell, so a long id, total or points cell there takes the path of any text int() refuses, where the model parses it.
- `str.lower()` is modelled for ASCII letters only. Unicode case mapping is left out; it matters only for the forced extension: no non-ASCII character lowers to a letter of "true", so the Google Sheets flag is unaffected.
- `fitz` (opening and decoding the PDF) is left out. The document is given as its pages' images (bytes and reported extension), and the unused `page_number`, `img_index` and `xref` are not modelled.
- ExtractImages.Stem: follows `PurePath.stem` up to Python 3.13. From Python 3.14 a trailing dot counts as a suffix (`PurePath("report.").stem == "report"`); the model keeps such a name whole.
- Paths are sequences of components, so path normalisation (`..`, absolute paths, separators) is left out.
- Errors from `mkdir` or `open` are not modelled.
- The CLI scripts and the other tools in the repository are not part of this model.

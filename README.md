# NYC taxi trip ingestion, modelled in Dafny

This project models the ingestion side of a small NYC yellow-taxi
pipeline and proves properties of it. The pipeline has four scripts:

- **Acquirer** (`import_data_vf.py`). It reads a configuration file
  holding a `BASE=` line and lists of `YYYY-MM` periods. For each period
  it builds the URL `{base}/yellow_tripdata_{period}.parquet` and the local
  target `data/raw/yellow/yellow_tripdata_{period}.parquet`. It downloads
  every target that does not yet hold data. It appends one audit-log line
  per attempt (SKIP, OK or FAIL), between a start line and an end line.
- **Legacy acquirer** (`import_data.py`). It does the same for three
  fixed months against a fixed base URL. It has no log, and the first
  error ends the script.
- **Archiver** (`archive_parquets.py`). It moves every `.parquet` file of
  the source directory into a backup directory, in sorted order. When a
  name is already taken it renames the file `stem__i.parquet` with the
  smallest free `i`, so nothing is overwritten. It returns 0, 1
  (unusable source) or 2 (a move raised). A dry run only counts.
- **Loader** (`load_parquet_to_sqlserver.py`).
  - It creates `raw.yellow_trips` if it is absent and commits.
  - It lists the `.parquet` files of a directory in sorted order, and
    raises when there is none.
  - For each file it reads the file and normalises it to the 20 kept
    columns plus `source_file`. A missing column becomes all `None`.
    Dates, integers, floats and the flag are coerced.
  - It converts every cell to a driver value (`to_py`), inserts the rows
    in batches of 5000 with `executemany`, and commits after each file.
  - The first exception ends the run.

Modules:

| module | what it holds |
|---|---|
| `Text` | The Python `str` operations the scripts use: `strip`, `rstrip`, `split`, the last path component, and decimal formatting. |
| `Ordering` | Python's string order, and `sorted()` of a set of file names. |
| `Host` | The machine the downloaders run on: file sizes, the requests made, and the audit log. The download server is an oracle `url -> Transfer`. |
| `Acquirer`, `LegacyAcquirer` | The two download scripts. |
| `Archiver` | The archiver. Directories are maps from names to contents, and a class `FileSystem` holds them. |
| `Frames` | The part of a pandas `DataFrame` the loader uses, as a value `Table` and as a class `Frame` that `prep_df` changes in place. |
| `Loader` | The schema, the cell conversions and `prep_df`. |
| `SqlLoad` | `to_py`, `insert_df`, `ensure_table` and the loop of `main`, against a class `Database` that holds the committed rows and the rows of the open transaction. |

Each script's loops are methods. Each method is proved equal to a
specification function. The properties are then proved about those
functions: idempotence of the downloads, no overwrite in the archiver,
whole-file commits in the loader, and the typed shape of every inserted
row.

**`prep_df` can raise.** Each of its conversion steps is written as a
coercion (`errors="coerce"`, load_parquet_to_sqlserver.py:147-151 and
169-170), which turns a bad value into a null. The integer step is the
exception: `pd.to_numeric(...).astype("Int64")` on `VendorID`,
`PULocationID` or `DOLocationID` (load_parquet_to_sqlserver.py:158)
raises when a value has a fractional part. That exception
escapes `prep_df` and ends `main` after the files already committed. The
model follows the code: `Loader.PrepSpec` fails with the column whose cast
raised, and `SqlLoad.LoadDirectory` then ends with `Aborted(CastRaised(..))`.

## Model

| member | source | states |
|---|---|---|
| Text.TrimStart | import_data_vf.py:27 | `lstrip()`: the result is a suffix of the line, all the removed characters are white space, and the result does not start with white space. |
| Text.TrimEnd | import_data_vf.py:27 | `rstrip()`: the result is a prefix of the line, all the removed characters are white space, and the result does not end with white space. |
| Text.Strip | import_data_vf.py:27 | A stripped line neither starts nor ends with white space. |
| Text.StripEmpty | import_data_vf.py:27-32 | A line strips to the empty string exactly when it is all white space. |
| Text.StripIdempotent | import_data_vf.py:42 | Stripping twice gives the same as stripping once. |
| Text.TrimEndChar | import_data_vf.py:37 | `rstrip("/")`: a prefix of the input, all the removed characters are `/`, and it does not end in `/`. |
| Text.Split | import_data_vf.py:42 | `split(";")` gives at least one part, and no part contains the separator. |
| Text.JoinSplit | import_data_vf.py:42 | Joining the parts of a split gives back the line. |
| Text.SplitJoin | import_data_vf.py:42 | Splitting a join of separator-free parts gives back the parts. |
| Text.SplitConcat | import_data_vf.py:42 | Splitting at one separator splits the two sides independently. |
| Text.LastSegment | import_data_vf.py:94 | `Path.name` contains no `/`. |
| Text.LastSegmentOfJoin | import_data_vf.py:94 | The name of `dir / name` is `name`. |
| Text.NatToString | archive_parquets.py:63 | `str(i)` has only decimal digits and no leading zero. |
| Text.ParseNatToString | archive_parquets.py:63 | Reading `str(i)` back gives `i`. |
| Text.NatToStringInjective | archive_parquets.py:63 | Different numbers are formatted as different strings. |
| Text.IntToString | import_data.py:24 | `f"{y}"` has only digits and a minus sign, and agrees with `str` on naturals. |
| Text.ZeroPad2 | import_data.py:24 | `f"{m:02d}"` is at least two characters; for 0..99 it is exactly two digits that read back as `m`. |
| Ordering.LeqTotal | load_parquet_to_sqlserver.py:262 | Any two names are comparable. |
| Ordering.LeqAntisymmetric | load_parquet_to_sqlserver.py:262 | Two names each at most the other are equal. |
| Ordering.LeqTransitive | load_parquet_to_sqlserver.py:262 | The string order is transitive. |
| Ordering.LeqReflexive | load_parquet_to_sqlserver.py:262 | Every name is at most itself. |
| Ordering.LeastExists | load_parquet_to_sqlserver.py:262 | Every non-empty set of names has a least element. |
| Ordering.Least | load_parquet_to_sqlserver.py:262 | The least name is in the set and at most every other. |
| Ordering.SortedList | load_parquet_to_sqlserver.py:262 | `sorted()` of a set lists exactly its elements, each once, in strictly increasing order. |
| Ordering.SortedListUnique | load_parquet_to_sqlserver.py:262 | Two strictly sorted listings of the same names are equal, so the order is fixed by the set alone. |
| Ordering.ParquetListing | load_parquet_to_sqlserver.py:262 | `sorted(dir.glob("*.parquet"))` lists exactly the names ending in `.parquet`, strictly sorted. |
| Ordering.IsParquetName | load_parquet_to_sqlserver.py:262 | Defines the names `*.parquet` matches: those ending in `.parquet`. |
| Host.Machine.constructor | import_data_vf.py:139-147 | The machine starts with the given files and log and no requests. |
| Host.HasData | import_data_vf.py:98 | Defines `exists() and stat().st_size > 0` on the model's files; `DownloadAllKeepsData` and `RunIsIdempotent` state its role. |
| Host.Machine.Get | import_data_vf.py:105-106 | A request is recorded, and its answer is the server's for that URL; files and log are unchanged. |
| Host.Machine.AppendLog | import_data_vf.py:76-82 | `escribir_log` appends exactly one line and changes nothing else. |
| Host.Machine.WriteChunks | import_data_vf.py:114-123 | Opening with `"wb"` and writing the chunks leaves the file holding their total size; no other file changes. |
| Acquirer.BaseValue | import_data_vf.py:36-37 | The base value of a `BASE=` line never ends in `/`. |
| Acquirer.Tokens | import_data_vf.py:42 | The kept parts are non-empty and already stripped, and there are no more of them than parts. |
| Acquirer.TokensAvoid | import_data_vf.py:42 | A character found in no part is found in no token. |
| Acquirer.LineTokens | import_data_vf.py:42 | The period tokens of a line are non-empty, stripped and free of `;`. |
| Acquirer.StripWithin | import_data_vf.py:42 | Stripping adds no character. |
| Acquirer.Classify | import_data_vf.py:27-44 | A line is passed over iff it is blank or a comment, sets the base iff it passes the `BASE=` test, and otherwise lists the tokens of its stripped text. |
| Acquirer.Dedup | import_data_vf.py:53-56 | The de-duplicated list has the same elements and no duplicates. |
| Acquirer.TakeLine | import_data_vf.py:27-44 | One pass of the line loop moves the state as `Step` does for the line's kind. |
| Acquirer.IsBaseLine | import_data_vf.py:36 | Defines the `linea.upper().startswith("BASE=")` test, including the long s that upper-cases to `S`; `LastBaseLineWins` states its effect. |
| Acquirer.IsSkipped | import_data_vf.py:27-32 | Defines the lines passed over: blank once stripped, or starting with `#`; `SkippedLineIgnored` states that they change nothing. |
| Acquirer.AppendAll | import_data_vf.py:43-44 | The periods gain the line's parts at the end, in order. |
| Acquirer.CollectLines | import_data_vf.py:25-44 | The line loop ends in the state `ScanLines` gives for the whole file. |
| Acquirer.Unique | import_data_vf.py:53-56 | The de-duplication loop yields `Dedup` of the periods. |
| Acquirer.ReadConfig | import_data_vf.py:11-58 | `leer_config` returns `ParseConfig` of the lines: a configuration or one of its two errors. |
| Acquirer.ParseConfig | import_data_vf.py:46-58 | A missing base is reported first, even when there are no periods. A configuration lists at least one period, each once, and exactly the gathered tokens. |
| Acquirer.Url | import_data_vf.py:64-69 | The URL lies under the base, after a `/`, and names a `.parquet` file. |
| Acquirer.FileName | import_data_vf.py:159 | Defines the file name `yellow_tripdata_{periodo}.parquet` shared by the URL and the local target; `UrlNamesLocalFile` states that both end in it. |
| Acquirer.OutPath | import_data_vf.py:144-159 | The local target is a `.parquet` file in `data/raw/yellow`. |
| Acquirer.PassedIgnored | import_data_vf.py:30-32 | A passed-over line changes nothing, wherever it stands. |
| Acquirer.SkippedLineIgnored | import_data_vf.py:30-32 | Inserting a blank or comment line anywhere in the file changes nothing. |
| Acquirer.BaseSettingAddsNoTokens | import_data_vf.py:36-38 | A base setting contributes no period tokens. |
| Acquirer.BaseLineAddsNoTokens | import_data_vf.py:36-38 | A `BASE=` line contributes no period tokens, wherever it stands. |
| Acquirer.LastBaseSettingWins | import_data_vf.py:36-38 | There is a base iff some line set one, and then it is the value of the last setting. |
| Acquirer.LastBaseLineWins | import_data_vf.py:36-47 | There is a base iff some line is a `BASE=` line, and then it is the value of the last such line. |
| Acquirer.KindTokens | import_data_vf.py:42-50 | There are no tokens iff every period line is empty of tokens, and every token comes from some period line. |
| Acquirer.TokensWellFormed | import_data_vf.py:42-44 | Every gathered period is non-empty, stripped and free of `;`. |
| Acquirer.FirstIndex | import_data_vf.py:53-56 | The first position of a value: it holds the value and no earlier one does. |
| Acquirer.DedupKeepsFirstSeenOrder | import_data_vf.py:53-56 | De-duplication keeps the order in which values first appear. |
| Acquirer.ParseConfigOutcome | import_data_vf.py:46-58 | Missing base iff no `BASE=` line; no periods iff there is a base but no period tokens; a success lists every gathered token once, each non-empty, stripped and free of `;`. |
| Acquirer.UrlNamesLocalFile | import_data_vf.py:64-69 | The last component of a period's URL and of its local target are the same file name. |
| Acquirer.PeriodDeterminesUrl | import_data_vf.py:157-158 | Different periods are fetched from different URLs. |
| Acquirer.PeriodDeterminesOutPath | import_data_vf.py:157-159 | Different periods without `/` are stored in different local files. |
| Acquirer.Download | import_data_vf.py:89-132 | One attempt logs exactly one line for the period: SKIP iff the target already holds data, OK iff it did not and the transfer completes. A skip makes no request and changes no file; otherwise exactly one request is made; no file other than the target changes. |
| Acquirer.DownloadPeriod | import_data_vf.py:89-132 | `descargar` moves the machine as `Download` says. |
| Acquirer.PartialFileLaterSkipped | import_data_vf.py:98-131 | A transfer that breaks after writing bytes is logged FAIL but leaves its partial file, and the next attempt at that target is a SKIP. |
| Acquirer.Run | import_data_vf.py:139-164 | `main` reports `ParseConfig` of the file, and a configuration error changes nothing. |
| Acquirer.RunAcquirer | import_data_vf.py:139-164 | `main` moves the machine as `Run` says. |
| Acquirer.DownloadEach | import_data_vf.py:157-160 | The period loop moves the machine as `DownloadAll` says. |
| Acquirer.DownloadAll | import_data_vf.py:157-160 | The period loop appends one log line per period after the earlier log, and changes no file other than the periods' targets. |
| Acquirer.Execute | import_data_vf.py:152-164 | A run keeps the earlier log and adds a start line with the base and the number of periods, one line per period, and an end line. |
| Acquirer.DownloadAllLog | import_data_vf.py:157-160 | The period loop appends one attempt line per period, in list order, naming the period and its file. |
| Acquirer.ExecuteLogShape | import_data_vf.py:153-164 | A run logs a start line with the base and the number of periods, one attempt per period in order, then an end line, after the earlier log. |
| Acquirer.ExecuteLogStart | import_data_vf.py:153-154 | The log of a run starts with the earlier log, then the start line. |
| Acquirer.DownloadAllSkipsPresent | import_data_vf.py:98-101 | When every target holds data, the loop makes no request, changes no file and logs only SKIP. |
| Acquirer.RunIsIdempotent | import_data_vf.py:139-164 | A run whose every target holds data makes no request, changes no file and logs only SKIP between start and end. |
| Acquirer.DownloadAllKeepsData | import_data_vf.py:98-101 | A file holding data still holds data after any download attempts. |
| Acquirer.DownloadAllFills | import_data_vf.py:104-126 | When every transfer delivers bytes, every period's target holds data after the loop. |
| Acquirer.SecondRunOnlySkips | import_data_vf.py:139-164 | When every transfer delivers bytes, a second run with the same file makes no request, changes no file and logs only SKIP. |
| LegacyAcquirer.Tag | import_data.py:24 | `f"{y}-{m:02d}"` holds only digits and `-`. |
| LegacyAcquirer.FileName | import_data.py:24 | Defines `yellow_tripdata_`, the tag and `.parquet`; `FileNameDeterminesMonth` states that it identifies the month. |
| LegacyAcquirer.OutPath | import_data.py:29 | Defines `OUT_DIR / f"yellow_tripdata_{y}-{m:02d}.parquet"`; `PathDeterminesMonth` and `OutFileNamedAfterUrl` state its properties. |
| LegacyAcquirer.OutFileNamedAfterUrl | import_data.py:23-29 | A month's local file is named after the last component of its URL. |
| LegacyAcquirer.TagLayout | import_data.py:24 | For months 1..12 the tag is the year, `-`, and two digits that read back as the month. |
| LegacyAcquirer.TagInjective | import_data.py:24 | Different (year, month) pairs with a year of at least 0 and a month from 0 to 99 get different tags. |
| LegacyAcquirer.FileNameDeterminesMonth | import_data.py:29 | Different months get different file names, for years of at least 0 and months from 0 to 99. |
| LegacyAcquirer.UrlDeterminesMonth | import_data.py:23-24 | Different months are fetched from different URLs, for years of at least 0 and months from 0 to 99. |
| LegacyAcquirer.YellowUrl | import_data.py:23-24 | The URL lies under `BASE`, after a `/`, and names a `.parquet` file. |
| LegacyAcquirer.PathDeterminesMonth | import_data.py:29 | Different months are stored in different files, for years of at least 0 and months from 0 to 99. |
| LegacyAcquirer.ScriptTags | import_data.py:27-29 | The script fetches 2025-08, 2025-09 and 2025-10. |
| LegacyAcquirer.DownloadFile | import_data.py:9-21 | A target holding data is skipped with no request. Otherwise one request is made; an error is raised iff the transfer does not complete; a refused transfer leaves the file alone, and any other one leaves it holding the bytes written. Nothing is logged. |
| LegacyAcquirer.FetchFile | import_data.py:9-21 | `download_file` moves the machine as `DownloadFile` says. |
| LegacyAcquirer.RunScript | import_data.py:27-30 | The top-level loop moves the machine as `FetchAll` says over the script's three months. |
| LegacyAcquirer.FetchAll | import_data.py:27-30 | The loop never logs and changes no file other than its months' targets. |
| LegacyAcquirer.FetchAllConcat | import_data.py:27-30 | Fail-fast: an error in the first months means nothing of the later ones is attempted. |
| LegacyAcquirer.FetchAllRequests | import_data.py:27-30 | The script never logs, and every request it makes is the URL of one of its months. |
| LegacyAcquirer.FetchAllSkipsPresent | import_data.py:10-12 | When every month's file holds data, the script changes nothing and raises nothing. |
| Archiver.LastDot | archive_parquets.py:59-60 | The position of the last dot, or -1 when there is none. |
| Archiver.Candidate | archive_parquets.py:53-63 | Defines the `i`-th name `safe_move` tries: the name itself, then `stem__i` plus the suffix; `CandidateLength`, `CandidateInjective` and `SafeMoveRenames` state its properties. |
| Archiver.Suffix | archive_parquets.py:60 | `Path.suffix` is empty iff the name has no proper suffix, and otherwise it is a dot and at least one character. |
| Archiver.Stem | archive_parquets.py:59 | The stem followed by the suffix is the name. |
| Archiver.ParquetSuffix | archive_parquets.py:59-60 | A `.parquet` file has suffix `.parquet` and the rest as its stem. |
| Archiver.CandidateLength | archive_parquets.py:63 | The length of the `i`-th name tried. |
| Archiver.CandidateInjective | archive_parquets.py:53-63 | Different attempts try different names. |
| Archiver.CandidatesCount | archive_parquets.py:61-67 | The first `k` attempts try `k` different names. |
| Archiver.Pigeonhole | archive_parquets.py:61-67 | If the first `k` attempts all hit taken names, at least `k` names are taken, so the renaming loop ends. |
| Archiver.SearchFrom | archive_parquets.py:61-67 | The renaming loop ends on a free name, every earlier attempt being taken, within as many attempts as there are names. |
| Archiver.FreeIndex | archive_parquets.py:53-67 | The attempt `safe_move` ends on is the first whose name is free. |
| Archiver.FreeIndexUnique | archive_parquets.py:53-67 | That attempt is the only one that is free with every earlier one taken. |
| Archiver.MakeDir | archive_parquets.py:51 | `mkdir(parents=True, exist_ok=True)` adds the directory empty if it is absent and changes no existing directory. |
| Archiver.SafeMoveSpec | archive_parquets.py:42-67 | The chosen name is free in the backup and is the plain name when that is free. The move raises iff the file is absent or cannot be moved, and then only the backup directory is created. |
| Archiver.RelocateKeepsOthers | archive_parquets.py:55 | A move to a free name keeps every other file. |
| Archiver.RelocateAddsOnlyTarget | archive_parquets.py:55 | A move makes only the target appear. |
| Archiver.Relocate | archive_parquets.py:55 | `shutil.move` keeps the set of directories, puts the file's content under the target name in the backup, removes the file from the source (unless it is moved onto itself), and leaves every other directory as it was. |
| Archiver.MakeDirKeeps | archive_parquets.py:51 | Creating a directory keeps every file. |
| Archiver.SafeMoveKeepsOthers | archive_parquets.py:42-67 | `safe_move` never overwrites: every file other than the one moved keeps its name and content. |
| Archiver.SafeMoveAddsOnlyTarget | archive_parquets.py:42-67 | The only file `safe_move` can make appear is the chosen name in the backup. |
| Archiver.SafeMoveRenames | archive_parquets.py:58-67 | When the plain name is taken, the chosen name is `stem__i` plus the suffix for the smallest free `i >= 1`. |
| Archiver.ParquetFiles | archive_parquets.py:101 | The listing holds exactly the `.parquet` names of the directory, strictly sorted. |
| Archiver.MoveFrom | archive_parquets.py:109-125 | The loop returns 0 or 2; 0 means every file was processed, and the count never exceeds the files. |
| Archiver.ArchiveSpec | archive_parquets.py:70-125 | Code 1 iff the source exists neither as a directory nor as a file, or has fewer than three parts, and then nothing changes. A dry run changes nothing and counts every file. A source that is a regular file, or a directory without `.parquet` files, means code 0 and no change. |
| Archiver.IsFile | archive_parquets.py:91 | Defines a regular file: the last part of the path names a file of the directory the rest names. |
| Archiver.Exists | archive_parquets.py:91 | Defines `Path.exists()`: a directory or a regular file; `ArchiveSpec` returns 1 exactly when the source fails it or is too short. |
| Archiver.MoveFromStep | archive_parquets.py:111-121 | One turn of the loop: the file's move, then the rest unless it raised. |
| Archiver.FileSystem.constructor | archive_parquets.py:70 | The file system starts with the given directories. |
| Archiver.FileSystem.SafeMove | archive_parquets.py:42-67 | `safe_move` changes the directories and answers as `SafeMoveSpec` says. |
| Archiver.FileSystem.Archive | archive_parquets.py:70-125 | `archive_parquets` changes the directories and returns the code and count `ArchiveSpec` gives. |
| Archiver.FileSystem.MoveAll | archive_parquets.py:109-122 | The move loop changes the directories and reports as `MoveFrom` says. |
| Archiver.MoveFromConcat | archive_parquets.py:111-121 | Fail-fast: after a raise nothing of the later files is attempted, and the moves already made stay made. |
| Archiver.MoveFromKeepsOthers | archive_parquets.py:109-125 | The loop keeps every file other than the listed ones. |
| Archiver.MoveFromAddsOnlyBackup | archive_parquets.py:109-125 | The loop creates files only in the backup directory. |
| Archiver.ArchiveKeepsOthers | archive_parquets.py:70-125 | Archiving keeps every file other than the source's `.parquet` files. |
| Archiver.ArchiveAddsOnlyBackup | archive_parquets.py:70-125 | Whatever the outcome, archiving creates files only in the backup directory. |
| Archiver.MoveFromSuccess | archive_parquets.py:109-125 | When the loop returns 0, every listed file has left the source, the source keeps its other files, and the backup gains exactly one file per listed file. Each listed file's content is in the backup under a name the backup did not have. |
| Archiver.ArchiveSuccess | archive_parquets.py:109-125 | A successful real run counts every file and leaves no `.parquet` file in the source, keeping its other files. The backup gains one file per moved file, holding that file's content under a new name. |
| Frames.IndexOf | load_parquet_to_sqlserver.py:138 | The position of a column name, which is unique when no name repeats. |
| Frames.WithColumn | load_parquet_to_sqlserver.py:150-182 | `df[c] = col`: `c` holds `col`; an existing column is replaced where it stands and a new one appended; every other column is unchanged. |
| Frames.Project | load_parquet_to_sqlserver.py:143 | `df[cols]` holds exactly the named columns, in the order named, each as it was. |
| Frames.AddColumn | load_parquet_to_sqlserver.py:138-139 | `if c not in df.columns: df[c] = None` keeps every column and adds `c` filled with `None` when it is absent. |
| Frames.AddMissing | load_parquet_to_sqlserver.py:137-139 | After the loop the frame has a column for every listed name, its old columns first and in place. |
| Frames.AddMissingKeeps | load_parquet_to_sqlserver.py:137-139 | The frame's old columns are unchanged, and the added ones are all `None`. |
| Frames.Frame.constructor | load_parquet_to_sqlserver.py:143 | A new frame holds the given table. |
| Frames.Frame.Assign | load_parquet_to_sqlserver.py:150-182 | Assignment changes the frame as `WithColumn` says. |
| Frames.Frame.Select | load_parquet_to_sqlserver.py:143 | `df[cols].copy()` is a new frame holding `Project` of this one, which is left unchanged. |
| Loader.Ordinal | load_parquet_to_sqlserver.py:125-130 | The position of a kept column in `cols`. |
| Loader.Names | load_parquet_to_sqlserver.py:125-130 | The frame names of a list of kept columns, position by position. |
| Loader.NameInjective | load_parquet_to_sqlserver.py:125-130 | No two kept columns share a name. |
| Loader.SourceIsNew | load_parquet_to_sqlserver.py:182 | `source_file` is not a kept column, so assigning it appends a new column. |
| Loader.NamesDistinct | load_parquet_to_sqlserver.py:125-130 | Distinct kept columns have distinct names. |
| Loader.NamesMembers | load_parquet_to_sqlserver.py:125-130 | A kept column's name is listed iff the column is, and `source_file` is never listed. |
| Loader.Without | load_parquet_to_sqlserver.py:164-168 | The filtered list holds exactly the columns not dropped, and keeps them distinct. |
| Loader.InsertMatchesPrep | load_parquet_to_sqlserver.py:227-235 | The `INSERT` names the kept columns in order and then `source_file`, with 21 parameter markers. |
| Loader.ColumnsInOrder | load_parquet_to_sqlserver.py:125-130 | `cols` lists the kept columns in the order of their names. |
| Loader.TableMatchesInsert | load_parquet_to_sqlserver.py:82-103 | The table is created with exactly the inserted columns, in order. Each kept column gets the type its conversion produces, and `source_file` is `VARCHAR(260)`. |
| Loader.TableNames | load_parquet_to_sqlserver.py:82-103 | The created columns are the inserted columns, in order. |
| Loader.TableTypes | load_parquet_to_sqlserver.py:82-103 | Each created kept column has the type of its conversion. |
| Loader.ColumnsDistinct | load_parquet_to_sqlserver.py:125-130 | Every kept column is listed, once. |
| Loader.ToDatetime | load_parquet_to_sqlserver.py:150-151 | `to_datetime(errors="coerce")` yields a timestamp or `NaT`. |
| Loader.NumberOf | load_parquet_to_sqlserver.py:158-170 | Defines the number `to_numeric` reads from a cell: none for a missing value, the value for an integer or float, the parser's reading otherwise. |
| Loader.IntegerColumn | load_parquet_to_sqlserver.py:169-170 | Defines an int64 column: every cell a numpy integer. |
| Loader.DatetimeColumn | load_parquet_to_sqlserver.py:150-151 | Defines `to_datetime(errors="coerce")` of a column, cell by cell. |
| Loader.StringColumn | load_parquet_to_sqlserver.py:176 | Defines `astype("string")` of a column, cell by cell. |
| Loader.ToNumeric | load_parquet_to_sqlserver.py:170 | In a column that is not all integers, `to_numeric(errors="coerce")` makes each cell a number or `NaN`. |
| Loader.NumericColumn | load_parquet_to_sqlserver.py:169-170 | `to_numeric` returns an int64 column unchanged. Any other column becomes numbers or `NaN` cell by cell, keeping its length. |
| Loader.ToInt64 | load_parquet_to_sqlserver.py:158 | The `Int64` cast of a cell yields an integer, `pd.NA`, or the cell itself, or raises. |
| Loader.AsString | load_parquet_to_sqlserver.py:176 | `astype("string")` yields a string or `pd.NA`. |
| Loader.CastColumn | load_parquet_to_sqlserver.py:158 | The column cast raises iff some cell's cast raises, and otherwise casts cell by cell. |
| Loader.Convert | load_parquet_to_sqlserver.py:150-176 | A column's conversion keeps its length. |
| Loader.Input | load_parquet_to_sqlserver.py:137-143 | The cells a kept column starts from, one per row. |
| Loader.CastFailure | load_parquet_to_sqlserver.py:157-158 | The integer column whose cast raises first, if any; none iff every integer column converts. |
| Loader.Conversion | load_parquet_to_sqlserver.py:150-176 | A converted column keeps its length. |
| Loader.Stage | load_parquet_to_sqlserver.py:143-176 | The frame part-way through `prep_df` has the kept columns in order and keeps the row count. |
| Loader.StageWellFormed | load_parquet_to_sqlserver.py:143-176 | That frame is well formed, and each name finds its own column. |
| Loader.ConvertCells | load_parquet_to_sqlserver.py:150-176 | A column's conversion is done cell by cell; a float column that holds only integers keeps them. |
| Loader.ConvertCell | load_parquet_to_sqlserver.py:150-176 | Defines what one cell of a column becomes when the conversion does not raise, for each kind of column; `ConvertCells`, `PrepCells` and `ConvertedCellFits` state its properties. |
| Loader.PrepSchema | load_parquet_to_sqlserver.py:109-184 | After `prep_df` the frame has the 20 kept columns in order, then `source_file`, and as many rows as before. |
| Loader.PrepSourceFile | load_parquet_to_sqlserver.py:182 | Every row of the result names the file it came from. |
| Loader.PrepCells | load_parquet_to_sqlserver.py:137-176 | Each cell of a kept column is the conversion of the file's cell, or of `None` when the file lacks the column. |
| Loader.PrepKeepsIntegerFloatColumn | load_parquet_to_sqlserver.py:169-170 | A float column whose cells are all integers reaches the prepared frame unchanged, integers included. |
| Loader.PrepColumn | load_parquet_to_sqlserver.py:137-176 | Each kept column of the result is the conversion of what the file held. |
| Loader.NormalisedColumn | load_parquet_to_sqlserver.py:150-182 | In the normalised frame a converted column holds its conversion. |
| Loader.OnlyIntCastsRaise | load_parquet_to_sqlserver.py:150-176 | When no integer cast raises, every kept column converts. |
| Loader.PrepAbsentIsNull | load_parquet_to_sqlserver.py:137-139 | A column the file lacks is null in every row of the result. |
| Loader.NullConvertsToNull | load_parquet_to_sqlserver.py:150-176 | Every conversion maps a missing value to a missing value. |
| Loader.PrepFailsOnlyOnFraction | load_parquet_to_sqlserver.py:157-158 | `prep_df` raises iff some integer column holds a number with a fractional part. |
| Loader.StageStep | load_parquet_to_sqlserver.py:150-176 | Converting one more column moves the frame to the next stage. |
| Loader.StageInput | load_parquet_to_sqlserver.py:143 | A column not yet converted holds the cells it started from. |
| Loader.SelectIsFirstStage | load_parquet_to_sqlserver.py:137-143 | `df[cols]` of the frame with its missing columns added is the first stage. |
| Loader.AddedColumnIsInput | load_parquet_to_sqlserver.py:137-139 | A kept column of the frame with its missing columns added is that column's input. |
| Loader.FixedKinds | load_parquet_to_sqlserver.py:150-176 | The two date columns, the three integer columns and the flag are distinct kept columns of their kind. |
| Loader.FloatKinds | load_parquet_to_sqlserver.py:164-168 | `float_cols` are the kept columns of no other kind, each once. |
| Loader.KindsCoverColumns | load_parquet_to_sqlserver.py:150-176 | Every kept column is converted by one of the steps. |
| Loader.ColumnsShape | load_parquet_to_sqlserver.py:125-176 | The loader's own schema has the shape the steps expect. |
| Loader.AddMissingColumns | load_parquet_to_sqlserver.py:137-139 | The loop changes the caller's frame as `AddMissing` says. |
| Loader.CastIntColumns | load_parquet_to_sqlserver.py:157-158 | The integer loop raises on the first column `CastFailure` names; otherwise it moves the frame to the stage with those columns converted. |
| Loader.PrefixSet | load_parquet_to_sqlserver.py:157 | The columns handled after one more turn of the loop. |
| Loader.CastFailureStep | load_parquet_to_sqlserver.py:157-158 | One turn of the search for the first integer column whose cast raises. |
| Loader.ConvertFloatColumns | load_parquet_to_sqlserver.py:169-170 | The float loop moves the frame to the stage with those columns converted. |
| Loader.SelectColumns | load_parquet_to_sqlserver.py:137-143 | The caller's frame gains the missing columns, and the selected copy is the first stage. |
| Loader.ParseDates | load_parquet_to_sqlserver.py:150-151 | Both date columns are converted. |
| Loader.ParseDate | load_parquet_to_sqlserver.py:150 | One date column is converted. |
| Loader.FlagAndSource | load_parquet_to_sqlserver.py:176-182 | The flag becomes a string and every row names its file. |
| Loader.Normalise | load_parquet_to_sqlserver.py:137-184 | The steps of `prep_df`, for any schema of that shape: they raise iff an integer cast raises, naming the first such column, and otherwise yield the normalised frame. The caller's frame gains the missing columns. |
| Loader.PrepDf | load_parquet_to_sqlserver.py:109-184 | `prep_df` yields the frame `PrepSpec` gives, or fails with the column it names. The caller's frame gains the missing columns. |
| Loader.PrepSpec | load_parquet_to_sqlserver.py:157-158 | `prep_df` can only fail on an integer column, and then that column's cast raises. |
| SqlLoad.ToPy | load_parquet_to_sqlserver.py:196-210 | `to_py` gives `None` exactly for the missing values. |
| SqlLoad.ToPyKeepsValues | load_parquet_to_sqlserver.py:196-210 | Two cells give the same driver value iff they are equal, both missing, or timestamps within the same microsecond. |
| SqlLoad.ToPyDropsNanoseconds | load_parquet_to_sqlserver.py:204-205 | `to_pydatetime` rounds down to the microsecond, before the epoch too. |
| SqlLoad.ConvertedCellFits | load_parquet_to_sqlserver.py:82-103 | Whatever a column's conversion produces suits the SQL type of that column. An integer kept in a float column goes to a `FLOAT` column, which takes integers. |
| SqlLoad.Rows | load_parquet_to_sqlserver.py:239 | One row per frame row, each with one value per column: `to_py` of the cell. |
| SqlLoad.PreparedColumnFits | load_parquet_to_sqlserver.py:82-103 | Each kept column of a prepared frame holds values of that column's SQL type. |
| SqlLoad.PreparedValuesFit | load_parquet_to_sqlserver.py:82-103 | Value `j` of a prepared row suits the type of kept column `j`. |
| SqlLoad.PreparedRowSource | load_parquet_to_sqlserver.py:182 | The last value of a prepared row is the name of its file. |
| SqlLoad.PreparedRow | load_parquet_to_sqlserver.py:227-239 | A prepared row has one value per table column, in the table's order, each of the column's type, ending with the name of its file. |
| SqlLoad.ColumnAtIndex | load_parquet_to_sqlserver.py:239 | The column named at position `j` is column `j`. |
| SqlLoad.BatchesFlatten | load_parquet_to_sqlserver.py:242-243 | The batches, one after the other, are the rows. |
| SqlLoad.BatchesCount | load_parquet_to_sqlserver.py:242-243 | There are `ceil(len(rows) / n)` batches. |
| SqlLoad.BatchesBounds | load_parquet_to_sqlserver.py:242-243 | The batches hold the rows with fewer than `n` to spare, and there are none iff there are no rows. |
| SqlLoad.BatchesSizes | load_parquet_to_sqlserver.py:242-243 | Every batch holds 1 to `n` rows, and all but the last exactly `n`. |
| SqlLoad.Batches | load_parquet_to_sqlserver.py:242-243 | There are no batches iff there are no rows, and never more batches than rows. |
| SqlLoad.RunCompletes | load_parquet_to_sqlserver.py:242-243 | The insert completes iff there are no rows or the table exists and accepts every row. |
| SqlLoad.RunSendsBatches | load_parquet_to_sqlserver.py:242-243 | The batches sent are a prefix of the batches; a completed insert sent all of them and inserted every row. |
| SqlLoad.RunStopsAtRefusal | load_parquet_to_sqlserver.py:242-243 | A failed insert was refused on the last batch it sent, and the transaction holds exactly the batches before it. |
| SqlLoad.RunStep | load_parquet_to_sqlserver.py:242-243 | One turn of the batch loop: the batch, then the rest unless it was refused. |
| SqlLoad.Run | load_parquet_to_sqlserver.py:242-243 | The batch loop ends without error or on a refusal. Without error it inserted every row; after a refusal it inserted fewer rows than it was given. |
| SqlLoad.Database.constructor | load_parquet_to_sqlserver.py:51-65 | A connection with `autocommit = False` starts with no open transaction and no calls. |
| SqlLoad.Database.EnsureTable | load_parquet_to_sqlserver.py:68-106 | Afterwards the table exists; an existing table keeps its rows. |
| SqlLoad.Database.ExecuteMany | load_parquet_to_sqlserver.py:243 | `executemany` inserts the whole batch into the transaction iff the table exists and accepts every row, and otherwise inserts none of it. |
| SqlLoad.Database.Commit | load_parquet_to_sqlserver.py:280 | `commit` moves the transaction's rows to the committed rows. |
| SqlLoad.InsertRows | load_parquet_to_sqlserver.py:242-243 | The batch loop sends and inserts what `Run` gives and commits nothing. |
| SqlLoad.InsertDf | load_parquet_to_sqlserver.py:213-243 | `insert_df` sends and inserts what `InsertSpec` gives over the frame's rows: a zero batch size raises, a negative one sends nothing. |
| SqlLoad.InsertSpec | load_parquet_to_sqlserver.py:213-243 | `insert_df` raises on the zero step, and only on it. A negative batch size sends nothing and raises nothing. A positive one that raises nothing inserts every row. |
| SqlLoad.FileRuns | load_parquet_to_sqlserver.py:267-280 | What one file does, as a function of its name. |
| SqlLoad.Completed | load_parquet_to_sqlserver.py:267-280 | The number of leading files that load without failure; the next one, if any, fails. |
| SqlLoad.LoadFilesStep | load_parquet_to_sqlserver.py:267-280 | One turn of `main`'s loop: the file, then the rest unless it failed. |
| SqlLoad.LoadCommitsWholeFiles | load_parquet_to_sqlserver.py:267-280 | The committed rows are exactly those of the files before the first failure, each file whole. The failing file's inserted rows stay uncommitted, and a run without failure leaves nothing pending. |
| SqlLoad.LoadedFileRows | load_parquet_to_sqlserver.py:271-277 | A file that loads inserts every row of its prepared frame. |
| SqlLoad.ReadAndPrepare | load_parquet_to_sqlserver.py:271-274 | Reading and preparing a file yields a new frame holding `PrepareFile`'s table, or its failure. |
| SqlLoad.PrepareFile | load_parquet_to_sqlserver.py:271-274 | Defines `read_parquet` then `prep_df`: the prepared frame, or `Unreadable` or `CastRaised` naming the file; `ReadAndPrepare` and `LoadedFileRows` state its properties. |
| SqlLoad.LoadOne | load_parquet_to_sqlserver.py:267-277 | One file's read, preparation and insert change the transaction as `LoadFile` says. |
| SqlLoad.LoadFile | load_parquet_to_sqlserver.py:267-277 | An unreadable file sends nothing and fails naming itself. Any failure names the file. A file that loads inserts every row of its prepared frame. |
| SqlLoad.LoadFiles | load_parquet_to_sqlserver.py:267-280 | A run without failure leaves nothing pending, every file having loaded. A failure is the failure of one of the files. |
| SqlLoad.LoadDirectory | load_parquet_to_sqlserver.py:246-288 | `main` makes the table exist and commits. With no `.parquet` file it raises and sends nothing. Otherwise it commits what `LoadFiles` commits over the sorted listing, leaves its pending rows, and reports the number of files or the first failure. |

## Left out

- Reading files, `splitlines`, `read_parquet`, `print`, `tqdm` progress bars, `logging`, timestamps in log lines, `datetime.now()`: I/O and clocks. The configuration file is given as its lines, a Parquet file as the table `read` yields (or `None` when the read raises), and the log as a list of entries without timestamps.
- The network: `requests.get` is an oracle that gives, for each URL, complete chunks, an error before the file is opened, or a break after some chunks. Timeouts, `raise_for_status()` and an unreadable `content-length` are all the second case.
- `escribir_log` and the directory creation in the downloaders are assumed not to raise, and `open(..., "wb")` is assumed to succeed. Disk errors are not modelled.
- The `__main__` blocks, `parse_args` and the default Windows paths of the archiver: command-line plumbing. `archive_parquets` is modelled for any source, backup and dry-run flag.
- `Path.resolve()`: the archiver's paths are taken as already resolved, given by their parts.
- The archiver's dry-run log lines are not modelled; only the count and the unchanged directories are.
- Which moves fail is given as a set of stuck files. The reasons (permissions, locks, cross-device errors) are not modelled, and neither is a failure part-way through a move.
- The connection itself (`pyodbc.connect`, credentials, `fast_executemany`, `cur.close()`, `conn.close()`) is not modelled. The database is the existence of the table, its committed rows, the open transaction's rows and the calls made. Whether the server accepts a row is a given predicate.
- What happens to the rows pending at a failure is left as it stands: the model ends with them uncommitted. The rollback the server applies when the process ends is outside the scripts. `SqlLoad.Database.ExecuteMany` inserts a refused batch wholly or not at all, while `fast_executemany` may already have placed the rows before the refused one in the transaction; no committed row depends on this, because the run then ends uncommitted.
- pandas' parsing of strings to timestamps and numbers, and `str()` of a value, are given as functions (`Loader.Parsers`). Numbers are reals: float rounding, infinities and 64-bit range are not modelled, and `NaN` only appears as a missing value.
- SqlLoad.PreparedRow: a string suits any `VARCHAR` column. The widths 5 and 260 are not checked, so a longer flag or file name is left to the server's `accepts` predicate.
- Loader.PrepFailsOnlyOnFraction: a whole number outside the 64-bit range, which the `Int64` cast also refuses, is treated as castable.
- SqlLoad.LoadDirectory: `pd.read_parquet` is assumed to yield a well-formed frame (`ReaderSound`): equal-height columns and no repeated name.
- SqlLoad.ToPy: `isinstance(x, pd.StringDtype)` never holds for a cell value, so strings pass through unchanged. A value of any other type (`Raw`) is passed as it is.
- Loader.NumericColumn, Loader.ToNumeric: only a column whose cells are all numpy integers keeps its integers. pandas also keeps a column read with the nullable `Int64` dtype as integers, and gives int64 for a column of strings that all parse as integers; the model gives floats for both.
- SqlLoad.ToPy: timestamps are nanosecond counts and `to_pydatetime` keeps whole microseconds. The precision of `DATETIME2` on the server is not modelled.
- Acquirer.OutPath: local paths are compared as exact strings. `pathlib`'s normalisation (a repeated or trailing `/`, `.` parts, `\` as a separator on Windows) is not modelled, so `PeriodDeterminesOutPath` is stated only for periods without `/`.
- Ordering.ParquetListing: the listing is case-sensitive and in code-point order. On Windows `glob` also matches `.PARQUET` and `sorted` compares paths case-insensitively. Directories whose names end in `.parquet` are not listed.
- Archiver.ParquetFiles: case-sensitive for the same reason as `Ordering.ParquetListing`, and it lists files only, not directories named `*.parquet`.
- Archiver.SafeMoveSpec: a name counts as taken only when a file of the backup has exactly that name. A subdirectory of that name, or a name differing only in case on Windows, is not seen by the model's `exists`.
- Archiver.MakeDir: `mkdir(parents=True)` also creates missing parent directories, and it raises when a regular file stands in the way. Neither is modelled; only the backup directory itself is added.
- The training, validation, plotting and database-test scripts of the repository are not part of this model.

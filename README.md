# Backup sweep to object storage — a Dafny model

`backup_to_s3.py` is a 20-line batch script. It stamps the run with today's
date in `YYYY-MM-DD` form and lists the local directory `/backup/`. It uploads
every file whose name contains the stamp to the bucket `BUCKET` under the key
`KEY_FOLDER + name`. Then it removes every listed file that was not selected.

This project models that sweep decision and proves what it guarantees:

- `wrappers.dfy` (module `Wrappers`): the `Option` type the parsers return.
- `date_stamp.dfy` (module `DateStamp`): the `%Y-%m-%d` formatter (line 10).
  It is proved, in both directions, against a parser for the `full-date`
  production of section 5.6 of RFC 3339, restricted to years 1000 to 9999.
- `selection.dfy` (module `Selection`): Python's substring test `DATE in files`.
  It also holds the comprehension `FILES_TO_MOVE` (line 12) and its lemmas:
  sound, complete, order-preserving and repeat-free.
- `sweep.dfy` (module `Sweep`): the constants, path and key construction, and
  the specification function `RunEffect`. It also holds the class `Host`. Its
  fields are the directory contents and the upload log. Its methods
  `UploadAll` and `DeleteUnselected` hold the loops of lines 15-16 and 18-20.
  Its method `Run` runs them in turn and is proved to implement `RunEffect`.
- `sweep_properties.dfy` (module `SweepProperties`): what a run guarantees.
  Completed runs partition the listing into uploaded and deleted names. An
  aborted run deletes nothing. An empty listing does nothing. A second run on
  the same day after a completed one deletes nothing. A worked example (three files, run on
  2024-01-01) is proved as `RunScenario`.

Inputs that the script reads from its environment are parameters here:

- the date that `date.today()` returns;
- the listing that `os.listdir("/backup/")` returns;
- the set `rejected` of names for which `upload_file` raises.

An exception from `upload_file` at line 16 is not caught, so it ends the
script before line 18. The model's run therefore ends with `Aborted(name)` at
the first rejected upload, and the delete loop never starts after a failed
upload.

## Model

| member | source | states |
|---|---|---|
| `DateStamp.FormatDate` | backup_to_s3.py:10 | the stamp is 10 characters, with `-` at indices 4 and 7 and decimal digits everywhere else |
| `DateStamp.ParseFullDate` | backup_to_s3.py:10 | a string accepted as an RFC 3339 `full-date` with a year from 1000 to 9999 denotes a valid calendar date |
| `DateStamp.Pad2RoundTrip` | backup_to_s3.py:10 | `%m`/`%d` zero-pad to two digits that read back as the same number |
| `DateStamp.Pad4RoundTrip` | backup_to_s3.py:10 | `%Y` gives four digits that read back as the year |
| `DateStamp.ParseFormat` | backup_to_s3.py:10 | parsing the stamp of a valid date gives that date back |
| `DateStamp.FormatParse` | backup_to_s3.py:10 | every well-formed `full-date` string is exactly the stamp of the date it denotes |
| `DateStamp.FormatInjective` | backup_to_s3.py:10 | different days have different stamps |
| `Selection.Contains` | backup_to_s3.py:12 | `DATE in name`: a match needs a name at least as long as the stamp, and the empty string is in every name |
| `Selection.ContainsIff` | backup_to_s3.py:12 | `DATE in name` holds if and only if the stamp occurs as a contiguous block at some index of the name |
| `Selection.ContainsInfix` | backup_to_s3.py:12 | a name with the stamp at any position, not only as a suffix, matches |
| `Selection.ShorterNeverContains` | backup_to_s3.py:12 | a name shorter than the stamp never matches |
| `Selection.Select` | backup_to_s3.py:12 | every selected name is in the listing and contains the stamp, and the selection is no longer than the listing |
| `Selection.SelectComplete` | backup_to_s3.py:12 | every listed name containing the stamp is selected |
| `Selection.SelectMembership` | backup_to_s3.py:12 | for a listed name, `name in FILES_TO_MOVE` if and only if it contains the stamp |
| `Selection.SelectAppend` | backup_to_s3.py:12 | selection preserves listing order: selecting from a concatenation concatenates the selections |
| `Selection.SelectDistinct` | backup_to_s3.py:12 | a listing without repeats gives a selection without repeats |
| `Selection.SelectAllMatching` | backup_to_s3.py:12 | a listing whose every name contains the stamp is selected whole |
| `Sweep.SourcePath` | backup_to_s3.py:16 | the local path is `/backup/` followed by the name |
| `Sweep.ObjectKey` | backup_to_s3.py:16 | the object key is `KEY_FOLDER` followed by the name |
| `Sweep.NameOfKey` | backup_to_s3.py:16 | a key read back as a file name is exactly `KEY_FOLDER` longer than that name |
| `Sweep.KeyRoundTrip` | backup_to_s3.py:16 | the object key `KEY_FOLDER + name` reads back as `name` |
| `Sweep.NameRoundTrip` | backup_to_s3.py:16 | every key that reads back as a name is `KEY_FOLDER` followed by that name |
| `Sweep.UploadOf` | backup_to_s3.py:16 | the call uploads `/backup/` followed by the name to `BUCKET`, under a key that reads back as the name |
| `Sweep.UploadOfInjective` | backup_to_s3.py:16 | two different files never produce the same upload call |
| `Sweep.UploadsFor` | backup_to_s3.py:15-16 | one upload per selected name, in selection order, with source `/backup/`+name, bucket `BUCKET` and key `KEY_FOLDER`+name |
| `Sweep.UploadedFor` | backup_to_s3.py:15-16 | a file is uploaded by the loop if and only if it is in the sequence looped over |
| `Sweep.FirstRejected` | backup_to_s3.py:15-16 | the index of the first selected name whose upload raises: every earlier name's upload succeeded |
| `Sweep.Doomed` | backup_to_s3.py:18-19 | the names the delete loop removes are listed names; no selected name is among them; every listed name outside the selection is |
| `Sweep.RunEffect` | backup_to_s3.py:10-20 | a run only removes local files and only appends to the upload log, adding at most one upload per listed name; an aborted run removes nothing |
| `Sweep.Host.constructor` | backup_to_s3.py:11 | the directory holds the given entries and nothing has been uploaded |
| `Sweep.Host.UploadAll` | backup_to_s3.py:15-16 | the directory is unchanged; the log gains one upload per selected name, in order, up to but not including the first one that raises, and the outcome names that file, or `Completed` when none raises |
| `Sweep.Host.DeleteUnselected` | backup_to_s3.py:18-20 | exactly the listed names that are not in the selection are removed, every removal finds its file, and the upload log is unchanged |
| `Sweep.Host.Run` | backup_to_s3.py:10-20 | after the two loops, the outcome, directory and upload log are exactly those of `RunEffect` on the old state |
| `SweepProperties.RunDeletes` | backup_to_s3.py:18-20 | a completed run removes exactly the listed names without the stamp, whichever uploads were attempted |
| `SweepProperties.RunCompletedPartition` | backup_to_s3.py:12-20 | after a completed run, a listed name is on disk if and only if it contains the stamp, and it was uploaded if and only if it contains the stamp; unlisted names are untouched |
| `SweepProperties.RunNeverUploadsAndDeletes` | backup_to_s3.py:12-20 | whatever the outcome, no file that the run uploaded has been deleted |
| `SweepProperties.RunAbortKeepsEverything` | backup_to_s3.py:15-20 | an upload that raises leaves the directory unchanged; the failing name is a selected, rejected name; every upload made is of a selected name that did not raise |
| `SweepProperties.RunEmptyListing` | backup_to_s3.py:11-20 | an empty listing gives a completed run with no uploads and no deletions |
| `SweepProperties.RunTwiceSameDayKeeps` | backup_to_s3.py:10-20 | after a completed run, a second run on the same day over the remaining files selects all of them and deletes nothing, whichever uploads raise in either run |
| `SweepProperties.RunTwiceSameDay` | backup_to_s3.py:10-20 | when no upload raises in either run, the second run also completes and uploads every remaining file again |
| `SweepProperties.ScenarioStamp` | backup_to_s3.py:10 | 1 January 2024 is stamped `2024-01-01` |
| `SweepProperties.ScenarioSelect` | backup_to_s3.py:12 | of `a-2024-01-01.tar`, `b-2024-01-01.tar` and `old.tar`, the first two are selected, in order |
| `SweepProperties.RunScenario` | backup_to_s3.py:10-20 | on 2024-01-01 those two are uploaded and kept, and `old.tar` is removed |

## Left out

- Creating the `boto3` resource, credentials, the network transfer and the remote overwrite semantics (lines 14 and 16) are a foreign SDK. An upload is an entry in the log. A failing upload is a name in `rejected` that aborts the run.
- Real filesystem behaviour of `os.listdir` and `os.remove` (lines 11 and 20) is not modelled. This includes permission errors and directory entries that `os.remove` refuses. The listing is an input: distinct names, all in the directory (`ListedFrom`). Under that input `os.remove` always finds its file, and the model proves this.
- `date.today()` and the system clock (line 6): the date is a parameter.
- `DateStamp.FormatDate`: years below 1000 or above 9999 are excluded, because `strftime("%Y")` pads them differently on different platforms.
- Concurrent or overlapping runs and external scheduling: the script has no mechanism for them.
- The order of `os.listdir` is whatever the input sequence says. The model proves that this order is kept, not what it is.

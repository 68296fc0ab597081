# AGM age join: a Dafny model

This project models the record-shaping core of `audcog_agm_agehistogram.py`.
The script reads the parsed `audcog_data.json` document and does four things:

- It flattens every participant's AWM (auditory working memory) sessions into
  one record per session, and lists the participants it skips.
- It keeps the records whose participant id matches the AGM cohort pattern
  `^AGM\d{4,6}$`.
- It re-walks the participants whose id starts with `AGM`. For each one it takes
  the age and demographics of the first `misc` entry whose age converts with
  Python's `int()`, and attaches them to each of that participant's AWM sessions.
- It gates each stage on the previous one being non-empty, and a generic
  exception handler ends the run when anything raises.

The model is pure functions over an immutable JSON datatype:

- `JsonValues`: JSON values. Objects are ordered member lists, so "first entry"
  keeps its meaning. Python's dict lookup, `d.get(k, default)`, `d[k] = v`,
  `d.update(u)` and `{**d, **u}` are modelled on these lists.
- `Text`: ASCII digit and whitespace classes, `startswith`, and substring `in`.
- `PyInt`: `int()` on a JSON value. It covers surrounding whitespace, an
  optional sign, digits, booleans and floats, with the three ways a conversion
  can end.
- `Records`: the record header, the overlay of a session's fields onto it, and
  the exceptions (`Fault`) that escape to the handler.
- `AgmFilter`: the cohort regex, as a greedy matcher with backtracking. It is
  proved equal to a plain description of the accepted shape. Also the
  record filter built on it.
- `Extraction`: the AWM extraction loop.
- `AgeJoin`: the age scan and the join loop.
- `Pipeline`: the run as a whole, ending in one `Outcome`.
- `Scenarios`: whole-run facts on small documents.

Two different tests select AGM participants, and the model keeps both. The
cohort pattern filters the extracted records, but that filter only decides
whether the join runs at all (line 85). The join itself selects participants by `startswith('AGM')`
(line 99). So `AGM12`, which the pattern rejects, is joined as soon as some
other record passes the filter (`Scenarios.RunJoinsPrefixOnly`).

## Model

| member | source | states |
|---|---|---|
| JsonValues.Get | audcog_agm_agehistogram.py:41-42 | a key lookup finds a value exactly when the key is present (`'awm' in d` then `d['awm']`) |
| JsonValues.GetAt | audcog_agm_agehistogram.py:111 | `d[k]` returns the value stored with key `k` at its position in the object |
| JsonValues.GetOr | audcog_agm_agehistogram.py:119-122 | `.get(key, 'unknown')` gives the stored value whenever the key is present, even a null, and the default only when the key is absent |
| JsonValues.Put | audcog_agm_agehistogram.py:138 | after `d[k] = v` the key reads `v` and every other key reads as before |
| JsonValues.PutKeys | audcog_agm_agehistogram.py:138 | `d[k] = v` keeps the column order: a present key keeps its place and an absent key is appended last |
| JsonValues.PutDistinct | audcog_agm_agehistogram.py:138 | `d[k] = v` never duplicates a column |
| JsonValues.Update | audcog_agm_agehistogram.py:49 | the overlay `{**d, **u}` and `d.update(u)` (line 138); its contract is stated by `JsonValues.UpdateGet`, `JsonValues.UpdateKeys` and `JsonValues.UpdateDistinct` |
| JsonValues.UpdateGet | audcog_agm_agehistogram.py:46-50 | in an overlay (`{**d, **u}` or `d.update(u)`), a key of the overlay reads the overlay's value and any other key reads through to the base |
| JsonValues.UpdateGetAbsent | audcog_agm_agehistogram.py:46-50 | a key the overlay does not hold reads through to the base, even when the overlay repeats other keys |
| JsonValues.UpdateKeys | audcog_agm_agehistogram.py:128-138 | an overlay keeps the base's columns first and in order, and its key set is the union of both key sets |
| JsonValues.UpdateDistinct | audcog_agm_agehistogram.py:128-138 | an overlay never duplicates a column |
| Records.SessionRows | audcog_agm_agehistogram.py:45-51 | session rows are produced iff every session is an object, with one row per session; otherwise the fault names the participant |
| Records.Header | audcog_agm_agehistogram.py:46-48 | the literal a record starts from, `participant_id` then `session_timestamp` then any further columns; `Records.SessionRowsAt` and `Extraction.ExtractedRecords` state what each extracted record holds |
| Records.SessionRowsAt | audcog_agm_agehistogram.py:45-51 | row `i` is session `i`'s fields laid over a header built from session `i`'s own timestamp |
| Records.SessionRowsFault | audcog_agm_agehistogram.py:45-49 | a failure is raised at the first session that is not an object, and names its timestamp |
| Records.RowField | audcog_agm_agehistogram.py:46-50 | a record column holds the session's value when the session has that field, and the header's value otherwise |
| PyInt.TrimStartRemovesSpaces | audcog_agm_agehistogram.py:114 | stripping the start removes only whitespace, and all of it: what remains is empty or starts with a non-space |
| PyInt.TrimEndRemovesSpaces | audcog_agm_agehistogram.py:114 | stripping the end removes only whitespace, and all of it: what remains is empty or ends with a non-space |
| PyInt.IntOfStringSound | audcog_agm_agehistogram.py:113-116 | every string `int()` accepts is whitespace, an optional sign, at most 4300 digits (`sys.int_max_str_digits`) and whitespace, and it converts to the value of that signed digit run |
| PyInt.IntOfStringComplete | audcog_agm_agehistogram.py:113-116 | every such whitespace-padded, optionally signed digit run converts to its value when it has at most 4300 digits, and raises the caught ValueError when it has more |
| PyInt.IntOfString | audcog_agm_agehistogram.py:114 | `int()` of a string; its contract is stated by `PyInt.IntOfStringSound` and `PyInt.IntOfStringComplete` |
| PyInt.ToInt | audcog_agm_agehistogram.py:113-116 | `int()` overflows (uncaught) exactly on an infinite float; null, lists and objects raise the caught TypeError |
| PyInt.IntOfStringExamples | audcog_agm_agehistogram.py:113-116 | `" 45\n"` gives 45 and `"-07"` gives -7; `"foo"`, `"4 5"` and `"+"` raise ValueError |
| AgmFilter.IsAgmParticipant | audcog_agm_agehistogram.py:74-77 | `is_agm_participant`; its contract is stated by `AgmFilter.AgmParticipantShape` |
| AgmFilter.DigitRun | audcog_agm_agehistogram.py:76 | the greedy `\d{4,6}` consumes only digits, at most the limit, and stops early only at a non-digit or the end |
| AgmFilter.BacktrackOverDigits | audcog_agm_agehistogram.py:76 | backtracking into a run of digits cannot make `$` match, so only the longest attempt counts |
| AgmFilter.AgmParticipantShape | audcog_agm_agehistogram.py:74-77 | `re.match(r'^AGM\d{4,6}$', id)` succeeds iff the id is `AGM` followed by 4 to 6 digits, optionally followed by a single final newline |
| AgmFilter.AgmParticipantExamples | audcog_agm_agehistogram.py:76-77 | `AGM1234`, `AGM123456` and `AGM1234\n` match; `AGM12`, `AGM1234567`, `AGM1234\n\n` and `agm1234` do not |
| AgmFilter.Selected | audcog_agm_agehistogram.py:80 | the row test applied by the filter; `Scenarios.RecordSelected` and `Pipeline.SelectedRecordOrigin` state what it selects |
| AgmFilter.FilterAgm | audcog_agm_agehistogram.py:80 | the filter keeps every record whose `participant_id` is a matching string, drops every other record, and never adds one |
| AgmFilter.FilterAgmAppend | audcog_agm_agehistogram.py:80 | filtering commutes with concatenation, so the kept records stay in their original order |
| AgmFilter.FilterAgmIdempotent | audcog_agm_agehistogram.py:80 | filtering an already filtered table changes nothing |
| Extraction.ExtractParticipant | audcog_agm_agehistogram.py:39-56 | a participant is skipped or produces records, never both; a non-object is skipped with its value; an object without `awm` is skipped as "no awm data"; an empty `awm` yields nothing |
| Extraction.Extract | audcog_agm_agehistogram.py:38-56 | the extraction loop; its contract is stated by `Extraction.ExtractSucceeds`, `Extraction.ExtractCounts`, `Extraction.ExtractAppend` and `Extraction.RecordOrigin` |
| Extraction.ExtractSucceeds | audcog_agm_agehistogram.py:38-56 | the loop raises iff some participant has an `awm` value that is not an object, or a session that is not an object |
| Extraction.ExtractCounts | audcog_agm_agehistogram.py:38-56 | a successful loop emits one record per AWM session of every participant and one skip entry per skipped participant |
| Extraction.ExtractAppend | audcog_agm_agehistogram.py:38-56 | the loop over a concatenation chains the two loops: records and skips stay in participant order, and the first fault wins |
| Extraction.ExtractedRecords | audcog_agm_agehistogram.py:45-51 | each field of a participant's record `i` is session `i`'s value for it; otherwise it is `participant_id` or `session_timestamp`; otherwise it is absent |
| Extraction.ParticipantRecords | audcog_agm_agehistogram.py:40-51 | a participant that yields records is an object whose `awm` object yields them, one per session |
| Extraction.RecordOrigin | audcog_agm_agehistogram.py:38-51 | every extracted record is one session's fields laid over its participant's id and that session's timestamp |
| AgeJoin.DemographicsOf | audcog_agm_agehistogram.py:119-122 | the four `.get(key, 'unknown')` reads; `JsonValues.GetOr` states them |
| AgeJoin.EntryAge | audcog_agm_agehistogram.py:110-116 | one `misc` entry's age as `int()` sees it; `AgeJoin.ScanAgeFound` and `AgeJoin.ScanAgeNotFound` state how the scan uses it |
| AgeJoin.DemographicColumns | audcog_agm_agehistogram.py:131-135 | the age and the four demographic columns that follow the header in a joined record; `AgeJoin.JoinedColumns` states what each column holds |
| AgeJoin.ScanAge | audcog_agm_agehistogram.py:109-123 | the entry at which the loop breaks is a position within `misc` |
| AgeJoin.ScanAgeFound | audcog_agm_agehistogram.py:109-123 | the age found comes from the first entry whose age converts, every earlier entry's age is rejected, and the demographics come from that same entry |
| AgeJoin.ScanAgeNotFound | audcog_agm_agehistogram.py:109-118 | nothing is found iff every entry lacks a convertible age |
| AgeJoin.ScanAgeOverflow | audcog_agm_agehistogram.py:113-116 | an overflow comes from the first entry whose age is not rejected, and names its timestamp |
| AgeJoin.ScanAgeIgnoresLater | audcog_agm_agehistogram.py:123 | after the age is found, changing or appending later `misc` entries does not change the result |
| AgeJoin.JoinParticipant | audcog_agm_agehistogram.py:99-101 | one pass of the join loop; its contract is stated by `AgeJoin.JoinParticipantOutcome` and `AgeJoin.JoinParticipantCount` |
| AgeJoin.JoinObject | audcog_agm_agehistogram.py:101-123 | the `misc` test and the age scan for an object participant; `AgeJoin.JoinParticipantFound` and `AgeJoin.JoinParticipantCount` state it |
| AgeJoin.JoinSessions | audcog_agm_agehistogram.py:126-139 | one record per AWM session; `AgeJoin.JoinedRecord` states it |
| AgeJoin.Join | audcog_agm_agehistogram.py:98-139 | the join loop; its contract is stated by `AgeJoin.JoinCount`, `AgeJoin.JoinAppend` and `AgeJoin.JoinAfterExtraction` |
| AgeJoin.JoinParticipantOutcome | audcog_agm_agehistogram.py:99-139 | ids without the `AGM` prefix contribute nothing; only object values yield records; a scalar value raises TypeError at the `in` test; every fault names the participant |
| AgeJoin.JoinParticipantCount | audcog_agm_agehistogram.py:99-139 | a participant contributes exactly one record per AWM session when all the join's conditions hold (prefix, object `misc`, a convertible age, object `awm`), and none otherwise |
| AgeJoin.JoinCount | audcog_agm_agehistogram.py:98-139 | a successful join emits the sum over participants of their qualifying session counts |
| AgeJoin.JoinAppend | audcog_agm_agehistogram.py:98-139 | the join over a concatenation chains the two joins, keeping participant order, and the first fault wins |
| AgeJoin.JoinedRecord | audcog_agm_agehistogram.py:126-139 | record `i` of a participant is session `i`'s fields laid over the header and the one snapshot found by the scan |
| AgeJoin.JoinParticipantFound | audcog_agm_agehistogram.py:124-139 | a prefixed participant with an object `misc` whose scan finds an age, and with an object `awm`, gets exactly the session rows built from that snapshot |
| AgeJoin.JoinedColumns | audcog_agm_agehistogram.py:128-138 | for each of the seven columns, the session's own field wins a clash; otherwise the column holds the id, the timestamp, the age or the demographic value |
| AgeJoin.JoinParticipantAfterExtraction | audcog_agm_agehistogram.py:99-139 | once a participant got through the extraction, the join fails on it only at the `misc` test or at an overflowing age |
| AgeJoin.JoinAfterExtraction | audcog_agm_agehistogram.py:98-139 | after a successful extraction, a failed join failed at the `misc` test or at an overflowing age |
| AgeJoin.JoinFailsOnScalar | audcog_agm_agehistogram.py:101 | a prefixed participant whose value is a number, a boolean or null makes the whole join fail, wherever it stands |
| Pipeline.Run | audcog_agm_agehistogram.py:17-37 | the driver up to the participants; the `Pipeline.Run…` lemmas state its outcomes |
| Pipeline.RunParticipants | audcog_agm_agehistogram.py:38-143 | extraction, the filter gate, the id preview, the join and its gate |
| Pipeline.HashableId | audcog_agm_agehistogram.py:233 | the ids pandas can hash for `.unique()`; `Pipeline.RunAbortsOnUnhashableId` states its use |
| Pipeline.RunJoined | audcog_agm_agehistogram.py:26-143 | a joined table exists only when the document has an `audcog-online` object, the extraction raised nothing, and some record passed the filter; it then holds one row per qualifying AWM session |
| Pipeline.RunNoAwmRecords | audcog_agm_agehistogram.py:61 | the run reports no AWM data only when no participant holds an AWM session |
| Pipeline.RunNoAgmParticipants | audcog_agm_agehistogram.py:80-85 | the run reports no AGM participants only when the extraction succeeded with records, none passes the filter, and every id can be previewed (lines 230-233) |
| Pipeline.RunAbortsOnUnhashableId | audcog_agm_agehistogram.py:230-233 | when no record passes the filter, a `participant_id` overwritten with a list or object makes the id preview raise, and the run aborts |
| Pipeline.SelectedRecordOrigin | audcog_agm_agehistogram.py:80-99 | every record kept by the filter comes from a participant the join selects by prefix, unless its session overwrote `participant_id` |
| Pipeline.RunReachesJoin | audcog_agm_agehistogram.py:26-143 | an extraction without fault, a record passing the filter, and a non-empty join together end the run with exactly the joined table |
| Pipeline.RunJoinFault | audcog_agm_agehistogram.py:242-245 | past the three gates, a fault of the join is the fault of the run |
| Pipeline.RunAbortsOnScalar | audcog_agm_agehistogram.py:242-245 | past the gates, a prefixed participant whose value is a bare number aborts the run |
| Pipeline.RunAwmFaultsComeFromExtraction | audcog_agm_agehistogram.py:45-49 | a run blamed on an `awm` block or a session was failed by the extraction, never by the join |
| Scenarios.RecordSelected | audcog_agm_agehistogram.py:80 | an extracted record whose session does not overwrite `participant_id` passes the filter iff its participant's id matches the pattern |
| Scenarios.FirstUsableAgeWins | audcog_agm_agehistogram.py:109-123 | an entry with age "foo" is passed over; the next entry's "45" and "f" go into both joined records, and the missing columns read "unknown" |
| Scenarios.RunFirstUsableAge | audcog_agm_agehistogram.py:26-143 | the whole run over that participant ends with the two joined records |
| Scenarios.RunJoinsPrefixOnly | audcog_agm_agehistogram.py:99 | `AGM12` fails the pattern but has the prefix, and reaches the joined table once another record passes the filter |
| Scenarios.RunAbortsOnBareNumber | audcog_agm_agehistogram.py:101 | a participant whose value is the number 3 is only skipped by the extraction, but the join's `'misc' in 3` raises and the run aborts with that fault |
| Scenarios.RunAbortsOnListId | audcog_agm_agehistogram.py:233 | a document whose only session sets `participant_id` to `[]` passes no record through the filter, and the id preview aborts the run |

## Left out

- Reading the file and `json.load` (lines 15-20, 240-241): the model starts from the parsed document. A missing file is not modelled.
- Printing (lines 22-33, 58-59, 65-68, 82-90, 141, 147-148 and the messages at 224-238): the model records which branch is taken (`Outcome`), not the text printed. The one preview that can raise, `.unique()` on line 233, is modelled (`Pipeline.RunAbortsOnUnhashableId`); the others print values without hashing them, or hash only ids that passed the filter (line 87).
- Each skip entry's message text (lines 53, 56): the model keeps the participant and the reason (`Skip`), not the formatted string.
- The age histogram, the statistics and the CSV export (lines 150-222): plotting, floating-point statistics and file output. The model stops at the joined table that feeds them, and at the gate on line 143. A fault raised there is not modelled: for example, `groupby('participant_id')` on line 220 raises when a session overwrote `participant_id` with a list or object, while the model ends with `Joined`.
- `push_to_github.py`: it is repository tooling and does not touch the data.
- PyInt.ToInt: does not model Unicode digits, Unicode whitespace, or `_` digit separators, which Python's `int()` also accepts. Only ASCII is modelled.
- AgmFilter.IsAgmParticipant: `\d` is modelled as ASCII `0`-`9`, while Python's `\d` on `str` also matches other Unicode decimal digits.
- JSON integers of more than 4300 digits make `json.load` itself raise (line 20). That is part of parsing, and `JInt` values are taken as parsed.
- PyInt.ToInt: a finite float is kept only as its truncation toward zero, because that is all `int()` observes of it.
- Duplicate keys in the JSON text: `json.load` keeps the last value under the first position. The model's objects stand for the parsed dicts, whose keys are distinct, and the overlay lemmas require distinct keys.
- Pandas' own behaviour when building a DataFrame from records (column alignment, missing values becoming NaN). The filter reads `participant_id` from the record directly.
- AgeJoin.JoinSessions: `record.update(awm_data)` also accepts a list of key-value pairs, but the model treats any session that is not an object as a fault. The extraction pass has already aborted on such a session (`{**session}` raises TypeError), so the join never meets one (`AgeJoin.JoinParticipantAfterExtraction`).

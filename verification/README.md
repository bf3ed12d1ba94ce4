# ECCC thunderstorm-outlook fetcher, modelled in Dafny

`fetch_outlooks.py` polls Environment and Climate Change Canada's file
server for thunderstorm-outlook bulletins. The server has no listing, so the
fetcher probes every filename the provider could have published for today:
3 publication times × 10 (storm prediction centre, sub-region) pairs × 4
forecast horizons × revisions 1 to 4, which makes 480 GETs. Each 200 answer
is counted as a success, classified into a horizon bucket (`day1` to
`day4`), keyed by date and outlook, and merged into an in-memory snapshot.
The merge keeps a revision only when it is strictly newer than the
outlook's `current_version`. Every other answer is counted as a failure.

This project models that core as pure functions over immutable data:

- `text.dfy` (`Text`): the Python string operations the fetcher relies on.
  These are `t in s`, `s[:n]`, `s.split(sep)`, `str(n)` and `int(s)`. It
  also defines `Join`, the inverse of `Split`. The fetcher never calls
  `join`; the proofs use it to read the f-string filenames of lines 72 and
  75 field by field (`Naming.RenderJoin`).
- `seqs.dfy` (`Seqs`): nested `for` loops that append, written as `FlatMap`.
  Lemmas give their length, positions, members and distinctness.
- `naming.dfy` (`Naming`): the filename grammar. It covers the candidate
  list (`_construct_filename_patterns`) and the four decoders applied to a
  filename: horizon bucket, date, outlook key and revision.
- `outlooks.dfy` (`Outlooks`): the snapshot, its entries and the versioned
  merge.
- `fetcher.dfy` (`Fetcher`): one loop iteration (`Process`), the loop as a
  fold (`Run`), and the imperative loop (`RunLoop`, `FetchOutlooks`). The
  fold and the loop are proved equal.
- `results.dfy` (`Results`): what a completed run leaves in the snapshot for
  any server behaviour. This includes the one-file scenario (1 success, 479
  failures, `day1` holding `{"v1": payload}`) and the kept-gap scenario
  (revisions 1 and 3 stored, no `v2`).

The network is a parameter: `server: string -> Outcome<P>` gives the outcome
of the GET for each filename. The outcome is `Ok(payload)`, `NotFound`,
`OtherStatus(status)` or `TransportError`. The payload type `P` is opaque.
The clock is a parameter too: `today` is the `YYYYMMDD` date and `now` is
the timestamp.

A Python exception that the loop does not catch is modelled as the
`Stopped(state, fault)` result. There are two such exceptions in decoding
the name:

- `IndexError` at line 109, raised when a name has fewer than five
  `_`-fields;
- `ValueError` at line 123, raised when the revision text is not a number.

Neither can happen for the generated names (`Fetcher.FetchRunCompletes`).
The model still keeps both paths, because the loop body does not catch
them. A third uncaught exception, from `response.json()` with an
older `requests`, is outside the model (see "## Left out").

Three behaviours of the code deserve a note:

- **Older revisions that arrive late.** A revision is stored only when it
  is a new strict maximum (lines 126-128), so a revision that arrives after
  a newer one is dropped (`Outlooks.OlderAfterNewerDropped`). The generator
  probes revisions in ascending order (line 74), so for the generated list
  every fetched revision is kept (`Outlooks.AscendingStoresAll`,
  `Results.FetchedEntry`).
- **Failures inside the loop body.** Only
  `requests.exceptions.RequestException` is caught (line 138), so an
  `IndexError` (line 109) or `ValueError` (line 123) raised while decoding a
  name ends the loop (`Fetcher.RunStops`). For the generated names neither
  is raised (`Fetcher.FetchRunCompletes`).
- **The doubled underscore in the key.** Date plus time is 14 characters,
  so the key's `pattern[:15]` keeps the `_` that follows the time. The
  outlook key is therefore `date + time + "__" + spc + "_" + province`
  (`Naming.KeyOf`, `Naming.OutlookKeyRender`). It still identifies the
  outlook uniquely (`Naming.KeyOfInjective`).

## Model

| member | source | states |
|---|---|---|
| Text.JoinSplit | fetch_outlooks.py:109 | joining the pieces of `s.split(sep)` with `sep` gives `s` back, so splitting on `_` loses no character |
| Text.ParseNatToString | fetch_outlooks.py:123 | `int(str(n)) == n` for every natural number `n` |
| Naming.CandidatesLength | fetch_outlooks.py:67-77 | the candidate list has `len(dates) * 480` names: 3 times × 10 region pairs × 4 horizons × 4 revisions per date |
| Naming.CandidateAt | fetch_outlooks.py:67-75 | the name at position `a*480 + b*160 + r*16 + e*4 + g` is `date[a] + time[b] + "_MSC_ThunderstormOutlook_" + spc + "_" + province + "_" + period[e] + "_v" + (g+1) + ".json"`, with date outermost and revision innermost and ascending |
| Naming.CandidatesMember | fetch_outlooks.py:52-75 | a string is generated exactly when it renders a date of the list, a time, a region pair and a horizon from the tables, and a revision in 1..4: no omissions and nothing extra |
| Naming.CandidatesDistinct | fetch_outlooks.py:67-75 | over distinct eight-digit dates, no name is generated twice |
| Naming.ConstructPatternsShape | fetch_outlooks.py:41-78 | the run probes 480 names for the current date, and none twice when the date has eight digits |
| Naming.TablesWellFormed | fetch_outlooks.py:52-65 | no time, centre or sub-region in the tables contains `_`, `v` or a horizon token, so every generated name can be decoded |
| Naming.RenderInjective | fetch_outlooks.py:72-75 | two well-formed parameter sets render to the same filename only when they are equal |
| Naming.HorizonTokens | fetch_outlooks.py:98-105 | a well-formed name contains a horizon token exactly when that token is its own horizon, so it contains exactly one of the four |
| Naming.OutlookKeyRender | fetch_outlooks.py:109 | the key read back from a generated name is `date + time + "__" + spc + "_" + province`, with the doubled underscore of the 15-character slice |
| Naming.ParseVersionRender | fetch_outlooks.py:123 | the text after the last `_v` and before the first `.` parses back to the revision the name was built with |
| Naming.DecodeRender | fetch_outlooks.py:98-123 | decoding a well-formed name gives back its date (`pattern[:8]`), its key, its revision and its horizon's bucket (12h to `day1`, 24h to `day2`, 36h to `day3`, 60h to `day4`) |
| Naming.KeyOfInjective | fetch_outlooks.py:109 | two well-formed names have the same key exactly when they agree on date, time, centre and sub-region |
| Outlooks.NewSnapshot | fetch_outlooks.py:18-23 | a new snapshot has four empty buckets and carries the start time and the metadata |
| Outlooks.Bump | fetch_outlooks.py:125-128 | a revision is stored under `v{n}` and becomes current exactly when it is strictly greater than `current_version`; otherwise the entry is unchanged; the current revision becomes the maximum; no other label changes |
| Outlooks.BumpIdempotent | fetch_outlooks.py:125-128 | offering the same revision and payload twice equals offering it once |
| Outlooks.LabelInjective | fetch_outlooks.py:128 | distinct revisions get distinct labels `v{n}` |
| Outlooks.BumpConsistent | fetch_outlooks.py:125-128 | the entry invariant is preserved: every stored label is that of a revision in 1..current, and the current revision is stored; no stored payload is overwritten |
| Outlooks.BumpAllCurrent | fetch_outlooks.py:125-127 | after any sequence of offers, in any order, the current revision is the maximum of the starting one and all offered revisions |
| Outlooks.BumpAllLabels | fetch_outlooks.py:125-128 | after any sequence of offers, the stored labels are the starting ones plus the labels of exactly those offers that were a new strict maximum when they arrived |
| Outlooks.AscendingStoresAll | fetch_outlooks.py:125-128 | when revisions arrive in increasing order, every one is stored under its own label with its own payload and nothing else is added, so gaps stay gaps |
| Outlooks.OlderAfterNewerDropped | fetch_outlooks.py:125-128 | revision 2 followed by revision 1 leaves current at 2 with only `v2` stored: the late, older revision is lost |
| Outlooks.Touch | fetch_outlooks.py:111-120 | a missing date map and entry are created as `{current_version: 0, outlooks: {}}`; an existing entry is kept; no other entry changes; the bucket's dates grow by at most `date` and that date's keys by at most `key`, and every other date's map is unchanged |
| Outlooks.Merge | fetch_outlooks.py:111-128 | the entry under the date and key becomes the existing (or fresh) entry offered the revision; every other entry of the bucket is unchanged; the bucket's dates grow by at most `date` and that date's keys by at most `key`, and every other date's map is unchanged |
| Outlooks.MergeIdempotent | fetch_outlooks.py:111-128 | merging the same (date, key, revision, payload) twice gives the same bucket as merging it once |
| Outlooks.Store | fetch_outlooks.py:111-128 | the snapshot-level merge changes only `outlooks_data[day][date][key]`: the bucket gains at most the date and the date's map at most the key; other buckets, other dates' maps, other keys, `last_updated` and `metadata` are untouched |
| Outlooks.StoreIdempotent | fetch_outlooks.py:111-128 | storing the same revision twice gives the same snapshot as storing it once |
| Outlooks.StoreValid | fetch_outlooks.py:111-128 | storing keeps every entry of the snapshot consistent |
| Outlooks.StoreExtends | fetch_outlooks.py:111-128 | on a consistent snapshot, storing removes no entry, lowers no current revision and replaces no stored payload |
| Fetcher.FromStatus | fetch_outlooks.py:93-136 | status 200 is a success carrying the body, 404 is a not-found, and every other status is an unexpected status |
| Fetcher.ProcessStatus | fetch_outlooks.py:93-136 | one iteration on a response with status `s` counts a success exactly when `s == 200`; for any other status it counts one failure and changes nothing else |
| Fetcher.Init | fetch_outlooks.py:17-39 | a new fetcher has both counters at zero and a consistent snapshot whose four buckets are empty dictionaries, stamped with the start time |
| Fetcher.Process | fetch_outlooks.py:87-141 | one iteration adds one to exactly one counter (`successful` iff the answer is 200); a non-200 answer changes nothing else; a 200 answer stops the loop exactly when the name does not decode (IndexError, snapshot untouched, when it has fewer than five fields); only the entry at the name's location can change: other buckets are unchanged, the name's bucket gains at most the name's date, and every other date's dictionary is unchanged; `last_updated` and `metadata` are kept |
| Fetcher.RunAppend | fetch_outlooks.py:87-141 | running two lists in sequence is running their concatenation, and after an uncaught exception no later name is probed |
| Fetcher.RunCounters | fetch_outlooks.py:87-140 | neither counter decreases; when the loop completes, `successful` is the number of 200 answers and `failed` the number of all other answers |
| Fetcher.RunStops | fetch_outlooks.py:108-123 | the loop stops early exactly when some name answered with 200 does not decode |
| Fetcher.RunStopsAt | fetch_outlooks.py:108-141 | a name answered with 200 that does not decode stops the loop, because line 138 catches only `RequestException` |
| Fetcher.RunRuns | fetch_outlooks.py:87-141 | when every name answered with 200 decodes, the loop runs to the end |
| Fetcher.RunValid | fetch_outlooks.py:87-141 | the loop keeps the snapshot consistent, only extends it, and never changes `last_updated` or `metadata` |
| Fetcher.GeneratedDecodable | fetch_outlooks.py:108-123 | every generated name has an outlook key and a revision that parses, so the loop body never raises on it |
| Fetcher.FetchRunCompletes | fetch_outlooks.py:80-141 | for an eight-digit date the run never stops early; it counts all 480 names, with the 200 answers as successes; the snapshot stays consistent |
| Fetcher.RunLoop | fetch_outlooks.py:87-141 | the imperative loop, which leaves on an uncaught exception, computes the fold `Run`; when it completes, the counters sum to the number of names |
| Fetcher.FetchOutlooks | fetch_outlooks.py:80-141 | `fetch_outlooks` is the run over the generated list; it probes 480 names and completes for an eight-digit date |
| Results.RunEntry | fetch_outlooks.py:87-128 | after a completed run, the entry at any location is its starting entry replayed through exactly the revisions the run offered to it, in arrival order |
| Results.OffersMember | fetch_outlooks.py:93-128 | a revision is offered to a location exactly when some name answered with 200 decodes to that location and revision |
| Results.ComboLocationInjective | fetch_outlooks.py:98-109 | distinct (time, region pair, horizon) combinations are stored under distinct (bucket, date, key) locations |
| Results.PatternAt | fetch_outlooks.py:67-123 | each generated name is one combination's name at revision `g + 1` and decodes to that combination's location and revision |
| Results.GeneratedAscending | fetch_outlooks.py:67-75 | the revisions the generated run offers to any one outlook arrive in strictly increasing order |
| Results.FetchedEntry | fetch_outlooks.py:80-141 | after the run, an outlook has an entry exactly when the server holds some revision of it; the entry then holds exactly those revisions with the payloads returned, and the highest is current |
| Results.FetchedNothingElse | fetch_outlooks.py:80-141 | after the run, every entry belongs to today's date and to one generated (time, region pair, horizon) combination |
| Results.SingleCounts | fetch_outlooks.py:87-141 | with a single generated name on the server, the run counts 1 success and 479 failures |
| Results.SingleEntry | fetch_outlooks.py:87-141 | with a single generated name on the server, its outlook's entry is exactly `{current_version: n, outlooks: {"v{n}": payload}}` |
| Results.SingleOnly | fetch_outlooks.py:87-141 | with a single generated name on the server, no other entry exists |
| Results.GapKept | fetch_outlooks.py:87-141 | with revisions 1 and 3 of an outlook on the server (2 and 4 absent), its entry is at revision 3 and holds exactly `v1` and `v3` |
| Results.OneFileRun | fetch_outlooks.py:80-141 | with only `20250615T1700Z_MSC_ThunderstormOutlook_OSPC_ON_PT012H00M_v1.json` on the server, the run counts 1 success and 479 failures, and `day1["20250615"]["20250615T1700Z__OSPC_ON"]` is `{current_version: 1, outlooks: {"v1": payload}}` |

## Left out

- `requests.get`, the base URL and the 10-second timeout (lines 88-91) are network I/O. They are replaced by the `server` parameter.
- `response.json()` (line 94) is not modelled; the payload is opaque. Whether a decode error there is caught depends on the installed `requests` version (from version 2.27 on it raises a subclass of `RequestException`, which line 138 catches; before that it raises a `ValueError` subclass that ends the loop).
- `datetime.utcnow()` (lines 23, 43, 44) is replaced by the `today` and `now` parameters. `strftime` is assumed to produce eight digits (`ValidDate`).
- Logging, including the progress message every 20 names (lines 9-12, 46, 77, 85, 90, 129, 132, 135, 139, 144-145), is side effects only.
- `save_data` and `main` (lines 147-165) are file I/O and serialisation through a library.
- The contents of the static `metadata` dictionary (lines 24-36) are constant data with no behaviour; the model carries the dictionary as a `Metadata` parameter whose contents no contract inspects.
- `Text.ParseNatToString`: the model's `int()` accepts non-empty ASCII digit strings only. Python's `int` also accepts a sign, surrounding whitespace, `_` separators and non-ASCII decimal digits (`int("٣") == 3`). None of these can occur in a generated name, so the narrower `int` changes nothing for the generated list.
- `Fetcher.Process` and `Fetcher.RunStops`: "stops exactly when a 200-answered name does not decode" is stated for the narrower `int`. For a name outside the generated list whose revision text Python's `int` accepts but the model does not (for example `a_b_c_d_e_v+1.json`), Python stores `v1` and carries on, while the model stops with `ValueError`.
- `Results.OneFileRun`: the concrete scenario states the counters and the one entry. That no other entry exists is proved for every single-file server by `Results.SingleOnly`; a concrete copy of that statement was left out because of its proof cost.

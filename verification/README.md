# WatchMe Vault: a Dafny model of the path-keyed artifact store

The WatchMe Vault service keeps every artifact of a recording device under
one base directory. The layout is `device_id/date/category/filename`:

- `raw/HH-MM.wav` holds raw audio.
- `transcriptions/`, `sed/` and `opensmile/` hold per-slot JSON.
- `prompt/`, `emotion-timeline/`, `sed-summary/` and `opensmile-summary/`
  each hold one fixed JSON file per device and date.

Clients use four groups of endpoints:

- Upload endpoints write the artifacts.
- Fetch endpoints read them back, under `/api/devices/...` and the legacy
  `/api/users/...` routes.
- Two generic endpoints, `/download-file` and `/view-file`, take a relative
  path.
- `/status` walks the tree, and one endpoint lists the OpenSMILE feature
  slots of a device and date.

This project models that core as pure functions over an abstract
filesystem and proves what the handlers promise about it. The model is
split into nine modules:

- `Outcomes`: the three HTTP failures (400, 404, 500) and `Result`/`Option`.
- `Store`: the filesystem. Files are a map from segment paths to bytes and
  directories an explicit set. It provides `os.makedirs(exist_ok=True)`, the
  overwriting write, the existence-checked read and the JSON read. JSON
  parsing is a parameter.
- `Text`: `str.split`, `str.join`, `str.endswith` and `str.replace(p, '')`.
- `Order`: Python's string order, `sorted` of a set of names and
  `list.sort()`.
- `Layout`: the one `device/date/category/filename` scheme that every
  handler rebuilds inline, and its inverse.
- `AudioPath`: the `X-File-Path` regex and the per-segment traversal guard
  of `/upload`.
- `Dates`: `datetime.strptime(s, "%Y-%m-%d")` and the stable newest-first
  sort `_sort_dates`.
- `Handlers`: the upload, download, view and fetch handlers.
- `Listing`: the recursive walk `_walk_dir_with_links`, the device/date loop
  of `status_all`, and the OpenSMILE slot listing with its legacy twin.

Several behaviours of the code are easy to miss:

- `re.match` with `$` also accepts a header ending in one newline. The file
  is then stored as `HH-MM.wav\n`, a name that `/download` can never build.
- The traversal guard can never reject anything the regex accepted.
- `/view-file` checks existence before the `.json` suffix. It tests the
  suffix on the query string, not on the file name.
- The transcription upload has no `.json` guard.
- The slot listing removes every `.json` occurrence, not just the suffix.
- The slot listing also counts directories whose names end in `.json`,
  because `os.listdir` returns those too.
- A missing features directory hides an existing summary.

## Model

| member | source | states |
|---|---|---|
| Outcomes.StatusCode | app.py:253-295 | Every failure is reported with a 4xx/5xx code: 400 exactly for a bad request, 404 exactly for a missing file and 500 exactly for a server error |
| Store.MakeDirs | app.py:103 | Succeeds exactly when no prefix of the directory is a file. Afterwards every prefix is a directory. No file changes, and only the directory's ancestors are added. A failure is always 500 |
| Store.MakeDirsIdempotent | app.py:103 | With `exist_ok=True`, creating the same directories a second time changes nothing |
| Store.Write | app.py:106-107 | Succeeds exactly when the path is not a directory and its parent is one. The path then holds exactly the data and nothing else changes. A failure is always 500 |
| Store.Put | app.py:99-107 | Makedirs plus write succeeds exactly when no proper prefix is a file and the path is not a directory. The path then holds the data, all its ancestors are directories, and only those ancestors are added. A failure of either step is 500 |
| Store.PutThenGet | app.py:99-107 | Reading back a stored file returns exactly the bytes written |
| Store.PutFrame | app.py:99-107 | A store leaves every other file's presence and content as they were |
| Store.PutOverwrites | app.py:105-107 | Last write wins: storing twice equals storing the second content once |
| Store.PutPreservesWf | app.py:99-107 | A successful store keeps the directory tree well formed |
| Store.FailedPutCreatesNothing | app.py:103 | On a well-formed tree, every directory makedirs reaches before failing already existed, so a failed store leaves the tree unchanged |
| Store.Get | app.py:158-161 | A read succeeds exactly for a file, with its content. It is 404 exactly when nothing exists at the path, and 500 exactly when something exists there that is not a file |
| Store.ReadJson | app.py:563-577 | A read is 404 exactly when nothing exists and 400 exactly for a file holding malformed JSON. It succeeds exactly for a file that parses, returning the parsed document, so a directory or undecodable bytes are 500 |
| Store.ReadJsonFrame | app.py:565-570 | A JSON read depends only on what is stored at the path it reads |
| Text.Split | app.py:91 | `str.split` gives at least one part, no part holds the separator, and joining the parts gives back the string |
| Text.SplitJoin | app.py:91 | Splitting undoes joining when no part holds the separator |
| Text.RemoveAll | app.py:801 | `replace(p, '')` never lengthens a string and leaves a string without `p` unchanged. When `p` occurs the result is shorter by at least the length of `p`, and the length lost is always a whole multiple of the length of `p` |
| Text.RemoveAllLeftmost | app.py:801 | `replace(p, '')` scans left to right: the text before the first occurrence of `p` is kept, that occurrence is dropped, and the scan resumes after it. With the unchanged result for a string without `p`, this fixes the result for every input, so every non-overlapping occurrence is removed |
| Order.SortSet | app.py:317 | `sorted` of a set of names lists exactly its members, each once |
| Order.SortSetAscending | app.py:317 | That listing is strictly ascending in Python's string order |
| Order.SortSetUnique | app.py:317 | It is the only strictly ascending listing of those members |
| Order.SortStrings | app.py:802 | `list.sort()` gives a permutation of its input in non-decreasing order |
| Layout.Resolve | app.py:137-139 | A canonical location lies four segments below the base, with the device first and the date second. Its file name ends in `.wav` for raw audio and `.json` for every other artifact |
| Layout.KeyOfResolve | app.py:137-139 | Reading a location back recovers the key that produced it |
| Layout.ResolveKeyOf | app.py:137-139 | Every location that reads back as a key is that key's location, so the two maps are inverse |
| Layout.ResolveInjective | app.py:518-546 | No two artifacts share a location. The two `result.json` files live in different category directories, and no slot collides with another |
| AudioPath.Validate | app.py:77-123 | A missing or empty header, a `PatternMatches` mismatch and a `TraversalSafe` failure are all 400. Otherwise the parts are the header's `/`-pieces and join back to the header |
| AudioPath.ValidateIffPattern | app.py:83-96 | A header is accepted exactly when the regex, modelled by `PatternMatches`, matches it |
| AudioPath.PatternImpliesTraversalSafe | app.py:83-96 | Every regex-accepted path passes the per-segment traversal check `TraversalSafe`, so that second guard never fires |
| AudioPath.SlashTestVacuous | app.py:91-92 | After splitting on `/`, no part starts with `/` |
| AudioPath.DotDotRejected | app.py:91-96 | A header with a `..` in any part is rejected with 400 |
| AudioPath.ComposeMatches | app.py:83-84 | Every well-formed device id, date token and slot token compose into a path the regex accepts |
| AudioPath.ShapeDecomposes | app.py:83-84 | Every path the pattern matches without the newline is such a composition of well-formed parts |
| AudioPath.Accepted | app.py:83-91 | An accepted header is a well-formed composed path plus, optionally, one final newline, and it splits into device, date, `raw` and `slot.wav` (with that newline) |
| AudioPath.ValidateParts | app.py:83-96 | The parts of an accepted header are a device id, a date token, `raw`, and the slot's `.wav` name, which keeps any final newline |
| AudioPath.SplitCompose | app.py:91 | A composed path splits into exactly its four parts |
| AudioPath.AcceptsExamples | app.py:83-84 | `dev1/2025-06-21/raw/08-00.wav` is accepted, and so is slot `99-99`, because there is no range check |
| AudioPath.AcceptsTrailingNewline | app.py:83-84 | `$` lets one final newline through |
| AudioPath.RejectsExamples | app.py:83-88 | An unpadded month, a slot without a dash and a `..` device are rejected |
| Dates.ParseDate | app.py:302-306 | Whatever `strptime("%Y-%m-%d")` parses is a real calendar date with a year from 1 to 9999 |
| Dates.ParseFormat | app.py:302-306 | Every such date is parsed back from its zero-padded `YYYY-MM-DD` spelling |
| Dates.InsertKeepsOrder | app.py:307 | Stable insertion puts a new name after every name already holding its key |
| Dates.SortNewestFirst | app.py:307 | Stable `sorted(key, reverse=True)` returns a permutation, newest first, with equal-key names kept in input order |
| Dates.SortDates | app.py:301-307 | `_sort_dates` returns the same names, newest date first by `Dates.Key`, stable among equal keys, with every unparseable name keyed `datetime.min` |
| Dates.MinDateIsOldest | app.py:305-306 | No key is older than `datetime.min` |
| Dates.UnparseableSortLast | app.py:301-307 | After an unparseable name, only names keyed `datetime.min` follow |
| Dates.SortDatesExample | app.py:301-307 | `2025-06-30, misc, 2025-07-01` sorts to `2025-07-01, 2025-06-30, misc` |
| Handlers.UploadAudio | app.py:77-123 | A rejected header is 400 and writes nothing. Otherwise the store is exactly the makedirs-and-write at `base/<header parts>`, the bytes overwrite that file, and the answer's status is `ok`. An accepted header whose store fails is 500 |
| Handlers.UploadAudioLocation | app.py:83-107 | A header composed from a device, date and slot stores exactly at the canonical raw location of that slot |
| Handlers.NewlineUploadUnreachable | app.py:83-107 | A header with a final newline stores a file named `slot.wav\n`, a location that no key resolves to |
| Handlers.AudioRoundTrip | app.py:99-161 | A recording uploaded under a composed header is served back by `/download` for the same device, date and slot, as `audio/wav` |
| Handlers.FormPath | app.py:137-139 | Each form upload's inline save path (also app.py:217-219, 468-470, 493-496, 518-521, 543-546, 672-675) is the canonical location of its artifact |
| Handlers.UploadForm | app.py:206-224 | The `.json` guard (also app.py:464-465, 489-490, 514-515, 539-540, 668-669) is 400 exactly for a guarded upload with a non-`.json` filename, and writes nothing. Otherwise the bytes are stored at the artifact's location, with status `success` for transcriptions and `ok` for the rest. Every other failure is a failed store and is 500 |
| Handlers.TranscriptionUnguarded | app.py:128-144 | The transcription upload does not depend on the client filename |
| Handlers.DownloadSlot | app.py:149-201 | The per-slot downloads serve exactly the files at their canonical locations and are 404 exactly when nothing is there and 500 exactly when a directory is. `/download` answers `audio/wav`, the two others exactly `application/json` |
| Handlers.MediaType | app.py:237-245 | `.wav` names get `audio/wav`, other `.json` names `application/json`, and the rest `application/octet-stream` |
| Handlers.DownloadByPath | app.py:230-247 | `/download-file` serves exactly the file at `base/<query parts>`, is 404 exactly when nothing is there and 500 exactly when something other than a file is, and names the reply after the last part |
| Handlers.ViewFile | app.py:249-295 | `/view-file` is 404 exactly when nothing is there, checked before the suffix test. It is 400 exactly for an existing path whose query lacks `.json` or whose file is malformed JSON, succeeds exactly for a `.json` query naming a file that parses, and everything else is 500 |
| Handlers.QueryResolves | app.py:233 | For a device, date and file name without `/`, the relative query `device/date/category/name` of a key leads the generic endpoints to that key's location |
| Handlers.FormRoundTrip | app.py:249-261 | A successful form upload for a device, date and file name without `/` is shown by `/view-file` exactly when its bytes parse |
| Handlers.FetchPath | app.py:557-601 | The device route and the legacy user route (also app.py:613, 636, 693, 716, 742, 765) both read the artifact's canonical location |
| Handlers.FetchJson | app.py:557-577 | A fetch is 404 exactly for a missing artifact and 400 exactly for malformed JSON. It succeeds exactly when the stored bytes parse, returning the document, and anything else is 500 |
| Handlers.UploadThenFetch | app.py:457-577 | What a form upload stores, the matching fetch returns on either route. It is 400 exactly when the data is malformed |
| Handlers.UploadLeavesOthers | app.py:468-473 | A form upload leaves the answer of every fetch of a different key unchanged |
| Listing.Classify | app.py:327-336 | `.wav` names are audio; other `.json` names are JSON |
| Listing.Links | app.py:326-336 | Every file gets a download link. Only JSON files also get a view link, and every link carries the same path |
| Listing.Walk | app.py:313-338 | The walk has one line per subdirectory and one per file |
| Listing.WalkLayout | app.py:316-322 | All folder lines come before all file lines, and both groups are strictly ascending by name |
| Listing.WalkAtFolder | app.py:317-319 | The i-th folder line carries the i-th subdirectory and the walk of that subdirectory |
| Listing.WalkAtFile | app.py:322-338 | The j-th file line after the folders is the line of the j-th file |
| Listing.WalkShowsOnlyBelow | app.py:313-338 | Everything the walk shows is a file below the walked directory |
| Listing.WalkShowsAllBelow | app.py:313-338 | On a well-formed tree, the walk shows every file below the walked directory |
| Listing.WalkShowsExactly | app.py:313-338 | On a well-formed tree, the walk shows exactly the files below the walked directory |
| Listing.LeafLinksServe | app.py:323-336 | Every printed link is served: the download link returns the file, and the view link passes both checks of `/view-file` and reads the file as JSON |
| Listing.DeviceNames | app.py:407 | The device level lists exactly the base's subdirectories, strictly ascending |
| Listing.DateNames | app.py:411 | The date level lists exactly a device's subdirectories, each once, newest first by `_sort_dates` |
| Listing.Status | app.py:340-451 | A missing base gives the notice and a base that is a file gives the error page. Otherwise the page holds one line per device directory, in order, each with its dated walks |
| Listing.StatusFind | app.py:407-414 | Every date directory of every device has its line on the page |
| Listing.StatusShowsOnlyBelow | app.py:404-415 | Everything the page shows is a file at least three levels below the base |
| Listing.StatusShowsAllBelow | app.py:404-415 | On a well-formed tree, the page shows every file at least three levels below the base |
| Listing.StatusShowsExactly | app.py:404-415 | On a well-formed tree, the page shows exactly the files at least three levels below the base |
| Listing.ListSlotsIn | app.py:794-815 | A missing features directory gives an empty answer whatever the summary holds. A features path that is a file is 500. Otherwise the slots are the `.json` entries of the directory (`JsonEntries`) with `.json` removed, one per entry and in ascending order; the count is the number of entries, and `has_summary` is true exactly when `result.json` exists |
| Listing.ListSlots | app.py:785-848 | The device route and the legacy route list the owner's `opensmile` directory next to the `opensmile-summary` directory that the summary fetch reads |
| Listing.JsonFileListed | app.py:798-802 | A `.json` entry of an existing features directory is listed, with every `.json` removed from its name |
| Listing.StripPlainSlot | app.py:801 | A dot-free slot comes back unchanged from its `.json` file name |
| Listing.StripEveryOccurrence | app.py:801 | `a.json.json` lists as `a`, because every occurrence is removed |
| Listing.FeaturesUploadListed | app.py:672-802 | A feature file uploaded for a dot-free slot is listed under that slot, on either route |
| Listing.SummaryUploadShown | app.py:543-805 | After a summary upload, the listing reports the summary exactly when the features directory exists |

## Left out

- FastAPI routing, the request and response objects, the response fields that are only echoed back (`device_id`, `file_path`, `method`, the saved `path`), and all HTML text of `/status` and `/view-file`. The status page is modelled as its structure, not as markup.
- The choice of the base directory from the environment. The base is a parameter.
- Real `os`, `open`, `shutil` and `json.load` calls. The filesystem is a map plus a directory set, and `json.load` is a parameter that returns a document, a decode error (400) or an undecodable text (500).
- `urllib.parse.quote` and `Path.relative_to`. A link carries the unquoted `/`-joined relative path.
- Operating-system path semantics: `..`, `.`, empty segments, and `os.path.join` discarding the base for an absolute component. Client path strings are split on `/` verbatim. Form and query fields are single path segments. The generic endpoints and the form uploads do no traversal check in the code, and the model adds none.
- Handlers.QueryResolves, Handlers.FormRoundTrip: stated only for a device, date and file name without `/`. In the source a field such as `a/b` nests directories through `os.path.join`, and `/view-file` still finds the file; the model keeps each field a single segment.
- AudioPath.IsDateToken, AudioPath.IsSlotToken: `\d` in a Python `str` pattern matches any Unicode decimal digit; the model reads it as an ASCII digit, as does Dates.ParseDate for `strptime`.
- The order of `iterdir` and `listdir`. Every listing the code sorts is a set here. `_sort_dates` is stable, so it could see the operating system's order; it is proved for any input order and fed the names in ascending order.
- Symbolic links, file permissions, partial writes, and concurrent requests. Nothing in the code coordinates writers.
- `FileResponse` on a directory is assumed to fail with 500; the framework's code is not part of this model.
- FastAPI's 422 answer for a missing form or query field.
- Listing.Status: the catch-all error page is modelled for the one failure the tree model can produce, a base path that is a file. Other exceptions inside the loop (permissions, races) are out of scope.
- Dates.UnparseableSortLast: it states that only names keyed `datetime.min` follow an unparseable name, not that every parseable name precedes it. A literal `0001-01-01` parses to `datetime.min` itself and ties with unparseable names, keeping its input position.

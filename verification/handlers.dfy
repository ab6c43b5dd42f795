/** The request handlers that store and fetch single artifacts.

    Every handler builds its target path inline from its parameters; the
    contracts below tie each of those literal paths to the one layout
    `Layout.Resolve` describes, so an upload and the matching fetch meet at
    the same file. Query and form fields are taken as single path segments;
    client-supplied path strings (the `X-File-Path` header and the
    `file_path` query of the generic endpoints) are split on `/`.
 */
module Handlers {
  import opened Outcomes
  import opened Store
  import opened Text
  import opened Layout
  import AudioPath

  /** What a successful upload leaves behind: the new store, where the bytes
      went, and the `status` word of the JSON answer. */
  datatype Stored = Stored(fs: Fs, path: Path, status: string)

  /** A file answer: the bytes, the media type, the download filename. */
  datatype FileReply = FileReply(data: Bytes, mediaType: string, filename: string)

  // ---------------------------------------------------------------------
  // POST /upload
  // ---------------------------------------------------------------------

  /** `upload_file`: the `X-File-Path` header is validated, then the body is
      stored at `root/<header>`, overwriting whatever was there. The
      `device_id` form field is only echoed and plays no part. */
  function UploadAudio(fs: Fs, root: Path, header: Option<string>, data: Bytes): (r: Result<Stored>)
    ensures AudioPath.Validate(header).Err? ==> r == Err(BadRequest)
    ensures r.Ok? <==> AudioPath.Validate(header).Ok? && Put(fs, root + Split(header.value, '/'), data).Ok?
    ensures r.Ok? ==> r.value.path == root + Split(header.value, '/')
    ensures r.Ok? ==> r.value.fs.files == fs.files[r.value.path := data] && r.value.status == "ok"
    ensures r.Ok? ==> r.value.fs == Put(fs, r.value.path, data).value
    ensures r.Err? && AudioPath.Validate(header).Ok? ==> r.failure == ServerError
  {
    match AudioPath.Validate(header)
    case Err(f) => Err(f)
    case Ok(parts) =>
      var p := root + parts;
      match Put(fs, p, data)
      case Err(f) => Err(f)
      case Ok(fs1) => Ok(Stored(fs1, p, "ok"))
  }

  /** A header composed from a device, a date and a slot lands at the
      canonical location of that slot's recording. */
  lemma UploadAudioLocation(fs: Fs, root: Path, device: string, date: string, slot: string, data: Bytes)
    requires AudioPath.WellFormedParts(device, date, slot)
    ensures var r := UploadAudio(fs, root, Some(AudioPath.Compose(device, date, slot)), data);
      && (r.Ok? <==> Put(fs, Resolve(root, Key(device, date, PerSlot(Raw, slot))), data).Ok?)
      && (r.Ok? ==> r.value.path == Resolve(root, Key(device, date, PerSlot(Raw, slot))))
  {
    AudioPath.ComposeMatches(device, date, slot);
    AudioPath.ValidateIffPattern(AudioPath.Compose(device, date, slot));
    var s := AudioPath.Compose(device, date, slot);
    AudioPath.SplitCompose(device, date, slot, "");
    assert s + "" == s;
    assert AudioPath.Validate(Some(s)).Ok?;
    assert slot + ".wav" + "" == slot + ".wav";
    assert AudioPath.Validate(Some(s)).value == Split(s, '/');
    assert Resolve(root, Key(device, date, PerSlot(Raw, slot))) == root + [device, date, "raw", slot + ".wav"];
  }

  /** The newline `$` lets through ends up in the stored filename: the file
      is written, but at a location no per-slot key resolves to, so no
      `/download` request can name it. */
  lemma NewlineUploadUnreachable(fs: Fs, root: Path, device: string, date: string, slot: string, data: Bytes, k: Key)
    requires AudioPath.WellFormedParts(device, date, slot)
    requires UploadAudio(fs, root, Some(AudioPath.Compose(device, date, slot) + "\n"), data).Ok?
    ensures var p := UploadAudio(fs, root, Some(AudioPath.Compose(device, date, slot) + "\n"), data).value.path;
      p == root + [device, date, "raw", slot + ".wav\n"] && Resolve(root, k) != p
  {
    var p := UploadAudio(fs, root, Some(AudioPath.Compose(device, date, slot) + "\n"), data).value.path;
    AudioPath.SplitCompose(device, date, slot, "\n");
    assert slot + ".wav" + "\n" == slot + ".wav\n";
    var name := slot + ".wav\n";
    assert p[|root| + 3] == name;
    assert name[|name| - 1] == '\n';
    assert KeyOf(root, p).None?;
    if Resolve(root, k) == p {
      KeyOfResolve(root, k);
    }
  }

  // ---------------------------------------------------------------------
  // The form uploads
  // ---------------------------------------------------------------------

  /** The seven form-upload endpoints, with the fields that choose the path. */
  datatype FormUpload =
    | UploadTranscription(device: string, date: string, slot: string)      // /upload-transcription
    | UploadPrompt(device: string, date: string)                           // /upload-prompt
    | UploadEmotionTimeline(device: string, date: string)                  // /upload/analysis/emotion-timeline
    | UploadSedTimeline(device: string, date: string, slot: string)        // /upload/analysis/sed-timeline
    | UploadSedSummary(device: string, date: string)                       // /upload/analysis/sed-summary
    | UploadOpensmileSummary(device: string, date: string)                 // /upload/analysis/opensmile-summary
    | UploadOpensmileFeatures(device: string, date: string, slot: string)  // /upload/analysis/opensmile-features

  /** Every form upload but the transcription one refuses a file whose
      client filename does not end in `.json`. */
  predicate JsonGuarded(u: FormUpload) {
    !u.UploadTranscription?
  }

  /** The save path each handler builds, written out per endpoint. */
  function FormPath(root: Path, u: FormUpload): (p: Path)
    ensures p == Resolve(root, FormKey(u))
  {
    match u
    case UploadTranscription(device, date, slot) => root + [device, date, "transcriptions", slot + ".json"]
    case UploadPrompt(device, date) => root + [device, date, "prompt", "emotion-timeline_gpt_prompt.json"]
    case UploadEmotionTimeline(device, date) => root + [device, date, "emotion-timeline", "emotion-timeline.json"]
    case UploadSedTimeline(device, date, slot) => root + [device, date, "sed", slot + ".json"]
    case UploadSedSummary(device, date) => root + [device, date, "sed-summary", "result.json"]
    case UploadOpensmileSummary(device, date) => root + [device, date, "opensmile-summary", "result.json"]
    case UploadOpensmileFeatures(device, date, slot) => root + [device, date, "opensmile", slot + ".json"]
  }

  /** The artifact each form upload writes. */
  function FormKey(u: FormUpload): Key {
    match u
    case UploadTranscription(device, date, slot) => Key(device, date, PerSlot(Transcriptions, slot))
    case UploadPrompt(device, date) => Key(device, date, Single(Prompt))
    case UploadEmotionTimeline(device, date) => Key(device, date, Single(EmotionTimeline))
    case UploadSedTimeline(device, date, slot) => Key(device, date, PerSlot(Sed, slot))
    case UploadSedSummary(device, date) => Key(device, date, Single(SedSummary))
    case UploadOpensmileSummary(device, date) => Key(device, date, Single(OpensmileSummary))
    case UploadOpensmileFeatures(device, date, slot) => Key(device, date, PerSlot(Opensmile, slot))
  }

  /** A form upload: the `.json` guard (before anything touches the disk),
      then makedirs and overwrite. The transcription endpoint answers
      `success`, the others `ok`. */
  function UploadForm(fs: Fs, root: Path, u: FormUpload, filename: string, data: Bytes): (r: Result<Stored>)
    ensures r == Err(BadRequest) <==> JsonGuarded(u) && !EndsWith(filename, ".json")
    ensures r.Err? ==> r.failure == (if JsonGuarded(u) && !EndsWith(filename, ".json") then BadRequest else ServerError)
    ensures r.Ok? <==> (!JsonGuarded(u) || EndsWith(filename, ".json")) && Put(fs, Resolve(root, FormKey(u)), data).Ok?
    ensures r.Ok? ==> r.value.path == Resolve(root, FormKey(u))
    ensures r.Ok? ==> r.value.fs == Put(fs, Resolve(root, FormKey(u)), data).value
    ensures r.Ok? ==> (r.value.status == "success" <==> u.UploadTranscription?) && (r.value.status == "ok" <==> JsonGuarded(u))
  {
    if JsonGuarded(u) && !EndsWith(filename, ".json") then Err(BadRequest)
    else
      var p := FormPath(root, u);
      match Put(fs, p, data)
      case Err(f) => Err(f)
      case Ok(fs1) => Ok(Stored(fs1, p, if u.UploadTranscription? then "success" else "ok"))
  }

  /** The transcription upload stores whatever the client filename is. */
  lemma TranscriptionUnguarded(fs: Fs, root: Path, device: string, date: string, slot: string, data: Bytes, name1: string, name2: string)
    ensures UploadForm(fs, root, UploadTranscription(device, date, slot), name1, data)
         == UploadForm(fs, root, UploadTranscription(device, date, slot), name2, data)
  {
  }

  // ---------------------------------------------------------------------
  // Per-slot downloads: /download, /download-sed, /download-opensmile
  // ---------------------------------------------------------------------

  datatype SlotDownload = WavDownload | SedDownload | OpensmileDownload

  function DownloadKind(d: SlotDownload): SlotKind {
    match d
    case WavDownload => Raw
    case SedDownload => Sed
    case OpensmileDownload => Opensmile
  }

  /** The existence check is the handler's; a directory at the path makes
      the file response fail, reported as 500. */
  function DownloadSlot(fs: Fs, root: Path, d: SlotDownload, device: string, date: string, slot: string): (r: Result<FileReply>)
    ensures var p := Resolve(root, Key(device, date, PerSlot(DownloadKind(d), slot)));
      && (r.Ok? <==> p in fs.files)
      && (r == Err(NotFound) <==> !Exists(fs, p))
      && (r == Err(ServerError) <==> Exists(fs, p) && p !in fs.files)
      && (r.Ok? ==> r.value.data == fs.files[p] && r.value.filename == p[|p| - 1])
      && (r.Ok? ==> (r.value.mediaType == "audio/wav" <==> d == WavDownload))
      && (r.Ok? ==> (r.value.mediaType == "application/json" <==> d != WavDownload))
  {
    var (p, media, name) := match d
      case WavDownload => (root + [device, date, "raw", slot + ".wav"], "audio/wav", slot + ".wav")
      case SedDownload => (root + [device, date, "sed", slot + ".json"], "application/json", slot + ".json")
      case OpensmileDownload => (root + [device, date, "opensmile", slot + ".json"], "application/json", slot + ".json");
    match Get(fs, p)
    case Err(f) => Err(f)
    case Ok(data) => Ok(FileReply(data, media, name))
  }

  /** A recording uploaded under a composed header is served back by
      `/download` for the same device, date and slot. */
  lemma AudioRoundTrip(fs: Fs, root: Path, device: string, date: string, slot: string, data: Bytes)
    requires AudioPath.WellFormedParts(device, date, slot)
    requires UploadAudio(fs, root, Some(AudioPath.Compose(device, date, slot)), data).Ok?
    ensures var fs1 := UploadAudio(fs, root, Some(AudioPath.Compose(device, date, slot)), data).value.fs;
      DownloadSlot(fs1, root, WavDownload, device, date, slot) == Ok(FileReply(data, "audio/wav", slot + ".wav"))
  {
    UploadAudioLocation(fs, root, device, date, slot, data);
  }

  // ---------------------------------------------------------------------
  // The generic endpoints: /download-file and /view-file
  // ---------------------------------------------------------------------

  /** The media type `/download-file` picks from the filename. */
  function MediaType(name: string): (m: string)
    ensures m == "audio/wav" <==> EndsWith(name, ".wav")
    ensures m == "application/json" <==> !EndsWith(name, ".wav") && EndsWith(name, ".json")
    ensures m == "application/octet-stream" <==> !EndsWith(name, ".wav") && !EndsWith(name, ".json")
  {
    if EndsWith(name, ".wav") then "audio/wav"
    else if EndsWith(name, ".json") then "application/json"
    else "application/octet-stream"
  }

  /** `/download-file?file_path=q`: any path below the base directory. */
  function DownloadByPath(fs: Fs, root: Path, q: string): (r: Result<FileReply>)
    ensures var parts := Split(q, '/'); var p := root + parts;
      && (r.Ok? <==> p in fs.files)
      && (r == Err(NotFound) <==> !Exists(fs, p))
      && (r == Err(ServerError) <==> Exists(fs, p) && p !in fs.files)
      && (r.Ok? ==> r.value == FileReply(fs.files[p], MediaType(parts[|parts| - 1]), parts[|parts| - 1]))
  {
    var parts := Split(q, '/');
    var p := root + parts;
    match Get(fs, p)
    case Err(f) => Err(f)
    case Ok(data) =>
      var name := parts[|parts| - 1];
      Ok(FileReply(data, MediaType(name), name))
  }

  /** `/view-file?file_path=q`: existence is checked before the `.json`
      test, so a missing file of any kind is 404 and an existing non-JSON
      path is 400; the rest is the JSON read. */
  function ViewFile<J>(fs: Fs, root: Path, q: string, parse: Bytes -> Parse<J>): (r: Result<J>)
    ensures var p := root + Split(q, '/');
      && (r == Err(NotFound) <==> !Exists(fs, p))
      && (r == Err(BadRequest) <==> Exists(fs, p) && (!EndsWith(q, ".json") || (p in fs.files && parse(fs.files[p]).Malformed?)))
      && (r.Ok? <==> EndsWith(q, ".json") && p in fs.files && parse(fs.files[p]).Parsed?)
      && (r.Ok? ==> r.value == parse(fs.files[p]).doc)
  {
    var p := root + Split(q, '/');
    if !Exists(fs, p) then Err(NotFound)
    else if !EndsWith(q, ".json") then Err(BadRequest)
    else ReadJson(fs, p, parse)
  }

  /** The relative query naming a stored artifact. */
  function Query(k: Key): string {
    Join([k.device, k.date, CategoryDir(k.artifact), FileName(k.artifact)], '/')
  }

  predicate SlashFree(s: string) {
    '/' !in s
  }

  /** A key whose parts hold no `/` reads back through the generic
      endpoints at its canonical location. */
  lemma QueryResolves(root: Path, k: Key)
    requires SlashFree(k.device) && SlashFree(k.date) && SlashFree(FileName(k.artifact))
    ensures root + Split(Query(k), '/') == Resolve(root, k)
  {
    var parts := [k.device, k.date, CategoryDir(k.artifact), FileName(k.artifact)];
    assert forall i :: 0 <= i < |parts| ==> SlashFree(parts[i]);
    SplitJoin(parts, '/');
  }

  /** A form upload whose device, date and file name hold no `/`, JSON or
      not, is shown back by `/view-file`. */
  lemma FormRoundTrip<J>(fs: Fs, root: Path, u: FormUpload, filename: string, data: Bytes, parse: Bytes -> Parse<J>)
    requires SlashFree(u.device) && SlashFree(u.date) && SlashFree(FileName(FormKey(u).artifact))
    requires UploadForm(fs, root, u, filename, data).Ok?
    ensures var fs1 := UploadForm(fs, root, u, filename, data).value.fs;
      ViewFile(fs1, root, Query(FormKey(u)), parse) == ReadJson(fs1, Resolve(root, FormKey(u)), parse)
      && (ViewFile(fs1, root, Query(FormKey(u)), parse).Ok? <==> parse(data).Parsed?)
  {
    var k := FormKey(u);
    var p := Resolve(root, k);
    var fs1 := UploadForm(fs, root, u, filename, data).value.fs;
    QueryResolves(root, k);
    assert EndsWith(FileName(k.artifact), ".json") by {
      assert p[|root| + 3] == FileName(k.artifact);
    }
    JoinEndsWith([k.device, k.date, CategoryDir(k.artifact), FileName(k.artifact)], '/', ".json");
    assert p in fs1.files && fs1.files[p] == data;
  }

  // ---------------------------------------------------------------------
  // The JSON fetch endpoints, device routes and their legacy user routes
  // ---------------------------------------------------------------------

  /** `/api/devices/{device_id}/...` and the older `/api/users/{user_id}/...`. */
  datatype Route = ByDevice | ByUser

  datatype Fetch =
    | FetchEmotionTimeline
    | FetchSedSummary
    | FetchOpensmileSummary
    | FetchOpensmileFeatures(slot: string)

  function FetchArtifact(f: Fetch): Artifact {
    match f
    case FetchEmotionTimeline => Single(EmotionTimeline)
    case FetchSedSummary => Single(SedSummary)
    case FetchOpensmileSummary => Single(OpensmileSummary)
    case FetchOpensmileFeatures(slot) => PerSlot(Opensmile, slot)
  }

  /** The path each fetch handler builds; the legacy handlers repeat the
      device handlers' construction with the user id in the device's place. */
  function FetchPath(root: Path, route: Route, owner: string, date: string, f: Fetch): (p: Path)
    ensures p == Resolve(root, Key(owner, date, FetchArtifact(f)))
  {
    match route
    case ByDevice =>
      (match f
       case FetchEmotionTimeline => root + [owner, date, "emotion-timeline", "emotion-timeline.json"]
       case FetchSedSummary => root + [owner, date, "sed-summary", "result.json"]
       case FetchOpensmileSummary => root + [owner, date, "opensmile-summary", "result.json"]
       case FetchOpensmileFeatures(slot) => root + [owner, date, "opensmile", slot + ".json"])
    case ByUser =>
      (match f
       case FetchEmotionTimeline => root + [owner, date, "emotion-timeline", "emotion-timeline.json"]
       case FetchSedSummary => root + [owner, date, "sed-summary", "result.json"]
       case FetchOpensmileSummary => root + [owner, date, "opensmile-summary", "result.json"]
       case FetchOpensmileFeatures(slot) => root + [owner, date, "opensmile", slot + ".json"])
  }

  /** A JSON fetch: 404 when missing, 400 when the JSON is invalid, 500 on
      any other read failure. Both routes read the artifact's canonical
      location, so a user id is simply a device id. */
  function FetchJson<J>(fs: Fs, root: Path, route: Route, owner: string, date: string, f: Fetch, parse: Bytes -> Parse<J>): (r: Result<J>)
    ensures var p := Resolve(root, Key(owner, date, FetchArtifact(f)));
      && (r == Err(NotFound) <==> !Exists(fs, p))
      && (r == Err(BadRequest) <==> p in fs.files && parse(fs.files[p]).Malformed?)
      && (r.Ok? <==> p in fs.files && parse(fs.files[p]).Parsed?)
      && (r.Ok? ==> r.value == parse(fs.files[p]).doc)
  {
    ReadJson(fs, FetchPath(root, route, owner, date, f), parse)
  }

  /** What a form upload stores, the matching fetch returns, on either route. */
  lemma UploadThenFetch<J>(fs: Fs, root: Path, u: FormUpload, filename: string, data: Bytes, route: Route, f: Fetch, parse: Bytes -> Parse<J>)
    requires UploadForm(fs, root, u, filename, data).Ok?
    requires FormKey(u) == Key(u.device, u.date, FetchArtifact(f))
    ensures var fs1 := UploadForm(fs, root, u, filename, data).value.fs;
      var r := FetchJson(fs1, root, route, u.device, u.date, f, parse);
      && (r.Ok? <==> parse(data).Parsed?)
      && (r.Ok? ==> r.value == parse(data).doc)
      && (r == Err(BadRequest) <==> parse(data).Malformed?)
  {
  }

  /** Storing one artifact never disturbs another: the fetch of any other
      key answers as before. */
  lemma UploadLeavesOthers<J>(fs: Fs, root: Path, u: FormUpload, filename: string, data: Bytes, route: Route, owner: string, date: string, f: Fetch, parse: Bytes -> Parse<J>)
    requires UploadForm(fs, root, u, filename, data).Ok?
    requires FormKey(u) != Key(owner, date, FetchArtifact(f))
    ensures var fs1 := UploadForm(fs, root, u, filename, data).value.fs;
      FetchJson(fs1, root, route, owner, date, f, parse) == FetchJson(fs, root, route, owner, date, f, parse)
  {
    var p := FetchPath(root, route, owner, date, f);
    var q := Resolve(root, FormKey(u));
    if q == p {
      ResolveInjective(root, FormKey(u), Key(owner, date, FetchArtifact(f)));
    }
    PutFrame(fs, q, data, p);
    assert p !in Prefixes(q[..|q| - 1]);
    ReadJsonFrame(fs, Put(fs, q, data).value, p, parse);
  }
}

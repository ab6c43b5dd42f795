/** The storage layout: every artifact lives at
    `root/device_id/date/category/filename`, where the category directory is
    chosen by the endpoint and the filename is either `{slot}.{ext}` (per-slot
    categories) or a fixed name (one artifact per device and date).

    The handlers rebuild this path inline, each in its own words; `Resolve`
    is the one scheme they all follow, and `KeyOf` reads a path back.
 */
module Layout {
  import opened Outcomes
  import opened Store
  import opened Text

  /** Categories holding one artifact per time slot. */
  datatype SlotKind = Raw | Transcriptions | Sed | Opensmile

  /** Categories holding one artifact per device and date. */
  datatype SingleKind = Prompt | EmotionTimeline | SedSummary | OpensmileSummary

  datatype Artifact = PerSlot(kind: SlotKind, slot: string) | Single(single: SingleKind)

  /** What identifies a stored object. */
  datatype Key = Key(device: string, date: string, artifact: Artifact)

  /** Raw audio recordings; every other artifact is a JSON document. */
  predicate IsAudio(a: Artifact) {
    a.PerSlot? && a.kind == Raw
  }

  function SlotDir(k: SlotKind): string {
    match k
    case Raw => "raw"
    case Transcriptions => "transcriptions"
    case Sed => "sed"
    case Opensmile => "opensmile"
  }

  /** Raw audio is WAV, every analysis artifact JSON. */
  function Extension(k: SlotKind): string {
    if k == Raw then ".wav" else ".json"
  }

  function SingleDir(k: SingleKind): string {
    match k
    case Prompt => "prompt"
    case EmotionTimeline => "emotion-timeline"
    case SedSummary => "sed-summary"
    case OpensmileSummary => "opensmile-summary"
  }

  function SingleName(k: SingleKind): string {
    match k
    case Prompt => "emotion-timeline_gpt_prompt.json"
    case EmotionTimeline => "emotion-timeline.json"
    case SedSummary => "result.json"
    case OpensmileSummary => "result.json"
  }

  function CategoryDir(a: Artifact): string {
    match a
    case PerSlot(k, _) => SlotDir(k)
    case Single(k) => SingleDir(k)
  }

  function FileName(a: Artifact): string {
    match a
    case PerSlot(k, slot) => slot + Extension(k)
    case Single(k) => SingleName(k)
  }

  /** The canonical location of an artifact under `root`. */
  function Resolve(root: Path, k: Key): (p: Path)
    ensures |p| == |root| + 4 && p[..|root|] == root
    ensures p[|root|] == k.device && p[|root| + 1] == k.date
    ensures EndsWith(p[|root| + 3], if IsAudio(k.artifact) then ".wav" else ".json")
  {
    var a := k.artifact;
    assert EndsWith(FileName(a), if IsAudio(a) then ".wav" else ".json") by {
      if a.PerSlot? {
        EndsWithAppend(a.slot, Extension(a.kind));
      }
    }
    root + [k.device, k.date, CategoryDir(a), FileName(a)]
  }

  /** `name` without its last `|ext|` characters. */
  function DropSuffix(name: string, ext: string): string
    requires EndsWith(name, ext)
  {
    name[..|name| - |ext|]
  }

  /** Reads a category directory and a file name back as an artifact. */
  function ArtifactOf(dir: string, name: string): Option<Artifact> {
    if dir == "raw" && EndsWith(name, ".wav") then Some(PerSlot(Raw, DropSuffix(name, ".wav")))
    else if dir == "transcriptions" && EndsWith(name, ".json") then Some(PerSlot(Transcriptions, DropSuffix(name, ".json")))
    else if dir == "sed" && EndsWith(name, ".json") then Some(PerSlot(Sed, DropSuffix(name, ".json")))
    else if dir == "opensmile" && EndsWith(name, ".json") then Some(PerSlot(Opensmile, DropSuffix(name, ".json")))
    else if dir == "prompt" && name == "emotion-timeline_gpt_prompt.json" then Some(Single(Prompt))
    else if dir == "emotion-timeline" && name == "emotion-timeline.json" then Some(Single(EmotionTimeline))
    else if dir == "sed-summary" && name == "result.json" then Some(Single(SedSummary))
    else if dir == "opensmile-summary" && name == "result.json" then Some(Single(OpensmileSummary))
    else None
  }

  /** The key stored at `p`, if `p` is a canonical location under `root`. */
  function KeyOf(root: Path, p: Path): Option<Key> {
    if |p| == |root| + 4 && p[..|root|] == root then
      match ArtifactOf(p[|root| + 2], p[|root| + 3])
      case Some(a) => Some(Key(p[|root|], p[|root| + 1], a))
      case None => None
    else None
  }

  /** Every key is read back from its location. */
  lemma KeyOfResolve(root: Path, k: Key)
    ensures KeyOf(root, Resolve(root, k)) == Some(k)
  {
    var p := Resolve(root, k);
    var a := k.artifact;
    assert p[|root| + 2] == CategoryDir(a) && p[|root| + 3] == FileName(a);
    match a
    case PerSlot(kind, slot) =>
      EndsWithAppend(slot, Extension(kind));
      assert DropSuffix(slot + Extension(kind), Extension(kind)) == slot;
    case Single(_) =>
  }

  /** Every location that reads back as a key is that key's location. */
  lemma ResolveKeyOf(root: Path, p: Path)
    requires KeyOf(root, p).Some?
    ensures Resolve(root, KeyOf(root, p).value) == p
  {
    ArtifactOfNames(p[|root| + 2], p[|root| + 3]);
    assert p == p[..|root|] + [p[|root|], p[|root| + 1], p[|root| + 2], p[|root| + 3]];
  }

  /** An artifact read back from a directory and a file name lives in that
      directory under that name. */
  lemma ArtifactOfNames(dir: string, name: string)
    requires ArtifactOf(dir, name).Some?
    ensures CategoryDir(ArtifactOf(dir, name).value) == dir
    ensures FileName(ArtifactOf(dir, name).value) == name
  {
    var a := ArtifactOf(dir, name).value;
    if a.PerSlot? {
      var ext := Extension(a.kind);
      assert DropSuffix(name, ext) + ext == name;
    }
  }

  /** No two keys share a location: in particular the fixed filenames never
      collide, and a slot never collides with another slot. */
  lemma ResolveInjective(root: Path, k1: Key, k2: Key)
    requires Resolve(root, k1) == Resolve(root, k2)
    ensures k1 == k2
  {
    KeyOfResolve(root, k1);
    KeyOfResolve(root, k2);
  }
}

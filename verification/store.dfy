/** The filesystem beneath the vault's base directory, and the handful of
    operations the handlers perform on it: `os.path.exists`, `os.makedirs(...,
    exist_ok=True)`, `open(path, "wb").write(...)`, and reading a file back
    (as bytes, or as JSON through an abstract parser).

    A path is the list of its segments from the filesystem root; `[]` is the
    filesystem root itself, which always exists. Directories are recorded
    explicitly so that empty ones exist too.
 */
module Store {
  import opened Outcomes

  type Bytes = seq<bv8>
  type Path = seq<string>

  datatype Fs = Fs(files: map<Path, Bytes>, dirs: set<Path>)

  /** The ancestors of a path that `makedirs` creates: every non-empty prefix,
      the path itself included. */
  function Prefixes(d: Path): set<Path> {
    set i | 1 <= i <= |d| :: d[..i]
  }

  /** The shape every real directory tree has: nothing is both a file and a
      directory, every ancestor of a file or directory is a directory. */
  predicate Wf(fs: Fs) {
    && (forall p :: p in fs.files ==> |p| >= 1 && p !in fs.dirs)
    && (forall p :: p in fs.dirs ==> |p| >= 1)
    && (forall p, i :: p in fs.files && 1 <= i < |p| ==> p[..i] in fs.dirs)
    && (forall p, i :: p in fs.dirs && 1 <= i < |p| ==> p[..i] in fs.dirs)
  }

  /** Being below is transitive. */
  lemma BelowBelow(p: Path, c: Path, d: Path)
    requires |c| <= |p| && p[..|c|] == c
    requires |d| <= |c| && c[..|d|] == d
    ensures p[..|d|] == d
  {
    assert p[..|c|][..|d|] == p[..|d|];
  }

  /** A path below `d` is below its own child of `d`. */
  lemma BelowChild(p: Path, d: Path)
    requires |d| < |p| && p[..|d|] == d
    ensures p[..|d| + 1] == d + [p[|d|]]
  {
    assert p[..|d| + 1] == p[..|d|] + [p[|d|]];
  }

  /** `os.path.exists(p)`: true for files and for directories. */
  predicate Exists(fs: Fs, p: Path) {
    |p| == 0 || p in fs.files || p in fs.dirs
  }

  /** `os.makedirs(d, exist_ok=True)`: creates `d` and its missing ancestors;
      fails (FileExistsError, reported as 500) when `d` or one of its
      ancestors is a file. */
  function MakeDirs(fs: Fs, d: Path): (r: Result<Fs>)
    ensures r.Ok? <==> forall i :: 1 <= i <= |d| ==> d[..i] !in fs.files
    ensures r.Ok? ==> r.value.files == fs.files
    ensures r.Ok? ==> forall i :: 1 <= i <= |d| ==> d[..i] in r.value.dirs
    ensures r.Ok? ==> fs.dirs <= r.value.dirs && r.value.dirs - fs.dirs <= Prefixes(d)
    ensures r.Err? ==> r.failure == ServerError
  {
    if exists i :: 1 <= i <= |d| && d[..i] in fs.files then Err(ServerError)
    else Ok(fs.(dirs := fs.dirs + Prefixes(d)))
  }

  /** Creating the same directories twice changes nothing the second time. */
  lemma MakeDirsIdempotent(fs: Fs, d: Path)
    requires MakeDirs(fs, d).Ok?
    ensures MakeDirs(MakeDirs(fs, d).value, d) == MakeDirs(fs, d)
  {
    var fs1 := MakeDirs(fs, d).value;
    assert fs1.dirs + Prefixes(d) == fs1.dirs;
  }

  /** `open(p, "wb").write(data)`: replaces the whole content of `p`. Fails
      (500) when `p` is a directory or its parent is not one. */
  function Write(fs: Fs, p: Path, data: Bytes): (r: Result<Fs>)
    requires |p| >= 1
    ensures r.Ok? <==> p !in fs.dirs && (|p| == 1 || p[..|p| - 1] in fs.dirs)
    ensures r.Ok? ==> r.value == Fs(fs.files[p := data], fs.dirs)
    ensures r.Err? ==> r.failure == ServerError
  {
    if p in fs.dirs then Err(ServerError)
    else if |p| > 1 && p[..|p| - 1] !in fs.dirs then Err(ServerError)
    else Ok(fs.(files := fs.files[p := data]))
  }

  /** The handlers' store step: `os.makedirs(dirname(p), exist_ok=True)`
      followed by `open(p, "wb").write(data)`. */
  function Put(fs: Fs, p: Path, data: Bytes): (r: Result<Fs>)
    requires |p| >= 1
    ensures r.Ok? <==> (forall i :: 1 <= i < |p| ==> p[..i] !in fs.files) && p !in fs.dirs
    ensures r.Ok? ==> r.value.files == fs.files[p := data]
    ensures r.Ok? ==> forall i :: 1 <= i < |p| ==> p[..i] in r.value.dirs
    ensures r.Ok? ==> fs.dirs <= r.value.dirs && r.value.dirs - fs.dirs <= Prefixes(p[..|p| - 1])
    ensures r.Err? ==> r.failure == ServerError
  {
    var parent := p[..|p| - 1];
    assert forall i :: 1 <= i < |p| ==> parent[..i] == p[..i];
    match MakeDirs(fs, parent)
    case Err(f) => Err(f)
    case Ok(fs1) =>
      if p in fs1.dirs then
        assert p !in Prefixes(parent);
        Err(ServerError)
      else
        assert |p| > 1 ==> parent == parent[..|p| - 1];
        Write(fs1, p, data)
  }

  /** `open(p, "rb").read()` after an `os.path.exists` check: 404 for a
      missing path, 500 for a directory. */
  function Get(fs: Fs, p: Path): (r: Result<Bytes>)
    ensures r.Ok? <==> p in fs.files
    ensures r.Ok? ==> r.value == fs.files[p]
    ensures r == Err(NotFound) <==> !Exists(fs, p)
    ensures r == Err(ServerError) <==> Exists(fs, p) && p !in fs.files
  {
    if p in fs.files then Ok(fs.files[p])
    else if Exists(fs, p) then Err(ServerError)
    else Err(NotFound)
  }

  /** What `json.load` makes of a file's bytes: a document, a JSONDecodeError,
      or a failure to decode the bytes as UTF-8 text. */
  datatype Parse<J> = Parsed(doc: J) | Malformed | Undecodable

  /** The JSON-fetch pattern shared by every analysis endpoint: existence is
      checked first (404), then the file is opened (a directory gives 500),
      then parsed (JSONDecodeError gives 400, anything else 500). */
  function ReadJson<J>(fs: Fs, p: Path, parse: Bytes -> Parse<J>): (r: Result<J>)
    ensures r == Err(NotFound) <==> !Exists(fs, p)
    ensures r == Err(BadRequest) <==> p in fs.files && parse(fs.files[p]).Malformed?
    ensures r.Ok? <==> p in fs.files && parse(fs.files[p]).Parsed?
    ensures r.Ok? ==> r.value == parse(fs.files[p]).doc
  {
    if !Exists(fs, p) then Err(NotFound)
    else if p !in fs.files then Err(ServerError)
    else
      match parse(fs.files[p])
      case Parsed(doc) => Ok(doc)
      case Malformed => Err(BadRequest)
      case Undecodable => Err(ServerError)
  }

  /** A read depends only on what is at the path read. */
  lemma ReadJsonFrame<J>(fs: Fs, fs1: Fs, p: Path, parse: Bytes -> Parse<J>)
    requires p in fs1.files <==> p in fs.files
    requires p in fs.files ==> fs1.files[p] == fs.files[p]
    requires p in fs1.dirs <==> p in fs.dirs
    ensures ReadJson(fs1, p, parse) == ReadJson(fs, p, parse)
  {
  }

  /** Reading back what was stored returns exactly the bytes written. */
  lemma PutThenGet(fs: Fs, p: Path, data: Bytes)
    requires |p| >= 1
    requires Put(fs, p, data).Ok?
    ensures Get(Put(fs, p, data).value, p) == Ok(data)
  {
  }

  /** A store leaves every other file as it was. */
  lemma PutFrame(fs: Fs, p: Path, data: Bytes, q: Path)
    requires |p| >= 1
    requires Put(fs, p, data).Ok?
    requires q != p
    ensures q in Put(fs, p, data).value.files <==> q in fs.files
    ensures q in fs.files ==> Put(fs, p, data).value.files[q] == fs.files[q]
  {
  }

  /** Last write wins: storing twice is the same as storing the second
      content once. */
  lemma PutOverwrites(fs: Fs, p: Path, first: Bytes, second: Bytes)
    requires |p| >= 1
    requires Put(fs, p, first).Ok?
    ensures Put(Put(fs, p, first).value, p, second) == Put(fs, p, second)
  {
    var fs1 := Put(fs, p, first).value;
    var parent := p[..|p| - 1];
    assert forall i :: 1 <= i < |p| ==> p[..i] != p;
    assert Put(fs1, p, second).Ok?;
    assert Put(fs, p, second).Ok?;
    assert fs1.files[p := second] == fs.files[p := second];
    assert forall i :: 1 <= i < |p| ==> parent[..i] == p[..i];
    assert MakeDirs(fs, parent).value.dirs == fs1.dirs;
    assert MakeDirs(fs1, parent).value.dirs == fs1.dirs;
  }

  /** Storing a file keeps the directory tree well formed. */
  lemma PutPreservesWf(fs: Fs, p: Path, data: Bytes)
    requires Wf(fs)
    requires |p| >= 1
    requires Put(fs, p, data).Ok?
    ensures Wf(Put(fs, p, data).value)
  {
    var fs1 := Put(fs, p, data).value;
    var parent := p[..|p| - 1];
    forall q, i | q in fs1.dirs && 1 <= i < |q| ensures q[..i] in fs1.dirs {
      if q !in fs.dirs {
        assert q in Prefixes(parent);
        var k :| 1 <= k <= |parent| && q == parent[..k];
        assert q[..i] == parent[..i];
      }
    }
    forall q, i | q in fs1.files && 1 <= i < |q| ensures q[..i] in fs1.dirs {
      if q == p {
        assert q[..i] == parent[..i];
      }
    }
  }

  /** On a well-formed tree a failed store creates nothing: every directory
      `makedirs` reaches before it fails already exists, so returning the
      store unchanged with the 500 is faithful. */
  lemma FailedPutCreatesNothing(fs: Fs, p: Path, data: Bytes, i: nat)
    requires Wf(fs)
    requires |p| >= 1
    requires Put(fs, p, data).Err?
    requires 1 <= i < |p|
    requires forall j :: 1 <= j <= i ==> p[..j] !in fs.files
    ensures p[..i] in fs.dirs
  {
    if p in fs.dirs {
      assert p[..i] in fs.dirs;
    } else {
      var k :| 1 <= k < |p| && p[..k] in fs.files;
      assert k > i;
      assert p[..k][..i] == p[..i];
    }
  }
}

/** The read-only views over the tree: the recursive directory walk behind
    the status page, the status page's device/date loop, and the listing of
    the OpenSMILE feature slots of one device and date.

    Directory listings (`iterdir`, `listdir`) are sets of names here; every
    place that lists them sorts the names, so only `_sort_dates`, whose sort
    is stable, could see the order the operating system returns, and the
    model hands it the names in ascending order.
 */
module Listing {
  import opened Outcomes
  import opened Store
  import opened Text
  import opened Order
  import Dates
  import opened Layout
  import opened Handlers

  // ---------------------------------------------------------------------
  // Directory contents
  // ---------------------------------------------------------------------

  /** The names of the subdirectories of `d`. */
  function ChildDirs(fs: Fs, d: Path): (r: set<string>)
    ensures forall n {:trigger n in r} :: n in r <==> d + [n] in fs.dirs
  {
    var r := set p | p in fs.dirs && |p| == |d| + 1 && p[..|d|] == d :: p[|d|];
    assert forall n :: d + [n] in fs.dirs ==> n in r by {
      forall n | d + [n] in fs.dirs ensures n in r {
        var p := d + [n];
        assert p[..|d|] == d && p[|d|] == n;
      }
    }
    assert forall n :: n in r ==> d + [n] in fs.dirs by {
      forall n | n in r ensures d + [n] in fs.dirs {
        var p :| p in fs.dirs && |p| == |d| + 1 && p[..|d|] == d && p[|d|] == n;
        assert p == d + [n];
      }
    }
    r
  }

  /** The names of the files directly in `d`. */
  function ChildFiles(fs: Fs, d: Path): (r: set<string>)
    ensures forall n {:trigger n in r} :: n in r <==> d + [n] in fs.files
  {
    var r := set p | p in fs.files && |p| == |d| + 1 && p[..|d|] == d :: p[|d|];
    assert forall n :: d + [n] in fs.files ==> n in r by {
      forall n | d + [n] in fs.files ensures n in r {
        var p := d + [n];
        assert p[..|d|] == d && p[|d|] == n;
      }
    }
    assert forall n :: n in r ==> d + [n] in fs.files by {
      forall n | n in r ensures d + [n] in fs.files {
        var p :| p in fs.files && |p| == |d| + 1 && p[..|d|] == d && p[|d|] == n;
        assert p == d + [n];
      }
    }
    r
  }

  /** The directories strictly below `d`: what is left to walk. */
  function DirsUnder(fs: Fs, d: Path): set<Path> {
    set p | p in fs.dirs && |p| > |d| && p[..|d|] == d
  }

  lemma DirsUnderShrink(fs: Fs, d: Path, n: string)
    requires d + [n] in fs.dirs
    ensures |DirsUnder(fs, d + [n])| < |DirsUnder(fs, d)|
  {
    var c := d + [n];
    assert c[..|d|] == d;
    forall p | p in DirsUnder(fs, c) ensures p in DirsUnder(fs, d) {
      assert p[..|c|][..|d|] == p[..|d|];
    }
    var a, b := DirsUnder(fs, c), DirsUnder(fs, d);
    assert c in b - a;
    assert b == a + (b - a);
    assert |b - a| >= 1;
  }

  // ---------------------------------------------------------------------
  // `_walk_dir_with_links`
  // ---------------------------------------------------------------------

  /** How the status page presents a file: WAV (download link), JSON (view
      and download links) or anything else (download link). */
  datatype FileKind = Audio | Json | Other

  function Classify(name: string): (k: FileKind)
    ensures k == Audio <==> EndsWith(name, ".wav")
    ensures k == Json <==> !EndsWith(name, ".wav") && EndsWith(name, ".json")
  {
    if EndsWith(name, ".wav") then Audio
    else if EndsWith(name, ".json") then Json
    else Other
  }

  /** A link of the status page, with its (unquoted) `file_path` query. */
  datatype Link = ViewLink(query: string) | DownloadLink(query: string)

  function Links(k: FileKind, query: string): (r: seq<Link>)
    ensures ViewLink(query) in r <==> k == Json
    ensures forall i | 0 <= i < |r| :: r[i].query == query
    ensures DownloadLink(query) in r
  {
    match k
    case Audio => [DownloadLink(query)]
    case Json => [ViewLink(query), DownloadLink(query)]
    case Other => [DownloadLink(query)]
  }

  /** One line of the walk: a folder with its own listing, or a file with
      its absolute path, kind and links. */
  datatype Entry =
    | Folder(name: string, entries: seq<Entry>)
    | FileEntry(name: string, path: Path, kind: FileKind, links: seq<Link>)

  /** The entry for the file `name` in `d`; links carry the path relative
      to `base`, joined with `/`. */
  function FileLeaf(base: Path, d: Path, name: string): (e: Entry)
    requires |base| <= |d|
    ensures e.FileEntry? && e.name == name && e.path == d + [name] && e.kind == Classify(name)
  {
    var p := d + [name];
    var k := Classify(name);
    FileEntry(name, p, k, Links(k, Join(p[|base|..], '/')))
  }

  /** `_walk_dir_with_links(d, base)`: the subdirectories of `d` first, in
      ascending order, each followed by its own walk; then the files of
      `d`, in ascending order. */
  function Walk(fs: Fs, base: Path, d: Path): (r: seq<Entry>)
    requires |base| <= |d|
    ensures |r| == |ChildDirs(fs, d)| + |ChildFiles(fs, d)|
    decreases |DirsUnder(fs, d)|, 1
  {
    Folders(fs, base, d, SortSet(ChildDirs(fs, d))) + FileLeaves(base, d, SortSet(ChildFiles(fs, d)))
  }

  /** One file line per name. */
  function FileLeaves(base: Path, d: Path, names: seq<string>): (r: seq<Entry>)
    requires |base| <= |d|
    ensures |r| == |names|
    ensures forall k | 0 <= k < |r| :: r[k] == FileLeaf(base, d, names[k])
  {
    seq(|names|, k requires 0 <= k < |names| => FileLeaf(base, d, names[k]))
  }

  /** One folder line per name, each followed by the walk of that folder. */
  function Folders(fs: Fs, base: Path, d: Path, names: seq<string>): (r: seq<Entry>)
    requires |base| <= |d|
    requires forall n | n in names :: n in ChildDirs(fs, d)
    ensures |r| == |names|
    ensures forall k | 0 <= k < |r| :: r[k].Folder? && r[k].name == names[k]
    decreases |DirsUnder(fs, d)|, 0, |names|
  {
    if |names| == 0 then []
    else
      assert names[0] in ChildDirs(fs, d);
      DirsUnderShrink(fs, d, names[0]);
      [Folder(names[0], Walk(fs, base, d + [names[0]]))] + Folders(fs, base, d, names[1..])
  }

  /** Each folder line holds the walk of that folder. */
  lemma {:induction false} FoldersAt(fs: Fs, base: Path, d: Path, names: seq<string>, k: int)
    requires |base| <= |d|
    requires forall n | n in names :: n in ChildDirs(fs, d)
    requires 0 <= k < |names|
    ensures Folders(fs, base, d, names)[k] == Folder(names[k], Walk(fs, base, d + [names[k]]))
    decreases |names|
  {
    if k > 0 {
      FoldersAt(fs, base, d, names[1..], k - 1);
    }
  }

  /** The walk of `d`: its folder lines, then its file lines. */
  lemma WalkSplit(fs: Fs, base: Path, d: Path)
    requires |base| <= |d|
    ensures Walk(fs, base, d) == Folders(fs, base, d, SortSet(ChildDirs(fs, d))) + FileLeaves(base, d, SortSet(ChildFiles(fs, d)))
  {
  }

  /** The `i`-th folder line of the walk of `d`: the `i`-th subdirectory
      in ascending order, with its own walk. */
  lemma WalkAtFolder(fs: Fs, base: Path, d: Path, i: int)
    requires |base| <= |d|
    requires 0 <= i < |ChildDirs(fs, d)|
    ensures var n := SortSet(ChildDirs(fs, d))[i];
      Walk(fs, base, d)[i] == Folder(n, Walk(fs, base, d + [n]))
  {
    var dirs := SortSet(ChildDirs(fs, d));
    var folders := Folders(fs, base, d, dirs);
    WalkSplit(fs, base, d);
    FoldersAt(fs, base, d, dirs, i);
    ConcatAt(folders, FileLeaves(base, d, SortSet(ChildFiles(fs, d))), i);
  }

  /** The `j`-th file line of the walk of `d`, after every folder line: the
      `j`-th file in ascending order. */
  lemma WalkAtFile(fs: Fs, base: Path, d: Path, j: int)
    requires |base| <= |d|
    requires 0 <= j < |ChildFiles(fs, d)|
    ensures |ChildDirs(fs, d)| + j < |Walk(fs, base, d)|
    ensures Walk(fs, base, d)[|ChildDirs(fs, d)| + j] == FileLeaf(base, d, SortSet(ChildFiles(fs, d))[j])
  {
    var folders := Folders(fs, base, d, SortSet(ChildDirs(fs, d)));
    var leaves := FileLeaves(base, d, SortSet(ChildFiles(fs, d)));
    WalkSplit(fs, base, d);
    ConcatAt(folders, leaves, |folders| + j);
  }

  lemma ConcatAt(a: seq<Entry>, b: seq<Entry>, i: int)
    requires 0 <= i < |a| + |b|
    ensures (a + b)[i] == if i < |a| then a[i] else b[i - |a|]
  {
  }

  /** The walk's order: every folder line before every file line, the
      folders in ascending order of name, the files likewise, every folder
      a subdirectory of `d` and every file a file in `d`. */
  lemma WalkLayout(fs: Fs, base: Path, d: Path)
    requires |base| <= |d|
    ensures var r := Walk(fs, base, d);
      && (forall i | 0 <= i < |r| :: r[i].Folder? <==> i < |ChildDirs(fs, d)|)
      && (forall i | 0 <= i < |r| :: r[i].name in (if r[i].Folder? then ChildDirs(fs, d) else ChildFiles(fs, d)))
      && (forall i, j | 0 <= i < j < |r| && r[i].Folder? == r[j].Folder? :: Below(r[i].name, r[j].name))
  {
    var r := Walk(fs, base, d);
    forall i | 0 <= i < |r| ensures r[i].Folder? <==> i < |ChildDirs(fs, d)| {
      WalkLine(fs, base, d, i);
    }
    forall i | 0 <= i < |r| ensures r[i].name in (if r[i].Folder? then ChildDirs(fs, d) else ChildFiles(fs, d)) {
      WalkLine(fs, base, d, i);
    }
    SortSetAscending(ChildDirs(fs, d));
    SortSetAscending(ChildFiles(fs, d));
    forall i, j | 0 <= i < j < |r| && r[i].Folder? == r[j].Folder? ensures Below(r[i].name, r[j].name) {
      WalkLine(fs, base, d, i);
      WalkLine(fs, base, d, j);
    }
  }

  /** The kind and name of the `i`-th line of the walk of `d`. */
  lemma WalkLine(fs: Fs, base: Path, d: Path, i: int)
    requires |base| <= |d|
    requires 0 <= i < |Walk(fs, base, d)|
    ensures Walk(fs, base, d)[i].Folder? <==> i < |ChildDirs(fs, d)|
    ensures var nd := |ChildDirs(fs, d)|;
      Walk(fs, base, d)[i].name == if i < nd then SortSet(ChildDirs(fs, d))[i] else SortSet(ChildFiles(fs, d))[i - nd]
  {
    var nd := |ChildDirs(fs, d)|;
    if i < nd {
      WalkAtFolder(fs, base, d, i);
    } else {
      WalkAtFile(fs, base, d, i - nd);
    }
  }

  /** `e` shows the file `p`, itself or somewhere inside a folder. */
  predicate Shows(e: Entry, p: Path) {
    match e
    case FileEntry(_, path, _, _) => path == p
    case Folder(_, sub) => exists i | 0 <= i < |sub| :: Shows(sub[i], p)
  }

  predicate ShowsAny(es: seq<Entry>, p: Path) {
    exists i | 0 <= i < |es| :: Shows(es[i], p)
  }

  /** What a line of the walk of `d` shows: a file directly in `d`, or
      something the walk of one of its subdirectories shows. */
  lemma WalkShowsFrom(fs: Fs, base: Path, d: Path, p: Path) returns (n: string, deeper: bool)
    requires |base| <= |d|
    requires ShowsAny(Walk(fs, base, d), p)
    ensures deeper ==> n in ChildDirs(fs, d) && ShowsAny(Walk(fs, base, d + [n]), p)
    ensures !deeper ==> n in ChildFiles(fs, d) && p == d + [n]
  {
    var r := Walk(fs, base, d);
    var nd := |ChildDirs(fs, d)|;
    var i :| 0 <= i < |r| && Shows(r[i], p);
    if i < nd {
      WalkAtFolder(fs, base, d, i);
      n, deeper := SortSet(ChildDirs(fs, d))[i], true;
      assert r[i] == Folder(n, Walk(fs, base, d + [n]));
    } else {
      WalkAtFile(fs, base, d, i - nd);
      n, deeper := SortSet(ChildFiles(fs, d))[i - nd], false;
      assert r[i] == FileLeaf(base, d, n);
    }
  }

  /** The walk of `d` shows every file directly in `d`. */
  lemma WalkShowsFile(fs: Fs, base: Path, d: Path, n: string)
    requires |base| <= |d|
    requires n in ChildFiles(fs, d)
    ensures ShowsAny(Walk(fs, base, d), d + [n])
  {
    var files := SortSet(ChildFiles(fs, d));
    var j :| 0 <= j < |files| && files[j] == n;
    var i := |ChildDirs(fs, d)| + j;
    WalkAtFile(fs, base, d, j);
    assert Shows(Walk(fs, base, d)[i], d + [n]);
  }

  /** The walk of `d` shows whatever the walks of its subdirectories show. */
  lemma WalkShowsFolder(fs: Fs, base: Path, d: Path, n: string, p: Path)
    requires |base| <= |d|
    requires n in ChildDirs(fs, d)
    requires ShowsAny(Walk(fs, base, d + [n]), p)
    ensures ShowsAny(Walk(fs, base, d), p)
  {
    var dirs := SortSet(ChildDirs(fs, d));
    var j :| 0 <= j < |dirs| && dirs[j] == n;
    WalkAtFolder(fs, base, d, j);
    assert Shows(Walk(fs, base, d)[j], p);
  }

  /** Everything the walk of `d` shows is a file below `d`. */
  lemma {:induction false} WalkShowsOnlyBelow(fs: Fs, base: Path, d: Path, p: Path)
    requires |base| <= |d|
    requires ShowsAny(Walk(fs, base, d), p)
    ensures p in fs.files && |p| > |d| && p[..|d|] == d
    decreases |DirsUnder(fs, d)|
  {
    var n, deeper := WalkShowsFrom(fs, base, d, p);
    var c := d + [n];
    if deeper {
      DirsUnderShrink(fs, d, n);
      WalkShowsOnlyBelow(fs, base, c, p);
      assert c[..|d|] == d;
      BelowBelow(p, c, d);
    } else {
      assert p[..|d|] == d;
    }
  }

  /** On a well-formed tree every file below `d` is shown by its walk. */
  lemma {:induction false} WalkShowsAllBelow(fs: Fs, base: Path, d: Path, p: Path)
    requires Wf(fs)
    requires |base| <= |d|
    requires p in fs.files && |p| > |d| && p[..|d|] == d
    ensures ShowsAny(Walk(fs, base, d), p)
    decreases |DirsUnder(fs, d)|
  {
    var n := p[|d|];
    var c := p[..|d| + 1];
    assert c == d + [n];
    if |p| == |d| + 1 {
      assert p == c;
      WalkShowsFile(fs, base, d, n);
    } else {
      assert c in fs.dirs;
      DirsUnderShrink(fs, d, n);
      assert p[..|c|] == c;
      WalkShowsAllBelow(fs, base, c, p);
      WalkShowsFolder(fs, base, d, n, p);
    }
  }

  /** On a well-formed tree the walk of `d` shows exactly the files below
      `d`, at any depth. */
  lemma WalkShowsExactly(fs: Fs, base: Path, d: Path, p: Path)
    requires Wf(fs)
    requires |base| <= |d|
    ensures ShowsAny(Walk(fs, base, d), p) <==> p in fs.files && |p| > |d| && p[..|d|] == d
  {
    if ShowsAny(Walk(fs, base, d), p) {
      WalkShowsOnlyBelow(fs, base, d, p);
    }
    if p in fs.files && |p| > |d| && p[..|d|] == d {
      WalkShowsAllBelow(fs, base, d, p);
    }
  }

  // ---------------------------------------------------------------------
  // Links of the status page
  // ---------------------------------------------------------------------

  /** Every name in the tree is a real file name: it holds no `/`. */
  predicate SlashFreeNames(fs: Fs) {
    forall p, i | p in fs.files && 0 <= i < |p| :: '/' !in p[i]
  }

  /** Every link the walk prints for a file below `base` is served: the
      download link returns the file with the media type of its name, and
      the view link (JSON files only) reads the file as JSON, never
      tripping the `.json` test or the existence test of `/view-file`. */
  lemma LeafLinksServe<J>(fs: Fs, base: Path, d: Path, name: string, link: Link, parse: Bytes -> Parse<J>)
    requires SlashFreeNames(fs)
    requires |base| <= |d| && d[..|base|] == base
    requires d + [name] in fs.files
    requires link in FileLeaf(base, d, name).links
    ensures var p := d + [name];
      && (link.DownloadLink? ==> DownloadByPath(fs, base, link.query) == Ok(FileReply(fs.files[p], MediaType(name), name)))
      && (link.ViewLink? ==> ViewFile(fs, base, link.query, parse) == ReadJson(fs, p, parse))
  {
    var p := d + [name];
    var rel := p[|base|..];
    assert link.query == Join(rel, '/');
    assert forall k | 0 <= k < |rel| :: '/' !in rel[k] by {
      forall k | 0 <= k < |rel| ensures '/' !in rel[k] {
        assert rel[k] == p[|base| + k];
      }
    }
    SplitJoin(rel, '/');
    assert base + rel == p;
    if link.ViewLink? {
      assert Classify(name) == Json;
      JoinEndsWith(rel, '/', ".json");
    }
  }

  // ---------------------------------------------------------------------
  // `/status`
  // ---------------------------------------------------------------------

  datatype DateListing = DateListing(date: string, entries: seq<Entry>)
  datatype DeviceListing = DeviceListing(device: string, dates: seq<DateListing>)

  /** The status page: a notice when the base directory is missing, the
      catch-all error page when listing it fails, else the listing. */
  datatype StatusPage = NoBaseDir | ErrorPage | Page(devices: seq<DeviceListing>)

  /** The device directories, ascending. */
  function DeviceNames(fs: Fs, root: Path): (r: seq<string>)
    ensures StrictlyAscending(r)
    ensures forall x :: x in r <==> root + [x] in fs.dirs
  {
    SortSetAscending(ChildDirs(fs, root));
    SortSet(ChildDirs(fs, root))
  }

  /** The date directories of one device, newest first by
      `_sort_dates`. */
  function DateNames(fs: Fs, root: Path, device: string): (r: seq<string>)
    ensures Dates.NewestFirst(r, Dates.Key)
    ensures forall x :: x in r <==> root + [device, x] in fs.dirs
    ensures |r| == |ChildDirs(fs, root + [device])|
  {
    var dev := root + [device];
    var sorted := SortSet(ChildDirs(fs, dev));
    var r := Dates.SortDates(sorted);
    SameMembers(r, sorted);
    assert |r| == |sorted| by {
      assert |multiset(r)| == |multiset(sorted)|;
    }
    forall x ensures x in r <==> root + [device, x] in fs.dirs {
      assert dev + [x] == root + [device, x];
    }
    r
  }

  /** A permutation has the same members. */
  lemma SameMembers(a: seq<string>, b: seq<string>)
    requires multiset(a) == multiset(b)
    ensures forall x :: x in a <==> x in b
  {
    forall x ensures x in a <==> x in b {
      assert x in a <==> x in multiset(a);
      assert x in b <==> x in multiset(b);
    }
  }

  /** Each date directory with its walk. */
  function DateListings(fs: Fs, root: Path, device: string): (r: seq<DateListing>)
    ensures |r| == |DateNames(fs, root, device)|
    ensures forall j | 0 <= j < |r| :: r[j].date == DateNames(fs, root, device)[j]
    ensures forall j | 0 <= j < |r| :: r[j].entries == Walk(fs, root, root + [device, r[j].date])
  {
    var names := DateNames(fs, root, device);
    seq(|names|, j requires 0 <= j < |names| => DateListing(names[j], Walk(fs, root, root + [device, names[j]])))
  }

  /** `status_all`: the device directories in ascending order, each with
      its date directories newest first, each date walked. */
  function Status(fs: Fs, root: Path): (r: StatusPage)
    ensures r == NoBaseDir <==> !Exists(fs, root)
    ensures r == ErrorPage <==> root in fs.files
    ensures r.Page? ==> |r.devices| == |DeviceNames(fs, root)|
    ensures r.Page? ==> forall i | 0 <= i < |r.devices| ::
      r.devices[i].device == DeviceNames(fs, root)[i] && r.devices[i].dates == DateListings(fs, root, r.devices[i].device)
  {
    if !Exists(fs, root) then NoBaseDir
    else if root in fs.files then ErrorPage
    else
      var names := DeviceNames(fs, root);
      Page(seq(|names|, i requires 0 <= i < |names| => DeviceListing(names[i], DateListings(fs, root, names[i]))))
  }

  /** The page shows file `p` under some device and date. */
  predicate PageShows(devices: seq<DeviceListing>, p: Path) {
    exists i, j | 0 <= i < |devices| && 0 <= j < |devices[i].dates| :: ShowsAny(devices[i].dates[j].entries, p)
  }

  /** The line of the status page for a device and a date is the walk of
      that date's directory. */
  lemma StatusLine(fs: Fs, root: Path, i: int, j: int)
    requires Status(fs, root).Page?
    requires 0 <= i < |Status(fs, root).devices|
    requires 0 <= j < |Status(fs, root).devices[i].dates|
    ensures var line := Status(fs, root).devices[i];
      line.dates[j].entries == Walk(fs, root, root + [line.device, line.dates[j].date])
  {
    var line := Status(fs, root).devices[i];
    assert line.dates == DateListings(fs, root, line.device);
  }

  /** Every date directory of every device has its line on the status
      page. */
  lemma StatusFind(fs: Fs, root: Path, device: string, date: string) returns (i: int, j: int)
    requires Status(fs, root).Page?
    requires root + [device] in fs.dirs && root + [device, date] in fs.dirs
    ensures 0 <= i < |Status(fs, root).devices|
    ensures 0 <= j < |Status(fs, root).devices[i].dates|
    ensures Status(fs, root).devices[i].device == device
    ensures Status(fs, root).devices[i].dates[j].date == date
  {
    var names := DeviceNames(fs, root);
    assert device in names;
    i :| 0 <= i < |names| && names[i] == device;
    var dnames := DateNames(fs, root, device);
    assert date in dnames;
    j :| 0 <= j < |dnames| && dnames[j] == date;
    var listings := DateListings(fs, root, device);
    assert Status(fs, root).devices[i].dates == listings;
  }

  /** A file three levels below the base directory lies in a date
      directory of a device directory. */
  lemma DeviceAndDateDirs(fs: Fs, root: Path, p: Path)
    requires Wf(fs)
    requires p in fs.files && |p| >= |root| + 3 && p[..|root|] == root
    ensures root + [p[|root|]] in fs.dirs
    ensures root + [p[|root|], p[|root| + 1]] in fs.dirs
    ensures p[..|root| + 2] == root + [p[|root|], p[|root| + 1]]
  {
    BelowChild(p, root);
    BelowChild(p, root + [p[|root|]]);
    assert root + [p[|root|]] + [p[|root| + 1]] == root + [p[|root|], p[|root| + 1]];
    assert p[..|root| + 1] in fs.dirs && p[..|root| + 2] in fs.dirs;
  }

  /** Everything the status page shows is a file at least three levels
      below the base directory. */
  lemma StatusShowsOnlyBelow(fs: Fs, root: Path, p: Path)
    requires Status(fs, root).Page?
    requires PageShows(Status(fs, root).devices, p)
    ensures p in fs.files && |p| >= |root| + 3 && p[..|root|] == root
  {
    var devices := Status(fs, root).devices;
    var i, j :| 0 <= i < |devices| && 0 <= j < |devices[i].dates| && ShowsAny(devices[i].dates[j].entries, p);
    var d := root + [devices[i].device, devices[i].dates[j].date];
    StatusLine(fs, root, i, j);
    WalkShowsOnlyBelow(fs, root, d, p);
    assert d[..|root|] == root;
    BelowBelow(p, d, root);
  }

  /** On a well-formed tree the status page shows every file at least three
      levels below the base directory. */
  lemma StatusShowsAllBelow(fs: Fs, root: Path, p: Path)
    requires Wf(fs)
    requires Status(fs, root).Page?
    requires p in fs.files && |p| >= |root| + 3 && p[..|root|] == root
    ensures PageShows(Status(fs, root).devices, p)
  {
    var device, date := p[|root|], p[|root| + 1];
    var d := root + [device, date];
    DeviceAndDateDirs(fs, root, p);
    var i, j := StatusFind(fs, root, device, date);
    StatusLine(fs, root, i, j);
    WalkShowsAllBelow(fs, root, d, p);
    var devices := Status(fs, root).devices;
    assert ShowsAny(devices[i].dates[j].entries, p);
  }

  /** On a well-formed tree the status page shows exactly the files at least
      three levels below the base directory: files directly in the base
      directory or in a device directory are not shown. */
  lemma StatusShowsExactly(fs: Fs, root: Path, p: Path)
    requires Wf(fs)
    requires Status(fs, root).Page?
    ensures PageShows(Status(fs, root).devices, p) <==> p in fs.files && |p| >= |root| + 3 && p[..|root|] == root
  {
    if PageShows(Status(fs, root).devices, p) {
      StatusShowsOnlyBelow(fs, root, p);
    }
    if p in fs.files && |p| >= |root| + 3 && p[..|root|] == root {
      StatusShowsAllBelow(fs, root, p);
    }
  }

  // ---------------------------------------------------------------------
  // The OpenSMILE slot listing
  // ---------------------------------------------------------------------

  /** What the slot listing answers; `directory` is absent from the answer
      for a missing features directory. */
  datatype SlotListing = SlotListing(slots: seq<string>, count: int, hasSummary: bool, directory: Option<Path>)

  /** The entries of `d`, files and directories alike, whose name ends in
      `.json`: what `os.listdir` filtered on `endswith('.json')` yields. */
  function JsonEntries(fs: Fs, d: Path): set<string> {
    set n | n in ChildFiles(fs, d) + ChildDirs(fs, d) && EndsWith(n, ".json")
  }

  /** Each name with every occurrence of `.json` removed, in order. */
  function StripJson(names: seq<string>): (r: seq<string>)
    ensures |r| == |names|
    ensures forall i | 0 <= i < |r| :: r[i] == RemoveAll(names[i], ".json")
    ensures forall s :: s in r <==> exists n | n in names :: RemoveAll(n, ".json") == s
  {
    var r := seq(|names|, i requires 0 <= i < |names| => RemoveAll(names[i], ".json"));
    forall s ensures s in r <==> exists n | n in names :: RemoveAll(n, ".json") == s {
      if exists n | n in names :: RemoveAll(n, ".json") == s {
        var n :| n in names && RemoveAll(n, ".json") == s;
        var i :| 0 <= i < |names| && names[i] == n;
        assert r[i] == s;
      }
    }
    r
  }

  /** The listing over a features directory and a summary directory: an
      empty answer when the features directory is missing (without looking
      at the summary), 500 when it is a file, else every `.json` entry with
      each `.json` occurrence removed, sorted, with their count and whether
      the summary's `result.json` exists. */
  function ListSlotsIn(fs: Fs, features: Path, summary: Path): (r: Result<SlotListing>)
    ensures !Exists(fs, features) ==> r == Ok(SlotListing([], 0, false, None))
    ensures r.Err? <==> features in fs.files
    ensures r.Err? ==> r.failure == ServerError
    ensures r.Ok? ==> Ascending(r.value.slots) && r.value.count == |r.value.slots|
    ensures r.Ok? && Exists(fs, features) ==>
      && r.value.directory == Some(features)
      && r.value.count == |JsonEntries(fs, features)|
      && (r.value.hasSummary <==> Exists(fs, summary + ["result.json"]))
      && forall s :: s in r.value.slots <==> exists n | n in JsonEntries(fs, features) :: RemoveAll(n, ".json") == s
    ensures r.Ok? && Exists(fs, features) ==>
      multiset(r.value.slots) == multiset(StripJson(SortSet(JsonEntries(fs, features))))
  {
    if !Exists(fs, features) then Ok(SlotListing([], 0, false, None))
    else if features in fs.files then Err(ServerError)
    else
      var names := SortSet(JsonEntries(fs, features));
      var stripped := StripJson(names);
      var slots := SortStrings(stripped);
      assert |slots| == |names| by {
        assert |multiset(slots)| == |multiset(stripped)|;
      }
      SameMembers(slots, stripped);
      Ok(SlotListing(slots, |slots|, Exists(fs, summary + ["result.json"]), Some(features)))
  }

  /** `/api/devices/{device_id}/logs/{date}/opensmile` and its legacy
      `/api/users/{user_id}/...` twin, each building its two directories
      inline; both list the owner's features next to the summary the
      summary fetch reads. */
  function ListSlots(fs: Fs, root: Path, route: Route, owner: string, date: string): (r: Result<SlotListing>)
    ensures r == ListSlotsIn(fs, root + [owner, date, SlotDir(Opensmile)], root + [owner, date, SingleDir(OpensmileSummary)])
  {
    match route
    case ByDevice => ListSlotsIn(fs, root + [owner, date, "opensmile"], root + [owner, date, "opensmile-summary"])
    case ByUser => ListSlotsIn(fs, root + [owner, date, "opensmile"], root + [owner, date, "opensmile-summary"])
  }

  /** A slot name without a dot comes back unchanged from its `.json` file. */
  lemma {:induction false} StripPlainSlot(x: string)
    requires '.' !in x
    ensures RemoveAll(x + ".json", ".json") == x
  {
    var s := x + ".json";
    if |x| > 0 {
      assert s[0] == x[0] && x[0] != '.';
      assert s[..5] != ".json";
      assert s[1..] == x[1..] + ".json";
      assert x[1..] + ".json" == s[1..];
      StripPlainSlot(x[1..]);
      assert [x[0]] + x[1..] == x;
    } else {
      assert s == ".json";
      assert s[5..] == "";
    }
  }

  /** `replace` removes every occurrence, not only the suffix. */
  lemma StripEveryOccurrence()
    ensures RemoveAll("a.json.json", ".json") == "a"
  {
    var s := "a.json.json";
    assert RemoveAll(".json", ".json") == "" by {
      assert ".json"[..5] == ".json" && ".json"[5..] == "";
    }
    assert RemoveAll(".json.json", ".json") == "" by {
      assert ".json.json"[..5] == ".json" && ".json.json"[5..] == ".json";
    }
    assert s[..5] != ".json" by {
      assert s[..5][0] == 'a';
    }
    assert s[1..] == ".json.json";
  }

  /** A feature file uploaded for a dot-free slot is listed under that slot
      by either route. */
  lemma FeaturesUploadListed(fs: Fs, root: Path, device: string, date: string, slot: string, filename: string, data: Bytes, route: Route)
    requires '.' !in slot
    requires UploadForm(fs, root, UploadOpensmileFeatures(device, date, slot), filename, data).Ok?
    ensures var fs1 := UploadForm(fs, root, UploadOpensmileFeatures(device, date, slot), filename, data).value.fs;
      var r := ListSlots(fs1, root, route, device, date);
      r.Ok? && slot in r.value.slots
  {
    var u := UploadOpensmileFeatures(device, date, slot);
    var fs1 := UploadForm(fs, root, u, filename, data).value.fs;
    var p := Resolve(root, FormKey(u));
    var features := root + [device, date, "opensmile"];
    assert p == features + [slot + ".json"];
    assert p[..|root| + 3] == features;
    assert features in fs1.dirs;
    assert features !in fs1.files by {
      assert features != p;
      assert p[..|root| + 3] !in fs.files;
    }
    EndsWithAppend(slot, ".json");
    var summary := root + [device, date, "opensmile-summary"];
    JsonFileListed(fs1, features, summary, slot + ".json");
    StripPlainSlot(slot);
    assert ListSlots(fs1, root, route, device, date) == ListSlotsIn(fs1, features, summary);
  }

  /** A `.json` file in an existing features directory is listed, with
      every `.json` removed from its name. */
  lemma JsonFileListed(fs: Fs, features: Path, summary: Path, name: string)
    requires features in fs.dirs && features !in fs.files
    requires features + [name] in fs.files && EndsWith(name, ".json")
    ensures ListSlotsIn(fs, features, summary).Ok?
    ensures RemoveAll(name, ".json") in ListSlotsIn(fs, features, summary).value.slots
  {
    assert name in JsonEntries(fs, features);
  }

  /** After the summary upload the listing reports it, as long as the
      features directory exists; without that directory it never does. */
  lemma SummaryUploadShown(fs: Fs, root: Path, device: string, date: string, filename: string, data: Bytes, route: Route)
    requires UploadForm(fs, root, UploadOpensmileSummary(device, date), filename, data).Ok?
    ensures var fs1 := UploadForm(fs, root, UploadOpensmileSummary(device, date), filename, data).value.fs;
      var r := ListSlots(fs1, root, route, device, date);
      r.Ok? ==> (r.value.hasSummary <==> Exists(fs1, root + [device, date, "opensmile"]))
  {
    var u := UploadOpensmileSummary(device, date);
    var fs1 := UploadForm(fs, root, u, filename, data).value.fs;
    var p := Resolve(root, FormKey(u));
    assert p == root + [device, date, "opensmile-summary"] + ["result.json"];
    assert p in fs1.files;
    var r := ListSlotsIn(fs1, root + [device, date, "opensmile"], root + [device, date, "opensmile-summary"]);
    assert ListSlots(fs1, root, route, device, date) == r;
  }
}

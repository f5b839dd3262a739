/** Comparing a directory tree with what it should be (storage/check.go). */
module CheckTree {
  import opened Common

  datatype FileInfo = FileInfo(typeflag: int, uid: int, gid: int, size: int, mode: bv32, mtime: int)

  datatype Directory = Directory(directories: map<string, Directory>, files: map<string, FileInfo>, info: FileInfo)

  datatype Ignore = Ignore(ownership: bool, timestamps: bool, permissions: bool, filetype: bool)

  /** ID mappings; `None` maps every ID to itself. */
  datatype Mappings = Mappings(uids: Option<seq<IDMap>>, gids: Option<seq<IDMap>>)

  datatype Attribute = Filetype | Unmapped | Uid | Gid | Size | Mode | Mtime

  datatype Difference =
    | Removed(path: seq<string>)
    | Added(path: seq<string>)
    | Changed(path: seq<string>, attributes: set<Attribute>)

  const TYPE_DIR := 53
  /** The type bits and the permission bits of a file mode. */
  const MODE_MASK: bv32 := 0x8F28_01FF

  const EMPTY := Directory(map[], map[], FileInfo(TYPE_DIR, 0, 0, 0, 0x16D, 0))

  // ---- Attributes

  /** The container ID that the first fitting range gives to a host ID. */
  function FirstFit(hostID: int, maps: seq<IDMap>): Option<int> {
    if maps == [] then None
    else if maps[0].hostID <= hostID <= maps[0].hostID + maps[0].size - 1
    then Some(maps[0].containerID + (hostID - maps[0].hostID))
    else FirstFit(hostID, maps[1..])
  }

  function ToContainer(hostID: int, ids: Option<seq<IDMap>>): Option<int> {
    if ids.Some? then FirstFit(hostID, ids.value) else Some(hostID)
  }

  method RawToContainer(hostID: int, ids: Option<seq<IDMap>>) returns (r: Option<int>)
    ensures r == ToContainer(hostID, ids)
  {
    if ids.None? {
      return Some(hostID);
    }
    var maps := ids.value;
    for k := 0 to |maps|
      invariant FirstFit(hostID, maps) == FirstFit(hostID, maps[k..])
    {
      assert maps[k..][1..] == maps[k + 1..];
      if hostID >= maps[k].hostID && hostID <= maps[k].hostID + maps[k].size - 1 {
        return Some(maps[k].containerID + (hostID - maps[k].hostID));
      }
    }
    r := None;
  }

  predicate IsEmpty(m: Mappings) {
    (m.uids.None? || m.uids.value == []) && (m.gids.None? || m.gids.value == [])
  }

  /** The owner of a file on disk as the container sees it. */
  function Owner(b: FileInfo, idmap: Option<Mappings>): Option<(int, int)> {
    if idmap.None? || IsEmpty(idmap.value) then Some((b.uid, b.gid))
    else
      var uid, gid := ToContainer(b.uid, idmap.value.uids), ToContainer(b.gid, idmap.value.gids);
      if uid.Some? && gid.Some? then Some((uid.value, gid.value)) else None
  }

  /** The part of a file mode that is compared. */
  function Looked(mode: bv32): bv32 {
    mode & MODE_MASK
  }

  /** The attributes agree, as far as they are looked at. */
  predicate Alike(a: FileInfo, b: FileInfo, idmap: Option<Mappings>, ignore: Ignore) {
    && Owner(b, idmap).Some?
    && (a.typeflag == b.typeflag || ignore.filetype)
    && ((a.uid, a.gid) == Owner(b, idmap).value || ignore.ownership)
    && a.size == b.size
    && (Looked(a.mode) == Looked(b.mode) || ignore.permissions)
    && (a.mtime == b.mtime || ignore.timestamps)
  }

  /** Attribute `t` is looked at and differs. */
  predicate Differing(t: Attribute, a: FileInfo, b: FileInfo, owner: (int, int), ignore: Ignore) {
    match t
    case Filetype => a.typeflag != b.typeflag && !ignore.filetype
    case Unmapped => false
    case Uid => a.uid != owner.0 && !ignore.ownership
    case Gid => a.gid != owner.1 && !ignore.ownership
    case Size => a.size != b.size
    case Mode => Looked(a.mode) != Looked(b.mode) && !ignore.permissions
    case Mtime => a.mtime != b.mtime && !ignore.timestamps
  }

  /** The attributes that are looked at and differ; without an owner in the container nothing else is looked at. */
  function DifferingAttributes(a: FileInfo, b: FileInfo, idmap: Option<Mappings>, ignore: Ignore): set<Attribute> {
    match Owner(b, idmap)
    case None => {Unmapped}
    case Some(owner) => set t: Attribute | Differing(t, a, b, owner, ignore)
  }

  /** The attributes that differ; the owner of `b` may have to be mapped first. */
  method CompareFileInfo(a: FileInfo, b: FileInfo, idmap: Option<Mappings>, ignore: Ignore) returns (comparison: set<Attribute>)
    ensures comparison == DifferingAttributes(a, b, idmap, ignore)
    ensures comparison == {} <==> Alike(a, b, idmap, ignore)
  {
    var uid, gid := b.uid, b.gid;
    if idmap.Some? && !IsEmpty(idmap.value) {
      var mappedUID := RawToContainer(b.uid, idmap.value.uids);
      var mappedGID := RawToContainer(b.gid, idmap.value.gids);
      if mappedUID.None? || mappedGID.None? {
        return {Unmapped};
      }
      uid, gid := mappedUID.value, mappedGID.value;
    }
    AlikeMeansNoneDiffers(a, b, (uid, gid), idmap, ignore);
    comparison := CompareAttributes(a, b, (uid, gid), ignore);
  }

  lemma AlikeMeansNoneDiffers(a: FileInfo, b: FileInfo, owner: (int, int), idmap: Option<Mappings>, ignore: Ignore)
    requires Owner(b, idmap) == Some(owner)
    ensures Alike(a, b, idmap, ignore) <==> forall t :: !Differing(t, a, b, owner, ignore)
  {
    if forall t :: !Differing(t, a, b, owner, ignore) {
      assert !Differing(Filetype, a, b, owner, ignore) && !Differing(Uid, a, b, owner, ignore) && !Differing(Gid, a, b, owner, ignore);
      assert !Differing(Size, a, b, owner, ignore) && !Differing(Mode, a, b, owner, ignore) && !Differing(Mtime, a, b, owner, ignore);
    }
  }

  method CompareAttributes(a: FileInfo, b: FileInfo, owner: (int, int), ignore: Ignore) returns (comparison: set<Attribute>)
    ensures forall t :: t in comparison <==> Differing(t, a, b, owner, ignore)
    ensures comparison == {} <==> forall t :: !Differing(t, a, b, owner, ignore)
  {
    comparison := {};
    if a.typeflag != b.typeflag && !ignore.filetype {
      comparison := comparison + {Filetype};
    }
    if a.uid != owner.0 && !ignore.ownership {
      comparison := comparison + {Uid};
    }
    if a.gid != owner.1 && !ignore.ownership {
      comparison := comparison + {Gid};
    }
    if a.size != b.size {
      comparison := comparison + {Size};
    }
    if Looked(a.mode) != Looked(b.mode) && !ignore.permissions {
      comparison := comparison + {Mode};
    }
    if a.mtime != b.mtime && !ignore.timestamps {
      comparison := comparison + {Mtime};
    }
  }

  // ---- Trees

  /** The directory at a path below `d`. */
  function DirectoryAt(d: Directory, path: seq<string>): Option<Directory> {
    if path == [] then Some(d)
    else if path[0] in d.directories then DirectoryAt(d.directories[path[0]], path[1..])
    else None
  }

  /** The same files, with attributes that agree. */
  ghost predicate SameFiles(a: map<string, FileInfo>, b: map<string, FileInfo>, idmap: Option<Mappings>, ignore: Ignore) {
    a.Keys == b.Keys && forall n :: n in a && n in b ==> Alike(a[n], b[n], idmap, ignore)
  }

  /** What the trees have at `path` is the same. */
  ghost predicate SameAt(a: Directory, b: Directory, path: seq<string>, idmap: Option<Mappings>, ignore: Ignore) {
    match (DirectoryAt(a, path), DirectoryAt(b, path))
    case (Some(x), Some(y)) => (path != [] ==> Alike(x.info, y.info, idmap, ignore)) && SameFiles(x.files, y.files, idmap, ignore)
    case (None, None) => true
    case _ => false
  }

  /** The trees have the same directories and files at every depth, and their attributes agree; those of the tops do not matter. */
  ghost predicate SameTree(a: Directory, b: Directory, idmap: Option<Mappings>, ignore: Ignore) {
    forall path :: SameAt(a, b, path, idmap, ignore)
  }

  // ---- Differences

  /** The attributes of the directory at a path below the top. */
  function DirectoryInfo(d: Directory, path: seq<string>): Option<FileInfo> {
    if path != [] && DirectoryAt(d, path).Some? then Some(DirectoryAt(d, path).value.info) else None
  }

  /** The attributes of the file at a path. */
  function FileInfoAt(d: Directory, path: seq<string>): Option<FileInfo> {
    if path == [] then None
    else
      var parent, name := DirectoryAt(d, path[..|path| - 1]), path[|path| - 1];
      if parent.Some? && name in parent.value.files then Some(parent.value.files[name]) else None
  }

  /** What there is to report about one file or one directory. */
  function Difference1(path: seq<string>, a: Option<FileInfo>, b: Option<FileInfo>, idmap: Option<Mappings>, ignore: Ignore): Option<Difference> {
    match (a, b)
    case (Some(_), None) => Some(Removed(path))
    case (None, Some(_)) => Some(Added(path))
    case (Some(x), Some(y)) => if Alike(x, y, idmap, ignore) then None else Some(Changed(path, DifferingAttributes(x, y, idmap, ignore)))
    case (None, None) => None
  }

  /** `d` is what there is to report at `path`, for a directory or for a file. */
  ghost predicate DiffersAt(top: seq<string>, a: Directory, b: Directory, path: seq<string>, d: Difference, idmap: Option<Mappings>, ignore: Ignore) {
    && path != []
    && (Difference1(top + path, DirectoryInfo(a, path), DirectoryInfo(b, path), idmap, ignore) == Some(d)
        || Difference1(top + path, FileInfoAt(a, path), FileInfoAt(b, path), idmap, ignore) == Some(d))
  }

  ghost predicate Differs(top: seq<string>, a: Directory, b: Directory, d: Difference, idmap: Option<Mappings>, ignore: Ignore) {
    exists path :: DiffersAt(top, a, b, path, d, idmap, ignore)
  }

  /** Nothing can be reported at `path`. */
  ghost predicate QuietAt(a: Directory, b: Directory, path: seq<string>, idmap: Option<Mappings>, ignore: Ignore) {
    path != [] ==>
      && Difference1(path, DirectoryInfo(a, path), DirectoryInfo(b, path), idmap, ignore) == None
      && Difference1(path, FileInfoAt(a, path), FileInfoAt(b, path), idmap, ignore) == None
  }

  lemma SameIsQuiet(a: Directory, b: Directory, path: seq<string>, idmap: Option<Mappings>, ignore: Ignore)
    requires SameTree(a, b, idmap, ignore)
    ensures QuietAt(a, b, path, idmap, ignore)
  {
    assert SameAt(a, b, path, idmap, ignore);
    if path != [] {
      assert SameAt(a, b, path[..|path| - 1], idmap, ignore);
    }
  }

  lemma QuietFile(a: Directory, b: Directory, path: seq<string>, n: string, idmap: Option<Mappings>, ignore: Ignore)
    requires DirectoryAt(a, path).Some? && DirectoryAt(b, path).Some? && QuietAt(a, b, path + [n], idmap, ignore)
    ensures var x, y := DirectoryAt(a, path).value.files, DirectoryAt(b, path).value.files;
      (n in x <==> n in y) && (n in x ==> Alike(x[n], y[n], idmap, ignore))
  {
    assert (path + [n])[..|path|] == path;
  }

  lemma QuietFiles(a: Directory, b: Directory, path: seq<string>, idmap: Option<Mappings>, ignore: Ignore)
    requires DirectoryAt(a, path).Some? && DirectoryAt(b, path).Some?
    requires forall p :: QuietAt(a, b, p, idmap, ignore)
    ensures SameFiles(DirectoryAt(a, path).value.files, DirectoryAt(b, path).value.files, idmap, ignore)
  {
    var x, y := DirectoryAt(a, path).value.files, DirectoryAt(b, path).value.files;
    forall n
      ensures n in x <==> n in y
      ensures n in x ==> Alike(x[n], y[n], idmap, ignore)
    {
      QuietFile(a, b, path, n, idmap, ignore);
    }
  }

  lemma QuietIsSame(a: Directory, b: Directory, path: seq<string>, idmap: Option<Mappings>, ignore: Ignore)
    requires forall p :: QuietAt(a, b, p, idmap, ignore)
    ensures SameAt(a, b, path, idmap, ignore)
  {
    assert QuietAt(a, b, path, idmap, ignore);
    if DirectoryAt(a, path).Some? && DirectoryAt(b, path).Some? {
      QuietFiles(a, b, path, idmap, ignore);
    }
  }

  lemma QuietMeansNothing(top: seq<string>, a: Directory, b: Directory, path: seq<string>, idmap: Option<Mappings>, ignore: Ignore)
    ensures QuietAt(a, b, path, idmap, ignore) <==> forall d :: !DiffersAt(top, a, b, path, d, idmap, ignore)
  {
    if path != [] {
      var x := Difference1(top + path, DirectoryInfo(a, path), DirectoryInfo(b, path), idmap, ignore);
      var y := Difference1(top + path, FileInfoAt(a, path), FileInfoAt(b, path), idmap, ignore);
      if x.Some? {
        assert DiffersAt(top, a, b, path, x.value, idmap, ignore);
      }
      if y.Some? {
        assert DiffersAt(top, a, b, path, y.value, idmap, ignore);
      }
    }
  }

  /** The trees are the same exactly if there is nothing to report. */
  lemma SameMeansNoDifference(top: seq<string>, a: Directory, b: Directory, idmap: Option<Mappings>, ignore: Ignore)
    ensures SameTree(a, b, idmap, ignore) <==> forall d :: !Differs(top, a, b, d, idmap, ignore)
  {
    if SameTree(a, b, idmap, ignore) {
      forall d, path
        ensures !DiffersAt(top, a, b, path, d, idmap, ignore)
      {
        SameIsQuiet(a, b, path, idmap, ignore);
        QuietMeansNothing(top, a, b, path, idmap, ignore);
      }
    }
    if forall d :: !Differs(top, a, b, d, idmap, ignore) {
      forall p
        ensures QuietAt(a, b, p, idmap, ignore)
      {
        forall d
          ensures !DiffersAt(top, a, b, p, d, idmap, ignore)
        {
          assert !Differs(top, a, b, d, idmap, ignore);
        }
        QuietMeansNothing(top, a, b, p, idmap, ignore);
      }
      forall path
        ensures SameAt(a, b, path, idmap, ignore)
      {
        QuietIsSame(a, b, path, idmap, ignore);
      }
    }
  }

  // ---- Differences, directory by directory

  function Child(d: Directory, n: string): Directory {
    if n in d.directories then d.directories[n] else EMPTY
  }

  function ChildInfo(d: Directory, n: string): Option<FileInfo> {
    if n in d.directories then Some(d.directories[n].info) else None
  }

  function OwnFile(d: Directory, n: string): Option<FileInfo> {
    if n in d.files then Some(d.files[n]) else None
  }

  /** `d` is to be reported about the directory `n` or about something below it. */
  ghost predicate InDirectory(top: seq<string>, a: Directory, b: Directory, n: string, d: Difference, idmap: Option<Mappings>, ignore: Ignore) {
    || Difference1(top + [n], ChildInfo(a, n), ChildInfo(b, n), idmap, ignore) == Some(d)
    || Differs(top + [n], Child(a, n), Child(b, n), d, idmap, ignore)
  }

  ghost predicate InFile(top: seq<string>, a: Directory, b: Directory, n: string, d: Difference, idmap: Option<Mappings>, ignore: Ignore) {
    Difference1(top + [n], OwnFile(a, n), OwnFile(b, n), idmap, ignore) == Some(d)
  }

  lemma InfoBelow(d: Directory, n: string, path: seq<string>)
    ensures path != [] ==> DirectoryInfo(d, [n] + path) == DirectoryInfo(Child(d, n), path)
    ensures path != [] ==> FileInfoAt(d, [n] + path) == FileInfoAt(Child(d, n), path)
    ensures DirectoryInfo(d, [n]) == ChildInfo(d, n) && FileInfoAt(d, [n]) == OwnFile(d, n)
  {
    assert [n][1..] == [] && [n][..0] == [];
    assert DirectoryAt(d, [n]) == if n in d.directories then Some(d.directories[n]) else None;
    if path != [] {
      var all, front := [n] + path, path[..|path| - 1];
      assert all[1..] == path && all[..|all| - 1] == [n] + front && ([n] + front)[1..] == front;
    }
  }

  lemma DiffersBelow(top: seq<string>, a: Directory, b: Directory, n: string, path: seq<string>, d: Difference,
                     idmap: Option<Mappings>, ignore: Ignore)
    requires path != []
    ensures DiffersAt(top, a, b, [n] + path, d, idmap, ignore) <==> DiffersAt(top + [n], Child(a, n), Child(b, n), path, d, idmap, ignore)
  {
    InfoBelow(a, n, path);
    InfoBelow(b, n, path);
    Regroup(top, [n], path);
  }

  lemma DiffersHere(top: seq<string>, a: Directory, b: Directory, n: string, d: Difference, idmap: Option<Mappings>, ignore: Ignore)
    ensures DiffersAt(top, a, b, [n], d, idmap, ignore) <==>
      Difference1(top + [n], ChildInfo(a, n), ChildInfo(b, n), idmap, ignore) == Some(d) || InFile(top, a, b, n, d, idmap, ignore)
  {
    InfoBelow(a, n, []);
    InfoBelow(b, n, []);
  }

  lemma DifferenceIsUnder(top: seq<string>, a: Directory, b: Directory, path: seq<string>, d: Difference, idmap: Option<Mappings>, ignore: Ignore)
    requires DiffersAt(top, a, b, path, d, idmap, ignore)
    ensures InDirectory(top, a, b, path[0], d, idmap, ignore) || InFile(top, a, b, path[0], d, idmap, ignore)
  {
    var n, rest := path[0], path[1..];
    assert path == [n] + rest;
    if rest == [] {
      assert path == [n];
      DiffersHere(top, a, b, n, d, idmap, ignore);
    } else {
      DiffersBelow(top, a, b, n, rest, d, idmap, ignore);
    }
  }

  lemma DifferenceIsAbove(top: seq<string>, a: Directory, b: Directory, n: string, d: Difference, idmap: Option<Mappings>, ignore: Ignore)
    requires InDirectory(top, a, b, n, d, idmap, ignore) || InFile(top, a, b, n, d, idmap, ignore)
    ensures Differs(top, a, b, d, idmap, ignore)
  {
    DiffersHere(top, a, b, n, d, idmap, ignore);
    if !DiffersAt(top, a, b, [n], d, idmap, ignore) {
      var path :| DiffersAt(top + [n], Child(a, n), Child(b, n), path, d, idmap, ignore);
      DiffersBelow(top, a, b, n, path, d, idmap, ignore);
      assert DiffersAt(top, a, b, [n] + path, d, idmap, ignore);
    }
  }

  /** What differs, differs in one of the directories or one of the files. */
  lemma DifferenceIsSomewhere(top: seq<string>, a: Directory, b: Directory, d: Difference, idmap: Option<Mappings>, ignore: Ignore)
    ensures Differs(top, a, b, d, idmap, ignore) <==>
            exists n :: InDirectory(top, a, b, n, d, idmap, ignore) || InFile(top, a, b, n, d, idmap, ignore)
  {
    if path :| DiffersAt(top, a, b, path, d, idmap, ignore) {
      DifferenceIsUnder(top, a, b, path, d, idmap, ignore);
    }
    if n :| InDirectory(top, a, b, n, d, idmap, ignore) || InFile(top, a, b, n, d, idmap, ignore) {
      DifferenceIsAbove(top, a, b, n, d, idmap, ignore);
    }
  }

  /** Where neither tree has a directory there is nothing to report. */
  lemma NothingInNoDirectory(top: seq<string>, a: Directory, b: Directory, n: string, d: Difference, idmap: Option<Mappings>, ignore: Ignore)
    requires n !in a.directories && n !in b.directories
    ensures !InDirectory(top, a, b, n, d, idmap, ignore)
  {
    forall path
      ensures !DiffersAt(top + [n], EMPTY, EMPTY, path, d, idmap, ignore)
    {
      assert DirectoryInfo(EMPTY, path) == None && FileInfoAt(EMPTY, path) == None;
    }
  }

  // ---- The comparison

  function OrEmpty(d: Option<Directory>): Directory {
    if d.Some? then d.value else EMPTY
  }

  /** `diff` holds what is to be reported in the directories `ns`, and nothing else. */
  ghost predicate ReportsDirectories(top: seq<string>, a: Directory, b: Directory, ns: set<string>, diff: seq<Difference>,
                                     idmap: Option<Mappings>, ignore: Ignore) {
    forall d :: d in diff <==> exists n :: n in ns && InDirectory(top, a, b, n, d, idmap, ignore)
  }

  ghost predicate ReportsFiles(top: seq<string>, a: Directory, b: Directory, ns: set<string>, diff: seq<Difference>,
                               idmap: Option<Mappings>, ignore: Ignore) {
    forall d :: d in diff <==> exists n :: n in ns && InFile(top, a, b, n, d, idmap, ignore)
  }

  lemma ReportsOneMoreDirectory(top: seq<string>, a: Directory, b: Directory, ns: set<string>, diff: seq<Difference>, n: string,
                                more: seq<Difference>, idmap: Option<Mappings>, ignore: Ignore)
    requires ReportsDirectories(top, a, b, ns, diff, idmap, ignore)
    requires forall d :: d in more <==> InDirectory(top, a, b, n, d, idmap, ignore)
    ensures ReportsDirectories(top, a, b, ns + {n}, diff + more, idmap, ignore)
  {
    forall d
      ensures d in diff + more <==> exists x :: x in ns + {n} && InDirectory(top, a, b, x, d, idmap, ignore)
    {
      assert n in ns + {n};
      assert forall x :: x in ns ==> x in ns + {n};
    }
  }

  lemma ReportsOneMoreFile(top: seq<string>, a: Directory, b: Directory, ns: set<string>, diff: seq<Difference>, n: string,
                           more: seq<Difference>, idmap: Option<Mappings>, ignore: Ignore)
    requires ReportsFiles(top, a, b, ns, diff, idmap, ignore)
    requires forall d :: d in more <==> InFile(top, a, b, n, d, idmap, ignore)
    ensures ReportsFiles(top, a, b, ns + {n}, diff + more, idmap, ignore)
  {
    forall d
      ensures d in diff + more <==> exists x :: x in ns + {n} && InFile(top, a, b, x, d, idmap, ignore)
    {
      assert n in ns + {n};
      assert forall x :: x in ns ==> x in ns + {n};
    }
  }

  /** All directories and all files together are the whole report. */
  lemma ReportsAll(top: seq<string>, a: Directory, b: Directory, inA: seq<Difference>, inB: seq<Difference>, files: seq<Difference>,
                   idmap: Option<Mappings>, ignore: Ignore, d: Difference)
    requires ReportsDirectories(top, a, b, a.directories.Keys, inA, idmap, ignore)
    requires ReportsDirectories(top, a, b, b.directories.Keys - a.directories.Keys, inB, idmap, ignore)
    requires ReportsFiles(top, a, b, a.files.Keys + b.files.Keys, files, idmap, ignore)
    ensures d in inA + inB + files <==> Differs(top, a, b, d, idmap, ignore)
  {
    DifferenceIsSomewhere(top, a, b, d, idmap, ignore);
    forall n | InDirectory(top, a, b, n, d, idmap, ignore)
      ensures d in inA || d in inB
    {
      if n !in a.directories && n !in b.directories {
        NothingInNoDirectory(top, a, b, n, d, idmap, ignore);
      } else if n !in a.directories {
        assert n in b.directories.Keys - a.directories.Keys;
      }
    }
    forall n | InFile(top, a, b, n, d, idmap, ignore)
      ensures d in files
    {
      assert n in a.files.Keys + b.files.Keys;
    }
  }

  /** Reports exactly the differences, at every depth; none if and only if the trees are the same. */
  method CompareCheckSubdirectory(path: seq<string>, a: Option<Directory>, b: Option<Directory>, idmap: Option<Mappings>, ignore: Ignore)
    returns (diff: seq<Difference>)
    ensures forall d :: d in diff <==> Differs(path, OrEmpty(a), OrEmpty(b), d, idmap, ignore)
    ensures diff == [] <==> SameTree(OrEmpty(a), OrEmpty(b), idmap, ignore)
    decreases a.Some? && b.Some?, OrEmpty(a), OrEmpty(b), 1
  {
    var x, y := OrEmpty(a), OrEmpty(b);
    var inA := CompareDirectories(path, a, b, idmap, ignore);
    var inB := AddedDirectories(path, a, b, idmap, ignore);
    var files := CompareFiles(path, x, y, idmap, ignore);
    diff := inA + inB + files;
    forall d
      ensures d in diff <==> Differs(path, x, y, d, idmap, ignore)
    {
      ReportsAll(path, x, y, inA, inB, files, idmap, ignore, d);
    }
    SameMeansNoDifference(path, x, y, idmap, ignore);
    if diff != [] {
      assert diff[0] in diff;
    }
  }

  /** The directories of `a`, each with its counterpart. */
  method CompareDirectories(path: seq<string>, a: Option<Directory>, b: Option<Directory>, idmap: Option<Mappings>, ignore: Ignore)
    returns (diff: seq<Difference>)
    ensures ReportsDirectories(path, OrEmpty(a), OrEmpty(b), OrEmpty(a).directories.Keys, diff, idmap, ignore)
    decreases a.Some? && b.Some?, OrEmpty(a), OrEmpty(b), 0
  {
    var x, y := OrEmpty(a).directories, OrEmpty(b).directories;
    diff := [];
    var todo := x.Keys;
    while todo != {}
      invariant todo <= x.Keys
      invariant ReportsDirectories(path, OrEmpty(a), OrEmpty(b), x.Keys - todo, diff, idmap, ignore)
    {
      var n :| n in todo;
      var more := [];
      if n !in y {
        var below := CompareCheckSubdirectory(path + [n], Some(x[n]), None, idmap, ignore);
        more := [Removed(path + [n])] + below;
      } else {
        var attributes := CompareFileInfo(x[n].info, y[n].info, idmap, ignore);
        if attributes != {} {
          more := [Changed(path + [n], attributes)];
        }
        var below := CompareCheckSubdirectory(path + [n], Some(x[n]), Some(y[n]), idmap, ignore);
        more := more + below;
      }
      ReportsOneMoreDirectory(path, OrEmpty(a), OrEmpty(b), x.Keys - todo, diff, n, more, idmap, ignore);
      assert x.Keys - (todo - {n}) == x.Keys - todo + {n};
      diff := diff + more;
      todo := todo - {n};
    }
  }

  /** The directories that only `b` has. */
  method AddedDirectories(path: seq<string>, a: Option<Directory>, b: Option<Directory>, idmap: Option<Mappings>, ignore: Ignore)
    returns (diff: seq<Difference>)
    ensures ReportsDirectories(path, OrEmpty(a), OrEmpty(b), OrEmpty(b).directories.Keys - OrEmpty(a).directories.Keys, diff, idmap, ignore)
    decreases a.Some? && b.Some?, OrEmpty(a), OrEmpty(b), 0
  {
    var x, y := OrEmpty(a).directories, OrEmpty(b).directories;
    diff := [];
    var todo := y.Keys;
    while todo != {}
      invariant todo <= y.Keys
      invariant ReportsDirectories(path, OrEmpty(a), OrEmpty(b), y.Keys - todo - x.Keys, diff, idmap, ignore)
    {
      var n :| n in todo;
      if n !in x {
        var below := CompareCheckSubdirectory(path + [n], None, Some(y[n]), idmap, ignore);
        var more := [Added(path + [n])] + below;
        ReportsOneMoreDirectory(path, OrEmpty(a), OrEmpty(b), y.Keys - todo - x.Keys, diff, n, more, idmap, ignore);
        assert y.Keys - (todo - {n}) - x.Keys == y.Keys - todo - x.Keys + {n};
        diff := diff + more;
      } else {
        assert y.Keys - (todo - {n}) - x.Keys == y.Keys - todo - x.Keys;
      }
      todo := todo - {n};
    }
  }

  /** What there is to report about one file. */
  method CompareFile(path: seq<string>, x: Directory, y: Directory, n: string, idmap: Option<Mappings>, ignore: Ignore)
    returns (more: seq<Difference>)
    requires n in x.files || n in y.files
    ensures forall d :: d in more <==> InFile(path, x, y, n, d, idmap, ignore)
  {
    more := [];
    if n !in y.files {
      more := [Removed(path + [n])];
    } else if n !in x.files {
      more := [Added(path + [n])];
    } else {
      var attributes := CompareFileInfo(x.files[n], y.files[n], idmap, ignore);
      if attributes != {} {
        more := [Changed(path + [n], attributes)];
      }
    }
  }

  /** The files of both; those that both have are looked at twice. */
  method CompareFiles(path: seq<string>, x: Directory, y: Directory, idmap: Option<Mappings>, ignore: Ignore)
    returns (diff: seq<Difference>)
    ensures ReportsFiles(path, x, y, x.files.Keys + y.files.Keys, diff, idmap, ignore)
  {
    diff := [];
    ghost var done := {};
    var todo := x.files.Keys;
    while todo != {}
      invariant todo <= x.files.Keys && done == x.files.Keys - todo
      invariant ReportsFiles(path, x, y, done, diff, idmap, ignore)
    {
      var n :| n in todo;
      var more := CompareFile(path, x, y, n, idmap, ignore);
      ReportsOneMoreFile(path, x, y, done, diff, n, more, idmap, ignore);
      diff, done := diff + more, done + {n};
      todo := todo - {n};
    }
    todo := y.files.Keys;
    while todo != {}
      invariant todo <= y.files.Keys && done == x.files.Keys + (y.files.Keys - todo)
      invariant ReportsFiles(path, x, y, done, diff, idmap, ignore)
    {
      var n :| n in todo;
      var more := CompareFile(path, x, y, n, idmap, ignore);
      ReportsOneMoreFile(path, x, y, done, diff, n, more, idmap, ignore);
      diff, done := diff + more, done + {n};
      todo := todo - {n};
    }
  }
}

/** The gateway's file views: the flat gcode file list and the directory
    listing in Moonraker's shape, both built from the bridge's listing. */
module Listing {
  import opened Wrappers
  import Text
  import FileBridge

  type Entry = FileBridge.Entry

  /** _join_moonraker_path: the root without trailing slashes, "/", the name. */
  function JoinMoonrakerPath(root: string, name: string): (r: string)
    ensures Text.EndsWith(r, "/" + name)
  {
    var r := Text.RStripChar(root, '/') + "/" + name;
    assert r[|r| - |"/" + name|..] == "/" + name;
    r
  }

  /** Under "gcodes" a name's path is "gcodes/" followed by the name. */
  lemma GcodesPath(name: string)
    ensures JoinMoonrakerPath("gcodes", name) == "gcodes/" + name
  {
    assert "gcodes"[5] == 's';
    assert Text.RStripChar("gcodes", '/') == "gcodes";
  }

  /** Trailing slashes on the root make no difference. */
  lemma JoinIgnoresTrailingSlash(root: string, name: string)
    ensures JoinMoonrakerPath(root + "/", name) == JoinMoonrakerPath(root, name)
  {
    assert (root + "/")[..|root + "/"| - 1] == root;
  }

  // ----------------------------------------------------------- file list

  /** The extensions Mainsail can print. */
  predicate IsPrintable(name: string) {
    Text.EndsWith(name, ".gcode") || Text.EndsWith(name, ".gcode.3mf") || Text.EndsWith(name, ".3mf")
  }

  /** ".gcode.3mf" is already covered by ".3mf". */
  lemma PrintableByTwoSuffixes(name: string)
    ensures IsPrintable(name) <==> Text.EndsWith(name, ".gcode") || Text.EndsWith(name, ".3mf")
  {
    if Text.EndsWith(name, ".gcode.3mf") {
      var s := name[|name| - 10..];
      assert s == ".gcode.3mf";
      assert name[|name| - 4..] == s[6..];
      assert s[6..] == ".3mf";
    }
  }

  /** One entry of server.files.list. */
  datatype GcodeFile = GcodeFile(path: string, size: int, modified: FileBridge.Stamp)

  function GcodeFileOf(e: Entry): GcodeFile {
    GcodeFile(JoinMoonrakerPath("gcodes", e.name), e.size, e.modified)
  }

  predicate Listed(e: Entry) {
    !e.isDir && IsPrintable(e.name)
  }

  /** The printable files of a listing, in listing order. */
  function PrintableFiles(entries: seq<Entry>): seq<GcodeFile>
    decreases |entries|
  {
    if |entries| == 0 then []
    else
      var prev := PrintableFiles(entries[..|entries| - 1]);
      var e := entries[|entries| - 1];
      if Listed(e) then prev + [GcodeFileOf(e)] else prev
  }

  /** The list of a concatenation is the concatenation of the lists, so the
      files keep their listing order. */
  lemma {:induction false} PrintableFilesAppend(a: seq<Entry>, b: seq<Entry>)
    ensures PrintableFiles(a + b) == PrintableFiles(a) + PrintableFiles(b)
    decreases |b|
  {
    if |b| == 0 {
      assert a + b == a;
    } else {
      var b' := b[..|b| - 1];
      assert (a + b)[..|a + b| - 1] == a + b';
      assert (a + b)[|a + b| - 1] == b[|b| - 1];
      PrintableFilesAppend(a, b');
    }
  }

  /** A file is listed exactly when it comes from a printable, non-directory
      entry, and its path is "gcodes/" + the entry's name. */
  lemma {:induction false} PrintableFilesExactly(entries: seq<Entry>, f: GcodeFile)
    ensures f in PrintableFiles(entries) <==> exists e | e in entries :: Listed(e) && f == GcodeFileOf(e)
    decreases |entries|
  {
    if |entries| > 0 {
      var init := entries[..|entries| - 1];
      PrintableFilesExactly(init, f);
      assert entries == init + [entries[|entries| - 1]];
      assert forall e | e in init :: e in entries;
      if exists e | e in entries :: Listed(e) && f == GcodeFileOf(e) {
        var e :| e in entries && Listed(e) && f == GcodeFileOf(e);
        if e != entries[|entries| - 1] {
          assert e in init;
        }
      }
    }
  }

  /** The gcode file loop of _build_file_list. */
  method FilterPrintable(entries: seq<Entry>) returns (files: seq<GcodeFile>)
    ensures files == PrintableFiles(entries)
  {
    files := [];
    var i := 0;
    while i < |entries|
      invariant 0 <= i <= |entries|
      invariant files == PrintableFiles(entries[..i])
    {
      assert entries[..i + 1][..i] == entries[..i];
      var e := entries[i];
      if !e.isDir {
        var name := e.name;
        if Text.EndsWith(name, ".gcode") || Text.EndsWith(name, ".gcode.3mf") || Text.EndsWith(name, ".3mf") {
          files := files + [GcodeFile(JoinMoonrakerPath("gcodes", name), e.size, e.modified)];
        }
      }
      i := i + 1;
    }
    assert entries[..i] == entries;
  }

  /** What _build_file_list gives: the fixed config listing, the mock file
      without a printer, the printable files, or nothing. */
  datatype FileList = ConfigFiles | Files(files: seq<GcodeFile>)

  const MockFileName := "mock_file.gcode"

  /** server.files.list for a root; a failed listing gives no files. */
  function FileListFor(root: string, hasSerial: bool, listing: Result<seq<Entry>, FileBridge.FtpError>, now: real): (r: FileList)
    ensures root == "config" <==> r == ConfigFiles
    ensures root != "config" && root != "gcodes" ==> r == Files([])
    ensures root == "gcodes" && hasSerial && listing.Ok? ==> r == Files(PrintableFiles(listing.value))
    ensures root == "gcodes" && hasSerial && listing.Err? ==> r == Files([])
  {
    if root == "config" then ConfigFiles
    else if root != "gcodes" then Files([])
    else if !hasSerial then Files([GcodeFile(JoinMoonrakerPath("gcodes", MockFileName), 0, FileBridge.Clock(now))])
    else if listing.Ok? then Files(PrintableFiles(listing.value))
    else Files([])
  }

  /** server.files.list over the bridge: it lists the uploads directory only
      for the "gcodes" root of a configured printer. */
  method BuildFileList(root: string, hasSerial: bool, ftp: FileBridge.BambuFTPSClient, srv: FileBridge.Server, now: real)
    returns (r: FileList)
    requires ftp.Valid()
    modifies ftp
    ensures ftp.Valid()
    ensures root == "gcodes" && hasSerial ==>
      && r == FileListFor(root, hasSerial, FileBridge.ListingOutcome(old(ftp.session), ftp.uploadsDir, srv, now), now)
      && (ftp.session.Some? <==> FileBridge.Reaches(old(ftp.session), srv))
      && ftp.log == old(ftp.log) + FileBridge.ListingLog(old(ftp.session), ftp.uploadsDir, srv)
    ensures !(root == "gcodes" && hasSerial) ==>
      r == FileListFor(root, hasSerial, Ok([]), now) && ftp.session == old(ftp.session) && ftp.log == old(ftp.log)
  {
    if root == "config" {
      return ConfigFiles;
    }
    if root != "gcodes" {
      return Files([]);
    }
    if !hasSerial {
      return Files([GcodeFile(JoinMoonrakerPath("gcodes", MockFileName), 0, FileBridge.Clock(now))]);
    }
    var remote := ftp.ListFiles(ftp.uploadsDir, srv, now);
    if remote.Err? {
      return Files([]);
    }
    var files := FilterPrintable(remote.value);
    r := Files(files);
  }

  // ------------------------------------------------------- get_directory

  /** The remote directory for a Moonraker path: the uploads directory, or a
      subdirectory of it for "gcodes/<sub>", with every "//" replaced. */
  function FtpsPath(path: string, uploadsDir: string): string {
    if Text.StartsWith(path, "gcodes/") && |path| > 7 then Text.ReplaceDoubleSlash(uploadsDir + "/" + path[7..])
    else uploadsDir
  }

  /** The root, "gcodes/" alone, and any other path all list the uploads directory. */
  lemma RootPathsListUploads(path: string, uploadsDir: string)
    requires !Text.StartsWith(path, "gcodes/") || path == "gcodes/"
    ensures FtpsPath(path, uploadsDir) == uploadsDir
  {
  }

  /** A subdirectory is listed below the uploads directory. */
  lemma SubdirectoryPath(uploadsDir: string, sub: string)
    requires sub != ""
    requires !Text.HasDoubleSlash(uploadsDir + "/" + sub)
    ensures FtpsPath("gcodes/" + sub, uploadsDir) == uploadsDir + "/" + sub
  {
    var path := "gcodes/" + sub;
    assert path[..7] == "gcodes/";
    assert path[7..] == sub;
    Text.ReplaceWithoutDoubleSlash(uploadsDir + "/" + sub);
  }

  /** One entry of the dirs or files list of get_directory. */
  datatype Item = Item(name: string, modified: FileBridge.Stamp, size: int, path: string)

  function ItemOf(path: string, e: Entry): Item {
    Item(e.name, e.modified, e.size, JoinMoonrakerPath(path, e.name))
  }

  /** The directories of a listing, in order. */
  function DirItems(path: string, entries: seq<Entry>): seq<Item>
    decreases |entries|
  {
    if |entries| == 0 then []
    else
      var prev := DirItems(path, entries[..|entries| - 1]);
      var e := entries[|entries| - 1];
      if e.isDir then prev + [ItemOf(path, e)] else prev
  }

  /** The files of a listing, in order. */
  function FileItems(path: string, entries: seq<Entry>): seq<Item>
    decreases |entries|
  {
    if |entries| == 0 then []
    else
      var prev := FileItems(path, entries[..|entries| - 1]);
      var e := entries[|entries| - 1];
      if e.isDir then prev else prev + [ItemOf(path, e)]
  }

  /** Every entry lands in exactly one of the two lists. */
  lemma {:induction false} PartitionCounts(path: string, entries: seq<Entry>)
    ensures |DirItems(path, entries)| + |FileItems(path, entries)| == |entries|
    decreases |entries|
  {
    if |entries| > 0 {
      PartitionCounts(path, entries[..|entries| - 1]);
    }
  }

  /** Both lists distribute over concatenation, so each keeps listing order. */
  lemma {:induction false} PartitionAppend(path: string, a: seq<Entry>, b: seq<Entry>)
    ensures DirItems(path, a + b) == DirItems(path, a) + DirItems(path, b)
    ensures FileItems(path, a + b) == FileItems(path, a) + FileItems(path, b)
    decreases |b|
  {
    if |b| == 0 {
      assert a + b == a;
    } else {
      var b' := b[..|b| - 1];
      assert (a + b)[..|a + b| - 1] == a + b';
      assert (a + b)[|a + b| - 1] == b[|b| - 1];
      PartitionAppend(path, a, b');
    }
  }

  /** An entry goes to dirs when it is a directory and to files otherwise. */
  lemma {:induction false} PartitionMembership(path: string, entries: seq<Entry>, e: Entry)
    requires e in entries
    ensures e.isDir ==> ItemOf(path, e) in DirItems(path, entries)
    ensures !e.isDir ==> ItemOf(path, e) in FileItems(path, entries)
    decreases |entries|
  {
    var init := entries[..|entries| - 1];
    assert entries == init + [entries[|entries| - 1]];
    if e != entries[|entries| - 1] {
      assert e in init;
      PartitionMembership(path, init, e);
    }
  }

  /** The transform loop of get_directory. */
  method Partition(path: string, entries: seq<Entry>) returns (dirs: seq<Item>, files: seq<Item>)
    ensures dirs == DirItems(path, entries) && files == FileItems(path, entries)
  {
    dirs := [];
    files := [];
    var i := 0;
    while i < |entries|
      invariant 0 <= i <= |entries|
      invariant dirs == DirItems(path, entries[..i]) && files == FileItems(path, entries[..i])
    {
      assert entries[..i + 1][..i] == entries[..i];
      var e := entries[i];
      if e.isDir {
        dirs := dirs + [Item(e.name, e.modified, e.size, JoinMoonrakerPath(path, e.name))];
      } else {
        files := files + [Item(e.name, e.modified, e.size, JoinMoonrakerPath(path, e.name))];
      }
      i := i + 1;
    }
    assert entries[..i] == entries;
  }

  /** What get_directory answers: the mock listing without a printer, or
      the partitioned listing (disk usage and root info are fixed). */
  datatype Directory = MockDirectory | Directory(dirs: seq<Item>, files: seq<Item>)

  /** The entries get_directory transforms: the cache for the root when it
      holds something, else the fresh listing, else nothing. */
  function Source(path: string, cached: Option<seq<Entry>>, fetched: Result<seq<Entry>, FileBridge.FtpError>): seq<Entry> {
    if path == "gcodes" && cached.Some? then cached.value
    else if fetched.Ok? then fetched.value
    else []
  }

  /** What is written to the cache: only a fresh listing of the root. */
  function CacheWrite(path: string, cached: Option<seq<Entry>>, fetched: Result<seq<Entry>, FileBridge.FtpError>): (w: Option<seq<Entry>>)
    ensures w.Some? ==> path == "gcodes" && cached.None? && fetched == Ok(w.value)
  {
    if path == "gcodes" && cached.None? && fetched.Ok? then Some(fetched.value) else None
  }

  /** Whether get_directory asks the printer. */
  predicate Fetches(path: string, hasSerial: bool, cached: Option<seq<Entry>>) {
    !(!hasSerial && path == "gcodes") && !(path == "gcodes" && cached.Some?)
  }

  /** server.files.get_directory; `cached` is the root cache as the store
      returns it (None when missing or stale). */
  method GetDirectory(path: string, hasSerial: bool, cached: Option<seq<Entry>>,
                      ftp: FileBridge.BambuFTPSClient, srv: FileBridge.Server, now: real)
    returns (r: Directory, cacheWrite: Option<seq<Entry>>)
    requires ftp.Valid()
    modifies ftp
    ensures ftp.Valid()
    ensures !hasSerial && path == "gcodes" ==> r == MockDirectory && cacheWrite.None?
    ensures !Fetches(path, hasSerial, cached) ==> ftp.session == old(ftp.session) && ftp.log == old(ftp.log)
    ensures Fetches(path, hasSerial, cached) ==>
      var fetched := FileBridge.ListingOutcome(old(ftp.session), FtpsPath(path, ftp.uploadsDir), srv, now);
      && r == Directory(DirItems(path, Source(path, cached, fetched)), FileItems(path, Source(path, cached, fetched)))
      && cacheWrite == CacheWrite(path, cached, fetched)
      && (ftp.session.Some? <==> FileBridge.Reaches(old(ftp.session), srv))
      && ftp.log == old(ftp.log) + FileBridge.ListingLog(old(ftp.session), FtpsPath(path, ftp.uploadsDir), srv)
    ensures hasSerial && path == "gcodes" && cached.Some? ==>
      r == Directory(DirItems(path, cached.value), FileItems(path, cached.value)) && cacheWrite.None?
  {
    if !hasSerial && path == "gcodes" {
      return MockDirectory, None;
    }
    var entries: seq<Entry>;
    cacheWrite := None;
    if path == "gcodes" && cached.Some? {
      entries := cached.value;
    } else {
      var ftpsPath := ftp.uploadsDir;
      if Text.StartsWith(path, "gcodes/") && |path| > 7 {
        ftpsPath := Text.ReplaceDoubleSlash(ftp.uploadsDir + "/" + path[7..]);
      }
      var remote := ftp.ListFiles(ftpsPath, srv, now);
      if remote.Ok? {
        if path == "gcodes" {
          cacheWrite := Some(remote.value);
        }
        entries := remote.value;
      } else {
        entries := [];
      }
    }
    var dirs, files := Partition(path, entries);
    r := Directory(dirs, files);
  }
}

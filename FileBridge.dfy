/** The printer's FTPS file bridge: one reusable session, directory listing
    with an NLST fallback for servers without MLSD, directory creation for
    uploads, upload and delete. The FTP server is an oracle: for each command
    it either answers or fails, and what is verified is the session handling,
    the classification of listed names and the path arithmetic. */
module FileBridge {
  import opened Wrappers
  import Text

  /** How an FTP command fails: a permanent error reply (ftplib's error_perm),
      or anything else. */
  datatype FtpError = Perm | Other

  /** SIZE answers a number, answers None, or fails. */
  datatype SizeReply = SizeOf(n: int) | NoSize | SizeFailed

  /** STOR succeeds, times out at the close (the printer's quirk), or fails. */
  datatype StorReply = Stored | StorTimeout | StorFailed

  /** The server's answers during one call of the bridge. */
  datatype Server = Server(
    noop: bool,
    openOk: bool,
    mlsd: string -> Result<seq<(string, map<string, string>)>, FtpError>,
    nlst: string -> Result<seq<string>, FtpError>,
    size: string -> SizeReply,
    stor: string -> StorReply,
    dele: string -> bool)

  /** When an entry was modified: the server's raw MLSD timestamp, or the
      local clock when the listing gives none. */
  datatype Stamp = Clock(t: real) | Remote(raw: string)

  datatype Entry = Entry(name: string, isDir: bool, size: int, modified: Stamp)

  /** The commands whose targets the bridge computes. */
  datatype FtpCommand = Size(path: string) | Mkd(path: string) | Stor(path: string) | Dele(path: string)

  /** Names the printer uses for directories. */
  const KnownDirs: set<string> := {
    "logger", "recorder", "image", "ipcam", "timelapse", "cache",
    "language", "model", "corelogger", "verify_job", ".Spotlight-V100", ".fseventsd"
  }

  predicate IsDotName(name: string) {
    name == "." || name == ".."
  }

  // ----------------------------------------------------------------- MLSD

  /** One MLSD item: the dot entries are skipped; "type" decides is_dir,
      "size" must be an integer literal (int() raises otherwise). */
  function MlsdEntry(name: string, facts: map<string, string>, now: real): (r: Result<Option<Entry>, FtpError>)
    ensures IsDotName(name) ==> r == Ok(None)
    ensures r.Ok? && r.value.Some? ==>
      && r.value.value.name == name
      && (r.value.value.isDir <==> "type" in facts && facts["type"] == "dir")
    ensures r.Err? <==> !IsDotName(name) && "size" in facts && Text.ParseInt(facts["size"]).None?
    ensures !IsDotName(name) && r.Ok? ==> r.value.Some?
    ensures r.Ok? && r.value.Some? ==>
      && r.value.value.size == (if "size" in facts then Text.ParseInt(facts["size"]).value else 0)
      && r.value.value.modified == (if "modify" in facts && facts["modify"] != "" then Remote(facts["modify"]) else Clock(now))
  {
    if IsDotName(name) then Ok(None)
    else
      var size := if "size" in facts then Text.ParseInt(facts["size"]) else Some(0);
      if size.None? then Err(Other)
      else
        var stamp := if "modify" in facts && facts["modify"] != "" then Remote(facts["modify"]) else Clock(now);
        Ok(Some(Entry(name, "type" in facts && facts["type"] == "dir", size.value, stamp)))
  }

  /** The whole MLSD listing; the first size int() refuses aborts it. */
  function MlsdEntries(items: seq<(string, map<string, string>)>, now: real): Result<seq<Entry>, FtpError>
    decreases |items|
  {
    if |items| == 0 then Ok([])
    else
      match MlsdEntries(items[..|items| - 1], now)
      case Err(e) => Err(e)
      case Ok(prev) =>
        var last := items[|items| - 1];
        match MlsdEntry(last.0, last.1, now)
        case Err(e) => Err(e)
        case Ok(None) => Ok(prev)
        case Ok(Some(entry)) => Ok(prev + [entry])
  }

  /** Entry e comes from MLSD item i and is a directory exactly when that
      item's type fact says "dir". */
  predicate ClassifiedBy(items: seq<(string, map<string, string>)>, i: int, e: Entry) {
    0 <= i < |items| && items[i].0 == e.name
    && (e.isDir <==> "type" in items[i].1 && items[i].1["type"] == "dir")
  }

  /** No dot entry survives an MLSD listing, and is_dir follows the type fact. */
  lemma {:induction false} MlsdClassifies(items: seq<(string, map<string, string>)>, now: real)
    requires MlsdEntries(items, now).Ok?
    ensures forall e | e in MlsdEntries(items, now).value ::
      !IsDotName(e.name) && exists i :: ClassifiedBy(items, i, e)
    decreases |items|
  {
    if |items| > 0 {
      var init := items[..|items| - 1];
      MlsdClassifies(init, now);
      forall e | e in MlsdEntries(items, now).value
        ensures !IsDotName(e.name)
        ensures exists i :: ClassifiedBy(items, i, e)
      {
        if e in MlsdEntries(init, now).value {
          var i :| ClassifiedBy(init, i, e);
          assert items[i] == init[i];
          assert ClassifiedBy(items, i, e);
        } else {
          assert ClassifiedBy(items, |items| - 1, e);
        }
      }
    }
  }

  function ItemNames(items: seq<(string, map<string, string>)>): seq<string> {
    seq(|items|, i requires 0 <= i < |items| => items[i].0)
  }

  /** An item whose size fact int() refuses. */
  predicate BadSize(item: (string, map<string, string>)) {
    !IsDotName(item.0) && "size" in item.1 && Text.ParseInt(item.1["size"]).None?
  }

  /** A successful MLSD listing has one entry per item other than the dot
      entries, in the server's order. */
  lemma {:induction false} MlsdKeepsOrder(items: seq<(string, map<string, string>)>, now: real)
    requires MlsdEntries(items, now).Ok?
    ensures Names(MlsdEntries(items, now).value) == NonDot(ItemNames(items))
    decreases |items|
  {
    if |items| > 0 {
      var init := items[..|items| - 1];
      assert ItemNames(items)[..|items| - 1] == ItemNames(init);
      MlsdKeepsOrder(init, now);
      var prev := MlsdEntries(init, now).value;
      var last := items[|items| - 1];
      match MlsdEntry(last.0, last.1, now)
      case Ok(None) =>
      case Ok(Some(e)) =>
        assert Names(prev + [e]) == Names(prev) + [e.name];
    }
  }

  /** The listing fails exactly when some item's size is not an integer. */
  lemma {:induction false} MlsdFailsIffBadSize(items: seq<(string, map<string, string>)>, now: real)
    ensures MlsdEntries(items, now).Err? <==> exists i :: 0 <= i < |items| && BadSize(items[i])
    decreases |items|
  {
    if |items| > 0 {
      var init := items[..|items| - 1];
      var last := items[|items| - 1];
      MlsdFailsIffBadSize(init, now);
      assert MlsdEntries(items, now).Err? <==> MlsdEntries(init, now).Err? || MlsdEntry(last.0, last.1, now).Err?;
      assert MlsdEntry(last.0, last.1, now).Err? <==> BadSize(last);
      if exists i :: 0 <= i < |init| && BadSize(init[i]) {
        var i :| 0 <= i < |init| && BadSize(init[i]);
        assert items[i] == init[i];
      }
      if exists i :: 0 <= i < |items| && BadSize(items[i]) {
        var i :| 0 <= i < |items| && BadSize(items[i]);
        if i < |init| {
          assert init[i] == items[i];
        }
      }
    }
  }

  // ----------------------------------------------------------------- NLST

  /** The path SIZE is asked about for a listed name. */
  function FullPath(path: string, name: string): string {
    if path == "/" then "/" + name else Text.RStripChar(path, '/') + "/" + name
  }

  /** Different names under one directory have different paths. */
  lemma FullPathInjective(path: string, a: string, b: string)
    requires FullPath(path, a) == FullPath(path, b)
    ensures a == b
  {
    var p := if path == "/" then "/" else Text.RStripChar(path, '/') + "/";
    assert FullPath(path, a) == p + a && FullPath(path, b) == p + b;
    assert a == (p + a)[|p|..];
    assert b == (p + b)[|p|..];
  }

  /** Whether SIZE is asked for a name: not a dot entry, not a known directory. */
  predicate Queried(name: string) {
    !IsDotName(name) && name !in KnownDirs
  }

  /** One NLST name: known directories are directories of size 0 without a
      SIZE query; otherwise SIZE gives the size (None counts as 0), and when
      SIZE fails a name without a '.' is taken for a directory. */
  function NlstEntry(path: string, name: string, size: string -> SizeReply, now: real): (r: Option<Entry>)
    ensures IsDotName(name) <==> r.None?
    ensures r.Some? ==> r.value.name == name && r.value.modified == Clock(now)
  {
    if IsDotName(name) then None
    else if name in KnownDirs then Some(Entry(name, true, 0, Clock(now)))
    else match size(FullPath(path, name))
      case SizeOf(n) => Some(Entry(name, false, n, Clock(now)))
      case NoSize => Some(Entry(name, false, 0, Clock(now)))
      case SizeFailed => Some(Entry(name, '.' !in name, 0, Clock(now)))
  }

  function NlstEntries(path: string, names: seq<string>, size: string -> SizeReply, now: real): seq<Entry>
    decreases |names|
  {
    if |names| == 0 then []
    else
      var prev := NlstEntries(path, names[..|names| - 1], size, now);
      match NlstEntry(path, names[|names| - 1], size, now)
      case None => prev
      case Some(e) => prev + [e]
  }

  /** The SIZE commands the fallback issues, in order. */
  function SizeQueries(path: string, names: seq<string>): seq<FtpCommand>
    decreases |names|
  {
    if |names| == 0 then []
    else
      var prev := SizeQueries(path, names[..|names| - 1]);
      var n := names[|names| - 1];
      if Queried(n) then prev + [Size(FullPath(path, n))] else prev
  }

  /** The names other than "." and "..", in listing order. */
  function NonDot(names: seq<string>): seq<string>
    decreases |names|
  {
    if |names| == 0 then []
    else
      var prev := NonDot(names[..|names| - 1]);
      if IsDotName(names[|names| - 1]) then prev else prev + [names[|names| - 1]]
  }

  function Names(entries: seq<Entry>): seq<string> {
    seq(|entries|, i requires 0 <= i < |entries| => entries[i].name)
  }

  /** One entry per listed name other than the dot entries, in NLST order;
      known directories are still listed. */
  lemma {:induction false} NlstKeepsOrder(path: string, names: seq<string>, size: string -> SizeReply, now: real)
    ensures Names(NlstEntries(path, names, size, now)) == NonDot(names)
    decreases |names|
  {
    if |names| > 0 {
      NlstKeepsOrder(path, names[..|names| - 1], size, now);
      var prev := NlstEntries(path, names[..|names| - 1], size, now);
      match NlstEntry(path, names[|names| - 1], size, now)
      case None =>
      case Some(e) =>
        assert Names(prev + [e]) == Names(prev) + [e.name];
    }
  }

  /** How each listed name is classified. */
  lemma {:induction false} NlstClassification(path: string, names: seq<string>, size: string -> SizeReply, now: real)
    ensures forall e | e in NlstEntries(path, names, size, now) ::
      && (e.name in KnownDirs ==> e.isDir && e.size == 0)
      && (e.name !in KnownDirs ==> match size(FullPath(path, e.name))
            case SizeOf(n) => !e.isDir && e.size == n
            case NoSize => !e.isDir && e.size == 0
            case SizeFailed => (e.isDir <==> '.' !in e.name) && e.size == 0)
    decreases |names|
  {
    if |names| > 0 {
      NlstClassification(path, names[..|names| - 1], size, now);
    }
  }

  /** SIZE is asked exactly for the non-dot names outside the known
      directories, so never for a known directory. */
  lemma {:induction false} SizeSkipsKnownDirs(path: string, names: seq<string>, known: string)
    requires known in KnownDirs
    ensures Size(FullPath(path, known)) !in SizeQueries(path, names)
    ensures forall c | c in SizeQueries(path, names) :: exists n :: n in names && Queried(n) && c == Size(FullPath(path, n))
    decreases |names|
  {
    if |names| > 0 {
      var init := names[..|names| - 1];
      SizeSkipsKnownDirs(path, init, known);
      var n := names[|names| - 1];
      if Queried(n) && Size(FullPath(path, n)) == Size(FullPath(path, known)) {
        FullPathInjective(path, n, known);
      }
      assert forall m | m in init :: m in names;
    }
  }

  // ------------------------------------------------------------ directories

  /** "/" followed by the first k components, each after a "/". */
  function Prefix(parts: seq<string>, k: nat): string
    requires k <= |parts|
  {
    if k == 0 then "" else Prefix(parts, k - 1) + "/" + parts[k - 1]
  }

  /** The MKD commands for the proper parents, shortest first. */
  function MkdPlan(parts: seq<string>, k: nat): seq<FtpCommand>
    requires k <= |parts|
  {
    if k <= 1 then (if k == 1 then [Mkd(Prefix(parts, 1))] else [])
    else MkdPlan(parts, k - 1) + [Mkd(Prefix(parts, k))]
  }

  /** The components of an upload path, after stripping the outer slashes. */
  function Components(full: string): (r: seq<string>)
    ensures |r| >= 1
  {
    Text.Split(Text.StripChar(full, '/'), '/')
  }

  /** What _ensure_remote_dirs asks for: nothing for one component, else
      every proper parent. */
  function ParentDirs(full: string): seq<FtpCommand> {
    var parts := Components(full);
    if |parts| <= 1 then [] else MkdPlan(parts, |parts| - 1)
  }

  /** Each prefix is the previous one extended by one component. */
  lemma PrefixGrows(parts: seq<string>, k: nat)
    requires 0 < k <= |parts|
    ensures Text.StartsWith(Prefix(parts, k), Prefix(parts, k - 1))
    ensures |Prefix(parts, k)| > |Prefix(parts, k - 1)|
  {
    var p := Prefix(parts, k - 1);
    assert Prefix(parts, k) == p + ("/" + parts[k - 1]);
    assert Prefix(parts, k)[..|p|] == p;
  }

  /** The prefix of all components is the path with one leading slash. */
  lemma {:induction false} PrefixIsJoin(parts: seq<string>, k: nat)
    requires 1 <= k <= |parts|
    ensures Prefix(parts, k) == "/" + Text.Join(parts[..k], '/')
    decreases k
  {
    if k == 1 {
      assert Prefix(parts, 0) == "";
      assert Text.Join(parts[..1], '/') == parts[0];
    } else {
      PrefixIsJoin(parts, k - 1);
      JoinSnoc(parts[..k - 1], parts[k - 1]);
      assert parts[..k] == parts[..k - 1] + [parts[k - 1]];
    }
  }

  lemma {:induction false} JoinSnoc(ps: seq<string>, p: string)
    requires |ps| >= 1
    ensures Text.Join(ps + [p], '/') == Text.Join(ps, '/') + "/" + p
    decreases |ps|
  {
    if |ps| == 1 {
      assert (ps + [p])[1..] == [p];
    } else {
      assert (ps + [p])[1..] == ps[1..] + [p];
      JoinSnoc(ps[1..], p);
    }
  }

  /** The MKD targets are exactly the proper parents of the path: the first
      k components for k = 1 .. n-1, so the file's own directory is the last. */
  lemma {:induction false} MkdPlanTargets(parts: seq<string>, k: nat)
    requires k <= |parts|
    ensures |MkdPlan(parts, k)| == k
    ensures forall i | 0 <= i < k :: MkdPlan(parts, k)[i] == Mkd(Prefix(parts, i + 1))
    decreases k
  {
    if k > 1 {
      MkdPlanTargets(parts, k - 1);
    }
  }

  /** Joining the last parent and the name gives the path back, without its
      outer slashes and with one leading slash. */
  lemma ParentsLeadToPath(full: string)
    requires |Components(full)| >= 2
    ensures var parts := Components(full);
      Prefix(parts, |parts| - 1) + "/" + parts[|parts| - 1] == "/" + Text.StripChar(full, '/')
  {
    var parts := Components(full);
    PrefixIsJoin(parts, |parts|);
    Text.JoinSplit(Text.StripChar(full, '/'), '/');
    assert parts[..|parts|] == parts;
  }

  lemma AbcComponents()
    ensures Components("/a/b/c") == ["a", "b", "c"]
  {
    assert Text.StripChar("/a/b/c", '/') == "a/b/c" by {
      assert "/a/b/c"[1..] == "a/b/c";
      assert Text.LStripChar("/a/b/c", '/') == "a/b/c";
      NoTrailingSlash("a/b/c");
    }
    SplitAbc();
  }

  /** Splitting "/" + s prepends an empty part. */
  lemma SplitSlash(s: string)
    ensures Text.Split("/" + s, '/') == [""] + Text.Split(s, '/')
  {
    assert ("/" + s)[1..] == s;
  }

  /** Splitting x + "/" + s, for a character x other than '/', puts [x] first. */
  lemma SplitCharSlash(x: char, s: string)
    requires x != '/'
    ensures Text.Split([x] + "/" + s, '/') == [[x]] + Text.Split(s, '/')
  {
    assert ([x] + "/" + s)[1..] == "/" + s;
    SplitSlash(s);
    assert [x] + "" == [x];
  }

  lemma SplitAbc()
    ensures Text.Split("a/b/c", '/') == ["a", "b", "c"]
  {
    Text.SplitWithoutSeparator("c", '/');
    assert Text.Split("b/c", '/') == ["b", "c"] by {
      SplitCharSlash('b', "c");
      assert "b/c" == ['b'] + "/" + "c";
    }
    SplitCharSlash('a', "b/c");
    assert "a/b/c" == ['a'] + "/" + "b/c";
  }

  /** For "/a/b/c" the bridge creates "/a", then "/a/b". */
  lemma ParentsOfAbc()
    ensures ParentDirs("/a/b/c") == [Mkd("/a"), Mkd("/a/b")]
  {
    var parts := ["a", "b", "c"];
    assert Components("/a/b/c") == parts by { AbcComponents(); }
    assert Prefix(parts, 1) == "/a" && Prefix(parts, 2) == "/a/b" by { PrefixesOfAbc(); }
    assert MkdPlan(parts, 2) == MkdPlan(parts, 1) + [Mkd(Prefix(parts, 2))];
  }

  lemma PrefixesOfAbc()
    ensures Prefix(["a", "b", "c"], 1) == "/a" && Prefix(["a", "b", "c"], 2) == "/a/b"
  {
    var parts := ["a", "b", "c"];
    assert Prefix(parts, 1) == "" + "/" + "a";
    assert Prefix(parts, 2) == "/a" + "/" + "b";
  }

  /** A single component needs no directory. */
  lemma SingleComponentNeedsNoDir(full: string)
    requires '/' !in Text.StripChar(full, '/')
    ensures ParentDirs(full) == []
  {
    Text.SplitWithoutSeparator(Text.StripChar(full, '/'), '/');
  }

  // ------------------------------------------------------------------ paths

  /** Where an upload goes: the uploads directory without trailing slashes,
      then the name, with every "//" replaced by "/". */
  function UploadTarget(uploadsDir: string, name: string): string {
    Text.ReplaceDoubleSlash(Text.RStripChar(uploadsDir, '/') + "/" + name)
  }

  /** What a delete targets: the same join, without the "//" replacement. */
  function DeleteTarget(uploadsDir: string, name: string): string {
    Text.RStripChar(uploadsDir, '/') + "/" + name
  }

  /** Without a "//" in the joined path, uploads and deletes target the same path. */
  lemma SameTargetWithoutDoubleSlash(uploadsDir: string, name: string)
    requires !Text.HasDoubleSlash(DeleteTarget(uploadsDir, name))
    ensures UploadTarget(uploadsDir, name) == DeleteTarget(uploadsDir, name)
  {
    Text.ReplaceWithoutDoubleSlash(DeleteTarget(uploadsDir, name));
  }

  /** A name with a leading slash is collapsed for uploads but not for deletes. */
  lemma LeadingSlashDiverges()
    ensures UploadTarget("/u", "/a") == "/u/a"
    ensures DeleteTarget("/u", "/a") == "/u//a"
  {
    NoTrailingSlash("/u");
    assert DeleteTarget("/u", "/a") == "/u//a";
    assert "/u//a"[1..] == "u//a" && "u//a"[1..] == "//a" && "//a"[2..] == "a" && "a"[1..] == "";
    assert Text.ReplaceDoubleSlash("a") == "a";
    assert Text.ReplaceDoubleSlash("//a") == "/a";
    assert Text.ReplaceDoubleSlash("u//a") == "u/a";
  }

  lemma NoTrailingSlash(s: string)
    requires s != "" && s[|s| - 1] != '/'
    ensures Text.RStripChar(s, '/') == s
  {
  }

  // ---------------------------------------------------------------- client

  /** Whether connect ends with a session: the current one answers NOOP, or
      a new one opens. */
  predicate Reaches(session: Option<nat>, srv: Server) {
    (session.Some? && srv.noop) || srv.openOk
  }

  /** Whether the listing goes through NLST and SIZE. */
  predicate ListsByNlst(path: string, srv: Server) {
    srv.mlsd(path) == Err(Perm) && srv.nlst(path).Ok?
  }

  /** What list_files returns, given the session it starts from. */
  function ListingOutcome(session: Option<nat>, path: string, srv: Server, now: real): Result<seq<Entry>, FtpError> {
    if Reaches(session, srv) then Listing(path, srv, now) else Err(Other)
  }

  /** The commands list_files logs, given the session it starts from: one
      SIZE per listed name on the NLST fallback, else nothing. */
  function ListingLog(session: Option<nat>, path: string, srv: Server): seq<FtpCommand> {
    if Reaches(session, srv) && ListsByNlst(path, srv) then SizeQueries(path, srv.nlst(path).value) else []
  }

  /** What list_files returns once connected. */
  function Listing(path: string, srv: Server, now: real): Result<seq<Entry>, FtpError> {
    match srv.mlsd(path)
    case Ok(items) => MlsdEntries(items, now)
    case Err(e) =>
      if e == Perm then
        if srv.nlst(path).Ok? then Ok(NlstEntries(path, srv.nlst(path).value, srv.size, now)) else Ok([])
      else Err(Other)
  }

  class BambuFTPSClient {
    const uploadsDir: string
    /** The open session, by the number it was opened under. */
    var session: Option<nat>
    /** How many sessions were opened so far. */
    var sessionCount: nat
    /** The SIZE, MKD, STOR and DELE commands issued so far. */
    var log: seq<FtpCommand>

    ghost predicate Valid()
      reads this
    {
      session.Some? ==> session.value < sessionCount
    }

    constructor(uploadsDir: string)
      ensures Valid() && this.uploadsDir == uploadsDir
      ensures session.None? && sessionCount == 0 && log == []
    {
      this.uploadsDir := uploadsDir;
      session := None;
      sessionCount := 0;
      log := [];
    }

    /** connect: a session that answers NOOP is kept; otherwise it is dropped
        and a new one opened; a failed open leaves no session. */
    method Connect(srv: Server) returns (r: Result<(), FtpError>)
      requires Valid()
      modifies this
      ensures Valid() && log == old(log)
      ensures old(session).Some? && srv.noop ==> r.Ok? && session == old(session) && sessionCount == old(sessionCount)
      ensures !(old(session).Some? && srv.noop) && srv.openOk ==>
        r.Ok? && session == Some(old(sessionCount)) && sessionCount == old(sessionCount) + 1
      ensures !(old(session).Some? && srv.noop) && !srv.openOk ==>
        r == Err(Other) && session.None? && sessionCount == old(sessionCount)
      ensures r.Ok? <==> session.Some?
      ensures r.Ok? <==> Reaches(old(session), srv)
    {
      if session.Some? {
        if srv.noop {
          return Ok(());
        }
        session := None;
      }
      if srv.openOk {
        session := Some(sessionCount);
        sessionCount := sessionCount + 1;
        r := Ok(());
      } else {
        session := None;
        r := Err(Other);
      }
    }

    /** The MLSD loop. */
    method CollectMlsd(items: seq<(string, map<string, string>)>, now: real) returns (r: Result<seq<Entry>, FtpError>)
      ensures r == MlsdEntries(items, now)
    {
      var files: seq<Entry> := [];
      var i := 0;
      while i < |items|
        invariant 0 <= i <= |items|
        invariant MlsdEntries(items[..i], now) == Ok(files)
      {
        assert items[..i + 1][..i] == items[..i];
        var name := items[i].0;
        var facts := items[i].1;
        if name == "." || name == ".." {
          i := i + 1;
          continue;
        }
        var size := if "size" in facts then Text.ParseInt(facts["size"]) else Some(0);
        if size.None? {
          assert MlsdEntries(items[..i + 1], now) == Err(Other);
          MlsdErrorSticks(items, i + 1, now);
          return Err(Other);
        }
        var modified := Clock(now);
        if "modify" in facts && facts["modify"] != "" {
          modified := Remote(facts["modify"]);
        }
        files := files + [Entry(name, "type" in facts && facts["type"] == "dir", size.value, modified)];
        i := i + 1;
      }
      assert items[..i] == items;
      r := Ok(files);
    }

    /** The NLST loop: one entry per name, SIZE only where needed. */
    method CollectNlst(path: string, names: seq<string>, srv: Server, now: real) returns (files: seq<Entry>)
      modifies this
      ensures files == NlstEntries(path, names, srv.size, now)
      ensures log == old(log) + SizeQueries(path, names)
      ensures session == old(session) && sessionCount == old(sessionCount)
    {
      files := [];
      var i := 0;
      while i < |names|
        invariant 0 <= i <= |names|
        invariant files == NlstEntries(path, names[..i], srv.size, now)
        invariant log == old(log) + SizeQueries(path, names[..i])
        invariant session == old(session) && sessionCount == old(sessionCount)
      {
        assert names[..i + 1][..i] == names[..i];
        var name := names[i];
        if name == "." || name == ".." {
          i := i + 1;
          continue;
        }
        var fullPath := if path == "/" then "/" + name else Text.RStripChar(path, '/') + "/" + name;
        var isDir := name in KnownDirs;
        var size := 0;
        if !isDir {
          log := log + [Size(fullPath)];
          match srv.size(fullPath)
          case SizeOf(n) => size := n;
          case NoSize => size := 0;
          case SizeFailed =>
            if '.' !in name {
              isDir := true;
            }
        }
        files := files + [Entry(name, isDir, size, Clock(now))];
        i := i + 1;
      }
      assert names[..i] == names;
    }

    /** list_files: MLSD, or NLST with SIZE when MLSD is refused; a failed
        NLST gives an empty listing; a failed connect or any other MLSD
        failure is an error. */
    method ListFiles(path: string, srv: Server, now: real) returns (r: Result<seq<Entry>, FtpError>)
      requires Valid()
      modifies this
      ensures Valid()
      ensures !Reaches(old(session), srv) ==> r == Err(Other) && session.None? && log == old(log)
      ensures Reaches(old(session), srv) ==> session.Some? && r == Listing(path, srv, now)
      ensures r == ListingOutcome(old(session), path, srv, now)
      ensures Reaches(old(session), srv) && ListsByNlst(path, srv) ==>
        log == old(log) + SizeQueries(path, srv.nlst(path).value)
      ensures !ListsByNlst(path, srv) ==> log == old(log)
      ensures log == old(log) + ListingLog(old(session), path, srv)
    {
      var c := Connect(srv);
      if c.Err? {
        return Err(c.error);
      }
      var listed := srv.mlsd(path);
      if listed.Ok? {
        r := CollectMlsd(listed.value, now);
      } else if listed.error == Perm {
        var names := srv.nlst(path);
        if names.Ok? {
          var files := CollectNlst(path, names.value, srv, now);
          r := Ok(files);
        } else {
          r := Ok([]);
        }
      } else {
        r := Err(Other);
      }
    }

    /** _ensure_remote_dirs: MKD for every proper parent, shortest first;
        MKD failures are ignored. */
    method EnsureRemoteDirs(full: string)
      modifies this
      ensures log == old(log) + ParentDirs(full)
      ensures session == old(session) && sessionCount == old(sessionCount)
    {
      var parts := Text.Split(Text.StripChar(full, '/'), '/');
      if |parts| <= 1 {
        return;
      }
      var current := "";
      var i := 0;
      while i < |parts| - 1
        invariant 0 <= i <= |parts| - 1
        invariant current == Prefix(parts, i)
        invariant log == old(log) + MkdPlan(parts, i)
        invariant session == old(session) && sessionCount == old(sessionCount)
      {
        current := current + "/" + parts[i];
        log := log + [Mkd(current)];
        i := i + 1;
      }
    }

    /** STOR and its aftermath: a timeout at the close counts as success but
        drops the session, as does a failure, which is reported. */
    method Store(target: string, srv: Server) returns (r: Result<(), FtpError>)
      requires Valid()
      modifies this
      ensures Valid() && sessionCount == old(sessionCount)
      ensures log == old(log) + [Stor(target)]
      ensures r.Ok? <==> srv.stor(target) != StorFailed
      ensures srv.stor(target) == Stored ==> session == old(session)
      ensures srv.stor(target) != Stored ==> session.None?
    {
      log := log + [Stor(target)];
      match srv.stor(target)
      case Stored =>
        r := Ok(());
      case StorTimeout =>
        session := None;
        r := Ok(());
      case StorFailed =>
        session := None;
        r := Err(Other);
    }

    /** upload_file: the parents of the collapsed target first, then STOR of
        the local file. `readable` says whether the local file opens; when it
        does not, the error is raised before any STOR and the session is
        dropped. */
    method UploadFile(name: string, readable: bool, srv: Server) returns (r: Result<(), FtpError>)
      requires Valid()
      modifies this
      ensures Valid()
      ensures !Reaches(old(session), srv) ==> r == Err(Other) && session.None? && log == old(log)
      ensures Reaches(old(session), srv) && !readable ==>
        && log == old(log) + ParentDirs(UploadTarget(uploadsDir, name))
        && r == Err(Other) && session.None?
      ensures Reaches(old(session), srv) && readable ==>
        var target := UploadTarget(uploadsDir, name);
        && log == old(log) + ParentDirs(target) + [Stor(target)]
        && (r.Ok? <==> srv.stor(target) != StorFailed)
        && (session.Some? <==> srv.stor(target) == Stored)
    {
      var c := Connect(srv);
      if c.Err? {
        return Err(c.error);
      }
      var target := Text.ReplaceDoubleSlash(Text.RStripChar(uploadsDir, '/') + "/" + name);
      EnsureRemoteDirs(target);
      if !readable {
        session := None;
        return Err(Other);
      }
      r := Store(target, srv);
    }

    /** delete_file: the target is not collapsed; a failure is reported and
        the session kept. */
    method DeleteFile(name: string, srv: Server) returns (r: Result<(), FtpError>)
      requires Valid()
      modifies this
      ensures Valid()
      ensures !Reaches(old(session), srv) ==> r == Err(Other) && session.None? && log == old(log)
      ensures Reaches(old(session), srv) ==>
        && session.Some?
        && log == old(log) + [Dele(DeleteTarget(uploadsDir, name))]
        && (r.Ok? <==> srv.dele(DeleteTarget(uploadsDir, name)))
    {
      var c := Connect(srv);
      if c.Err? {
        return Err(c.error);
      }
      var target := Text.RStripChar(uploadsDir, '/') + "/" + name;
      log := log + [Dele(target)];
      if srv.dele(target) {
        r := Ok(());
      } else {
        r := Err(Other);
      }
    }
  }

  /** Once a prefix of the MLSD listing fails, the whole listing fails. */
  lemma {:induction false} MlsdErrorSticks(items: seq<(string, map<string, string>)>, k: nat, now: real)
    requires k <= |items|
    requires MlsdEntries(items[..k], now) == Err(Other)
    ensures MlsdEntries(items, now) == Err(Other)
    decreases |items| - k
  {
    if k < |items| {
      assert items[..k + 1][..k] == items[..k];
      MlsdErrorSticks(items, k + 1, now);
    } else {
      assert items[..k] == items;
    }
  }
}

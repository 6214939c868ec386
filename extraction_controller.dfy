/** ExtractionController: the `extract` request. It resolves the archive to a
    local path, names the folder to extract into (beside the archive, or a
    staging folder under `<user>/<appName>` for external storage), dispatches
    on the declared type, then removes blacklisted files and either moves the
    staging folder into the user's tree or has the new files rescanned. */
module ExtractionController {
  import opened Wrappers
  import opened Php
  import opened FileStore
  import opened ExtractionService

  /** An exception that escapes `extract`: the request then ends without a
      response array. */
  datatype Fault =
    | ArchiveNotFound       // userFolder->get() throws NotFoundException
    | AppPathIsFile         // <user>/<appName> is a file, which has no get()
    | ExtractDirUnreadable  // RecursiveDirectoryIterator cannot open extractTo
    | NoFileInfo            // getFileInfo() gives false, which has no getOwner()

  datatype Outcome = Responded(response: Response) | Raised(fault: Fault)

  /** The collaborators the controller asks, as the values they answer. */
  datatype Environment = Environment(
    encryptionEnabled: bool,          // encryption manager: isEnabled()
    userFiles: map<string, string>,   // userFolder->get($path), then its getLocalFile()
    nodePath: string -> string,       // getPath() of rootFolder->get($path)
    localPath: string -> string,      // getLocalFile() of rootFolder->get($path)
    fullPath: string -> string,       // userFolder->getFullPath($path)
    owners: map<string, string>,      // getView()->getFileInfo($path)->getOwner()->getUID()
    isBlacklisted: string -> bool,    // Filesystem::isFileBlacklisted
    backend: Backend)

  /** The locals `$fileName`, `$extractTo` and `$tmpPath`. */
  datatype Targets = Targets(fileName: string, extractTo: string, tmpPath: string)

  /** `$archiveDir`: the staging folder name, which drops a further ".tar". */
  function StagingName(fileName: string): (r: string)
    ensures '/' !in fileName ==> '/' !in r
  {
    if PathinfoExtension(fileName) == "tar" then PathinfoFilename(fileName) else fileName
  }

  /** `s` holds `pat` from position `i` on. */
  predicate StartsAt(s: string, i: nat, pat: string) {
    i + |pat| <= |s| && s[i..i + |pat|] == pat
  }

  /** `preg_split('/^.*<pat>/U', $s)[1]`: with the ungreedy flag `.*` takes
      the shortest run of non-newline characters followed by `pat`, and the
      split hands back what follows it; None when there is no such match. */
  function AfterFirst(s: string, pat: string): (r: Option<string>)
    ensures r.Some? ==> EndsWith(s, pat + r.value)
    decreases |s|
  {
    if StartsAt(s, 0, pat) then Some(s[|pat|..])
    else if s == [] || s[0] == '\n' then None
    else AfterFirst(s[1..], pat)
  }

  /** `$scanPath`: the owner, a slash, and what `extractTo` holds after its
      first `/<owner>/` (nothing when that does not occur). */
  function ScanPath(owner: string, extractTo: string): (r: string)
    ensures |owner| < |r| && r[..|owner| + 1] == owner + "/"
    ensures var rest := r[|owner| + 1..];
      rest == [] || EndsWith(extractTo, "/" + owner + "/" + rest)
  {
    owner + "/" + match AfterFirst(extractTo, "/" + owner + "/")
      case Some(rest) => rest
      case None => ""
  }

  /** For a plain name, the staging folder is the name without a final
      ".tar", and the name itself otherwise. */
  lemma StagingNameDropsTar(fileName: string)
    requires '/' !in fileName
    ensures StagingName(fileName)
         == if EndsWith(fileName, ".tar") then fileName[..|fileName| - 4] else fileName
  {
    TarExtension(fileName);
  }

  /** `<stem>.tar.<ext>`: the last extension is `<ext>`, and what is left
      is a ".tar" name whose own stem is `<stem>`. */
  lemma CompoundTarName(stem: string, ext: string)
    requires '/' !in stem && '/' !in ext && '.' !in ext
    ensures var tar := stem + ".tar";
      && '/' !in stem + ".tar." + ext
      && '/' !in tar
      && PathinfoFilename(stem + ".tar." + ext) == tar
      && PathinfoExtension(tar) == "tar"
      && PathinfoFilename(tar) == stem
  {
    var name := stem + ".tar." + ext;
    var tar := stem + ".tar";
    assert name == tar + "." + ext;
    assert '/' !in tar by {
      forall i | 0 <= i < |tar| ensures tar[i] != '/' {
        if i < |stem| { assert tar[i] == stem[i]; }
      }
    }
    assert '/' !in name by {
      forall i | 0 <= i < |name| ensures name[i] != '/' {
        if i < |tar| { assert name[i] == tar[i]; }
        else if i > |tar| { assert name[i] == ext[i - |tar| - 1]; }
      }
    }
    SplitAtLastDot(name, tar, ext);
    TarExtension(tar);
    assert EndsWith(tar, ".tar");
    assert tar[..|tar| - 4] == stem;
  }

  /** `AfterFirst` finds the first occurrence of `pat`, provided no newline
      comes before it. */
  lemma {:induction false} AfterFirstAt(s: string, pat: string, k: nat)
    requires StartsAt(s, k, pat)
    requires forall i :: 0 <= i < k ==> s[i] != '\n' && !StartsAt(s, i, pat)
    ensures AfterFirst(s, pat) == Some(s[k + |pat|..])
    decreases k
  {
    if k > 0 {
      assert !StartsAt(s, 0, pat) && s[0] != '\n';
      var t := s[1..];
      forall i | 0 <= i < k - 1
        ensures t[i] != '\n' && !StartsAt(t, i, pat)
      {
        assert t[i] == s[i + 1];
      }
      assert t[k - 1..k - 1 + |pat|] == s[k..k + |pat|];
      AfterFirstAt(t, pat, k - 1);
      assert t[k - 1 + |pat|..] == s[k + |pat|..];
    }
  }

  /** Without any occurrence of `pat`, `AfterFirst` finds nothing. */
  lemma {:induction false} AfterFirstNone(s: string, pat: string)
    requires forall i :: 0 <= i <= |s| ==> !StartsAt(s, i, pat)
    ensures AfterFirst(s, pat) == None
    decreases |s|
  {
    if s != [] && s[0] != '\n' {
      var t := s[1..];
      forall i | 0 <= i <= |t|
        ensures !StartsAt(t, i, pat)
      {
        if StartsAt(t, i, pat) {
          assert s[i + 1..i + 1 + |pat|] == t[i..i + |pat|];
          assert StartsAt(s, i + 1, pat);
        }
      }
      AfterFirstNone(t, pat);
    }
  }

  /** When the owner's folder occurs in `extractTo` after a newline-free
      prefix that does not contain it, the scan path is the owner-relative
      rest: "/srv/data/bob/files/Docs/x" with owner bob gives
      "bob/files/Docs/x". */
  lemma ScanPathIsOwnerRelative(owner: string, prefix: string, rest: string)
    requires '\n' !in prefix
    requires forall i :: 0 <= i < |prefix| ==>
      !StartsAt(prefix + "/" + owner + "/" + rest, i, "/" + owner + "/")
    ensures ScanPath(owner, prefix + "/" + owner + "/" + rest) == owner + "/" + rest
  {
    var pat := "/" + owner + "/";
    var s := prefix + "/" + owner + "/" + rest;
    assert s == prefix + pat + rest;
    assert s[|prefix|..|prefix| + |pat|] == pat;
    forall i | 0 <= i < |prefix| ensures s[i] != '\n' {
      assert s[i] == prefix[i];
    }
    AfterFirstAt(s, pat, |prefix|);
    assert s[|prefix| + |pat|..] == rest;
  }

  /** When the owner's folder does not occur in `extractTo`, the split has no
      second part and the scan path is the owner followed by a slash. */
  lemma ScanPathWithoutOwnerFolder(owner: string, extractTo: string)
    requires forall i :: 0 <= i <= |extractTo| ==> !StartsAt(extractTo, i, "/" + owner + "/")
    ensures ScanPath(owner, extractTo) == owner + "/"
  {
    AfterFirstNone(extractTo, "/" + owner + "/");
  }

  /** The extraction controller of one user. */
  class ExtractionController {
    const appName: string
    const userId: string
    const env: Environment
    const fs: Store

    constructor (appName: string, userId: string, env: Environment, fs: Store)
      ensures this.appName == appName && this.userId == userId
      ensures this.env == env && this.fs == fs
    {
      this.appName := appName;
      this.userId := userId;
      this.env := env;
      this.fs := fs;
    }

    /** getFile: the local path of `directory/fileName` in the user's
        folder, or None where `get` throws NotFoundException. */
    function GetFile(directory: string, fileName: string): (r: Option<string>)
      ensures r.Some? <==> directory + "/" + fileName in env.userFiles
      ensures r.Some? ==> r.value == env.userFiles[directory + "/" + fileName]
    {
      var path := directory + "/" + fileName;
      if path in env.userFiles then Some(env.userFiles[path]) else None
    }

    /** `$appPath`: `<user>/<appName>` in the root folder. */
    function AppPath(): (r: string)
      ensures Under(r, userId) && EndsWith(r, "/" + appName)
    {
      ChildEndsWith(userId, appName);
      userId + "/" + appName
    }

    /** The targets of an archive on external storage: a staging folder in
        the application directory, by node path and by local path. */
    function Staged(fileName: string): (r: Targets)
      ensures r.fileName == fileName && r.tmpPath != ""
      ensures EndsWith(r.extractTo, "/" + StagingName(fileName))
      ensures EndsWith(r.tmpPath, "/" + StagingName(fileName))
    {
      var archiveDir := StagingName(fileName);
      ChildEndsWith(env.localPath(AppPath()), archiveDir);
      ChildEndsWith(env.nodePath(AppPath()), archiveDir);
      Targets(fileName, env.localPath(AppPath()) + "/" + archiveDir,
              env.nodePath(AppPath()) + "/" + archiveDir)
    }

    /** The targets before the dispatch: the archive name without its last
        extension, and the folder beside the archive (no staging) or the
        staging folder (external storage). */
    function Initial(file: string, nameOfFile: string, external: string): (r: Targets)
      ensures r.fileName == PathinfoFilename(nameOfFile)
      ensures r.tmpPath != "" <==> Truthy(external)
    {
      var fileName := PathinfoFilename(nameOfFile);
      if Truthy(external) then Staged(fileName)
      else Targets(fileName, Dirname(file) + "/" + fileName, "")
    }

    /** The switch on `$type`, as the values it leaves: the response, the
        backend calls made in order, the targets afterwards and the path
        unlinked, if any. Only a ".tar.*" name outside the zip and rar
        branches changes the targets, and the ".tar" it unlinks lies in the
        folder it extracted into; the staging path is never touched. */
    function Switch(archiveType: string, file: string, t: Targets): (s: (Response, seq<Call>, Targets, Option<string>))
      ensures s.0.WellFormed()
      ensures s.2.tmpPath == t.tmpPath
      ensures s.3.Some? <==> archiveType != "zip" && archiveType != "rar" && PathinfoExtension(t.fileName) == "tar"
      ensures s.3.None? ==> s.2 == t
      ensures s.3.Some? ==> s.3.value == s.2.extractTo + "/" + PathinfoFilename(file)
    {
      var b := env.backend;
      if archiveType == "zip" then
        var d := ExtractZip(b, file, t.extractTo);
        (d.response, d.calls, t, None)
      else if archiveType == "rar" then
        (RarResponse(b, file, t.extractTo), RarCalls(b, file, t.extractTo), t, None)
      else if PathinfoExtension(t.fileName) == "tar" then
        var clean := PathinfoFilename(t.fileName);
        var dest := Dirname(t.extractTo) + "/" + clean;
        var first := ExtractOther(b, file, clean);
        var tarFile := dest + "/" + PathinfoFilename(file);
        var second := ExtractOther(b, tarFile, dest);
        (second.response, first.calls + second.calls, t.(fileName := clean, extractTo := dest), Some(tarFile))
      else
        var d := ExtractOther(b, file, t.extractTo);
        (d.response, d.calls, t, None)
    }

    /** The tree once the switch is carried out: what each backend call
        writes, then the unlink of the nested ".tar", if any. */
    function Switched(t: Tree, s: (Response, seq<Call>, Targets, Option<string>)): Tree
    {
      match s.3
      case Some(p) => Unlinked(Applied(t, s.1, env.backend.writes), p)
      case None => Applied(t, s.1, env.backend.writes)
    }

    /** The last step of postExtract: one move of the staging folder when
        there is one, otherwise one rescan, always as the owner of the
        looked-up node: on the owner-relative scan path when that owner is
        someone else, on the caller's full path of the destination when it
        is the caller. */
    function Finish(fileName: string, directory: string, extractTo: string, tmpPath: string, nameOfFile: string)
      : (r: Result<Call, Fault>)
      ensures tmpPath != "" ==> r == Ok(Move(tmpPath, env.fullPath(directory + "/" + fileName)))
      ensures tmpPath == "" ==>
        var lookup := if directory == "/" then nameOfFile else directory + "/" + fileName;
        && (r.Ok? <==> lookup in env.owners)
        && (r.Err? ==> r.error == NoFileInfo)
        && (r.Ok? ==> r.value.Scan? && r.value.user == env.owners[lookup])
        && (r.Ok? && r.value.user != userId ==> r.value.path == ScanPath(r.value.user, extractTo))
        && (r.Ok? && r.value.user == userId ==> r.value.path == env.fullPath(directory + "/" + fileName))
    {
      var destination := directory + "/" + fileName;
      if tmpPath != "" then Ok(Move(tmpPath, env.fullPath(destination)))
      else
        var lookup := if directory == "/" then nameOfFile else directory + "/" + fileName;
        if lookup !in env.owners then Err(NoFileInfo)
        else
          var owner := env.owners[lookup];
          if owner != userId then Ok(Scan(owner, ScanPath(owner, extractTo)))
          else Ok(Scan(userId, env.fullPath(destination)))
    }

    /** The tree once the staging step is done: the application directory
        created when missing and the staging folder of an interrupted earlier
        run deleted; None where a file sits at the application directory. */
    function StagedTree(t: Tree, fileName: string): (r: Option<Tree>)
      ensures var appDir := env.localPath(AppPath());
        r.None? <==> appDir in t && t[appDir] == File
      ensures r.Some? ==> IsDir(r.value, env.localPath(AppPath())) && Staged(fileName).extractTo !in r.value
      ensures r.Some? ==> forall q :: q in t && !Under(q, Staged(fileName).extractTo) && q != Staged(fileName).extractTo
                             ==> q in r.value
      ensures var appDir, dir := env.localPath(AppPath()), Staged(fileName).extractTo;
        r.Some? ==> forall q :: q in t && q != appDir && q != dir && !Under(q, dir) ==> r.value[q] == t[q]
      ensures r.Some? ==> r.value.Keys <= t.Keys + {env.localPath(AppPath())}
    {
      var appDir := env.localPath(AppPath());
      if appDir in t && t[appDir] == File then None
      else Some(Evicted(t[appDir := Dir], Staged(fileName).extractTo))
    }

    /** The application directory is created when missing, and the staging
        folder of an interrupted earlier run is deleted (a missing one is
        fine). */
    method PrepareStaging(fileName: string) returns (r: Result<Targets, Fault>)
      modifies fs
      ensures match StagedTree(old(fs.entries), fileName)
        case None => r == Err(AppPathIsFile) && fs.entries == old(fs.entries)
        case Some(t) => r == Ok(Staged(fileName)) && fs.entries == t
      ensures fs.log == old(fs.log)
    {
      var appDir := env.localPath(AppPath());
      if appDir in fs.entries && fs.entries[appDir] == File {
        return Err(AppPathIsFile);
      }
      if appDir !in fs.entries {
        fs.NewFolder(appDir);
      }
      assert fs.entries == old(fs.entries)[appDir := Dir];
      var staged := Staged(fileName);
      fs.Delete(staged.extractTo);
      r := Ok(staged);
    }

    /** The ".tar.*" branch: the outer layer is unpacked first, then the
        ".tar" it leaves, which is then unlinked. The first call passes the
        clean name where extractOther expects its destination. */
    method ExtractNestedTar(file: string, fileName: string, extractTo: string, tmpPath: string)
      returns (response: Response, after: Targets)
      modifies fs
      ensures var clean := PathinfoFilename(fileName);
        var dest := Dirname(extractTo) + "/" + clean;
        var tarFile := dest + "/" + PathinfoFilename(file);
        var calls := ExtractOther(env.backend, file, clean).calls + ExtractOther(env.backend, tarFile, dest).calls;
        && response == ExtractOther(env.backend, tarFile, dest).response
        && after == Targets(clean, dest, tmpPath)
        && fs.log == old(fs.log) + calls
        && fs.entries == Unlinked(Applied(old(fs.entries), calls, env.backend.writes), tarFile)
    {
      var b := env.backend;
      ghost var t0 := fs.entries;
      ghost var l0 := fs.log;
      var cleanFileName := PathinfoFilename(fileName);
      var dest := Dirname(extractTo) + "/" + cleanFileName;
      var first := ExtractOther(b, file, cleanFileName);
      fs.Perform(first.calls, b.writes);
      var tarFile := dest + "/" + PathinfoFilename(file);
      var second := ExtractOther(b, tarFile, dest);
      fs.Perform(second.calls, b.writes);
      response := second.response;
      fs.Unlink(tarFile);
      after := Targets(cleanFileName, dest, tmpPath);
      AppendAssoc(l0, first.calls, second.calls);
      ApplyConcat(t0, first.calls, second.calls, b.writes);
    }

    /** The switch on `$type`, carried out on the store. */
    method Dispatch(archiveType: string, file: string, fileName: string, extractTo: string, tmpPath: string)
      returns (response: Response, after: Targets)
      modifies fs
      ensures var s := Switch(archiveType, file, Targets(fileName, extractTo, tmpPath));
        && response == s.0
        && after == s.2
        && fs.log == old(fs.log) + s.1
        && fs.entries == Switched(old(fs.entries), s)
    {
      var b := env.backend;
      after := Targets(fileName, extractTo, tmpPath);
      if archiveType == "zip" {
        var d := ExtractZip(b, file, extractTo);
        fs.Perform(d.calls, b.writes);
        response := d.response;
      } else if archiveType == "rar" {
        var d := ExtractRar(b, file, extractTo);
        fs.Perform(d.calls, b.writes);
        response := d.response;
      } else if PathinfoExtension(fileName) == "tar" {
        response, after := ExtractNestedTar(file, fileName, extractTo, tmpPath);
      } else {
        var d := ExtractOther(b, file, extractTo);
        fs.Perform(d.calls, b.writes);
        response := d.response;
      }
    }

    /** The loop over the files below `extractTo`: each one whose base name
        is blacklisted is unlinked. */
    method RemoveBlacklisted(extractTo: string)
      modifies fs
      ensures fs.entries == Sanitized(old(fs.entries), extractTo, env.isBlacklisted)
      ensures fs.log == old(fs.log)
    {
      ghost var before := fs.entries;
      ghost var victims := Victims(before, extractTo, env.isBlacklisted);
      var pending := set p | p in fs.entries && fs.entries[p] == File && Under(p, extractTo);
      assert victims - pending == {};
      NothingRemoved(before);
      while pending != {}
        invariant pending <= before.Keys
        invariant forall p :: p in pending ==> before[p] == File && Under(p, extractTo)
        invariant fs.entries == before - (victims - pending)
        invariant fs.log == old(fs.log)
        decreases pending
      {
        var p :| p in pending;
        if env.isBlacklisted(Basename(p)) {
          assert p in victims;
          fs.Unlink(p);
          UnlinkVictim(before, victims, pending, p);
        } else {
          assert p !in victims;
          KeepNonVictim(victims, pending, p);
        }
        pending := pending - {p};
      }
      Drained(before, victims, pending);
    }

    /** postExtract: every blacklisted file below `extractTo` is unlinked,
        then the staging folder is moved or the new files are rescanned. */
    method PostExtract(fileName: string, directory: string, extractTo: string, tmpPath: string, nameOfFile: string)
      returns (fault: Option<Fault>)
      modifies fs
      ensures !IsDir(old(fs.entries), extractTo) ==>
        fault == Some(ExtractDirUnreadable) && fs.entries == old(fs.entries) && fs.log == old(fs.log)
      ensures IsDir(old(fs.entries), extractTo) ==>
        && fs.entries == Sanitized(old(fs.entries), extractTo, env.isBlacklisted)
        && match Finish(fileName, directory, extractTo, tmpPath, nameOfFile)
          case Ok(c) => fault == None && fs.log == old(fs.log) + [c]
          case Err(e) => fault == Some(e) && fs.log == old(fs.log)
    {
      if !IsDir(fs.entries, extractTo) {
        return Some(ExtractDirUnreadable);
      }
      RemoveBlacklisted(extractTo);
      var next := Finish(fileName, directory, extractTo, tmpPath, nameOfFile);
      if next.Err? {
        return Some(next.error);
      }
      fs.Notify(next.value);
      fault := None;
    }

    /** extract: the whole request. */
    method Extract(nameOfFile: string, directory: string, external: string, archiveType: string) returns (out: Outcome)
      modifies fs
      ensures env.encryptionEnabled ==>
        out == Responded(Failure(EncryptionUnsupported)) && unchanged(fs)
      ensures !env.encryptionEnabled && GetFile(directory, nameOfFile).None? ==>
        out == Raised(ArchiveNotFound) && unchanged(fs)
      ensures out.Responded? ==> out.response.WellFormed()
      ensures !env.encryptionEnabled && GetFile(directory, nameOfFile).Some? ==>
        var file := GetFile(directory, nameOfFile).value;
        var t := Initial(file, nameOfFile, external);
        var s := Switch(archiveType, file, t);
        var done := s.2;
        var staged := if Truthy(external) then StagedTree(old(fs.entries), t.fileName) else Some(old(fs.entries));
        match staged
        case None =>
          out == Raised(AppPathIsFile) && fs.entries == old(fs.entries) && fs.log == old(fs.log)
        case Some(t1) =>
          var d := Switched(t1, s);
          if !IsDir(d, done.extractTo) then
            out == Raised(ExtractDirUnreadable) && fs.entries == d && fs.log == old(fs.log) + s.1
          else
            && fs.entries == Sanitized(d, done.extractTo, env.isBlacklisted)
            && match Finish(done.fileName, directory, done.extractTo, done.tmpPath, nameOfFile)
              case Ok(c) => out == Responded(s.0) && fs.log == old(fs.log) + s.1 + [c]
              case Err(e) => out == Raised(e) && fs.log == old(fs.log) + s.1
    {
      if env.encryptionEnabled {
        return Responded(Failure(EncryptionUnsupported));
      }
      var found := GetFile(directory, nameOfFile);
      if found.None? {
        return Raised(ArchiveNotFound);
      }
      var file := found.value;
      var dir := Dirname(file);
      var fileName := PathinfoFilename(nameOfFile);
      var extractTo := dir + "/" + fileName;
      var tmpPath: string;
      if Truthy(external) {
        var staged := PrepareStaging(fileName);
        if staged.Err? {
          return Raised(staged.error);
        }
        tmpPath := staged.value.tmpPath;
        extractTo := staged.value.extractTo;
      } else {
        tmpPath := "";
      }
      assert Targets(fileName, extractTo, tmpPath) == Initial(file, nameOfFile, external);
      var response, after := Dispatch(archiveType, file, fileName, extractTo, tmpPath);
      var fault := PostExtract(after.fileName, directory, after.extractTo, after.tmpPath, nameOfFile);
      if fault.Some? {
        return Raised(fault.value);
      }
      out := Responded(response);
    }

    /** Without staging, the archive is extracted into a folder beside it
        that carries its name without the last extension. */
    lemma SiblingFolder(file: string, nameOfFile: string, external: string)
      requires !Truthy(external) && file != []
      requires PathinfoFilename(nameOfFile) != []
      ensures var t := Initial(file, nameOfFile, external);
        && Dirname(t.extractTo) == Dirname(file)
        && Basename(t.extractTo) == t.fileName
        && t.tmpPath == ""
    {
      DirnameOfChild(Dirname(file), PathinfoFilename(nameOfFile));
    }

    /** With staging, the local folder and the node folder are the same
        child of the application directory, seen from the two sides. */
    lemma StagingInAppDir(file: string, nameOfFile: string, external: string)
      requires Truthy(external)
      requires DirShaped(env.localPath(AppPath())) && DirShaped(env.nodePath(AppPath()))
      requires StagingName(PathinfoFilename(nameOfFile)) != []
      ensures var t := Initial(file, nameOfFile, external);
        && Dirname(t.extractTo) == env.localPath(AppPath())
        && Dirname(t.tmpPath) == env.nodePath(AppPath())
        && Basename(t.extractTo) == Basename(t.tmpPath) == StagingName(t.fileName)
    {
      var fileName := PathinfoFilename(nameOfFile);
      var archiveDir := StagingName(fileName);
      var local := env.localPath(AppPath());
      var node := env.nodePath(AppPath());
      assert Initial(file, nameOfFile, external) == Targets(fileName, local + "/" + archiveDir, node + "/" + archiveDir);
      assert '/' !in archiveDir;
      DirnameOfChild(local, archiveDir);
      DirnameOfChild(node, archiveDir);
    }

    /** `<dir>/<stem>.tar.<ext>` without staging: the first 7za run is told
        to write into the bare name `<stem>` (the folder argument meant for
        it is dropped by the call), the second unpacks
        `<dir>/<stem>/<stem>.tar` into `<dir>/<stem>`, and that ".tar" is
        then unlinked. */
    lemma NestedTarNaming(dir: string, stem: string, ext: string, archiveType: string)
      requires DirShaped(dir)
      requires stem != [] && '/' !in stem && '/' !in ext && '.' !in ext
      requires archiveType != "zip" && archiveType != "rar"
      ensures var name := stem + ".tar." + ext;
        var file := dir + "/" + name;
        var dest := dir + "/" + stem;
        var tarFile := dest + "/" + (stem + ".tar");
        var s := Switch(archiveType, file, Initial(file, name, ""));
        && s.1 == [Exec(SevenZipCommand(file, stem)), Exec(SevenZipCommand(tarFile, dest))]
        && s.2 == Targets(stem, dest, "")
        && s.3 == Some(tarFile)
    {
      var name := stem + ".tar." + ext;
      var tar := stem + ".tar";
      CompoundTarName(stem, ext);
      var file := dir + "/" + name;
      DirnameOfChild(dir, name);
      BasenameOfPlainName(name);
      assert PathinfoFilename(file) == tar;
      DirnameOfChild(dir, tar);
      var dest := dir + "/" + stem;
      var t := Initial(file, name, "");
      assert t == Targets(tar, dir + "/" + tar, "");
      assert Dirname(t.extractTo) + "/" + PathinfoFilename(t.fileName) == dest;
      var tarFile := dest + "/" + tar;
      var first := ExtractOther(env.backend, file, stem);
      var second := ExtractOther(env.backend, tarFile, dest);
      var s := Switch(archiveType, file, t);
      assert s == (second.response, first.calls + second.calls, Targets(stem, dest, ""), Some(tarFile));
      OneCallEach(first.calls, second.calls, Exec(SevenZipCommand(file, stem)), Exec(SevenZipCommand(tarFile, dest)));
    }
  }

  /** The small sequence and set identities below are stated as lemmas of
      their own so that the methods and functions using them stay within the
      verifier's resource limit. */

  lemma ChildEndsWith(d: string, n: string)
    ensures EndsWith(d + "/" + n, "/" + n)
  {
    assert (d + "/" + n)[|d|..] == "/" + n;
  }

  lemma OneCallEach(a: seq<Call>, b: seq<Call>, x: Call, y: Call)
    requires a == [x] && b == [y]
    ensures a + b == [x, y]
  {
  }

  /** One step of the loop over the pending files, on a blacklisted file:
      unlinking it takes it from the pending set into the removed ones. */
  lemma UnlinkVictim(m: Tree, victims: set<string>, pending: set<string>, p: string)
    requires p in pending && p in victims && p in m && m[p] == File
    ensures Unlinked(m - (victims - pending), p) == m - (victims - (pending - {p}))
  {
  }

  /** One step on a file that is kept: nothing more is removed. */
  lemma KeepNonVictim(victims: set<string>, pending: set<string>, p: string)
    requires p !in victims
    ensures victims - (pending - {p}) == victims - pending
  {
  }

  /** Once nothing is pending, every victim has been removed. */
  lemma Drained(m: Tree, victims: set<string>, pending: set<string>)
    requires pending == {}
    ensures m - (victims - pending) == m - victims
  {
  }

  lemma NothingRemoved(m: Tree)
    ensures m - {} == m
  {
  }

  lemma AppendAssoc(a: seq<Call>, b: seq<Call>, c: seq<Call>)
    ensures (a + b) + c == a + (b + c)
  {
  }

  lemma {:induction false} ApplyConcat(t: Tree, a: seq<Call>, b: seq<Call>, writes: Call -> Tree)
    ensures Applied(t, a + b, writes) == Applied(Applied(t, a, writes), b, writes)
    decreases |b|
  {
    if b == [] {
      assert a + b == a;
    } else {
      assert (a + b)[..|a + b| - 1] == a + b[..|b| - 1];
      ApplyConcat(t, a, b[..|b| - 1], writes);
    }
  }
}

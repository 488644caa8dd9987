/**
 * Installing the files at the root of a GitHub repository into a local
 * directory. Each root entry whose name is not ignored is fetched, its
 * base64 content decoded and written to `<dir>\<path>`; the first entry that
 * fails stops the installation, and files written before it stay written.
 *
 * GitHub is not modelled: the user's repositories and each entry's content
 * (or the failure to fetch it) are inputs. The local disk is a map from path
 * to bytes with a fixed set of paths that cannot be opened for writing.
 */
module RepoInstaller {
  import opened Wrappers
  import Base64

  type byte = Base64.byte

  /** Root entries that are never installed. */
  const IgnoredFiles: seq<string> := ["README.md", "config.py"]

  /** A root entry. `content` is `None` when fetching it raises `GithubException`. */
  datatype ContentFile = ContentFile(name: string, path: string, content: Option<string>)

  datatype Repo = Repo(name: string, contents: seq<ContentFile>)

  /** What processing one entry can raise. */
  datatype Raised =
    | GithubException
    | IOError
    | DecodeError(cause: Base64.DecodeError)   // from `b64decode`, not caught by the installer

  /** What the installation raises: the caught errors become `RepoInstallError`, the rest propagate. */
  datatype InstallError =
    | RepoInstallError
    | Uncaught(cause: Base64.DecodeError)

  function Escalate(e: Raised): (r: InstallError)
    ensures r.RepoInstallError? <==> !e.DecodeError?
  {
    match e
    case DecodeError(cause) => Uncaught(cause)
    case _ => RepoInstallError
  }

  /** `_get_install_path`: the entry's repository path under the install directory. */
  function InstallPath(dir: string, path: string): (r: string)
    ensures |r| == |dir| + 1 + |path| && r[..|dir|] == dir && r[|dir|] == '\\' && r[|dir| + 1..] == path
  {
    dir + "\\" + path
  }

  /** Distinct entries of one install directory go to distinct local paths. */
  lemma InstallPathInjective(dir: string, p1: string, p2: string)
    requires InstallPath(dir, p1) == InstallPath(dir, p2)
    ensures p1 == p2
  {
    var n := |dir| + 1;
    assert p1 == InstallPath(dir, p1)[n..];
    assert p2 == InstallPath(dir, p2)[n..];
  }

  /**
   * Whether processing `c` raises, and what: ignored entries never do; the
   * content is fetched, then decoded, then the file is opened for writing.
   */
  function FileFailure(c: ContentFile, dir: string, unwritable: set<string>): Option<Raised>
  {
    if c.name in IgnoredFiles then None
    else match c.content
      case None => Some(GithubException)
      case Some(text) =>
        match Base64.Decode(text)
        case Err(e) => Some(DecodeError(e))
        case Ok(_) => if InstallPath(dir, c.path) in unwritable then Some(IOError) else None
  }

  /** `_process_content_file`: the files after processing `c`, or what it raised. */
  function ProcessFile(files: map<string, seq<byte>>, c: ContentFile, dir: string, unwritable: set<string>)
    : (r: Result<map<string, seq<byte>>, Raised>)
    ensures r.Err? <==> FileFailure(c, dir, unwritable).Some?
    ensures r.Err? ==> r.error == FileFailure(c, dir, unwritable).value
    ensures r.Ok? && c.name in IgnoredFiles ==> r.value == files
    ensures r.Ok? && c.name !in IgnoredFiles ==>
      c.content.Some? && Base64.Decode(c.content.value).Ok?
      && r.value == files[InstallPath(dir, c.path) := Base64.Decode(c.content.value).value]
  {
    match FileFailure(c, dir, unwritable)
    case Some(e) => Err(e)
    case None =>
      if c.name in IgnoredFiles then Ok(files)
      else Ok(files[InstallPath(dir, c.path) := Base64.Decode(c.content.value).value])
  }

  /** The disk after an installation, and what the installation raised. */
  datatype Install = Install(files: map<string, seq<byte>>, error: Option<InstallError>)

  /** `_install_repo` over the remaining entries `items`. */
  function InstallFrom(files: map<string, seq<byte>>, items: seq<ContentFile>, dir: string, unwritable: set<string>)
    : Install
    decreases |items|
  {
    if items == [] then Install(files, None)
    else match ProcessFile(files, items[0], dir, unwritable)
      case Err(e) => Install(files, Some(Escalate(e)))
      case Ok(next) => InstallFrom(next, items[1..], dir, unwritable)
  }

  /** A path no processed entry installs to keeps its old contents, or stays absent. */
  lemma {:induction false} InstallKeepsOtherPaths(
    files: map<string, seq<byte>>, items: seq<ContentFile>, dir: string, unwritable: set<string>, p: string)
    requires forall c :: c in items && c.name !in IgnoredFiles ==> InstallPath(dir, c.path) != p
    ensures var r := InstallFrom(files, items, dir, unwritable);
      (p in r.files <==> p in files) && (p in files ==> r.files[p] == files[p])
    decreases |items|
  {
    if items != [] {
      match ProcessFile(files, items[0], dir, unwritable)
      case Err(_) =>
      case Ok(next) =>
        assert forall c :: c in items[1..] ==> c in items;
        InstallKeepsOtherPaths(next, items[1..], dir, unwritable, p);
    }
  }

  /** The installation fails exactly when some entry fails. */
  lemma {:induction false} InstallFailsIffSomeEntryFails(
    files: map<string, seq<byte>>, items: seq<ContentFile>, dir: string, unwritable: set<string>)
    ensures InstallFrom(files, items, dir, unwritable).error.None?
      <==> forall i :: 0 <= i < |items| ==> FileFailure(items[i], dir, unwritable).None?
    decreases |items|
  {
    if items != [] {
      var tail := items[1..];
      assert forall i :: 0 <= i < |tail| ==> tail[i] == items[i + 1];
      match ProcessFile(files, items[0], dir, unwritable)
      case Err(e) =>
      case Ok(next) =>
        InstallFailsIffSomeEntryFails(next, tail, dir, unwritable);
        assert forall i :: 1 <= i < |items| ==> items[i] == tail[i - 1];
    }
  }

  /**
   * A failed installation reports the escalated error of the first failing
   * entry `k`, after installing the entries before it.
   */
  lemma {:induction false} FirstFailureStops(
    files: map<string, seq<byte>>, items: seq<ContentFile>, dir: string, unwritable: set<string>)
    returns (k: nat)
    requires InstallFrom(files, items, dir, unwritable).error.Some?
    ensures k < |items|
    ensures forall i :: 0 <= i < k ==> FileFailure(items[i], dir, unwritable).None?
    ensures FileFailure(items[k], dir, unwritable).Some?
    ensures InstallFrom(files, items, dir, unwritable)
      == Install(InstallFrom(files, items[..k], dir, unwritable).files,
                 Some(Escalate(FileFailure(items[k], dir, unwritable).value)))
    decreases |items|
  {
    match ProcessFile(files, items[0], dir, unwritable)
    case Err(e) =>
      k := 0;
      assert items[..0] == [];
    case Ok(next) =>
      var tail := items[1..];
      var m := FirstFailureStops(next, tail, dir, unwritable);
      k := m + 1;
      assert items[..k][1..] == tail[..m];
      assert items[..k][0] == items[0];
      assert forall i :: 1 <= i < k ==> items[i] == tail[i - 1];
      assert items[k] == tail[m];
  }

  /**
   * After a successful installation from a listing whose paths are distinct,
   * every entry that is not ignored is installed with its decoded content.
   */
  lemma {:induction false} InstallWritesDecodedContents(
    files: map<string, seq<byte>>, items: seq<ContentFile>, dir: string, unwritable: set<string>, j: nat)
    requires forall a, b :: 0 <= a < b < |items| ==> items[a].path != items[b].path
    requires InstallFrom(files, items, dir, unwritable).error.None?
    requires j < |items| && items[j].name !in IgnoredFiles
    ensures items[j].content.Some? && Base64.Decode(items[j].content.value).Ok?
    ensures var r := InstallFrom(files, items, dir, unwritable);
      InstallPath(dir, items[j].path) in r.files
      && r.files[InstallPath(dir, items[j].path)] == Base64.Decode(items[j].content.value).value
    decreases |items|
  {
    var tail := items[1..];
    match ProcessFile(files, items[0], dir, unwritable)
    case Ok(next) =>
      if j == 0 {
        forall c | c in tail && c.name !in IgnoredFiles
          ensures InstallPath(dir, c.path) != InstallPath(dir, items[0].path)
        {
          var b :| 0 <= b < |tail| && tail[b] == c;
          assert c == items[b + 1];
        }
        InstallKeepsOtherPaths(next, tail, dir, unwritable, InstallPath(dir, items[0].path));
      } else {
        assert tail[j - 1] == items[j];
        InstallWritesDecodedContents(next, tail, dir, unwritable, j - 1);
      }
  }

  /**
   * An entry holding the base64 encoding of some bytes, broken into lines or
   * not, is installed as exactly those bytes.
   */
  lemma InstallRestoresEncodedBytes(
    files: map<string, seq<byte>>, items: seq<ContentFile>, dir: string, unwritable: set<string>,
    j: nat, data: seq<byte>)
    requires forall a, b :: 0 <= a < b < |items| ==> items[a].path != items[b].path
    requires InstallFrom(files, items, dir, unwritable).error.None?
    requires j < |items| && items[j].name !in IgnoredFiles
    requires items[j].content.Some? && Base64.DropBreaks(items[j].content.value) == Base64.Encode(data)
    ensures var r := InstallFrom(files, items, dir, unwritable);
      InstallPath(dir, items[j].path) in r.files && r.files[InstallPath(dir, items[j].path)] == data
  {
    InstallWritesDecodedContents(files, items, dir, unwritable, j);
    Base64.DecodeBrokenEncoding(items[j].content.value, data);
  }

  /** The local disk: file contents by path, and the paths that cannot be opened for writing. */
  class Disk {
    var files: map<string, seq<byte>>
    const unwritable: set<string>

    constructor (files: map<string, seq<byte>>, unwritable: set<string>)
      ensures this.files == files && this.unwritable == unwritable
    {
      this.files := files;
      this.unwritable := unwritable;
    }

    /** `open(path, "wb")` and `write`: replaces the whole file, or raises `IOError`. */
    method Write(path: string, data: seq<byte>) returns (ok: bool)
      modifies this
      ensures ok == (path !in unwritable)
      ensures files == if ok then old(files)[path := data] else old(files)
    {
      ok := path !in unwritable;
      if ok {
        files := files[path := data];
      }
    }
  }

  /** `_get_repo`: the first of the user's repositories with that name, `None` where it raises `ValueError`. */
  method GetRepo(repos: seq<Repo>, name: string) returns (r: Option<Repo>)
    ensures r.None? <==> forall i :: 0 <= i < |repos| ==> repos[i].name != name
    ensures r.Some? ==>
      exists k ::
        (0 <= k < |repos| && repos[k] == r.value && r.value.name == name
         && forall i :: 0 <= i < k ==> repos[i].name != name)
  {
    var i := 0;
    while i < |repos|
      invariant 0 <= i <= |repos|
      invariant forall j :: 0 <= j < i ==> repos[j].name != name
    {
      if repos[i].name == name {
        return Some(repos[i]);
      }
      i := i + 1;
    }
    return None;
  }

  class GithubRepoInstaller {
    const repo: Repo
    const installDir: string
    const disk: Disk

    /** `__init__`, once the repository has been found. */
    constructor (repo: Repo, installDir: string, disk: Disk)
      ensures this.repo == repo && this.installDir == installDir && this.disk == disk
    {
      this.repo := repo;
      this.installDir := installDir;
      this.disk := disk;
    }

    /** `_install_content_file`: fetch, decode, then write the file. */
    method InstallContentFile(c: ContentFile) returns (raised: Option<Raised>)
      requires c.name !in IgnoredFiles
      modifies disk
      ensures raised == FileFailure(c, installDir, disk.unwritable)
      ensures raised.None? ==> disk.files == ProcessFile(old(disk.files), c, installDir, disk.unwritable).value
      ensures raised.Some? ==> disk.files == old(disk.files)
    {
      match c.content
      case None =>
        raised := Some(GithubException);
      case Some(text) =>
        match Base64.Decode(text)
        case Err(e) =>
          raised := Some(DecodeError(e));
        case Ok(data) =>
          var ok := disk.Write(InstallPath(installDir, c.path), data);
          raised := if ok then None else Some(IOError);
    }

    /** `_process_content_file`: skip ignored entries, install the rest. */
    method ProcessContentFile(c: ContentFile) returns (raised: Option<Raised>)
      modifies disk
      ensures match ProcessFile(old(disk.files), c, installDir, disk.unwritable)
        case Ok(next) => raised.None? && disk.files == next
        case Err(e) => raised == Some(e) && disk.files == old(disk.files)
    {
      if c.name !in IgnoredFiles {
        raised := InstallContentFile(c);
      } else {
        raised := None;
      }
    }

    /** `_install_repo`: process the root entries in order, stopping at the first failure. */
    method InstallRepo() returns (error: Option<InstallError>)
      modifies disk
      ensures Install(disk.files, error) == InstallFrom(old(disk.files), repo.contents, installDir, disk.unwritable)
    {
      var items := repo.contents;
      var i := 0;
      error := None;
      while i < |items| && error.None?
        invariant 0 <= i <= |items|
        invariant error.None? ==>
          InstallFrom(old(disk.files), items, installDir, disk.unwritable)
          == InstallFrom(disk.files, items[i..], installDir, disk.unwritable)
        invariant error.Some? ==>
          InstallFrom(old(disk.files), items, installDir, disk.unwritable) == Install(disk.files, error)
      {
        var raised := ProcessContentFile(items[i]);
        if raised.Some? {
          error := Some(Escalate(raised.value));
        }
        i := i + 1;
      }
    }

    /** `install_latest_files`: a `RepoInstallError` is logged and raised again; nothing else is caught. */
    method InstallLatestFiles() returns (error: Option<InstallError>)
      modifies disk
      ensures Install(disk.files, error) == InstallFrom(old(disk.files), repo.contents, installDir, disk.unwritable)
    {
      error := InstallRepo();
    }
  }

  /** `GithubRepoInstaller(name, dir)`: construction raises `ValueError` when the user has no such repository. */
  method CreateInstaller(repos: seq<Repo>, name: string, installDir: string, disk: Disk)
    returns (installer: Option<GithubRepoInstaller>)
    ensures installer.None? <==> forall i :: 0 <= i < |repos| ==> repos[i].name != name
    ensures installer.Some? ==>
      (fresh(installer.value) && installer.value.repo.name == name
       && installer.value.repo in repos && installer.value.disk == disk
       && installer.value.installDir == installDir)
  {
    var repo := GetRepo(repos, name);
    match repo
    case None =>
      installer := None;
    case Some(found) =>
      var created := new GithubRepoInstaller(found, installDir, disk);
      installer := Some(created);
  }
}

/** isOwnerOfSig (permission.go:42-111): may a commenter without write access
    approve a pull request because they own every directory it touches?

    Every changed file must lie in a governed directory (the configured
    regular expression) and have at most two '/' in its name; the parent
    directories of the changed files form the set of directories still to
    cover. One ownership-file variant is chosen: OWNERS files when any exist,
    sig-info.yaml files otherwise. Walking the files of that variant in order,
    a file whose directory is still to cover either vetoes the approval (the
    commenter is not among its owners) or covers its directory; the approval
    succeeds the moment no directory is left.

    The library calls are parameters (an Env): the regular expression,
    filepath.Dir for the changed files, Path.Dir for the cached files, and the
    base64 and YAML steps of the decoders. */
module SigOwnership {
  import opened Wrappers
  import opened Paths
  import opened OwnerFiles
  import opened Gitee

  datatype Env = Env(
    regSigDir: string -> bool,
    dir: string -> string,
    pathDir: string -> string,
    codec: Codec)

  /** The two kinds of ownership file. */
  datatype Variant = Owners | SigInfo

  /** The lowered logins a file of the given variant authorizes. */
  function OwnerSet(codec: Codec, v: Variant, content: string): set<string> {
    match v
    case Owners => OwnerFileSet(codec, content)
    case SigInfo => SigInfoFileSet(codec, content)
  }

  /** Decodes a file with the decoder of its variant. */
  method DecodeOwnerSet(codec: Codec, v: Variant, content: string) returns (owners: set<string>)
    ensures owners == OwnerSet(codec, v, content)
  {
    match v
    case Owners => owners := DecodeOwnerFile(codec, content);
    case SigInfo => owners := DecodeSigInfoFile(codec, content);
  }

  /** The shape every changed file must have (permission.go:55): inside a
      governed directory and at most two '/' in its name. */
  predicate ValidChange(env: Env, f: ChangedFile) {
    env.regSigDir(f.filename) && SlashCount(f.filename) <= 2
  }

  /** The parent directories of the changed files. */
  function ChangedDirs(env: Env, changes: seq<ChangedFile>): set<string> {
    set f | f in changes :: env.dir(f.filename)
  }

  /** The directories of the first n cached files of a list. */
  function DirsBefore(pathDir: string -> string, files: seq<FileEntry>, n: int): set<string>
    requires 0 <= n <= |files|
  {
    set j | 0 <= j < n :: pathDir(files[j].path)
  }

  /** files[i] is the first file of the list in directory d. */
  predicate IsFirstFor(pathDir: string -> string, files: seq<FileEntry>, i: int, d: string) {
    && 0 <= i < |files|
    && pathDir(files[i].path) == d
    && forall j :: 0 <= j < i ==> pathDir(files[j].path) != d
  }

  /** Unanimous coverage: there is at least one directory, and for each of
      them the first file of the list in that directory authorizes the
      commenter. */
  predicate Covered(codec: Codec, v: Variant, pathDir: string -> string, files: seq<FileEntry>,
                    dirs: set<string>, commenter: string)
  {
    && dirs != {}
    && forall d :: d in dirs ==>
         exists i :: 0 <= i < |files| && IsFirstFor(pathDir, files, i, d) && commenter in OwnerSet(codec, v, files[i].content)
  }

  /** The variant consulted (permission.go:72, 91): OWNERS files when there are
      any, sig-info files when there are none, nothing when both lists are
      empty. */
  function Selected(ownerFiles: seq<FileEntry>, sigInfoFiles: seq<FileEntry>): Option<(Variant, seq<FileEntry>)> {
    if |ownerFiles| > 0 then Some((Owners, ownerFiles))
    else if |sigInfoFiles| > 0 then Some((SigInfo, sigInfoFiles))
    else None
  }

  /** The answer isOwnerOfSig gives, stated without its loops. */
  function Decision(env: Env, pr: PullRequestData, commenter: string): Answer {
    match pr.changes
    case Failure(e) => Answer(false, Some(e))
    case Success(changes) =>
      if |changes| == 0 then Answer(false, None)
      else if exists f :: f in changes && !ValidChange(env, f) then Answer(false, None)
      else if pr.ownerFiles.Failure? then Answer(false, Some(pr.ownerFiles.error))
      else if pr.sigInfoFiles.Failure? then Answer(false, Some(pr.sigInfoFiles.error))
      else match Selected(pr.ownerFiles.value, pr.sigInfoFiles.value)
        case None => Answer(false, None)
        case Some((v, files)) =>
          Answer(Covered(env.codec, v, env.pathDir, files, ChangedDirs(env, changes), commenter), None)
  }

  lemma DirsBeforeNext(pathDir: string -> string, files: seq<FileEntry>, i: int)
    requires 0 <= i < |files|
    ensures DirsBefore(pathDir, files, i + 1) == DirsBefore(pathDir, files, i) + {pathDir(files[i].path)}
  {
  }

  /** Two first files for the same directory are the same file. */
  lemma FirstForUnique(pathDir: string -> string, files: seq<FileEntry>, i: int, k: int, d: string)
    requires IsFirstFor(pathDir, files, i, d) && IsFirstFor(pathDir, files, k, d)
    ensures i == k
  {
  }

  /** The directories that are already covered: each has its first file,
      and that file authorizes the commenter. */
  ghost predicate CoveredSoFar(codec: Codec, v: Variant, pathDir: string -> string, files: seq<FileEntry>,
                               done: set<string>, commenter: string)
  {
    forall d :: d in done ==>
      exists k :: IsFirstFor(pathDir, files, k, d) && commenter in OwnerSet(codec, v, files[k].content)
  }

  /** A first file that authorizes the commenter covers its directory. */
  lemma CoverOne(codec: Codec, v: Variant, pathDir: string -> string, files: seq<FileEntry>,
                 done: set<string>, commenter: string, i: int, p: string)
    requires CoveredSoFar(codec, v, pathDir, files, done, commenter)
    requires IsFirstFor(pathDir, files, i, p) && commenter in OwnerSet(codec, v, files[i].content)
    ensures CoveredSoFar(codec, v, pathDir, files, done + {p}, commenter)
  {
  }

  /** Every directory covered, and there is one: coverage. */
  lemma AllCovered(codec: Codec, v: Variant, pathDir: string -> string, files: seq<FileEntry>,
                   dirs: set<string>, commenter: string)
    requires dirs != {} && CoveredSoFar(codec, v, pathDir, files, dirs, commenter)
    ensures Covered(codec, v, pathDir, files, dirs, commenter)
  {
  }

  /** A directory still to cover, met at file i, is met there for the first time. */
  lemma FirstMeeting(pathDir: string -> string, files: seq<FileEntry>, i: int, dirs: set<string>, p: string)
    requires 0 <= i < |files| && p == pathDir(files[i].path)
    requires p in dirs - DirsBefore(pathDir, files, i)
    ensures IsFirstFor(pathDir, files, i, p)
  {
  }

  /** The first file of a changed directory lacks the commenter: no coverage. */
  lemma Vetoed(codec: Codec, v: Variant, pathDir: string -> string, files: seq<FileEntry>,
               dirs: set<string>, commenter: string, i: int, p: string)
    requires p in dirs && IsFirstFor(pathDir, files, i, p)
    requires commenter !in OwnerSet(codec, v, files[i].content)
    ensures !Covered(codec, v, pathDir, files, dirs, commenter)
  {
  }

  /** A changed directory without any file: no coverage. */
  lemma Uncovered(codec: Codec, v: Variant, pathDir: string -> string, files: seq<FileEntry>,
                  dirs: set<string>, commenter: string, d: string)
    requires d in dirs && d !in DirsBefore(pathDir, files, |files|)
    ensures !Covered(codec, v, pathDir, files, dirs, commenter)
  {
  }

  /** The coverage loop over the files of one variant (permission.go:73-88 for
      OWNERS files, 92-107 for sig-info files). The set of directories still
      to cover only shrinks, by one directory per file that covers it. */
  method CoverDirs(codec: Codec, v: Variant, pathDir: string -> string, files: seq<FileEntry>,
                   dirs: set<string>, commenter: string) returns (ok: bool)
    ensures ok == Covered(codec, v, pathDir, files, dirs, commenter)
  {
    var pathes := dirs;
    for i := 0 to |files|
      invariant pathes <= dirs
      invariant pathes == dirs - DirsBefore(pathDir, files, i)
      invariant pathes == {} ==> dirs == {}
      invariant CoveredSoFar(codec, v, pathDir, files, dirs - pathes, commenter)
    {
      var p := pathDir(files[i].path);
      DirsBeforeNext(pathDir, files, i);
      if p !in pathes {
        continue;
      }
      FirstMeeting(pathDir, files, i, dirs, p);
      var owners := DecodeOwnerSet(codec, v, files[i].content);
      if commenter !in owners {
        Vetoed(codec, v, pathDir, files, dirs, commenter, i, p);
        return false;
      }
      CoverOne(codec, v, pathDir, files, dirs - pathes, commenter, i, p);
      assert dirs - (pathes - {p}) == (dirs - pathes) + {p};
      pathes := pathes - {p};
      if pathes == {} {
        assert dirs - pathes == dirs;
        AllCovered(codec, v, pathDir, files, dirs, commenter);
        return true;
      }
    }
    if dirs != {} {
      var d :| d in pathes;
      Uncovered(codec, v, pathDir, files, dirs, commenter, d);
    }
    return false;
  }

  /** isOwnerOfSig: the answer is the one Decision describes. */
  method IsOwnerOfSig(env: Env, pr: PullRequestData, commenter: string) returns (ok: bool, err: Option<ApiError>)
    ensures Answer(ok, err) == Decision(env, pr, commenter)
  {
    if pr.changes.Failure? {
      return false, Some(pr.changes.error);
    }
    var changes := pr.changes.value;
    if |changes| == 0 {
      return false, None;
    }

    var pathes: set<string> := {};
    for i := 0 to |changes|
      invariant pathes == ChangedDirs(env, changes[..i])
      invariant forall j :: 0 <= j < i ==> ValidChange(env, changes[j])
    {
      var name := changes[i].filename;
      if !env.regSigDir(name) || SlashCount(name) > 2 {
        assert !ValidChange(env, changes[i]);
        return false, None;
      }
      assert changes[..i + 1] == changes[..i] + [changes[i]];
      pathes := pathes + {env.dir(name)};
    }
    assert changes[..|changes|] == changes;

    if pr.ownerFiles.Failure? {
      return false, Some(pr.ownerFiles.error);
    }
    var ownerFiles := pr.ownerFiles.value;
    if pr.sigInfoFiles.Failure? {
      return false, Some(pr.sigInfoFiles.error);
    }
    var sigInfoFiles := pr.sigInfoFiles.value;

    if |ownerFiles| > 0 {
      ok := CoverDirs(env.codec, Owners, env.pathDir, ownerFiles, pathes, commenter);
      if ok {
        return true, None;
      }
    }
    if |ownerFiles| == 0 && |sigInfoFiles| > 0 {
      ok := CoverDirs(env.codec, SigInfo, env.pathDir, sigInfoFiles, pathes, commenter);
      if ok {
        return true, None;
      }
    }
    return false, None;
  }

  /** A failed or empty change listing ends the decision before any
      ownership file is looked at (permission.go:48-51): the answer is a
      denial carrying the listing's error, whatever files are stored. */
  lemma NoChangesDenies(env: Env, pr: PullRequestData, commenter: string,
                        ownerFiles: Result<seq<FileEntry>, ApiError>, sigInfoFiles: Result<seq<FileEntry>, ApiError>)
    requires pr.changes.Failure? || pr.changes == Success([])
    ensures Decision(env, pr, commenter) == Answer(false, if pr.changes.Failure? then Some(pr.changes.error) else None)
    ensures Decision(env, pr.(ownerFiles := ownerFiles, sigInfoFiles := sigInfoFiles), commenter)
         == Decision(env, pr, commenter)
  {
  }

  /** One changed file outside a governed directory, or with more than two
      '/', denies without error (permission.go:54-57), whatever the other
      changed files and the stored files are. */
  lemma InvalidChangeDenies(env: Env, pr: PullRequestData, commenter: string, f: ChangedFile)
    requires pr.changes.Success? && f in pr.changes.value
    requires !env.regSigDir(f.filename) || SlashCount(f.filename) > 2
    ensures Decision(env, pr, commenter) == Answer(false, None)
  {
  }

  /** Soundness of an approval (permission.go:72-108): the change list and
      both file lists were read, every changed file is well formed, and the
      directory of every changed file has a file of the selected variant
      (OWNERS when any exist, sig-info otherwise) whose owners include the
      commenter. */
  lemma ApprovalIsSound(env: Env, pr: PullRequestData, commenter: string)
    requires Decision(env, pr, commenter).ok
    ensures Decision(env, pr, commenter).err == None
    ensures pr.changes.Success? && pr.ownerFiles.Success? && pr.sigInfoFiles.Success?
    ensures |pr.changes.value| > 0
    ensures forall f :: f in pr.changes.value ==> env.regSigDir(f.filename) && SlashCount(f.filename) <= 2
    ensures var useOwners := |pr.ownerFiles.value| > 0;
            var files := if useOwners then pr.ownerFiles.value else pr.sigInfoFiles.value;
            var v := if useOwners then Owners else SigInfo;
            forall f :: f in pr.changes.value ==>
              exists e :: e in files && env.pathDir(e.path) == env.dir(f.filename)
                          && commenter in OwnerSet(env.codec, v, e.content)
  {
    var changes := pr.changes.value;
    var (v, files) := Selected(pr.ownerFiles.value, pr.sigInfoFiles.value).value;
    var dirs := ChangedDirs(env, changes);
    forall f | f in changes
      ensures exists e :: e in files && env.pathDir(e.path) == env.dir(f.filename)
                          && commenter in OwnerSet(env.codec, v, e.content)
    {
      var d := env.dir(f.filename);
      assert d in dirs;
      var i :| 0 <= i < |files| && IsFirstFor(env.pathDir, files, i, d)
               && commenter in OwnerSet(env.codec, v, files[i].content);
      assert files[i] in files;
    }
  }

  /** The converse of soundness (permission.go:72-108): when the lists were
      read, every changed file is well formed, and for the directory of every
      changed file the first file of the selected variant there lists the
      commenter, the approval is granted. */
  lemma ApprovalIsComplete(env: Env, pr: PullRequestData, commenter: string, v: Variant, files: seq<FileEntry>)
    requires pr.changes.Success? && |pr.changes.value| > 0
    requires forall f :: f in pr.changes.value ==> env.regSigDir(f.filename) && SlashCount(f.filename) <= 2
    requires pr.ownerFiles.Success? && pr.sigInfoFiles.Success?
    requires Selected(pr.ownerFiles.value, pr.sigInfoFiles.value) == Some((v, files))
    requires forall f :: f in pr.changes.value ==>
               exists i :: IsFirstFor(env.pathDir, files, i, env.dir(f.filename))
                           && commenter in OwnerSet(env.codec, v, files[i].content)
    ensures Decision(env, pr, commenter) == Answer(true, None)
  {
    var changes := pr.changes.value;
    assert changes[0] in changes;
    assert env.dir(changes[0].filename) in ChangedDirs(env, changes);
    forall d | d in ChangedDirs(env, changes)
      ensures exists i :: 0 <= i < |files| && IsFirstFor(env.pathDir, files, i, d)
                          && commenter in OwnerSet(env.codec, v, files[i].content)
    {
      var f :| f in changes && env.dir(f.filename) == d;
    }
    assert Covered(env.codec, v, env.pathDir, files, ChangedDirs(env, changes), commenter);
    assert forall f :: f in changes ==> ValidChange(env, f);
  }

  /** Unanimity (permission.go:79-81, 98-100): when the first file of the
      selected variant in the directory of some changed file does not list
      the commenter, the approval is refused, whatever the other directories
      say. */
  lemma MissingOwnerVetoes(env: Env, pr: PullRequestData, commenter: string,
                           v: Variant, files: seq<FileEntry>, f: ChangedFile, i: int)
    requires pr.changes.Success? && f in pr.changes.value
    requires pr.ownerFiles.Success? && pr.sigInfoFiles.Success?
    requires Selected(pr.ownerFiles.value, pr.sigInfoFiles.value) == Some((v, files))
    requires IsFirstFor(env.pathDir, files, i, env.dir(f.filename))
    requires commenter !in OwnerSet(env.codec, v, files[i].content)
    ensures Decision(env, pr, commenter) == Answer(false, None)
  {
    var dirs := ChangedDirs(env, pr.changes.value);
    assert env.dir(f.filename) in dirs;
    Vetoed(env.codec, v, env.pathDir, files, dirs, commenter, i, env.dir(f.filename));
  }

  /** A changed directory without any file of the selected variant is never
      covered, so the loop runs out and the answer is a denial
      (permission.go:110). */
  lemma UncoveredDirectoryDenies(env: Env, pr: PullRequestData, commenter: string,
                                 v: Variant, files: seq<FileEntry>, f: ChangedFile)
    requires pr.changes.Success? && f in pr.changes.value
    requires pr.ownerFiles.Success? && pr.sigInfoFiles.Success?
    requires Selected(pr.ownerFiles.value, pr.sigInfoFiles.value) == Some((v, files))
    requires forall e :: e in files ==> env.pathDir(e.path) != env.dir(f.filename)
    ensures Decision(env, pr, commenter) == Answer(false, None)
  {
    var d := env.dir(f.filename);
    assert d in ChangedDirs(env, pr.changes.value);
    forall j | 0 <= j < |files| ensures env.pathDir(files[j].path) != d {
      assert files[j] in files;
    }
    Uncovered(env.codec, v, env.pathDir, files, ChangedDirs(env, pr.changes.value), commenter, d);
  }

  /** Variant precedence (permission.go:72, 91): once some OWNERS file
      exists, the sig-info files, whatever they hold, do not change the
      answer. */
  lemma OwnersTakePrecedence(env: Env, pr: PullRequestData, commenter: string, sigInfoFiles: seq<FileEntry>)
    requires pr.ownerFiles.Success? && |pr.ownerFiles.value| > 0 && pr.sigInfoFiles.Success?
    ensures Decision(env, pr.(sigInfoFiles := Success(sigInfoFiles)), commenter) == Decision(env, pr, commenter)
  {
  }

  /** With neither an OWNERS file nor a sig-info file stored, nobody is
      approved through directory ownership (permission.go:110). */
  lemma NoOwnershipFilesDenies(env: Env, pr: PullRequestData, commenter: string)
    requires pr.ownerFiles == Success([]) && pr.sigInfoFiles == Success([])
    ensures !Decision(env, pr, commenter).ok
  {
  }

  /** ext is files with e inserted at position k, and the loop would skip e
      there: its directory is not a changed directory, or was met before. */
  predicate InsertedSkipped(pathDir: string -> string, files: seq<FileEntry>, dirs: set<string>,
                            k: int, e: FileEntry, ext: seq<FileEntry>)
  {
    && 0 <= k <= |files|
    && ext == files[..k] + [e] + files[k..]
    && (pathDir(e.path) !in dirs || pathDir(e.path) in DirsBefore(pathDir, files, k))
  }

  /** The first file of a changed directory in ext is its first file in files. */
  lemma FirstForWithoutSkipped(pathDir: string -> string, files: seq<FileEntry>, dirs: set<string>,
                               k: int, e: FileEntry, ext: seq<FileEntry>, i: int, d: string)
    requires InsertedSkipped(pathDir, files, dirs, k, e, ext)
    requires d in dirs && IsFirstFor(pathDir, ext, i, d)
    ensures i != k
    ensures var i' := if i < k then i else i - 1;
            IsFirstFor(pathDir, files, i', d) && files[i'] == ext[i]
  {
    assert forall j :: 0 <= j < k ==> ext[j] == files[j];
    var i' := if i < k then i else i - 1;
    forall j | 0 <= j < i' ensures pathDir(files[j].path) != d {
      assert files[j] == if j < k then ext[j] else ext[j + 1];
    }
  }

  /** The first file of a changed directory in files is its first file in ext. */
  lemma FirstForWithSkipped(pathDir: string -> string, files: seq<FileEntry>, dirs: set<string>,
                            k: int, e: FileEntry, ext: seq<FileEntry>, i: int, d: string)
    requires InsertedSkipped(pathDir, files, dirs, k, e, ext)
    requires d in dirs && IsFirstFor(pathDir, files, i, d)
    ensures var i' := if i < k then i else i + 1;
            IsFirstFor(pathDir, ext, i', d) && ext[i'] == files[i]
  {
    var i' := if i < k then i else i + 1;
    assert forall j :: 0 <= j < k ==> ext[j] == files[j];
    assert forall j :: k < j < |ext| ==> ext[j] == files[j - 1];
    assert IsFirstFor(pathDir, ext, i', d);
  }

  /** A file the loop skips (permission.go:75-77, 94-96) does not affect the
      answer: inserting, at any position k, a file whose directory is not a
      changed directory, or was already met among the first k files, leaves
      coverage unchanged. */
  lemma SkippedFileIrrelevant(codec: Codec, v: Variant, pathDir: string -> string,
                              files: seq<FileEntry>, dirs: set<string>, commenter: string,
                              k: int, e: FileEntry)
    requires 0 <= k <= |files|
    requires pathDir(e.path) !in dirs || pathDir(e.path) in DirsBefore(pathDir, files, k)
    ensures Covered(codec, v, pathDir, files[..k] + [e] + files[k..], dirs, commenter)
        == Covered(codec, v, pathDir, files, dirs, commenter)
  {
    var ext := files[..k] + [e] + files[k..];
    assert InsertedSkipped(pathDir, files, dirs, k, e, ext);
    forall d | d in dirs
      ensures (exists i :: 0 <= i < |ext| && IsFirstFor(pathDir, ext, i, d) && commenter in OwnerSet(codec, v, ext[i].content))
          <==> (exists i :: 0 <= i < |files| && IsFirstFor(pathDir, files, i, d) && commenter in OwnerSet(codec, v, files[i].content))
    {
      if i :| 0 <= i < |ext| && IsFirstFor(pathDir, ext, i, d) && commenter in OwnerSet(codec, v, ext[i].content) {
        FirstForWithoutSkipped(pathDir, files, dirs, k, e, ext, i, d);
        var i' := if i < k then i else i - 1;
        assert 0 <= i' < |files| && IsFirstFor(pathDir, files, i', d) && commenter in OwnerSet(codec, v, files[i'].content);
      }
      if i :| 0 <= i < |files| && IsFirstFor(pathDir, files, i, d) && commenter in OwnerSet(codec, v, files[i].content) {
        FirstForWithSkipped(pathDir, files, dirs, k, e, ext, i, d);
        var i' := if i < k then i else i + 1;
        assert 0 <= i' < |ext| && IsFirstFor(pathDir, ext, i', d) && commenter in OwnerSet(codec, v, ext[i'].content);
      }
    }
  }

}

/** Worked cases of the ownership check for a change inside one governed
    directory d; the directory functions are only asked to place the named
    files in their directories. */
module Scenarios {
  import opened Wrappers
  import opened Identity
  import opened Paths
  import opened OwnerFiles
  import opened Gitee
  import opened SigOwnership

  /** A change to two files directly inside d (d/OWNERS and d/README.md, say),
      where the OWNERS file of d names the commenter as its only maintainer,
      is approved. */
  lemma SoleMaintainerApproves(env: Env, d: string, a: string, b: string,
                               ownersPath: string, content: string, bytes: seq<bv8>, login: string)
    requires SlashCount(d) <= 1 && '/' !in a && '/' !in b
    requires env.regSigDir(d + "/" + a) && env.regSigDir(d + "/" + b)
    requires env.dir(d + "/" + a) == d && env.dir(d + "/" + b) == d && env.pathDir(ownersPath) == d
    requires env.codec.base64Decode(content) == Some(bytes)
    requires env.codec.parseOwners(bytes) == Some(OwnersDoc([login], []))
    ensures Decision(env,
                     PullRequestData(Success([ChangedFile(d + "/" + a), ChangedFile(d + "/" + b)]),
                                     Success([FileEntry(ownersPath, content)]),
                                     Success([])),
                     Lower(login))
         == Answer(true, None)
  {
    var pr := PullRequestData(Success([ChangedFile(d + "/" + a), ChangedFile(d + "/" + b)]),
                              Success([FileEntry(ownersPath, content)]),
                              Success([]));
    ChildSlashCount(d, a);
    ChildSlashCount(d, b);
    assert IsFirstFor(env.pathDir, pr.ownerFiles.value, 0, d);
    assert Lower(login) in LowerSet([login]);
    ApprovalIsComplete(env, pr, Lower(login), Owners, pr.ownerFiles.value);
  }

  /** A change in d when no OWNERS file is stored and the only sig-info file
      lies in another directory is refused. */
  lemma SigInfoElsewhereDenies(env: Env, changed: string, d: string, sigInfoPath: string,
                               content: string, login: string)
    requires env.dir(changed) == d && env.pathDir(sigInfoPath) != d
    ensures Decision(env,
                     PullRequestData(Success([ChangedFile(changed)]),
                                     Success([]),
                                     Success([FileEntry(sigInfoPath, content)])),
                     login)
         == Answer(false, None)
  {
    var files := [FileEntry(sigInfoPath, content)];
    assert ChangedDirs(env, [ChangedFile(changed)]) == {d};
    assert !IsFirstFor(env.pathDir, files, 0, d);
  }

  /** The only OWNERS file of the changed directory cannot be base64-decoded:
      it authorizes nobody and the change is refused without error. */
  lemma CorruptOwnersFileDenies(env: Env, changed: string, ownersPath: string, content: string, login: string)
    requires env.dir(changed) == env.pathDir(ownersPath)
    requires env.codec.base64Decode(content) == None
    ensures Decision(env,
                     PullRequestData(Success([ChangedFile(changed)]),
                                     Success([FileEntry(ownersPath, content)]),
                                     Success([])),
                     login)
         == Answer(false, None)
  {
    assert ChangedDirs(env, [ChangedFile(changed)]) == {env.dir(changed)};
  }
}

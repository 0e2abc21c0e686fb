/** Reading the set of authorized logins out of an ownership file
    (decodeSigInfoFile and decodeOwnerFile, permission.go:140-195).

    The file content arrives base64-encoded and holds YAML. Both library steps
    are parameters (a Codec): each returns None when it fails. What is modelled
    is the policy around them: a failure of either step yields the empty set,
    and every login is lowered before it is inserted. */
module OwnerFiles {
  import opened Wrappers
  import opened Identity

  /** The two lists of an OWNERS file. */
  datatype OwnersDoc = OwnersDoc(maintainers: seq<string>, committers: seq<string>)

  /** One maintainer entry of a sig-info.yaml file; only its Gitee login is used. */
  datatype SigMaintainer = SigMaintainer(giteeId: string)

  /** The maintainer list of a sig-info.yaml file. */
  datatype SigInfoDoc = SigInfoDoc(maintainers: seq<SigMaintainer>)

  /** The library calls: base64.StdEncoding.DecodeString and yaml.Unmarshal
      into each of the two shapes. */
  datatype Codec = Codec(
    base64Decode: string -> Option<seq<bv8>>,
    parseOwners: seq<bv8> -> Option<OwnersDoc>,
    parseSigInfo: seq<bv8> -> Option<SigInfoDoc>)

  /** The lowered forms of a list of logins. */
  function LowerSet(xs: seq<string>): (r: set<string>)
    ensures forall x :: x in r ==> IsLower(x)
  {
    set x | x in xs :: Lower(x)
  }

  /** The OWNERS document inside a file, if decoding and parsing succeed. */
  function ParseOwnerFile(codec: Codec, content: string): Option<OwnersDoc> {
    match codec.base64Decode(content)
    case None => None
    case Some(bytes) => codec.parseOwners(bytes)
  }

  /** The sig-info document inside a file, if decoding and parsing succeed. */
  function ParseSigInfoFile(codec: Codec, content: string): Option<SigInfoDoc> {
    match codec.base64Decode(content)
    case None => None
    case Some(bytes) => codec.parseSigInfo(bytes)
  }

  /** The logins an OWNERS file authorizes: its maintainers and its committers,
      lowered; nobody when the file cannot be read. */
  function OwnerFileSet(codec: Codec, content: string): (r: set<string>)
    ensures forall x :: x in r ==> IsLower(x)
    ensures ParseOwnerFile(codec, content).None? ==> r == {}
  {
    match ParseOwnerFile(codec, content)
    case None => {}
    case Some(doc) => LowerSet(doc.maintainers) + LowerSet(doc.committers)
  }

  /** The Gitee logins of a sig-info file's maintainers, lowered; nobody when
      the file cannot be read. */
  function SigInfoFileSet(codec: Codec, content: string): (r: set<string>)
    ensures forall x :: x in r ==> IsLower(x)
    ensures ParseSigInfoFile(codec, content).None? ==> r == {}
  {
    match ParseSigInfoFile(codec, content)
    case None => {}
    case Some(doc) => set m | m in doc.maintainers :: Lower(m.giteeId)
  }

  /** Inserts the lowered form of every entry of xs into owners, one at a time. */
  method InsertLowered(owners: set<string>, xs: seq<string>) returns (r: set<string>)
    ensures r == owners + LowerSet(xs)
  {
    r := owners;
    for i := 0 to |xs|
      invariant r == owners + LowerSet(xs[..i])
    {
      assert xs[..i + 1] == xs[..i] + [xs[i]];
      r := r + {Lower(xs[i])};
    }
    assert xs[..|xs|] == xs;
  }

  /** decodeOwnerFile: the union of the lowered maintainers and committers. */
  method DecodeOwnerFile(codec: Codec, content: string) returns (owners: set<string>)
    ensures owners == OwnerFileSet(codec, content)
  {
    owners := {};
    var c := codec.base64Decode(content);
    if c.None? {
      return;
    }
    var m := codec.parseOwners(c.value);
    if m.None? {
      return;
    }
    owners := InsertLowered(owners, m.value.maintainers);
    owners := InsertLowered(owners, m.value.committers);
  }

  /** decodeSigInfoFile: the lowered Gitee logins of the maintainers. */
  method DecodeSigInfoFile(codec: Codec, content: string) returns (owners: set<string>)
    ensures owners == SigInfoFileSet(codec, content)
  {
    owners := {};
    var c := codec.base64Decode(content);
    if c.None? {
      return;
    }
    var m := codec.parseSigInfo(c.value);
    if m.None? {
      return;
    }
    var ms := m.value.maintainers;
    for i := 0 to |ms|
      invariant owners == set v | v in ms[..i] :: Lower(v.giteeId)
    {
      assert ms[..i + 1] == ms[..i] + [ms[i]];
      owners := owners + {Lower(ms[i].giteeId)};
    }
    assert ms[..|ms|] == ms;
  }

  /** A commenter, in any case, is in an OWNERS file's set exactly when the
      file lists, as maintainer or committer, a login equal to it ignoring
      case. */
  lemma OwnerFileMembership(codec: Codec, content: string, doc: OwnersDoc, commenter: string)
    requires ParseOwnerFile(codec, content) == Some(doc)
    ensures Lower(commenter) in OwnerFileSet(codec, content)
        <==> exists e :: (e in doc.maintainers || e in doc.committers) && EqualFold(e, commenter)
  {
    if Lower(commenter) in OwnerFileSet(codec, content) {
      var e :| (e in doc.maintainers || e in doc.committers) && Lower(e) == Lower(commenter);
      LowerEqualIffEqualFold(e, commenter);
    }
    if e :| (e in doc.maintainers || e in doc.committers) && EqualFold(e, commenter) {
      LowerEqualIffEqualFold(e, commenter);
      assert Lower(e) in LowerSet(doc.maintainers) + LowerSet(doc.committers);
    }
  }

  /** The same for a sig-info file and its maintainers' Gitee logins. */
  lemma SigInfoFileMembership(codec: Codec, content: string, doc: SigInfoDoc, commenter: string)
    requires ParseSigInfoFile(codec, content) == Some(doc)
    ensures Lower(commenter) in SigInfoFileSet(codec, content)
        <==> exists m :: m in doc.maintainers && EqualFold(m.giteeId, commenter)
  {
    if Lower(commenter) in SigInfoFileSet(codec, content) {
      var m :| m in doc.maintainers && Lower(m.giteeId) == Lower(commenter);
      LowerEqualIffEqualFold(m.giteeId, commenter);
    }
    if m :| m in doc.maintainers && EqualFold(m.giteeId, commenter) {
      LowerEqualIffEqualFold(m.giteeId, commenter);
      assert Lower(m.giteeId) in SigInfoFileSet(codec, content);
    }
  }

  /** A login with an upper-case letter is never in either set: a commenter
      that was not lowered can never be found. */
  lemma UnloweredNeverFound(codec: Codec, content: string, login: string)
    requires !IsLower(login)
    ensures login !in OwnerFileSet(codec, content)
    ensures login !in SigInfoFileSet(codec, content)
  {
  }
}

# Approval permission of the openEuler review robot, in Dafny

This project models the authorization decision of the Gitee review robot
(`permission.go`): may the author of an approving comment approve a pull
request?

- **hasPermission** lowers the commenter's login and asks the repository for
  the commenter's role. `admin` and `write` approve outright. Any other role
  is refused, unless the caller asks for the directory-ownership check.
- **isOwnerOfSig** is the directory-ownership check. Every changed file must
  match the configured governed-directory expression and contain at most two
  `/`. Otherwise the request is refused. The parent directories of the changed
  files form the set of directories still to cover. The OWNERS files stored
  for the base branch are used when there are any. The `sig-info.yaml` files
  are used only when there is no OWNERS file. The loop walks the files of that
  variant in order:
  - a file whose directory is not still to cover is skipped;
  - a file whose owners lack the commenter refuses the request;
  - any other file covers its directory;
  - the request is approved as soon as no directory is left.
- **decodeOwnerFile / decodeSigInfoFile** read an ownership file. The content
  is base64 text holding YAML. An OWNERS file yields its maintainers and
  committers. A sig-info file yields its maintainers' Gitee logins. Every
  login is lowered. A file that cannot be decoded or parsed yields nobody.

Modules, leaf first: `Wrappers` (Option, Result), `Identity` (ASCII
lowering), `Paths` (counting `/`), `OwnerFiles` (the two decoders), `Gitee`
(what the remote services answer), `SigOwnership` (isOwnerOfSig),
`Permission` (hasPermission) and `Scenarios` (worked cases).

Library and remote calls are parameters:
- an `Env` holds the governed-directory expression (`regSigDir`),
  `filepath.Dir` (`dir`), the cache's `Path.Dir` (`pathDir`) and a `Codec`
  (base64 decoding and the two YAML parses, each returning `None` on failure);
- the role lookup is a function from the lowered login to a role or an error;
- `PullRequestData` holds the change list, the OWNERS files and the sig-info
  files, each a success or an error.

Each loop of the source is a method with loop invariants. `CoverDirs` is
proved equal to `Covered`, a definition without loops: there is at least one
changed directory, and for each of them the first file of the selected
variant in that directory lists the commenter. The first-file wording is
exact. A later file in an already covered directory is skipped by the loop,
and `SkippedFileIrrelevant` proves that such a file changes nothing.
`IsOwnerOfSig` is proved equal to `Decision`, and the properties of the
decision are lemmas about `Decision`.

The code counts `/` characters and allows two, so names such as
`sig/group-a/OWNERS` (three segments) pass. The model follows the code.

## Model

| member | source | states |
|---|---|---|
| Identity.Lower | permission.go:25 | the lowered login has the same length, no upper-case ASCII letter, and each letter lowered in place |
| Identity.LowerIdempotent | permission.go:25 | lowering an already lowered login changes nothing |
| Identity.LowerEqualIffEqualFold | permission.go:25 | two logins have the same lowered form exactly when they are equal ignoring letter case |
| Identity.MixedCaseLoginsMatch | permission.go:25 | "AliceDev", "ALICEDEV" and "alicedev" lower to the same login |
| Paths.SlashCount | permission.go:55 | strings.Count of "/": the number of '/' in the name, zero exactly when there is none |
| Paths.SlashCountConcat | permission.go:55 | the '/' count of a concatenation is the sum of the counts |
| Paths.ChildSlashCount | permission.go:55 | a file directly inside a directory has one '/' more than the directory |
| OwnerFiles.LowerSet | permission.go:186-192 | every login in the lowered set of a list is lower-case |
| OwnerFiles.OwnerFileSet | permission.go:165-195 | an OWNERS file authorizes only lower-case logins, and nobody when base64 or YAML decoding fails |
| OwnerFiles.SigInfoFileSet | permission.go:140-163 | a sig-info file authorizes only lower-case logins, and nobody when base64 or YAML decoding fails |
| OwnerFiles.InsertLowered | permission.go:186-192 | inserting the lowered entries one by one adds exactly the lowered set of the list |
| OwnerFiles.DecodeOwnerFile | permission.go:165-195 | the loop-built set is exactly lower(maintainers) ∪ lower(committers), and empty on a decode or parse failure |
| OwnerFiles.DecodeSigInfoFile | permission.go:140-163 | the loop-built set is exactly the lowered Gitee logins of the maintainers, and empty on a decode or parse failure |
| OwnerFiles.OwnerFileMembership | permission.go:165-195 | a commenter, lowered, is in an OWNERS file's set exactly when some maintainer or committer equals the commenter ignoring case |
| OwnerFiles.SigInfoFileMembership | permission.go:140-163 | a commenter, lowered, is in a sig-info file's set exactly when some maintainer's Gitee login equals the commenter ignoring case |
| OwnerFiles.UnloweredNeverFound | permission.go:159 | a login with an upper-case letter is in neither set, so the commenter must be lowered before the lookup |
| SigOwnership.DecodeOwnerSet | permission.go:79 | the decoder of the file's variant gives the variant's owner set |
| SigOwnership.CoverDirs | permission.go:72-108 | the coverage loop approves exactly when every changed directory's first file of the variant lists the commenter; the set still to cover only shrinks |
| SigOwnership.IsOwnerOfSig | permission.go:42-111 | the method's answer, error included, is the one Decision gives |
| SigOwnership.NoChangesDenies | permission.go:48-51 | a failed or empty change listing refuses, carrying the listing's error, whatever ownership files are stored |
| SigOwnership.InvalidChangeDenies | permission.go:54-57 | one changed file outside the governed expression or with more than two '/' refuses without error |
| SigOwnership.ApprovalIsSound | permission.go:72-108 | an approval implies no error, all three lists read, every changed file well formed, and each changed file's directory covered by a file of the selected variant listing the commenter |
| SigOwnership.ApprovalIsComplete | permission.go:72-108 | well-formed changes whose directories all have a first file of the selected variant listing the commenter are approved |
| SigOwnership.MissingOwnerVetoes | permission.go:79-81 | the first file of one changed directory without the commenter refuses the whole request |
| SigOwnership.UncoveredDirectoryDenies | permission.go:110 | a changed directory without any file of the selected variant refuses the request |
| SigOwnership.OwnersTakePrecedence | permission.go:72-91 | once an OWNERS file exists, the content of the sig-info files does not change the answer |
| SigOwnership.NoOwnershipFilesDenies | permission.go:91-110 | with neither OWNERS nor sig-info files, the request is refused |
| SigOwnership.SkippedFileIrrelevant | permission.go:75-77 | inserting a file whose directory is not to cover, or already met, anywhere in the list leaves the answer unchanged |
| Permission.HasPermission | permission.go:18-40 | a lookup error is returned with a refusal; admin or write approves; another role refuses without the check; with the check the answer is Decision for the lowered login |
| Permission.CommenterCaseIrrelevant | permission.go:25-26 | two spellings of one login differing only in case get the same role and the same ownership answer |
| Scenarios.SoleMaintainerApproves | permission.go:42-111 | two files directly inside d, whose OWNERS file names the commenter as maintainer, are approved |
| Scenarios.SigInfoElsewhereDenies | permission.go:91-110 | with no OWNERS file and the only sig-info file in another directory, the request is refused |
| Scenarios.CorruptOwnersFileDenies | permission.go:168-173 | an OWNERS file that fails base64 decoding authorizes nobody, and the request is refused without error |

## Left out

- The Gitee API calls `GetUserPermissionsOfRepo` and `GetPullRequestChanges` are network I/O. Their answers, an error included, are inputs. The org and repo arguments are not modelled, and neither is the pull request's number.
- `getFiles` and the file cache behind it (permission.go:113-138) are a remote cache wrapper. The OWNERS and sig-info file lists it returns, an error included, are inputs. Its log line for an empty list is not modelled.
- Base64 decoding, YAML unmarshalling, the governed-directory regular expression, `filepath.Dir` and `Path.Dir` are library code. They are parameters and are not re-implemented.
- Logging through logrus has no effect on the decision and is left out.
- Identity.Lower: lowers ASCII letters only. `strings.ToLower` also maps non-ASCII letters; full Unicode case mapping is not modelled.
- Go's sets are replaced by Dafny's mathematical sets. The test `len(pathes) == 0` is modelled as the set being empty, which is the same condition.

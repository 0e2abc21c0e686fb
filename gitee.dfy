/** What the remote services answer for one pull request. The calls
    themselves (GetPullRequestChanges at permission.go:48 and the file cache
    behind getFiles at permission.go:62 and 67) are not modelled: their
    answers, success or error, are values handed to the authorization. */
module Gitee {
  import opened Wrappers

  /** An error reported by a remote service; only passed on, never inspected. */
  datatype ApiError = ApiError(message: string)

  /** One entry of a pull request's change list. */
  datatype ChangedFile = ChangedFile(filename: string)

  /** One cached file: its path in the repository and its base64 content. */
  datatype FileEntry = FileEntry(path: string, content: string)

  /** The answers for one pull request: its change list, the OWNERS files and
      the sig-info.yaml files stored for its base branch. */
  datatype PullRequestData = PullRequestData(
    changes: Result<seq<ChangedFile>, ApiError>,
    ownerFiles: Result<seq<FileEntry>, ApiError>,
    sigInfoFiles: Result<seq<FileEntry>, ApiError>)

  /** The pair (bool, error) that the authorization returns. */
  datatype Answer = Answer(ok: bool, err: Option<ApiError>)
}

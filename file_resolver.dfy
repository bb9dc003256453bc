/**
 * `ResolveProvidedFilePathFromUser`: turns the caller's path string into a
 * `Path` that exists. The file system's existence test is an input here.
 */
module FileResolver {
  import opened Wrappers
  import opened UnixPaths
  import opened Failures

  /** What `Files.exists` answers for each path. */
  type ExistsPredicate = Path -> bool

  const FileNotFoundPrefix: string := "File does not exist: "

  /** `checkIfFileExist`: true exactly when the file system reports the path as existing. */
  function CheckIfFileExist(p: Path, fileExists: ExistsPredicate): (r: bool)
    ensures r <==> fileExists(p)
  {
    if !fileExists(p) then false else true
  }

  /**
   * `getFile`: the path parsed from `filePath` when it exists; otherwise an
   * `IOException` naming the normalised path.
   */
  function GetFile(filePath: string, fileExists: ExistsPredicate): (r: Result<Path, Error>)
    ensures Get(filePath).Failure? ==>
              r == Failure(InvalidPath(filePath, Get(filePath).error.reason))
    ensures Get(filePath).Success? ==>
              r == if fileExists(Get(filePath).value) then Success(Get(filePath).value)
                   else Failure(FileNotFound(FileNotFoundPrefix + ToString(Get(filePath).value)))
    ensures r.Success? ==> Valid(r.value) && ToString(r.value) == ToString(Get(filePath).value)
  {
    match Get(filePath)
    case Failure(PathError(input, reason)) => Failure(InvalidPath(input, reason))
    case Success(path) =>
      if !CheckIfFileExist(path, fileExists) then
        Failure(FileNotFound(FileNotFoundPrefix + ToString(path)))
      else
        Success(path)
  }

  /** Only the existence of the one path matters: the lookup inspects nothing else. */
  lemma GetFileQueriesOnlyExistence(filePath: string, e1: ExistsPredicate, e2: ExistsPredicate)
    requires Get(filePath).Success? ==> e1(Get(filePath).value) == e2(Get(filePath).value)
    ensures GetFile(filePath, e1) == GetFile(filePath, e2)
  {
  }
}

/** What the shell asks of Windows and the C runtime, as answers given to it. The real
    calls (GetFileAttributesA, FindFirstFileA/FindNextFileA, _chdir, _getcwd, std::ifstream,
    CreateDirectoryA with GetLastError, RemoveDirectoryA, DeleteFileA, MoveFileA, getenv)
    are not modelled; a value of `Fs` fixes what each of them answers while one input line
    is processed. GetUserNameA's answer is given to the shell's constructor instead, and
    ShellExecuteA is only requested (as a `Launch` effect), its answer never consulted. */
module Environment {
  import opened Wrappers

  /** GetFileAttributesA: INVALID_FILE_ATTRIBUTES, or attributes with or without
      FILE_ATTRIBUTE_DIRECTORY. */
  datatype Attributes = InvalidAttributes | Attrs(directory: bool)

  /** CreateDirectoryA, with GetLastError consulted on failure. */
  datatype CreateReply = Created | AlreadyExists | CreateFailed

  /** _chdir, and on success the _getcwd that follows it (None when _getcwd fails). */
  datatype ChdirReply = ChdirFailed | ChdirDone(cwd: Option<string>)

  /** One WIN32_FIND_DATAA record: the file name and its directory attribute. */
  datatype FindEntry = FindEntry(name: string, directory: bool)

  datatype Fs = Fs(
    getcwd: Option<string>,                  // _getcwd when the prompt is shown
    home: Option<string>,                    // getenv("USERPROFILE")
    attributes: string -> Attributes,        // GetFileAttributesA(path)
    find: string -> Option<seq<FindEntry>>,  // FindFirstFileA/FindNextFileA over a pattern
    chdir: string -> ChdirReply,             // _chdir(path) then _getcwd
    canOpen: string -> bool,                 // std::ifstream(path).is_open()
    createDirectory: string -> CreateReply,  // CreateDirectoryA(path)
    removeDirectory: string -> bool,         // RemoveDirectoryA(path)
    deleteFile: string -> bool,              // DeleteFileA(path)
    moveFile: (string, string) -> bool       // MoveFileA(from, to)
  )

  /** The requests a command issues, in order: calls that change the filesystem or the
      process state, launches, and clearing the screen. Queries are not listed. */
  datatype Effect =
    | CreateDirectory(path: string)
    | RemoveDirectory(path: string)
    | DeleteFile(path: string)
    | MoveFile(from: string, to: string)
    | ChangeDirectory(path: string)
    | Launch(program: string, argument: string)
    | ClearScreen

  /** The requests that change the filesystem. */
  predicate MutatesFilesystem(e: Effect) {
    e.CreateDirectory? || e.RemoveDirectory? || e.DeleteFile? || e.MoveFile?
  }

  /** `getCurrentDirectory` (cpp_shell.cpp:31-37): _getcwd, or "C:\" when it fails. */
  function CurrentDirectory(cwd: Option<string>): string {
    match cwd
    case Some(dir) => dir
    case None => "C:\\"
  }

  /** `getUsername` (cpp_shell.cpp:21-28): GetUserNameA, or "user" when it fails. */
  function UserName(reply: Option<string>): string {
    match reply
    case Some(name) => name
    case None => "user"
  }
}

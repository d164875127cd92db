/**
 * The music library on disk, as the scanner sees it through `WalkDir` with
 * `follow_links` off: a tree of named entries whose children come in the order
 * the directory listing returns them. Unreadable entries, which
 * `filter_map(|e| e.ok())` drops, are simply absent from the tree.
 */
module FileTree {

  /**
   * A directory entry: a regular file, a directory with its children, or a
   * symbolic link, which is neither a file nor a directory for `file_type()`.
   */
  datatype Entry =
    | File(name: string)
    | Dir(name: string, children: seq<Entry>)
    | Symlink(name: string)

  /**
   * Rust's `Path::join` of a directory path and a base name without '/', as
   * `DirEntry::path` extends its parent's path. The body is the definition: the
   * two are separated by exactly one '/', none being added after a trailing one
   * or to an empty path. The path always ends with the base name.
   */
  function Join(dir: string, name: string): (r: string)
    ensures |r| >= |name| && r[|r| - |name|..] == name
  {
    if dir == "" || dir[|dir| - 1] == '/' then dir + name else dir + "/" + name
  }
}

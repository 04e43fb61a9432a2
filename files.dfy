/** Files, folders and URIs as the registry sees them. */
module Files {

  /** A file or folder, identified by its path segments from the file-system root; `ext` is
      the extension of its name (FileObject.getExt). */
  datatype FileObj = FileObj(path: seq<string>, ext: string)

  /** A URI of a folder or file. Two files have the same URI exactly when they have the same path. */
  type Uri = seq<string>

  function ToUri(f: FileObj): Uri {
    f.path
  }

  /** FileUtil.isParentOf: `folder` is a proper ancestor of `file`. */
  predicate IsParentOf(folder: FileObj, file: FileObj) {
    |folder.path| < |file.path| && folder.path == file.path[..|folder.path|]
  }

  /** FileObject.getParent, which is null for the file-system root. */
  function Parent(f: FileObj): (p: FileObj)
    requires f.path != []
    ensures IsParentOf(p, f) && |p.path| + 1 == |f.path|
  {
    FileObj(f.path[..|f.path| - 1], "")
  }
}

/**
 The string-valued accessors of the `file` template module: `tp.file.folder`,
 `tp.file.path` and the target path that `tp.file.rename` moves the document
 to. Folders and files are described the way the host names them: a folder is
 the list of its path components below the vault root (the root itself has
 path "/" and an empty name), and a file is its parent folder plus its name, of
 which the basename and the extension are the parts before and after the last
 dot.
 */
module FileAccessors {

  /** The components joined with '/'. */
  function Join(components: seq<string>): string
    decreases |components|
  {
    if |components| == 0 then ""
    else if |components| == 1 then components[0]
    else Join(components[..|components| - 1]) + "/" + components[|components| - 1]
  }

  /** A folder's `path`: "/" for the vault root, its components joined otherwise. */
  function FolderPath(components: seq<string>): string
  {
    if components == [] then "/" else Join(components)
  }

  /** A folder's `name`: empty for the vault root, its last component otherwise. */
  function FolderName(components: seq<string>): string
  {
    if components == [] then "" else components[|components| - 1]
  }

  /** A file: its parent folder and its name (basename plus extension). */
  datatype Document = Document(parent: seq<string>, name: string)

  /** A file's `path`: its name in the root, parent path + "/" + name otherwise. */
  function DocumentPath(doc: Document): string
  {
    if doc.parent == [] then doc.name else FolderPath(doc.parent) + "/" + doc.name
  }

  /** The index of the last occurrence of `c` in `s`, or -1. */
  function LastIndexOf(s: string, c: char): (r: int)
    ensures -1 <= r < |s|
    ensures r >= 0 ==> s[r] == c
    ensures forall j :: r < j < |s| ==> s[j] != c
    decreases |s|
  {
    if s == [] then -1
    else if s[|s| - 1] == c then |s| - 1
    else LastIndexOf(s[..|s| - 1], c)
  }

  /** A file's `basename`: its name up to the last dot. */
  function Basename(name: string): string
  {
    var dot := LastIndexOf(name, '.');
    if dot < 0 then name else name[..dot]
  }

  /** A file's `extension`: its name after the last dot. */
  function Extension(name: string): string
  {
    var dot := LastIndexOf(name, '.');
    if dot < 0 then "" else name[dot + 1..]
  }

  // ---------------------------------------------------------------------------
  // tp.file.folder
  // ---------------------------------------------------------------------------

  /** `tp.file.folder(relative)`: the parent's path when `relative`, its name
      otherwise. The template's default `relative = false` is left to the caller. */
  function Folder(doc: Document, relative: bool): string
  {
    if relative then FolderPath(doc.parent) else FolderName(doc.parent)
  }

  /** The two forms of `tp.file.folder` agree exactly when the parent folder
      sits directly below the vault root. */
  lemma FolderFormsAgree(doc: Document)
    ensures Folder(doc, true) == Folder(doc, false) <==> |doc.parent| == 1
  {
  }

  /** Outside the root, the folder's name is the last component of its path:
      the relative form ends with "/" followed by the plain form. */
  lemma FolderNameEndsPath(doc: Document)
    requires |doc.parent| >= 2
    ensures exists prefix :: Folder(doc, true) == prefix + "/" + Folder(doc, false)
  {
    var n := |doc.parent|;
    assert Folder(doc, true) == Join(doc.parent[..n - 1]) + "/" + Folder(doc, false);
  }

  /** Outside the root, a file's path is the relative folder, "/" and its name. */
  lemma FolderIsPathPrefix(doc: Document)
    requires doc.parent != []
    ensures DocumentPath(doc) == Folder(doc, true) + "/" + doc.name
  {
  }

  // ---------------------------------------------------------------------------
  // tp.file.path
  // ---------------------------------------------------------------------------

  /** What the host offers `tp.file.path`: whether it runs on mobile, whether
      its vault adapter is filesystem-backed, and that adapter's base path. */
  datatype Host = Host(isMobile: bool, fileSystemAdapter: bool, basePath: string)

  datatype PathResult = Path(path: string) | NotFileSystemAdapter

  /** `tp.file.path(relative)`; `placeholder` is the text returned on mobile.
      The template's default `relative = false` is left to the caller. */
  function PathOf(host: Host, doc: Document, relative: bool, placeholder: string): PathResult
  {
    if host.isMobile then Path(placeholder)
    else if !host.fileSystemAdapter then NotFileSystemAdapter
    else if relative then Path(DocumentPath(doc))
    else Path(host.basePath + "/" + DocumentPath(doc))
  }

  /** The two forms of `tp.file.path` fail together, and off mobile they fail
      exactly when the adapter is not filesystem-backed. On mobile both give
      the placeholder; elsewhere the absolute form is the base path, "/" and
      the relative form. */
  lemma AbsolutePathExtendsRelative(host: Host, doc: Document, placeholder: string)
    ensures PathOf(host, doc, false, placeholder).Path? == PathOf(host, doc, true, placeholder).Path?
    ensures !host.isMobile && PathOf(host, doc, true, placeholder).Path? ==>
      PathOf(host, doc, false, placeholder).path ==
      host.basePath + "/" + PathOf(host, doc, true, placeholder).path
    ensures host.isMobile ==>
      PathOf(host, doc, false, placeholder) == PathOf(host, doc, true, placeholder) == Path(placeholder)
    ensures !host.isMobile ==>
      (PathOf(host, doc, true, placeholder).Path? <==> host.fileSystemAdapter)
  {
  }

  /** Off mobile and with a filesystem adapter, the relative path of a file
      outside the root is `tp.file.folder(true)`, "/" and its name, and the
      absolute path ends with that. */
  lemma PathIsInFolder(host: Host, doc: Document, placeholder: string)
    requires !host.isMobile && host.fileSystemAdapter && doc.parent != []
    ensures PathOf(host, doc, true, placeholder) == Path(Folder(doc, true) + "/" + doc.name)
    ensures PathOf(host, doc, false, placeholder) ==
      Path(host.basePath + "/" + Folder(doc, true) + "/" + doc.name)
  {
  }

  // ---------------------------------------------------------------------------
  // tp.file.rename
  // ---------------------------------------------------------------------------

  lemma {:induction false} LastIndexAfterSeparator(prefix: string, c: char, suffix: string)
    requires c !in suffix
    ensures LastIndexOf(prefix + [c] + suffix, c) == |prefix|
    decreases |suffix|
  {
    var s := prefix + [c] + suffix;
    if suffix == [] {
      assert s[|s| - 1] == c;
    } else {
      assert s[..|s| - 1] == prefix + [c] + suffix[..|suffix| - 1];
      LastIndexAfterSeparator(prefix, c, suffix[..|suffix| - 1]);
    }
  }

  /** The path `tp.file.rename(newTitle)` moves the file to (normalisation
      taken as the identity). Outside the root, and for a title without '/',
      it is the path of a file in the same folder whose basename is `newTitle`
      and whose extension is the old one; a title with '/' is joined as it is. */
  function RenameTarget(doc: Document, newTitle: string): (r: string)
    ensures doc.parent != [] && '/' !in newTitle ==>
      r == DocumentPath(Document(doc.parent, newTitle + "." + Extension(doc.name)))
    ensures Basename(newTitle + "." + Extension(doc.name)) == newTitle
    ensures Extension(newTitle + "." + Extension(doc.name)) == Extension(doc.name)
  {
    var ext := Extension(doc.name);
    ExtensionHasNoDot(doc.name);
    assert newTitle + "." + ext == newTitle + ['.'] + ext;
    LastIndexAfterSeparator(newTitle, '.', ext);
    FolderPath(doc.parent) + "/" + newTitle + "." + ext
  }

  /** The current extension never contains a dot, so renaming always
      preserves it. */
  lemma ExtensionHasNoDot(name: string)
    ensures '.' !in Extension(name)
  {
  }
}

/** What the two FileChooser activities (utils/FileChooser.java and
    app/FileChooser.java) share: the java.io.File records they list, the
    file system that answers listFiles() and getParentFile(), the three
    comparators they sort listings with, the append-once style registry,
    the colours a chooser style supplies and the result an activity
    finishes with. */
module Files {
  import opened JavaLang
  import opened Sorting
  import opened Colors

  /** A java.io.File: getAbsolutePath(), getName(), isDirectory() and
      getParent(). */
  datatype File = File(path: string, name: string, isDirectory: bool, parent: string)

  /** The file system, as the choosers query it: the File for a path
      (getParentFile() is entry(getParent())) and listFiles() of a
      directory path. */
  datatype FileSystem = FileSystem(entry: string -> File, listing: string -> seq<File>)

  /** entry(p) is the file at path p. */
  ghost predicate WellFormed(fs: FileSystem)
  {
    forall p: string :: fs.entry(p).path == p
  }

  function ParentFile(fs: FileSystem, f: File): File
  {
    fs.entry(f.parent)
  }

  function ListFiles(fs: FileSystem, f: File): seq<File>
  {
    fs.listing(f.path)
  }

  // ------------------------------------------------------------ activity result

  /** Activity.RESULT_OK and Activity.RESULT_CANCELED. */
  const RESULT_OK: int := -1
  const RESULT_CANCELED: int := 0

  /** setResult(code, intent): the code and the path the intent carries. */
  datatype ActivityResult = ActivityResult(code: int, path: Option<string>)

  /** The hosting activity; result is set when it finishes. */
  class Host {
    var result: Option<ActivityResult>

    constructor ()
      ensures result == None
    {
      result := None;
    }

    /** setResult(code, data) followed by finish(). */
    method Finish(code: int, path: Option<string>)
      modifies this
      ensures result == Some(ActivityResult(code, path))
    {
      result := Some(ActivityResult(code, path));
    }
  }

  // ------------------------------------------------------------ list items

  datatype Icon = FileIcon | FolderIcon | UpFolderIcon

  /** A row of a chooser's list: the file, its icon, and whether the size
      and the last-modified date are shown. */
  datatype ListItem = ListItem(file: File, icon: Icon, showsSize: bool, showsLastModified: bool)

  // ------------------------------------------------------------ comparators

  /** A.getName().compareTo(B.getName()). */
  function NameOrder(a: File, b: File): int
  {
    CompareTo(a.name, b.name)
  }

  /** Directories before files, each group by name. */
  function DirectoriesFirst(a: File, b: File): int
  {
    if a.isDirectory && !b.isDirectory then -1
    else if !a.isDirectory && b.isDirectory then 1
    else NameOrder(a, b)
  }

  /** The list adapters' comparator: the entry whose path is parentPath
      first, then DirectoriesFirst. */
  function ParentFirst(parentPath: string): (File, File) -> int
  {
    (a: File, b: File) =>
      if a.path == parentPath then -1
      else if b.path == parentPath then 1
      else DirectoriesFirst(a, b)
  }

  lemma NameOrderConsistent()
    ensures Consistent(NameOrder)
  {
    forall a: File, b: File | NameOrder(a, b) >= 0
      ensures NameOrder(b, a) <= 0
    {
      CompareToProperties(a.name, b.name);
    }
    forall a: File, b: File, c: File | NameOrder(a, b) <= 0 && NameOrder(b, c) <= 0
      ensures NameOrder(a, c) <= 0
    {
      CompareToTransitive(a.name, b.name, c.name);
    }
  }

  lemma DirectoriesFirstConsistent()
    ensures Consistent(DirectoriesFirst)
  {
    forall a: File, b: File | DirectoriesFirst(a, b) >= 0
      ensures DirectoriesFirst(b, a) <= 0
    {
      CompareToProperties(a.name, b.name);
    }
    forall a: File, b: File, c: File | DirectoriesFirst(a, b) <= 0 && DirectoriesFirst(b, c) <= 0
      ensures DirectoriesFirst(a, c) <= 0
    {
      if a.isDirectory == b.isDirectory && b.isDirectory == c.isDirectory {
        CompareToTransitive(a.name, b.name, c.name);
      }
    }
  }

  /** The parent-first comparator orders its domain, so sorting with it
      yields a sorted listing. */
  lemma ParentFirstConsistent(parentPath: string)
    ensures Consistent(ParentFirst(parentPath))
  {
    var cmp := ParentFirst(parentPath);
    DirectoriesFirstConsistent();
    forall a: File, b: File, c: File | cmp(a, b) <= 0 && cmp(b, c) <= 0
      ensures cmp(a, c) <= 0
    {
      if a.path != parentPath && b.path != parentPath && c.path != parentPath {
        assert DirectoriesFirst(a, b) <= 0 && DirectoriesFirst(b, c) <= 0;
      }
    }
  }

  /** In a listing sorted directories-first, no file comes before a
      directory, and entries of one kind are in name order. */
  lemma DirectoriesFirstOrder(s: seq<File>)
    requires SortedBy(s, DirectoriesFirst)
    ensures forall i, j :: 0 <= i < j < |s| && s[j].isDirectory ==> s[i].isDirectory
    ensures forall i, j :: 0 <= i < j < |s| && s[i].isDirectory == s[j].isDirectory ==>
              CompareTo(s[i].name, s[j].name) <= 0
  {
    forall i, j | 0 <= i < j < |s| && s[j].isDirectory
      ensures s[i].isDirectory
    {
      assert DirectoriesFirst(s[i], s[j]) <= 0;
    }
    forall i, j | 0 <= i < j < |s| && s[i].isDirectory == s[j].isDirectory
      ensures CompareTo(s[i].name, s[j].name) <= 0
    {
      assert DirectoriesFirst(s[i], s[j]) <= 0;
    }
  }

  /** In a listing sorted parent-first that holds an entry with the parent's
      path, such an entry is at the front. */
  lemma ParentAtFront(s: seq<File>, parentPath: string, k: nat)
    requires SortedBy(s, ParentFirst(parentPath))
    requires k < |s| && s[k].path == parentPath
    ensures s[0].path == parentPath
  {
    if k > 0 {
      assert ParentFirst(parentPath)(s[0], s[k]) <= 0;
    }
  }

  // ------------------------------------------------------------ styles

  /** A style object; styles are compared by identity. */
  type Style = nat

  /** The colours a chooser style supplies; item is white unless the style
      overrides getActionBarItemColor. */
  datatype StyleColors = StyleColors(background: Color, text: Color, labels: Color, item: Color)

  /** List.indexOf: the first index holding x, -1 when there is none. */
  function IndexOf(s: seq<Style>, x: Style): (i: int)
    ensures -1 <= i < |s|
    ensures i == -1 <==> x !in s
    ensures i >= 0 ==> s[i] == x && x !in s[..i]
  {
    if s == [] then -1
    else if s[0] == x then 0
    else
      var k := IndexOf(s[1..], x);
      assert k >= 0 ==> s[1..][..k] == s[1..k + 1];
      if k < 0 then -1 else k + 1
  }

  /** The styles list after `if(!styles.contains(style)) styles.add(style)`. */
  function Registered(s: seq<Style>, x: Style): seq<Style>
  {
    if x in s then s else s + [x]
  }

  ghost predicate Distinct(s: seq<Style>)
  {
    forall i, j :: 0 <= i < j < |s| ==> s[i] != s[j]
  }

  /** The static styles list of a chooser. */
  class StyleRegistry {
    var styles: seq<Style>

    constructor ()
      ensures styles == []
    {
      styles := [];
    }

    /** Adds style when absent, then returns styles.indexOf(style). */
    method Register(style: Style) returns (index: int)
      modifies this
      ensures styles == Registered(old(styles), style)
      ensures index == IndexOf(styles, style)
    {
      if style !in styles {
        styles := styles + [style];
      }
      index := IndexOf(styles, style);
    }
  }

  /** Registering finds the style at a valid index; it is appended at the
      end only when new; styles already present keep their index; the list
      stays free of duplicates; registering again changes nothing. */
  lemma RegisteredIndex(s: seq<Style>, x: Style)
    ensures var r := Registered(s, x);
            && 0 <= IndexOf(r, x) < |r| && r[IndexOf(r, x)] == x
            && (x !in s ==> IndexOf(r, x) == |s|)
            && (forall y :: y in s ==> IndexOf(r, y) == IndexOf(s, y))
            && (Distinct(s) ==> Distinct(r))
            && Registered(r, x) == r
  {
    var r := Registered(s, x);
    if x !in s {
      assert r[..|s|] == s;
    }
  }
}

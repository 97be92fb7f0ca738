/** utils/FileChooser.java: the older chooser activity. It lists the
    current directory (its parent first, unless at the storage directory),
    descends into a clicked directory, and finishes with the clicked file's
    path, or with the current directory's path from the OK button. */
module FileChooserUtils {
  import opened JavaLang
  import opened Sorting
  import opened Colors
  import opened Files
  import opened ActionBarDrawers

  /** The extra the chosen path is returned under. */
  const CHECKED_FILE_PATH: string := "KiVITechnologies.SupportLibrary.UsefulUtilities.FileChooser-CHECKED_FILE_PATH"

  /** The extras chooseFile and chooseDirectory put in the intent. */
  datatype ChooserIntent = ChooserIntent(isDirectoryChoosing: bool, currentPath: Option<string>, styleId: int)

  /** chooseFile: registers the style and asks for a file. */
  method ChooseFile(styles: StyleRegistry, path: Option<string>, style: Style) returns (intent: ChooserIntent)
    modifies styles
    ensures styles.styles == Registered(old(styles.styles), style)
    ensures intent == ChooserIntent(false, path, IndexOf(styles.styles, style))
  {
    var index := styles.Register(style);
    intent := ChooserIntent(false, path, index);
  }

  /** chooseDirectory: registers the style and asks for a directory. */
  method ChooseDirectory(styles: StyleRegistry, path: Option<string>, style: Style) returns (intent: ChooserIntent)
    modifies styles
    ensures styles.styles == Registered(old(styles.styles), style)
    ensures intent == ChooserIntent(true, path, IndexOf(styles.styles, style))
  {
    var index := styles.Register(style);
    intent := ChooserIntent(true, path, index);
  }

  /** ActionBarResources.getColor: any attribute other than the background
      and the two item colours gets the text colour, so every answer is one
      of the style's three colours. */
  function ActionBarColor(style: StyleColors, resId: int): (c: Color)
    ensures resId == ATTR_BACKGROUND_COLOR ==> c == style.background
    ensures resId == ATTR_DEFAULT_ITEM_COLOR || resId == ATTR_PRESSED_ITEM_COLOR ==> c == style.item
    ensures resId != ATTR_BACKGROUND_COLOR && resId != ATTR_DEFAULT_ITEM_COLOR && resId != ATTR_PRESSED_ITEM_COLOR ==> c == style.text
    ensures c == style.background || c == style.item || c == style.text
  {
    if resId == ATTR_BACKGROUND_COLOR then style.background
    else if resId == ATTR_DEFAULT_ITEM_COLOR then style.item
    else if resId == ATTR_PRESSED_ITEM_COLOR then style.item
    else if resId == ATTR_SUBTITLE_COLOR then style.text
    else style.text
  }

  /** The directories of a listing, in listing order. */
  function Directories(files: seq<File>): seq<File>
  {
    if files == [] then []
    else
      var last := files[|files| - 1];
      Directories(files[..|files| - 1]) + (if last.isDirectory then [last] else [])
  }

  /** The entries prepare keeps after the optional up entry. */
  function Kept(files: seq<File>, dirChoosing: bool): seq<File>
  {
    if dirChoosing then SortBy(Directories(files), NameOrder) else SortBy(files, DirectoriesFirst)
  }

  /** prepare(files) for a current directory, its parent's File and the
      storage path. */
  function Prepared(current: File, parentFile: File, storagePath: string, files: seq<File>, dirChoosing: bool): seq<File>
  {
    (if current.path != storagePath then [parentFile] else []) + Kept(files, dirChoosing)
  }

  /** The row ListItem builds for a file, given currentFile.getParent(). */
  function ItemOf(file: File, parentPath: string): ListItem
  {
    var icon := if !file.isDirectory then FileIcon
                else if file.path == parentPath then UpFolderIcon
                else FolderIcon;
    ListItem(file, icon, !file.isDirectory, file.path != parentPath)
  }

  function ItemsOf(files: seq<File>, parentPath: string): seq<ListItem>
  {
    if files == [] then []
    else ItemsOf(files[..|files| - 1], parentPath) + [ItemOf(files[|files| - 1], parentPath)]
  }

  /** The buttons of the tool bar; the OK button exists only when choosing
      a directory. */
  datatype View = OkButton | CancelButton | OtherView

  class Chooser {
    const host: Host
    /** FilesUtils.getStoragePath(): the external storage's parent. */
    const storagePath: string
    var isDirChoosing: bool
    var currentFile: File
    var currentFiles: seq<File>
    var items: seq<ListItem>
    var subtitle: string

    /** onCreate for an existing directory: prepares its listing and hands
        it to the list adapter. */
    constructor (host: Host, storagePath: string, fs: FileSystem, isDirChoosing: bool, current: File)
      ensures this.host == host && this.storagePath == storagePath
      ensures this.isDirChoosing == isDirChoosing && currentFile == current
      ensures currentFiles == SortBy(Prepared(current, ParentFile(fs, current), storagePath, ListFiles(fs, current), isDirChoosing),
                                     ParentFirst(current.parent))
      ensures items == ItemsOf(currentFiles, current.parent)
      ensures subtitle == current.path
    {
      this.host := host;
      this.storagePath := storagePath;
      this.isDirChoosing := isDirChoosing;
      currentFile := current;
      currentFiles := [];
      items := [];
      subtitle := current.path;
      new;
      currentFiles := Prepare(ListFiles(fs, current), ParentFile(fs, current));
      SetItems();
    }

    /** prepare(files): the parent's File first unless the current path is
        the storage path, then the directories by name when choosing a
        directory, otherwise every entry with directories first. */
    method Prepare(files: seq<File>, parentFile: File) returns (result: seq<File>)
      ensures result == Prepared(currentFile, parentFile, storagePath, files, isDirChoosing)
    {
      result := [];
      if currentFile.path != storagePath {
        result := result + [parentFile];
      }
      var filesList: seq<File>;
      if isDirChoosing {
        filesList := [];
        var i := 0;
        while i < |files|
          invariant 0 <= i <= |files|
          invariant filesList == Directories(files[..i])
        {
          assert files[..i + 1][..i] == files[..i];
          if files[i].isDirectory {
            filesList := filesList + [files[i]];
          }
          i := i + 1;
        }
        assert files[..i] == files;
        filesList := SortBy(filesList, NameOrder);
      } else {
        filesList := SortBy(files, DirectoriesFirst);
      }
      result := result + filesList;
    }

    /** ListAdapter.setItems(currentFiles): sorts the list itself (the
        adapter and the activity share it) parent first, then builds one
        row per file. */
    method SetItems()
      modifies this
      ensures currentFiles == SortBy(old(currentFiles), ParentFirst(currentFile.parent))
      ensures items == ItemsOf(currentFiles, currentFile.parent)
      ensures isDirChoosing == old(isDirChoosing) && currentFile == old(currentFile) && subtitle == old(subtitle)
    {
      var files := SortBy(currentFiles, ParentFirst(currentFile.parent));
      var rows := [];
      var i := 0;
      while i < |files|
        invariant 0 <= i <= |files|
        invariant rows == ItemsOf(files[..i], currentFile.parent)
      {
        assert files[..i + 1][..i] == files[..i];
        rows := rows + [ItemOf(files[i], currentFile.parent)];
        i := i + 1;
      }
      assert files[..i] == files;
      currentFiles := files;
      items := rows;
    }

    /** finish(path): RESULT_OK with the path, null included. */
    method Finish(path: Option<string>)
      modifies host
      ensures host.result == Some(ActivityResult(RESULT_OK, path))
    {
      host.Finish(RESULT_OK, path);
    }

    /** onItemClick: a directory becomes the current one and is listed; a
        file finishes the chooser with its path. A position outside the list
        throws. */
    method OnItemClick(fs: FileSystem, position: int) returns (r: Result<()>)
      modifies this, host
      ensures !(0 <= position < |old(currentFiles)|) ==>
                r == Throws(IndexOutOfBounds) && unchanged(this) && unchanged(host)
      ensures 0 <= position < |old(currentFiles)| && old(currentFiles)[position].isDirectory ==>
                && r == Ok(())
                && currentFile == old(currentFiles)[position]
                && currentFiles == SortBy(Prepared(currentFile, ParentFile(fs, currentFile), storagePath,
                                                   ListFiles(fs, currentFile), isDirChoosing),
                                          ParentFirst(currentFile.parent))
                && items == ItemsOf(currentFiles, currentFile.parent)
                && subtitle == currentFile.path
                && isDirChoosing == old(isDirChoosing)
                && unchanged(host)
      ensures 0 <= position < |old(currentFiles)| && !old(currentFiles)[position].isDirectory ==>
                && r == Ok(())
                && host.result == Some(ActivityResult(RESULT_OK, Some(old(currentFiles)[position].path)))
                && unchanged(this)
    {
      if !(0 <= position < |currentFiles|) {
        return Throws(IndexOutOfBounds);
      }
      var file := currentFiles[position];
      if file.isDirectory {
        currentFile := file;
        currentFiles := Prepare(ListFiles(fs, file), ParentFile(fs, file));
        SetItems();
        subtitle := currentFile.path;
      } else {
        Finish(Some(file.path));
      }
      r := Ok(());
    }

    /** onClick: OK finishes with the current directory's path, cancel with
        a null path; both report RESULT_OK. */
    method OnClick(view: View)
      modifies host
      ensures view == OkButton ==> host.result == Some(ActivityResult(RESULT_OK, Some(currentFile.path)))
      ensures view == CancelButton ==> host.result == Some(ActivityResult(RESULT_OK, None))
      ensures view == OtherView ==> unchanged(host)
    {
      if view == OkButton {
        Finish(Some(currentFile.path));
      } else if view == CancelButton {
        Finish(None);
      }
    }

    /** onBackPressed: at the storage directory the activity closes with
        the default RESULT_CANCELED; elsewhere the first row is clicked. */
    method OnBackPressed(fs: FileSystem) returns (r: Result<()>)
      modifies this, host
      ensures currentFile == old(currentFile) || (|old(currentFiles)| > 0 && currentFile == old(currentFiles)[0])
      ensures old(currentFile).path == storagePath ==>
                r == Ok(()) && host.result == Some(ActivityResult(RESULT_CANCELED, None)) && unchanged(this)
      ensures old(currentFile).path != storagePath && old(currentFiles) != [] && old(currentFiles)[0].isDirectory ==>
                && r == Ok(())
                && currentFile == old(currentFiles)[0]
                && currentFiles == SortBy(Prepared(currentFile, ParentFile(fs, currentFile), storagePath,
                                                   ListFiles(fs, currentFile), isDirChoosing),
                                          ParentFirst(currentFile.parent))
                && items == ItemsOf(currentFiles, currentFile.parent)
                && subtitle == currentFile.path
                && isDirChoosing == old(isDirChoosing)
                && unchanged(host)
    ensures old(currentFile).path != storagePath && old(currentFiles) != [] && !old(currentFiles)[0].isDirectory ==>
              && r == Ok(())
              && host.result == Some(ActivityResult(RESULT_OK, Some(old(currentFiles)[0].path)))
              && unchanged(this)
    ensures old(currentFile).path != storagePath && old(currentFiles) == [] ==>
              r == Throws(IndexOutOfBounds) && unchanged(this) && unchanged(host)
    {
      if currentFile.path == storagePath {
        host.Finish(RESULT_CANCELED, None);
        r := Ok(());
      } else {
        r := OnItemClick(fs, 0);
      }
    }
  }

  // ------------------------------------------------------------ lemmas

  /** Directories keeps exactly the directories of a listing, each as often
      as it occurs. */
  lemma {:induction false} DirectoriesExactly(files: seq<File>)
    ensures forall f :: multiset(Directories(files))[f] == (if f.isDirectory then multiset(files)[f] else 0)
    ensures forall k :: 0 <= k < |Directories(files)| ==> Directories(files)[k].isDirectory
    decreases |files|
  {
    if files != [] {
      var init := files[..|files| - 1];
      DirectoriesExactly(init);
      assert files == init + [files[|files| - 1]];
    }
  }

  /** prepare's up entry: the parent's File leads the result exactly when
      the current path is not the storage path, and the result is that entry
      followed by the kept entries. */
  lemma PreparedUpEntry(current: File, parentFile: File, storagePath: string, files: seq<File>, dirChoosing: bool)
    ensures var r := Prepared(current, parentFile, storagePath, files, dirChoosing);
            var up := if current.path != storagePath then 1 else 0;
            && |r| == up + (if dirChoosing then |Directories(files)| else |files|)
            && (up == 1 ==> r[0] == parentFile)
            && r[up..] == Kept(files, dirChoosing)
  {
  }

  /** When choosing a directory, prepare keeps exactly the directories,
      ordered by name. */
  lemma PreparedDirectoryMode(files: seq<File>)
    ensures var kept := Kept(files, true);
            && (forall k :: 0 <= k < |kept| ==> kept[k].isDirectory)
            && (forall f :: multiset(kept)[f] == (if f.isDirectory then multiset(files)[f] else 0))
            && SortedBy(kept, NameOrder)
  {
    var kept := Kept(files, true);
    DirectoriesExactly(files);
    NameOrderConsistent();
    SortBySorted(Directories(files), NameOrder);
    forall k | 0 <= k < |kept|
      ensures kept[k].isDirectory
    {
      assert kept[k] in multiset(Directories(files));
    }
  }

  /** When choosing a file, prepare keeps every entry, directories before
      files, each group ordered by name. */
  lemma PreparedFileMode(files: seq<File>)
    ensures var kept := Kept(files, false);
            && multiset(kept) == multiset(files)
            && (forall i, j :: 0 <= i < j < |kept| && kept[j].isDirectory ==> kept[i].isDirectory)
            && (forall i, j :: 0 <= i < j < |kept| && kept[i].isDirectory == kept[j].isDirectory ==>
                  CompareTo(kept[i].name, kept[j].name) <= 0)
  {
    DirectoriesFirstConsistent();
    SortBySorted(files, DirectoriesFirst);
    DirectoriesFirstOrder(Kept(files, false));
  }

  /** setItems builds one row per file, in list order; a row shows the up
      icon exactly for a directory at the parent's path, a size exactly for
      a file, and a date for every row but the parent. */
  lemma {:induction false} ItemsMatchFiles(files: seq<File>, parentPath: string)
    ensures |ItemsOf(files, parentPath)| == |files|
    ensures forall k :: 0 <= k < |files| ==>
              var item := ItemsOf(files, parentPath)[k];
              && item.file == files[k]
              && (item.icon == UpFolderIcon <==> files[k].isDirectory && files[k].path == parentPath)
              && (item.icon == FileIcon <==> !files[k].isDirectory)
              && (item.showsSize <==> !files[k].isDirectory)
              && (item.showsLastModified <==> files[k].path != parentPath)
    decreases |files|
  {
    if files != [] {
      ItemsMatchFiles(files[..|files| - 1], parentPath);
    }
  }

  /** After the list is sorted parent first, the first row is the parent
      directory whenever the current path is not the storage path, so the
      back button (which clicks row 0 there) goes up one level. A listing
      never holds its directory's parent. */
  lemma BackGoesToParent(fs: FileSystem, current: File, storagePath: string, dirChoosing: bool)
    requires WellFormed(fs) && ParentFile(fs, current).isDirectory
    requires forall f :: f in ListFiles(fs, current) ==> f.path != current.parent
    requires current.path != storagePath
    ensures var listed := SortBy(Prepared(current, ParentFile(fs, current), storagePath, ListFiles(fs, current), dirChoosing),
                                 ParentFirst(current.parent));
            listed != [] && listed[0] == ParentFile(fs, current) && listed[0].isDirectory
  {
    var parentFile := ParentFile(fs, current);
    var files := ListFiles(fs, current);
    var prepared := Prepared(current, parentFile, storagePath, files, dirChoosing);
    var listed := SortBy(prepared, ParentFirst(current.parent));
    assert prepared[0] == parentFile;
    assert parentFile in multiset(listed);
    var k :| 0 <= k < |listed| && listed[k] == parentFile;
    ParentFirstConsistent(current.parent);
    SortBySorted(prepared, ParentFirst(current.parent));
    ParentAtFront(listed, current.parent, k);
    KeptFromListing(files, dirChoosing);
    assert listed[0] in multiset(prepared);
    assert prepared == [parentFile] + Kept(files, dirChoosing);
  }

  /** Every kept entry comes from the listing. */
  lemma KeptFromListing(files: seq<File>, dirChoosing: bool)
    ensures forall f :: f in multiset(Kept(files, dirChoosing)) ==> f in files
  {
    DirectoriesExactly(files);
  }
}

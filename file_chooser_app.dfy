/** app/FileChooser.java: the newer chooser activity. A DirectoryContentView
    lists a directory through its ListAdapter (an up row unless at
    DEFAULT_INITIAL_PATH, then the sorted content); clicks open directories
    or finish with a file, and a ManagementToolsView offers submit and
    cancel. */
module FileChooserApp {
  import opened JavaLang
  import opened Sorting
  import opened Colors
  import opened Files
  import opened ActionBarDrawers
  import FileChooserUtils

  /** The intent extras. */
  const INDEX_OF_STYLE: string := "indexOfStyle"
  const IS_DIR_CHOOSING: string := "isDirChoosing"
  const INITIAL_DIRECTORY_PATH: string := "pathOfInitialDirectory"

  /** The extras startChoosingFile and startChoosingDirectory put in the
      intent, by name. */
  datatype StartIntent = StartIntent(indexOfStyle: int, isDirChoosing: bool, initialPath: string)

  /** ListItem's modes. */
  const MODE_FILE: int := 0
  const MODE_DIRECTORY: int := 1
  const MODE_UP: int := 2

  /** startChoosingFile: a null path becomes DEFAULT_INITIAL_PATH, the style
      is registered, and a file is asked for. Creating a missing directory
      is file-system I/O and not part of this model. */
  method StartChoosingFile(styles: StyleRegistry, defaultInitialPath: string, initialPath: Option<string>, style: Style)
    returns (intent: StartIntent)
    modifies styles
    ensures styles.styles == Registered(old(styles.styles), style)
    ensures intent.indexOfStyle == IndexOf(styles.styles, style) && !intent.isDirChoosing
    ensures intent.initialPath == (if initialPath.Some? then initialPath.value else defaultInitialPath)
  {
    var path := if initialPath.None? then defaultInitialPath else initialPath.value;
    var index := styles.Register(style);
    intent := StartIntent(index, false, path);
  }

  /** startChoosingDirectory: as startChoosingFile, asking for a directory. */
  method StartChoosingDirectory(styles: StyleRegistry, defaultInitialPath: string, initialPath: Option<string>, style: Style)
    returns (intent: StartIntent)
    modifies styles
    ensures styles.styles == Registered(old(styles.styles), style)
    ensures intent.indexOfStyle == IndexOf(styles.styles, style) && intent.isDirChoosing
    ensures intent.initialPath == (if initialPath.Some? then initialPath.value else defaultInitialPath)
  {
    var path := if initialPath.None? then defaultInitialPath else initialPath.value;
    var index := styles.Register(style);
    intent := StartIntent(index, true, path);
  }

  /** The action bar's ResourcesDelegate.getColor: the background, the
      item colours and the title and subtitle colours come from the style;
      an attribute it does not know is white. */
  function ActionBarColor(style: StyleColors, resId: int): (c: Color)
    ensures resId == ATTR_BACKGROUND_COLOR ==> c == style.background
    ensures resId == ATTR_DEFAULT_ITEM_COLOR || resId == ATTR_PRESSED_ITEM_COLOR ==> c == style.item
    ensures resId == ATTR_TITLE_COLOR || resId == ATTR_SUBTITLE_COLOR ==> c == style.text
    ensures !(0 <= resId <= 4) ==> c == WHITE
  {
    if resId == ATTR_BACKGROUND_COLOR then style.background
    else if resId == ATTR_DEFAULT_ITEM_COLOR || resId == ATTR_PRESSED_ITEM_COLOR then style.item
    else if resId == ATTR_SUBTITLE_COLOR || resId == ATTR_TITLE_COLOR then style.text
    else WHITE
  }

  /** The row ListItem builds for a file in a mode. */
  function ItemOf(file: File, mode: int): ListItem
  {
    var icon := if mode == MODE_DIRECTORY then FolderIcon else if mode == MODE_UP then UpFolderIcon else FileIcon;
    ListItem(file, icon, !file.isDirectory, mode != MODE_UP)
  }

  /** usedUpMode(). */
  predicate UsedUpMode(item: ListItem)
  {
    item.icon == UpFolderIcon
  }

  /** One content row per file, a directory or a file row. */
  function ContentItems(files: seq<File>): seq<ListItem>
  {
    if files == [] then []
    else
      var last := files[|files| - 1];
      ContentItems(files[..|files| - 1]) + [ItemOf(last, if last.isDirectory then MODE_DIRECTORY else MODE_FILE)]
  }

  lemma ContentItemsNext(files: seq<File>, i: nat)
    requires i < |files|
    ensures ContentItems(files[..i + 1]) ==
              ContentItems(files[..i]) + [ItemOf(files[i], if files[i].isDirectory then MODE_DIRECTORY else MODE_FILE)]
  {
    assert files[..i + 1][..i] == files[..i];
  }

  /** The rows load leaves: an up row for the parent unless the directory is
      DEFAULT_INITIAL_PATH, then the content rows. */
  function LoadedItems(directory: File, parentFile: File, files: seq<File>, defaultInitialPath: string): seq<ListItem>
  {
    (if directory.path != defaultInitialPath then [ItemOf(parentFile, MODE_UP)] else []) + ContentItems(files)
  }

  /** Whether a listing holds a non-directory. */
  predicate HasFile(files: seq<File>)
  {
    exists k :: 0 <= k < |files| && !files[k].isDirectory
  }

  /** The content index a click at a row position opens, as written. */
  function ContentIndex(position: int): int
  {
    if position == 0 then 0 else position - 1
  }

  /** The content index the row at a position displays: one less when the
      list starts with an up row, the position itself otherwise. */
  function DisplayedContentIndex(position: int, hasUpRow: bool): int
  {
    if hasUpRow then position - 1 else position
  }

  class ListAdapter {
    /** DEFAULT_INITIAL_PATH: the external storage's parent. */
    const defaultInitialPath: string
    var currentInitialDirectory: Option<File>
    var items: seq<ListItem>

    constructor (defaultInitialPath: string)
      ensures this.defaultInitialPath == defaultInitialPath
      ensures currentInitialDirectory == None && items == []
    {
      this.defaultInitialPath := defaultInitialPath;
      currentInitialDirectory := None;
      items := [];
    }

    /** load(initialDirectory, removeFiles): the listing is a fixed-size
        Arrays.asList view, so removing its first non-directory throws
        before anything else changes. Otherwise the listing is sorted parent
        first, the rows are rebuilt, and the sorted listing is returned. */
    method Load(fs: FileSystem, initialDirectory: File, removeFiles: bool) returns (r: Result<seq<File>>)
      modifies this
      ensures removeFiles && HasFile(ListFiles(fs, initialDirectory)) ==>
                r == Throws(UnsupportedOperation) && unchanged(this)
      ensures !(removeFiles && HasFile(ListFiles(fs, initialDirectory))) ==>
                && r == Ok(SortBy(ListFiles(fs, initialDirectory), ParentFirst(initialDirectory.parent)))
                && currentInitialDirectory == Some(initialDirectory)
                && items == LoadedItems(initialDirectory, ParentFile(fs, initialDirectory), r.value, defaultInitialPath)
    {
      var listing := ListFiles(fs, initialDirectory);
      if removeFiles {
        var i := 0;
        while i < |listing|
          invariant 0 <= i <= |listing|
          invariant forall k :: 0 <= k < i ==> listing[k].isDirectory
        {
          if !listing[i].isDirectory {
            assert HasFile(listing);
            return Throws(UnsupportedOperation);
          }
          i := i + 1;
        }
        assert !HasFile(listing);
      }
      currentInitialDirectory := Some(initialDirectory);
      var files := SortBy(listing, ParentFirst(initialDirectory.parent));
      var up := [];
      if initialDirectory.path != defaultInitialPath {
        up := [ItemOf(ParentFile(fs, initialDirectory), MODE_UP)];
      }
      var rows := ContentRows(files);
      items := up + rows;
      r := Ok(files);
    }

    /** The loop of load that adds a directory or a file row per file, in
        the order of the files. */
    method ContentRows(files: seq<File>) returns (rows: seq<ListItem>)
      ensures rows == ContentItems(files)
    {
      rows := [];
      var i := 0;
      while i < |files|
        invariant 0 <= i <= |files|
        invariant rows == ContentItems(files[..i])
      {
        ContentItemsNext(files, i);
        var file := files[i];
        rows := rows + [ItemOf(file, if file.isDirectory then MODE_DIRECTORY else MODE_FILE)];
        i := i + 1;
      }
      assert files[..i] == files;
    }
  }

  /** load in directory mode throws when the directory holds a file. */
  predicate RefusesListing(fs: FileSystem, file: File, chooseDir: bool)
  {
    chooseDir && HasFile(ListFiles(fs, file))
  }

  class DirectoryContentView {
    const host: Host
    const adapter: ListAdapter
    var isDirChoosing: bool
    var currentDirectory: File
    var content: seq<File>

    constructor (host: Host, defaultInitialPath: string, directory: File)
      ensures this.host == host && fresh(adapter) && adapter.defaultInitialPath == defaultInitialPath
      ensures adapter.items == [] && adapter.currentInitialDirectory == None
      ensures !isDirChoosing && currentDirectory == directory && content == []
    {
      this.host := host;
      adapter := new ListAdapter(defaultInitialPath);
      isDirChoosing := false;
      currentDirectory := directory;
      content := [];
    }

    /** The view shows the directory: its content is the sorted listing
        and the adapter's rows are the up row, when there is one, and a row
        per file. */
    ghost predicate ShowsListing(fs: FileSystem, file: File)
      reads this, adapter
    {
      && content == SortBy(ListFiles(fs, file), ParentFirst(file.parent))
      && adapter.currentInitialDirectory == Some(file)
      && adapter.items == LoadedItems(file, ParentFile(fs, file), content, adapter.defaultInitialPath)
    }

    /** load(file, chooseDir): the mode and the directory are set first, so
        they stay set when the adapter throws; the content is the adapter's
        sorted listing. */
    method Load(fs: FileSystem, file: File, chooseDir: bool) returns (r: Result<()>)
      modifies this, adapter
      ensures isDirChoosing == chooseDir && currentDirectory == file
      ensures RefusesListing(fs, file, chooseDir) ==>
                r == Throws(UnsupportedOperation) && content == old(content) && unchanged(adapter)
      ensures !RefusesListing(fs, file, chooseDir) ==> r == Ok(()) && ShowsListing(fs, file)
    {
      isDirChoosing := chooseDir;
      currentDirectory := file;
      var loaded := adapter.Load(fs, currentDirectory, isDirChoosing);
      if loaded.Throws? {
        return Throws(loaded.exc);
      }
      content := loaded.value;
      r := Ok(());
    }

    /** DirectoryContentView.finish(file): RESULT_OK with the file's URI. */
    method Finish(file: File)
      modifies host
      ensures host.result == Some(ActivityResult(RESULT_OK, Some(file.path)))
    {
      host.Finish(RESULT_OK, Some(file.path));
    }

    /** onItemClick at a row: the up row loads the parent; any other row
        opens content[position == 0 ? 0 : position - 1], loading a directory
        or finishing with a file. A load keeps the mode and, when the
        directory holds a file in directory mode, throws with the old
        content and rows still shown. */
    method OnItemClick(fs: FileSystem, position: int) returns (r: Result<()>)
      requires 0 <= position < |adapter.items|
      modifies this, adapter, host
      ensures UsedUpMode(old(adapter.items)[position]) ==>
                && currentDirectory == ParentFile(fs, old(currentDirectory))
                && isDirChoosing == old(isDirChoosing) && unchanged(host)
                && (RefusesListing(fs, currentDirectory, isDirChoosing) ==>
                      r == Throws(UnsupportedOperation) && content == old(content) && unchanged(adapter))
                && (!RefusesListing(fs, currentDirectory, isDirChoosing) ==>
                      r == Ok(()) && ShowsListing(fs, currentDirectory))
      ensures !UsedUpMode(old(adapter.items)[position]) && ContentIndex(position) >= |old(content)| ==>
                r == Throws(IndexOutOfBounds) && unchanged(this) && unchanged(adapter) && unchanged(host)
      ensures !UsedUpMode(old(adapter.items)[position]) && ContentIndex(position) < |old(content)| ==>
                var file := old(content)[ContentIndex(position)];
                && (file.isDirectory ==>
                      && currentDirectory == file && isDirChoosing == old(isDirChoosing) && unchanged(host)
                      && (RefusesListing(fs, file, isDirChoosing) ==>
                            r == Throws(UnsupportedOperation) && content == old(content) && unchanged(adapter))
                      && (!RefusesListing(fs, file, isDirChoosing) ==> r == Ok(()) && ShowsListing(fs, file)))
                && (!file.isDirectory ==> r == Ok(()) && host.result == Some(ActivityResult(RESULT_OK, Some(file.path)))
                                          && unchanged(this) && unchanged(adapter))
    {
      if UsedUpMode(adapter.items[position]) {
        r := Load(fs, ParentFile(fs, currentDirectory), isDirChoosing);
      } else {
        var index := ContentIndex(position);
        if index >= |content| {
          return Throws(IndexOutOfBounds);
        }
        var file := content[index];
        if file.isDirectory {
          r := Load(fs, file, isDirChoosing);
        } else {
          Finish(file);
          r := Ok(());
        }
      }
    }

    /** onItemLongClick: the file whose options are offered, none for the up
        row; the click is always consumed. */
    method OnItemLongClick(position: int) returns (r: Result<Option<File>>, consumed: bool)
      requires 0 <= position < |adapter.items|
      ensures consumed
      ensures UsedUpMode(adapter.items[position]) ==> r == Ok(None)
      ensures !UsedUpMode(adapter.items[position]) ==>
                r == (if ContentIndex(position) < |content| then Ok(Some(content[ContentIndex(position)]))
                      else Throws(IndexOutOfBounds))
    {
      consumed := true;
      if UsedUpMode(adapter.items[position]) {
        r := Ok(None);
      } else {
        var index := ContentIndex(position);
        if index >= |content| {
          r := Throws(IndexOutOfBounds);
        } else {
          r := Ok(Some(content[index]));
        }
      }
    }
  }

  /** The buttons of the tool bar. */
  datatype View = SubmitButton | CancelButton | OtherView

  /** The tool bar under the list; submit is hidden unless choosing a
      directory. */
  class ManagementToolsView {
    const content: DirectoryContentView
    const submitVisible: bool

    constructor (contentView: DirectoryContentView)
      ensures content == contentView && submitVisible == contentView.isDirChoosing
    {
      content := contentView;
      submitVisible := contentView.isDirChoosing;
    }

    /** ManagementToolsView.finish(file): RESULT_CANCELED exactly for no
        file, RESULT_OK with the file's URI otherwise. */
    method Finish(file: Option<File>)
      modifies content.host
      ensures content.host.result == Some(ToolsResult(file))
    {
      if file == None {
        content.host.Finish(RESULT_CANCELED, None);
      } else {
        content.host.Finish(RESULT_OK, Some(file.value.path));
      }
    }

    /** onClick: submit finishes with the current directory, cancel with no
        file. */
    method OnClick(view: View)
      modifies content.host
      ensures view == SubmitButton ==> content.host.result == Some(ToolsResult(Some(content.currentDirectory)))
      ensures view == CancelButton ==> content.host.result == Some(ToolsResult(None))
      ensures view == OtherView ==> unchanged(content.host)
    {
      if view == SubmitButton {
        Finish(Some(content.currentDirectory));
      } else if view == CancelButton {
        Finish(None);
      }
    }
  }

  /** The result ManagementToolsView.finish reports. */
  function ToolsResult(file: Option<File>): ActivityResult
  {
    if file == None then ActivityResult(RESULT_CANCELED, None) else ActivityResult(RESULT_OK, Some(file.value.path))
  }

  // ------------------------------------------------------------ lemmas

  /** The tools report RESULT_CANCELED exactly when there is no file, and
      then carry no path; otherwise RESULT_OK with the file's path. */
  lemma ToolsResultCodes(file: Option<File>)
    ensures ToolsResult(file).code == RESULT_CANCELED <==> file == None
    ensures ToolsResult(file).code == RESULT_OK <==> file != None
    ensures ToolsResult(file).path == (if file == None then None else Some(file.value.path))
  {
  }

  /** The two choosers' action bars agree on every attribute they know: the
      background, the item colours and the title and subtitle colours; an
      unknown attribute is white here and the text colour in the older
      chooser. */
  lemma ColourDispatch(style: StyleColors, resId: int)
    ensures 0 <= resId <= 4 ==> ActionBarColor(style, resId) == FileChooserUtils.ActionBarColor(style, resId)
    ensures !(0 <= resId <= 4) ==>
              ActionBarColor(style, resId) == WHITE && FileChooserUtils.ActionBarColor(style, resId) == style.text
  {
  }

  /** One content row per file, in order, with a folder or file icon by the
      file's kind and never the up icon. */
  lemma {:induction false} ContentItemsMatchFiles(files: seq<File>)
    ensures |ContentItems(files)| == |files|
    ensures forall k :: 0 <= k < |files| ==>
              var item := ContentItems(files)[k];
              && item.file == files[k]
              && !UsedUpMode(item)
              && (item.icon == FolderIcon <==> files[k].isDirectory)
              && item.showsLastModified
              && (item.showsSize <==> !files[k].isDirectory)
    decreases |files|
  {
    if files != [] {
      ContentItemsMatchFiles(files[..|files| - 1]);
    }
  }

  /** load's rows: an up row for the parent first exactly when the
      directory is not DEFAULT_INITIAL_PATH, then row (offset + k) shows
      content k; only the up row is in up mode. */
  lemma LoadedLayout(directory: File, parentFile: File, files: seq<File>, defaultInitialPath: string)
    ensures var items := LoadedItems(directory, parentFile, files, defaultInitialPath);
            var hasUp := directory.path != defaultInitialPath;
            var offset := if hasUp then 1 else 0;
            && |items| == offset + |files|
            && (hasUp ==> items[0].file == parentFile && UsedUpMode(items[0]) && !items[0].showsLastModified)
            && (forall k :: 0 <= k < |files| ==> items[offset + k].file == files[k] && !UsedUpMode(items[offset + k]))
  {
    ContentItemsMatchFiles(files);
  }

  /** Directory-choosing load succeeds exactly when the listing holds no
      file, and then every content entry is a directory. */
  lemma DirectoryLoadKeepsDirectories(files: seq<File>, parentPath: string)
    requires !HasFile(files)
    ensures forall k :: 0 <= k < |SortBy(files, ParentFirst(parentPath))| ==> SortBy(files, ParentFirst(parentPath))[k].isDirectory
  {
    var sorted := SortBy(files, ParentFirst(parentPath));
    forall k | 0 <= k < |sorted|
      ensures sorted[k].isDirectory
    {
      assert sorted[k] in multiset(files);
    }
  }

  /** The loaded listing is ordered: the parent's path first, then
      directories before files, each group by name. */
  lemma LoadedContentSorted(files: seq<File>, parentPath: string)
    ensures SortedBy(SortBy(files, ParentFirst(parentPath)), ParentFirst(parentPath))
  {
    ParentFirstConsistent(parentPath);
    SortBySorted(files, ParentFirst(parentPath));
  }

  /** With an up row, every other row opens the file it shows; without
      one, the rows from position 1 on open the file shown one row higher,
      so the last file can never be opened. */
  lemma ClickOpensShownFileOnlyWithUpRow(directory: File, parentFile: File, files: seq<File>, defaultInitialPath: string, position: int)
    requires var items := LoadedItems(directory, parentFile, files, defaultInitialPath);
             0 <= position < |items| && !UsedUpMode(items[position])
    ensures var items := LoadedItems(directory, parentFile, files, defaultInitialPath);
            directory.path != defaultInitialPath ==>
              ContentIndex(position) < |files| && items[position].file == files[ContentIndex(position)]
    ensures var items := LoadedItems(directory, parentFile, files, defaultInitialPath);
            directory.path == defaultInitialPath && position >= 1 ==>
              position < |files| && ContentIndex(position) == position - 1 && items[position].file == files[position]
    ensures directory.path == defaultInitialPath && |files| >= 2 ==> ContentIndex(position) < |files| - 1
  {
    LoadedLayout(directory, parentFile, files, defaultInitialPath);
    if directory.path != defaultInitialPath {
      assert position != 0;
      assert LoadedItems(directory, parentFile, files, defaultInitialPath)[1 + (position - 1)].file == files[position - 1];
    }
  }

  /** The displayed index is the one each row shows, with or without an up
      row. */
  lemma DisplayedIndexOpensShownFile(directory: File, parentFile: File, files: seq<File>, defaultInitialPath: string, position: int)
    requires var items := LoadedItems(directory, parentFile, files, defaultInitialPath);
             0 <= position < |items| && !UsedUpMode(items[position])
    ensures var items := LoadedItems(directory, parentFile, files, defaultInitialPath);
            var index := DisplayedContentIndex(position, directory.path != defaultInitialPath);
            0 <= index < |files| && items[position].file == files[index]
  {
    LoadedLayout(directory, parentFile, files, defaultInitialPath);
    if directory.path != defaultInitialPath {
      assert position != 0;
      assert LoadedItems(directory, parentFile, files, defaultInitialPath)[1 + (position - 1)].file == files[position - 1];
    } else {
      assert LoadedItems(directory, parentFile, files, defaultInitialPath)[0 + position].file == files[position];
    }
  }
}

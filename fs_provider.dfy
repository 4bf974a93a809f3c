/**
 * The provider that keeps a project in a local folder: one
 * '<project name>.mermaiditor-project.json' file holding the project's metadata and a
 * content-free entry per diagram, and one '<file id>.mmd' file per diagram holding its
 * text. The folder of each project is cached in memory and persisted in directory
 * storage. Folder entries are visited in an unspecified order.
 */
module FsProvider {
  import opened Wrappers
  import opened Js
  import opened Folders
  import opened DirectoryStore

  const ProjectFileSuffix := ".mermaiditor-project.json"
  const DiagramSuffix := ".mmd"
  const NotSupported := "File System Access API not supported in this browser"
  const SelectionCancelled := "Directory selection was cancelled"
  const ProjectNameRequired := "Project name is required"

  /** What the directory picker does: a folder, the user cancelling, another failure, or no picker at all. */
  datatype Pick = Picked(handle: Handle) | Cancelled | PickerFailed(message: string) | Unsupported

  /** The object exportProject serialises (its exportedAt timestamp is not kept). */
  datatype Exported = Exported(id: Option<string>, name: Option<string>, files: seq<Doc>)

  function NoHandle(action: string, projectId: string): string {
    "Cannot " + action + " " + projectId + ": no directory handle found"
  }

  function ProjectNotFound(projectId: string): string {
    "Project not found: " + projectId
  }

  /** The TypeError of `projectData.files[key]` when `files` is undefined. */
  function CannotRead(key: string): string {
    "Cannot read properties of undefined (reading '" + key + "')"
  }

  /** The TypeError of `projectData.files[key] = ...` when `files` is undefined. */
  function CannotSet(key: string): string {
    "Cannot set properties of undefined (setting '" + key + "')"
  }

  function ProjectFileName(projectName: string): string {
    projectName + ProjectFileSuffix
  }

  function DiagramName(fileId: string): string {
    fileId + DiagramSuffix
  }

  lemma DiagramNameInjective(a: string, b: string)
    ensures DiagramName(a) == DiagramName(b) ==> a == b
  {
    assert a == DiagramName(a)[..|a|];
    assert b == DiagramName(b)[..|b|];
  }

  /** A diagram's file never takes the place of a project file: their last letters differ. */
  lemma DiagramIsNotProjectFile(fileId: string, name: string)
    requires EndsWith(name, ProjectFileSuffix)
    ensures DiagramName(fileId) != name
  {
    var d := DiagramName(fileId);
    assert name[|name| - 1] == ProjectFileSuffix[|ProjectFileSuffix| - 1] == 'n';
    assert d[|d| - 1] == DiagramSuffix[|DiagramSuffix| - 1] == 'd';
  }

  predicate IsProjectFileName(name: string) {
    EndsWith(name, ProjectFileSuffix)
  }

  /** `projectData.metadata?.id === projectId` */
  predicate HasId(d: Doc, projectId: string) {
    d.metadata.Some? && d.metadata.value.id == Some(projectId)
  }

  /** An entry the project lookup accepts for projectId. */
  predicate IsProjectFileOf(f: Folder, name: string, projectId: string) {
    name in f && IsProjectFileName(name) && f[name].FileEntry? && !f[name].text.Raw?
    && HasId(ParsedDoc(f[name].text), projectId)
  }

  /** A folder that holds no project file for projectId, seen from another state that reads the same folder. */
  lemma NoProjectFile(f: Folder, g: Folder, projectId: string)
    requires f == g && forall n :: !IsProjectFileOf(g, n, projectId)
    ensures forall n :: !IsProjectFileOf(f, n, projectId)
    ensures !exists n :: IsProjectFileOf(f, n, projectId)
  {
  }

  /** Every project file of projectId in f lists its files. */
  ghost predicate FilesListed(f: Folder, projectId: string) {
    forall n :: IsProjectFileOf(f, n, projectId) ==> ProjectDoc(f, n).files.Some?
  }

  /** A sub-folder, which a file write of the same name fails on. */
  predicate IsSubfolder(f: Folder, name: string) {
    name in f && f[name].DirEntry?
  }

  /** No sub-folder of f takes the '.mmd' name of one of the files. */
  predicate DiagramsWritable(f: Folder, files: seq<Doc>) {
    forall i :: 0 <= i < |files| ==> !IsSubfolder(f, DiagramName(Show(files[i].id)))
  }

  /** A project file JSON.parse rejects. */
  predicate IsUnreadable(f: Folder, name: string) {
    name in f && IsProjectFileName(name) && f[name].FileEntry? && f[name].text.Raw?
  }

  /** The object a folder's project file parses to. */
  function ProjectDoc(f: Folder, name: string): Doc
    requires name in f && f[name].FileEntry?
  {
    ParsedDoc(f[name].text)
  }

  /** `projectData.files || {}` */
  function FilesOf(d: Doc): map<string, Doc> {
    if d.files.Some? then d.files.value else map[]
  }

  /** What getProjectMetadata reports of a project file's metadata. */
  function Summary(m: Doc): Doc {
    EmptyDoc.(id := m.id, name := m.name, theme := Some(Or(m.theme, "default")), selectedFileId := m.selectedFileId)
  }

  /** The metadata entry kept in the project file for a diagram: no content (timestamps are not kept). */
  function FileMeta(file: Doc): Doc {
    EmptyDoc.(id := file.id, name := file.name, kind := file.kind, version := file.version)
  }

  /** The text of '<fileId>.mmd', or '' when that file cannot be read. */
  function DiagramText(f: Folder, fileId: string): string {
    var t := ReadText(f, DiagramName(fileId));
    if t.Some? then PlainText(t.value) else ""
  }

  /**
   * What getFile returns once the project file `at` is found: null when the id has no
   * metadata entry, else the entry with the diagram's text as content.
   */
  function StoredFile(f: Folder, at: string, fileId: string): (r: Result<Option<Doc>>)
    requires at in f && f[at].FileEntry?
    ensures r.Err? <==> ProjectDoc(f, at).files.None?
    ensures r.Ok? && r.value.Some? ==>
      fileId in FilesOf(ProjectDoc(f, at)) && r.value.value == FilesOf(ProjectDoc(f, at))[fileId].(content := Some(DiagramText(f, fileId)))
    ensures r.Ok? && r.value.None? ==> fileId !in FilesOf(ProjectDoc(f, at))
  {
    var d := ProjectDoc(f, at);
    if d.files.None? then Err(CannotRead(fileId))
    else if fileId !in d.files.value then Ok(None)
    else Ok(Some(d.files.value[fileId].(content := Some(DiagramText(f, fileId)))))
  }

  /** getFiles' result for the metadata entries visited in the order `keys`. */
  function Listing(f: Folder, files: map<string, Doc>, keys: seq<string>): (r: seq<Doc>)
    requires forall i :: 0 <= i < |keys| ==> keys[i] in files
    ensures |r| == |keys|
    ensures forall i :: 0 <= i < |keys| ==> r[i] == files[keys[i]].(content := Some(DiagramText(f, Show(files[keys[i]].id))))
  {
    if keys == [] then []
    else
      var m := files[keys[|keys| - 1]];
      Listing(f, files, keys[..|keys| - 1]) + [m.(content := Some(DiagramText(f, Show(m.id))))]
  }

  /** Entries of f named in `names` that removeEntry can delete (files), removed. */
  function Pruned(f: Folder, names: set<string>): (r: Folder)
    ensures forall n :: n in r <==> n in f && !(n in names && f[n].FileEntry?)
    ensures forall n :: n in r ==> r[n] == f[n]
  {
    map n | n in f && !(n in names && f[n].FileEntry?) :: f[n]
  }

  lemma PruneStep(f: Folder, names: set<string>, n: string)
    ensures var c := Pruned(f, names);
      (if n in c && c[n].FileEntry? then c - {n} else c) == Pruned(f, names + {n})
  {
  }

  function DiagramNames(ids: set<string>): set<string> {
    set id | id in ids :: DiagramName(id)
  }

  /** The metadata entries duplicateProject builds from the copied files, a later id replacing an earlier one. */
  function MetaMap(files: seq<Doc>): map<string, Doc> {
    if files == [] then map[]
    else
      var x := files[|files| - 1];
      MetaMap(files[..|files| - 1])[Show(x.id) := FileMeta(x)]
  }

  /** The text duplicateProject writes for each copied id. */
  function ContentMap(files: seq<Doc>): (r: map<string, string>)
    ensures r.Keys == MetaMap(files).Keys
  {
    if files == [] then map[]
    else
      var x := files[|files| - 1];
      ContentMap(files[..|files| - 1])[Show(x.id) := Or(x.content, "")]
  }

  /** The folder after '<id>.mmd' is written for each copied file in order. */
  function WithDiagrams(f: Folder, files: seq<Doc>): Folder {
    if files == [] then f
    else
      var x := files[|files| - 1];
      WithDiagrams(f, files[..|files| - 1])[DiagramName(Show(x.id)) := FileEntry(Raw(Or(x.content, "")))]
  }

  /** Every copied diagram reads back with the content of the last copied file of its id. */
  lemma {:induction false} WithDiagramsReadBack(f: Folder, files: seq<Doc>, id: string)
    requires id in ContentMap(files)
    ensures ReadText(WithDiagrams(f, files), DiagramName(id)) == Some(Raw(ContentMap(files)[id]))
  {
    var x := files[|files| - 1];
    var init := files[..|files| - 1];
    if Show(x.id) != id {
      DiagramNameInjective(Show(x.id), id);
      WithDiagramsReadBack(f, init, id);
    }
  }

  /** Writing the diagrams changes no entry but theirs, and leaves every project file in place. */
  lemma {:induction false} WithDiagramsFrame(f: Folder, files: seq<Doc>, n: string)
    requires n !in DiagramNames(ContentMap(files).Keys)
    ensures (n in WithDiagrams(f, files) <==> n in f)
    ensures n in f ==> WithDiagrams(f, files)[n] == f[n]
  {
    if files != [] {
      var x := files[|files| - 1];
      var init := files[..|files| - 1];
      assert Show(x.id) in ContentMap(files).Keys;
      assert DiagramNames(ContentMap(init).Keys) <= DiagramNames(ContentMap(files).Keys);
      WithDiagramsFrame(f, init, n);
    }
  }

  /** Diagram writes never meet a sub-folder unless one of that name was there before. */
  lemma {:induction false} WithDiagramsKinds(f: Folder, files: seq<Doc>, n: string)
    ensures n in WithDiagrams(f, files) && WithDiagrams(f, files)[n].DirEntry? ==> n in f && f[n].DirEntry?
  {
    if files != [] {
      WithDiagramsKinds(f, files[..|files| - 1], n);
    }
  }

  /** The folder duplicateProject leaves behind in the copy's folder `target`. */
  function CopyFolder(target: Folder, copied: seq<Doc>, newId: string, newName: string, theme: Option<string>): Folder {
    var pf := ProjectFileName(newName);
    WithDiagrams(Touched(target, pf), copied)[pf := FileEntry(Json(DuplicateDoc(newId, newName, theme, MetaMap(copied))))]
  }

  /** The copy's project file is found under the new id, lists every copied id, and each copied diagram reads back. */
  lemma CopyFolderFacts(target: Folder, copied: seq<Doc>, newId: string, newName: string, theme: Option<string>)
    ensures var g := CopyFolder(target, copied, newId, newName, theme);
      IsProjectFileOf(g, ProjectFileName(newName), newId)
      && forall k :: k in ContentMap(copied) ==>
           k in FilesOf(ProjectDoc(g, ProjectFileName(newName)))
           && ReadText(g, DiagramName(k)) == Some(Raw(ContentMap(copied)[k]))
  {
    var pf := ProjectFileName(newName);
    ProjectFileNameIsProjectFile(newName);
    forall k | k in ContentMap(copied)
      ensures ReadText(CopyFolder(target, copied, newId, newName, theme), DiagramName(k)) == Some(Raw(ContentMap(copied)[k]))
    {
      DiagramIsNotProjectFile(k, pf);
      WithDiagramsReadBack(Touched(target, pf), copied, k);
    }
  }

  /** Object.assign(target, updates) for the fields updates holds. */
  function Assign(target: Doc, updates: Doc): Doc
  {
    Doc(
      if updates.id.Some? then updates.id else target.id,
      if updates.name.Some? then updates.name else target.name,
      if updates.content.Some? then updates.content else target.content,
      if updates.version.Some? then updates.version else target.version,
      if updates.kind.Some? then updates.kind else target.kind,
      if updates.projectId.Some? then updates.projectId else target.projectId,
      if updates.theme.Some? then updates.theme else target.theme,
      if updates.selectedFile.Some? then updates.selectedFile else target.selectedFile,
      if updates.selectedFileId.Some? then updates.selectedFileId else target.selectedFileId,
      if updates.storageProvider.Some? then updates.storageProvider else target.storageProvider,
      if updates.storageProviderParameters.Some? then updates.storageProviderParameters else target.storageProviderParameters,
      if updates.diagrams.Some? then updates.diagrams else target.diagrams,
      if updates.files.Some? then updates.files else target.files,
      if updates.metadata.Some? then updates.metadata else target.metadata)
  }

  /** The project file createProject writes. */
  function NewProjectDoc(projectId: string, projectName: string, selected: Option<string>, initialFiles: map<string, Doc>): Doc {
    EmptyDoc.(
      metadata := Some(EmptyDoc.(id := Some(projectId), name := Some(projectName), theme := Some("default"), selectedFileId := selected)),
      files := Some(initialFiles))
  }

  /** The project file duplicateProject writes. */
  function DuplicateDoc(newId: string, newName: string, theme: Option<string>, files: map<string, Doc>): Doc {
    EmptyDoc.(
      version := Some("2.0"),
      metadata := Some(EmptyDoc.(id := Some(newId), name := Some(newName), storageProvider := Some("fileSystem"), theme := Some(Or(theme, "default")))),
      files := Some(files))
  }

  /** The folder after getFileHandle(name, {create: true}) on a name that is not a sub-folder. */
  function Touched(f: Folder, name: string): Folder {
    if name in f then f else f[name := FileEntry(Raw(""))]
  }

  lemma ProjectFileNameIsProjectFile(projectName: string)
    ensures IsProjectFileName(ProjectFileName(projectName))
  {
    var n := ProjectFileName(projectName);
    assert n[|n| - |ProjectFileSuffix|..] == ProjectFileSuffix;
  }

  /** The cache after a lookup that found h. */
  function Remembered(cache: map<string, Handle>, projectId: string, h: Option<Handle>): map<string, Handle> {
    if h.Some? then cache[projectId := h.value] else cache
  }

  class FileSystemStorageProvider {
    /** projectId -> the folder of each project used in this session. */
    var projectDirectories: map<string, Handle>
    const dirs: DirectoryStorage
    const disk: Disk

    constructor (dirs: DirectoryStorage, disk: Disk)
      ensures projectDirectories == map[] && this.dirs == dirs && this.disk == disk
    {
      projectDirectories := map[];
      this.dirs := dirs;
      this.disk := disk;
    }

    /** The folder getProjectDirectoryHandle yields: the cached one, else a stored one that still has access. */
    function HandleFor(projectId: string, access: Access): Option<Handle>
      reads this, dirs
    {
      if projectId in projectDirectories then Some(projectDirectories[projectId])
      else
        var stored := dirs.GetProjectDirectory(Some(projectId));
        if stored.Ok? && VerifyDirectoryAccess(stored.value, access) then stored.value else None
    }

    /** The handle store once getProjectDirectoryHandle has run: a stored handle that lost its access is evicted. */
    function LookedUp(projectId: string, access: Access): map<IdbKey, Slot>
      reads this, dirs
    {
      var stored := dirs.GetProjectDirectory(Some(projectId));
      if projectId !in projectDirectories && stored.Ok? && stored.value.Some? && !VerifyDirectoryAccess(stored.value, access)
      then dirs.db - {Str(ProjectKey(projectId))}
      else dirs.db
    }

    /** getProjectDirectoryHandle(projectId): a restored handle is cached; a revoked one is evicted from storage. */
    method GetProjectDirectoryHandle(projectId: string, access: Access) returns (h: Option<Handle>)
      modifies this, dirs
      ensures h == old(HandleFor(projectId, access))
      ensures projectDirectories == Remembered(old(projectDirectories), projectId, h)
      ensures dirs.db == old(LookedUp(projectId, access))
      ensures h.Some? ==> forall a :: HandleFor(projectId, a) == h
    {
      if projectId in projectDirectories {
        return Some(projectDirectories[projectId]);
      }
      h := dirs.RestoreProjectDirectory(Some(projectId), access);
      if h.Some? {
        projectDirectories := projectDirectories[projectId := h.value];
      }
    }

    /** setProjectDirectoryHandle: cached first, then persisted (which throws for an empty id). */
    method SetProjectDirectoryHandle(projectId: string, h: Handle) returns (r: Result<()>)
      modifies this, dirs
      ensures projectDirectories == old(projectDirectories)[projectId := h]
      ensures r.Err? <==> projectId == ""
      ensures r.Ok? ==> dirs.db == old(dirs.db)[Str(ProjectKey(projectId)) := Held(h)]
      ensures r.Err? ==> r.message == ProjectIdRequired && dirs.db == old(dirs.db)
    {
      projectDirectories := projectDirectories[projectId := h];
      r := dirs.StoreProjectDirectory(Some(projectId), Some(h));
    }

    /** clearProjectDirectory: forgotten in memory, then in storage (which throws for an empty id). */
    method ClearProjectDirectory(projectId: string) returns (r: Result<()>)
      modifies this, dirs
      ensures projectDirectories == old(projectDirectories) - {projectId}
      ensures r.Err? <==> projectId == ""
      ensures dirs.db == if r.Ok? then old(dirs.db) - {Str(ProjectKey(projectId))} else old(dirs.db)
    {
      projectDirectories := projectDirectories - {projectId};
      r := dirs.ClearProjectDirectory(Some(projectId));
    }

    /** selectDirectoryForProject(projectId): the picked folder becomes the project's. */
    method SelectDirectoryForProject(projectId: string, pick: Pick) returns (r: Result<Handle>)
      modifies this, dirs
      ensures pick.Unsupported? ==> r == Err(NotSupported)
      ensures pick.Cancelled? ==> r == Err(SelectionCancelled)
      ensures pick.PickerFailed? ==> r == Err(pick.message)
      ensures r.Ok? <==> pick.Picked? && projectId != ""
      ensures r.Ok? ==> r.value == pick.handle
      ensures pick.Picked? ==> projectDirectories == old(projectDirectories)[projectId := pick.handle]
      ensures !pick.Picked? ==> projectDirectories == old(projectDirectories)
      ensures r.Ok? ==> dirs.db == old(dirs.db)[Str(ProjectKey(projectId)) := Held(pick.handle)]
      ensures r.Err? ==> dirs.db == old(dirs.db)
    {
      match pick
      case Unsupported => return Err(NotSupported);
      case Cancelled => return Err(SelectionCancelled);
      case PickerFailed(message) => return Err(message);
      case Picked(h) =>
        var stored := SetProjectDirectoryHandle(projectId, h);
        if stored.Err? {
          return Err(stored.message);
        }
        r := Ok(h);
    }

    /** _findProjectFile: a project file of projectId; files that do not parse are skipped. */
    method FindProjectFile(projectId: string, h: Handle) returns (r: Option<string>)
      ensures r.Some? ==> IsProjectFileOf(disk.Contents(h), r.value, projectId)
      ensures r.None? <==> forall n :: !IsProjectFileOf(disk.Contents(h), n, projectId)
    {
      var f := disk.Contents(h);
      var todo := f.Keys;
      while todo != {}
        invariant todo <= f.Keys
        invariant forall n :: n in f && n !in todo ==> !IsProjectFileOf(f, n, projectId)
        decreases |todo|
      {
        var n :| n in todo;
        if IsProjectFileName(n) && f[n].FileEntry? {
          var parsed := Parse(f[n].text);
          if parsed.Ok? && HasId(parsed.value, projectId) {
            assert IsProjectFileOf(f, n, projectId);
            return Some(n);
          }
        }
        todo := todo - {n};
      }
      r := None;
    }

    /**
     * The lookup of getProjectMetadata and getProject: the first project file that does
     * not parse makes the whole lookup throw.
     */
    method LocateProject(projectId: string, h: Handle) returns (r: Result<Option<string>>)
      ensures r.Err? ==> r.message == ParseErrorMessage && exists n :: IsUnreadable(disk.Contents(h), n)
      ensures r.Ok? && r.value.Some? ==> IsProjectFileOf(disk.Contents(h), r.value.value, projectId)
      ensures r == Ok(None) <==> forall n :: !IsProjectFileOf(disk.Contents(h), n, projectId) && !IsUnreadable(disk.Contents(h), n)
    {
      var f := disk.Contents(h);
      var todo := f.Keys;
      while todo != {}
        invariant todo <= f.Keys
        invariant forall n :: n in f && n !in todo ==> !IsProjectFileOf(f, n, projectId) && !IsUnreadable(f, n)
        decreases |todo|
      {
        var n :| n in todo;
        if IsProjectFileName(n) && f[n].FileEntry? {
          var parsed := Parse(f[n].text);
          if parsed.Err? {
            assert IsUnreadable(f, n);
            return Err(parsed.message);
          }
          if HasId(parsed.value, projectId) {
            assert IsProjectFileOf(f, n, projectId);
            return Ok(Some(n));
          }
        }
        todo := todo - {n};
      }
      r := Ok(None);
    }

    /**
     * createProject(projectId, projectName, initialFiles): writes
     * '<projectName>.mermaiditor-project.json' into the project's folder, asking for a
     * folder when none is known. selectedFileId is the first key of initialFiles, or null
     * when there is none or it is ''; the model does not track the order of an object's
     * keys, so `selected` may be any of them.
     */
    method CreateProject(projectId: Option<string>, projectName: Option<string>, initialFiles: map<string, Doc>, access: Access, pick: Pick)
      returns (r: Result<()>, ghost h: Handle, ghost selected: Option<string>)
      modifies this, dirs, disk
      ensures Missing(projectId) ==> r == Err(ProjectIdRequired)
      ensures !Missing(projectId) && Missing(projectName) ==> r == Err(ProjectNameRequired)
      ensures Missing(projectId) || Missing(projectName) ==> projectDirectories == old(projectDirectories) && dirs.db == old(dirs.db)
      ensures !Missing(projectId) && !Missing(projectName) ==>
        (var id := projectId.value;
         var known := old(HandleFor(id, access));
         if known.Some? then
           projectDirectories == old(projectDirectories)[id := known.value] && dirs.db == old(LookedUp(id, access))
         else if pick.Picked? then
           projectDirectories == old(projectDirectories)[id := pick.handle]
           && dirs.db == old(LookedUp(id, access))[Str(ProjectKey(id)) := Held(pick.handle)]
         else projectDirectories == old(projectDirectories) && dirs.db == old(LookedUp(id, access)))
      ensures r.Err? ==> disk.folders == old(disk.folders)
      ensures r.Ok? ==> !Missing(projectId) && !Missing(projectName)
      ensures r.Ok? ==> (var known := old(HandleFor(projectId.value, access));
                         if known.Some? then h == known.value else pick == Picked(h))
      ensures r.Ok? ==> selected.Some? ==> selected.value in initialFiles && selected.value != ""
      ensures r.Ok? ==> selected.None? ==> initialFiles == map[] || "" in initialFiles
      ensures r.Ok? ==> disk.folders == old(disk.folders)[h.folder := old(disk.Contents(h))[ProjectFileName(projectName.value) :=
                          FileEntry(Json(NewProjectDoc(projectId.value, projectName.value, selected, initialFiles)))]]
      ensures r.Ok? ==> IsProjectFileOf(disk.Contents(h), ProjectFileName(projectName.value), projectId.value)
      ensures r.Ok? ==> forall a :: HandleFor(projectId.value, a) == Some(h)
    {
      h, selected := Handle(0), None;
      if Missing(projectId) {
        return Err(ProjectIdRequired), h, selected;
      }
      if Missing(projectName) {
        return Err(ProjectNameRequired), h, selected;
      }
      var id, name := projectId.value, projectName.value;
      var known := GetProjectDirectoryHandle(id, access);
      var folder: Handle;
      if known.Some? {
        folder := known.value;
      } else {
        var picked := SelectDirectoryForProject(id, pick);
        if picked.Err? {
          return Err(picked.message), h, selected;
        }
        folder := picked.value;
      }
      h := folder;
      var first: Option<string> := None;
      if initialFiles != map[] {
        var k :| k in initialFiles;
        first := OrNull(Some(k));
      }
      selected := first;
      var written := disk.Write(folder, ProjectFileName(name), Json(NewProjectDoc(id, name, first, initialFiles)));
      if written.Err? {
        return Err(written.message), h, selected;
      }
      ProjectFileNameIsProjectFile(name);
      r := Ok(());
    }

    /** getProjectMetadata(projectId): null without a folder, without a match, or when a project file does not parse. */
    method GetProjectMetadata(projectId: string, access: Access) returns (r: Option<Doc>)
      modifies this, dirs
      ensures dirs.db == old(LookedUp(projectId, access))
      ensures projectDirectories == Remembered(old(projectDirectories), projectId, old(HandleFor(projectId, access)))
      ensures old(HandleFor(projectId, access)).None? ==> r.None?
      ensures var h := old(HandleFor(projectId, access));
        r.Some? ==> h.Some? && exists n :: (IsProjectFileOf(disk.Contents(h.value), n, projectId)
          && r.value == Summary(ProjectDoc(disk.Contents(h.value), n).metadata.value))
      ensures r.Some? ==> r.value.id == Some(projectId) && r.value.theme.Some? && r.value.theme.value != ""
      ensures var h := old(HandleFor(projectId, access));
        h.Some? && (forall n :: !IsUnreadable(disk.Contents(h.value), n)) ==>
          (r.Some? <==> exists n :: IsProjectFileOf(disk.Contents(h.value), n, projectId))
    {
      var h := GetProjectDirectoryHandle(projectId, access);
      if h.Some? {
        assert disk.Contents(h.value) == old(disk.Contents(h.value));
      }
      if h.None? {
        return None;
      }
      var found := LocateProject(projectId, h.value);
      if found.Err? || found.value.None? {
        return None;
      }
      var meta := ProjectDoc(disk.Contents(h.value), found.value.value).metadata.value;
      r := Some(Summary(meta));
    }

    /** getProject(projectId): the parsed project file, null when there is none. */
    method GetProject(projectId: string, access: Access) returns (r: Result<Option<Doc>>)
      modifies this, dirs
      ensures dirs.db == old(LookedUp(projectId, access))
      ensures projectDirectories == Remembered(old(projectDirectories), projectId, old(HandleFor(projectId, access)))
      ensures old(HandleFor(projectId, access)).None? ==> r == Ok(None)
      ensures var h := old(HandleFor(projectId, access));
        r.Err? ==> h.Some? && r.message == ParseErrorMessage && exists n :: IsUnreadable(disk.Contents(h.value), n)
      ensures var h := old(HandleFor(projectId, access));
        r.Ok? && r.value.Some? ==> h.Some? && exists n :: (IsProjectFileOf(disk.Contents(h.value), n, projectId)
          && r.value.value == ProjectDoc(disk.Contents(h.value), n))
      ensures var h := old(HandleFor(projectId, access));
        h.Some? && (forall n :: !IsProjectFileOf(disk.Contents(h.value), n, projectId) && !IsUnreadable(disk.Contents(h.value), n)) ==>
          r == Ok(None)
      ensures var h := old(HandleFor(projectId, access));
        h.Some? && (exists n :: IsProjectFileOf(disk.Contents(h.value), n, projectId)) && (forall n :: !IsUnreadable(disk.Contents(h.value), n)) ==>
          r.Ok? && r.value.Some?
    {
      var h := GetProjectDirectoryHandle(projectId, access);
      if h.Some? {
        assert disk.Contents(h.value) == old(disk.Contents(h.value));
      }
      if h.None? {
        return Ok(None);
      }
      var found := LocateProject(projectId, h.value);
      if found.Err? {
        return Err(found.message);
      }
      if found.value.None? {
        return Ok(None);
      }
      r := Ok(Some(ProjectDoc(disk.Contents(h.value), found.value.value)));
    }

    /** getProjectFiles(projectId): the project's metadata entries, `{}` when it has none, null when it cannot be read. */
    method GetProjectFiles(projectId: string, access: Access) returns (r: Option<map<string, Doc>>)
      modifies this, dirs
      ensures projectDirectories == Remembered(old(projectDirectories), projectId, old(HandleFor(projectId, access)))
      ensures dirs.db == old(LookedUp(projectId, access))
      ensures old(HandleFor(projectId, access)).None? ==> r.None?
      ensures var h := old(HandleFor(projectId, access));
        r.Some? ==> h.Some? && exists n :: (IsProjectFileOf(disk.Contents(h.value), n, projectId)
          && r.value == FilesOf(ProjectDoc(disk.Contents(h.value), n)))
      ensures var h := old(HandleFor(projectId, access));
        h.Some? && (exists n :: IsProjectFileOf(disk.Contents(h.value), n, projectId)) && (forall n :: !IsUnreadable(disk.Contents(h.value), n)) ==>
          r.Some?
    {
      var project := GetProject(projectId, access);
      if project.Err? || project.value.None? {
        return None;
      }
      r := Some(FilesOf(project.value.value));
    }

    /** updateProjectMetadata(projectId, updates): merges updates into the metadata of the project file. */
    method UpdateProjectMetadata(projectId: string, updates: Doc, access: Access) returns (ok: bool, ghost at: string)
      modifies this, dirs, disk
      ensures dirs.db == old(LookedUp(projectId, access))
      ensures projectDirectories == Remembered(old(projectDirectories), projectId, old(HandleFor(projectId, access)))
      ensures var h := old(HandleFor(projectId, access));
        ok <==> h.Some? && exists n :: IsProjectFileOf(old(disk.Contents(h.value)), n, projectId)
      ensures var h := old(HandleFor(projectId, access));
        ok ==> (IsProjectFileOf(old(disk.Contents(h.value)), at, projectId)
          && var d := ProjectDoc(old(disk.Contents(h.value)), at);
             disk.folders == old(disk.folders)[h.value.folder :=
               old(disk.Contents(h.value))[at := FileEntry(Json(d.(metadata := Some(Assign(d.metadata.value, updates)))))]])
      ensures !ok ==> disk.folders == old(disk.folders)
    {
      at := "";
      var h := GetProjectDirectoryHandle(projectId, access);
      if h.Some? {
        assert disk.Contents(h.value) == old(disk.Contents(h.value));
      }
      if h.None? {
        return false, at;
      }
      var found := FindProjectFile(projectId, h.value);
      if found.None? {
        NoProjectFile(old(disk.Contents(h.value)), disk.Contents(h.value), projectId);
        return false, at;
      }
      var name := found.value;
      at := name;
      var d := ProjectDoc(disk.Contents(h.value), name);
      var written := disk.Write(h.value, name, Json(d.(metadata := Some(Assign(d.metadata.value, updates)))));
      ok := written.Ok?;
    }

    /** deleteProject(projectId): removes the project file and forgets the folder. */
    method DeleteProject(projectId: string, access: Access) returns (ok: bool, ghost at: string)
      modifies this, dirs, disk
      ensures var h := old(HandleFor(projectId, access));
        ok <==> h.Some? && projectId != "" && exists n :: IsProjectFileOf(old(disk.Contents(h.value)), n, projectId)
      ensures var h := old(HandleFor(projectId, access));
        ok ==> (IsProjectFileOf(old(disk.Contents(h.value)), at, projectId)
          && disk.folders == old(disk.folders)[h.value.folder := old(disk.Contents(h.value)) - {at}])
      ensures var h := old(HandleFor(projectId, access));
        h.Some? && (exists n :: IsProjectFileOf(old(disk.Contents(h.value)), n, projectId)) ==>
          (IsProjectFileOf(old(disk.Contents(h.value)), at, projectId)
          && disk.folders == old(disk.folders)[h.value.folder := old(disk.Contents(h.value)) - {at}]
          && projectDirectories == old(projectDirectories) - {projectId})
      ensures var h := old(HandleFor(projectId, access));
        !(h.Some? && exists n :: IsProjectFileOf(old(disk.Contents(h.value)), n, projectId)) ==>
          disk.folders == old(disk.folders) && projectDirectories == Remembered(old(projectDirectories), projectId, h)
      ensures dirs.db == if ok then old(dirs.db) - {Str(ProjectKey(projectId))} else old(LookedUp(projectId, access))
      ensures ok ==> forall a :: HandleFor(projectId, a).None?
    {
      at := "";
      var h := GetProjectDirectoryHandle(projectId, access);
      if h.Some? {
        assert disk.Contents(h.value) == old(disk.Contents(h.value));
      }
      if h.None? {
        return false, at;
      }
      var found := FindProjectFile(projectId, h.value);
      if found.None? {
        NoProjectFile(old(disk.Contents(h.value)), disk.Contents(h.value), projectId);
        return false, at;
      }
      var name := found.value;
      at := name;
      var removed := disk.RemoveEntry(h.value, name);
      var cleared := ClearProjectDirectory(projectId);
      ok := cleared.Ok?;
    }

    /**
     * saveFile(projectId, fileData): writes the content to '<id>.mmd', then stores the
     * content-free entry under the id in the project file; other entries are untouched.
     */
    method SaveFile(projectId: string, file: Doc, access: Access) returns (r: Result<()>, ghost at: string)
      modifies this, dirs, disk
      ensures dirs.db == old(LookedUp(projectId, access))
      ensures projectDirectories == Remembered(old(projectDirectories), projectId, old(HandleFor(projectId, access)))
      ensures old(HandleFor(projectId, access)).None? ==> r == Err(NoHandle("save file for project", projectId))
      ensures var h := old(HandleFor(projectId, access));
        h.Some? && (forall n :: !IsProjectFileOf(old(disk.Contents(h.value)), n, projectId)) ==>
          r == Err(ProjectNotFound(projectId))
      ensures var h := old(HandleFor(projectId, access));
        r.Ok? ==> (h.Some? && IsProjectFileOf(old(disk.Contents(h.value)), at, projectId)
          && var f := old(disk.Contents(h.value));
             var d := ProjectDoc(f, at);
             d.files.Some?
             && disk.folders == old(disk.folders)[h.value.folder :=
                  f[DiagramName(Show(file.id)) := FileEntry(Raw(Or(file.content, "")))]
                   [at := FileEntry(Json(d.(files := Some(d.files.value[Show(file.id) := FileMeta(file)]))))]])
      ensures var h := old(HandleFor(projectId, access));
        r.Ok? ==> (IsProjectFileOf(disk.Contents(h.value), at, projectId)
          && StoredFile(disk.Contents(h.value), at, Show(file.id)) == Ok(Some(FileMeta(file).(content := Some(Or(file.content, ""))))))
      ensures var h := old(HandleFor(projectId, access));
        r.Ok? ==> forall id :: id != Show(file.id) ==>
          StoredFile(disk.Contents(h.value), at, id) == StoredFile(old(disk.Contents(h.value)), at, id)
      ensures var h := old(HandleFor(projectId, access));
        h.Some? && (exists n :: IsProjectFileOf(old(disk.Contents(h.value)), n, projectId))
        && FilesListed(old(disk.Contents(h.value)), projectId)
        && !IsSubfolder(old(disk.Contents(h.value)), DiagramName(Show(file.id)))
        ==> r.Ok?
    {
      at := "";
      var h := GetProjectDirectoryHandle(projectId, access);
      if h.Some? {
        assert disk.Contents(h.value) == old(disk.Contents(h.value));
      }
      if h.None? {
        return Err(NoHandle("save file for project", projectId)), at;
      }
      var found := FindProjectFile(projectId, h.value);
      if found.None? {
        NoProjectFile(old(disk.Contents(h.value)), disk.Contents(h.value), projectId);
        return Err(ProjectNotFound(projectId)), at;
      }
      var name := found.value;
      at := name;
      ghost var f := disk.Contents(h.value);
      var key := Show(file.id);
      DiagramIsNotProjectFile(key, name);
      var written := disk.Write(h.value, DiagramName(key), Raw(Or(file.content, "")));
      if written.Err? {
        return Err(written.message), at;
      }
      var d := ProjectDoc(disk.Contents(h.value), name);
      if d.files.None? {
        return Err(CannotSet(key)), at;
      }
      // The project file was just read, so this write meets a file, never a sub-folder.
      var _ := disk.Write(h.value, name, Json(d.(files := Some(d.files.value[key := FileMeta(file)]))));
      r := Ok(());
      forall id | id != key
        ensures StoredFile(disk.Contents(h.value), at, id) == StoredFile(f, at, id)
      {
        DiagramNameInjective(id, key);
        DiagramIsNotProjectFile(id, at);
      }
    }

    /** getFile(projectId, fileId): the entry plus the diagram's text; null for an id without an entry. */
    method GetFile(projectId: string, fileId: string, access: Access) returns (r: Result<Option<Doc>>, ghost at: string)
      modifies this, dirs
      ensures dirs.db == old(LookedUp(projectId, access))
      ensures projectDirectories == Remembered(old(projectDirectories), projectId, old(HandleFor(projectId, access)))
      ensures old(HandleFor(projectId, access)).None? ==> r == Err(NoHandle("get file for project", projectId))
      ensures var h := old(HandleFor(projectId, access));
        h.Some? ==>
          if forall n :: !IsProjectFileOf(disk.Contents(h.value), n, projectId) then r == Err(ProjectNotFound(projectId))
          else IsProjectFileOf(disk.Contents(h.value), at, projectId) && r == StoredFile(disk.Contents(h.value), at, fileId)
    {
      at := "";
      var h := GetProjectDirectoryHandle(projectId, access);
      if h.Some? {
        assert disk.Contents(h.value) == old(disk.Contents(h.value));
      }
      if h.None? {
        return Err(NoHandle("get file for project", projectId)), at;
      }
      var found := FindProjectFile(projectId, h.value);
      if found.None? {
        NoProjectFile(old(disk.Contents(h.value)), disk.Contents(h.value), projectId);
        return Err(ProjectNotFound(projectId)), at;
      }
      var name := found.value;
      at := name;
      var f := disk.Contents(h.value);
      var d := ProjectDoc(f, name);
      if d.files.None? {
        return Err(CannotRead(fileId)), at;
      }
      if fileId !in d.files.value {
        return Ok(None), at;
      }
      var t := ReadText(f, DiagramName(fileId));
      var content := if t.Some? then PlainText(t.value) else "";
      r := Ok(Some(d.files.value[fileId].(content := Some(content))));
    }

    /** getFiles(projectId): every metadata entry with its diagram's text, in the order `keys`. */
    method GetFiles(projectId: string, access: Access) returns (r: Result<seq<Doc>>, ghost at: string, ghost keys: seq<string>)
      modifies this, dirs
      ensures dirs.db == old(LookedUp(projectId, access))
      ensures projectDirectories == Remembered(old(projectDirectories), projectId, old(HandleFor(projectId, access)))
      ensures old(HandleFor(projectId, access)).None? ==> r == Err(NoHandle("get files for project", projectId))
      ensures var h := old(HandleFor(projectId, access));
        h.Some? && (forall n :: !IsProjectFileOf(disk.Contents(h.value), n, projectId)) ==> r == Err(ProjectNotFound(projectId))
      ensures var h := old(HandleFor(projectId, access));
        h.Some? && (exists n :: IsProjectFileOf(disk.Contents(h.value), n, projectId)) ==> r.Ok?
      ensures var h := old(HandleFor(projectId, access));
        r.Ok? ==> (h.Some? && IsProjectFileOf(disk.Contents(h.value), at, projectId)
          && var files := FilesOf(ProjectDoc(disk.Contents(h.value), at));
             (forall i :: 0 <= i < |keys| ==> keys[i] in files)
             && (forall k :: k in files ==> k in keys)
             && (forall i, j :: 0 <= i < j < |keys| ==> keys[i] != keys[j])
             && r.value == Listing(disk.Contents(h.value), files, keys))
    {
      at, keys := "", [];
      var h := GetProjectDirectoryHandle(projectId, access);
      if h.Some? {
        assert disk.Contents(h.value) == old(disk.Contents(h.value));
      }
      if h.None? {
        return Err(NoHandle("get files for project", projectId)), at, keys;
      }
      var found := FindProjectFile(projectId, h.value);
      if found.None? {
        NoProjectFile(old(disk.Contents(h.value)), disk.Contents(h.value), projectId);
        return Err(ProjectNotFound(projectId)), at, keys;
      }
      var name := found.value;
      at := name;
      var f := disk.Contents(h.value);
      var files := FilesOf(ProjectDoc(f, name));
      var todo := files.Keys;
      var out: seq<Doc> := [];
      while todo != {}
        invariant todo <= files.Keys
        invariant forall i :: 0 <= i < |keys| ==> keys[i] in files && keys[i] !in todo
        invariant forall k :: k in files ==> k in todo || k in keys
        invariant forall i, j :: 0 <= i < j < |keys| ==> keys[i] != keys[j]
        invariant out == Listing(f, files, keys)
        decreases |todo|
      {
        var k :| k in todo;
        var m := files[k];
        var t := ReadText(f, DiagramName(Show(m.id)));
        out := out + [m.(content := Some(if t.Some? then PlainText(t.value) else ""))];
        keys := keys + [k];
        todo := todo - {k};
      }
      r := Ok(out);
    }

    /**
     * deleteFile(projectId, fileId): false when the id has no entry; otherwise the
     * diagram's file is removed (its absence tolerated) and so is the entry.
     */
    method DeleteFile(projectId: string, fileId: string, access: Access) returns (r: Result<bool>, ghost at: string)
      modifies this, dirs, disk
      ensures dirs.db == old(LookedUp(projectId, access))
      ensures projectDirectories == Remembered(old(projectDirectories), projectId, old(HandleFor(projectId, access)))
      ensures old(HandleFor(projectId, access)).None? ==> r == Err(NoHandle("delete file for project", projectId))
      ensures var h := old(HandleFor(projectId, access));
        h.Some? && (forall n :: !IsProjectFileOf(old(disk.Contents(h.value)), n, projectId)) ==>
          r == Err(ProjectNotFound(projectId))
      ensures var h := old(HandleFor(projectId, access));
        r.Ok? ==> (h.Some? && IsProjectFileOf(old(disk.Contents(h.value)), at, projectId)
          && (r.value <==> fileId in FilesOf(ProjectDoc(old(disk.Contents(h.value)), at))))
      ensures r != Ok(true) ==> disk.folders == old(disk.folders)
      ensures var h := old(HandleFor(projectId, access));
        r == Ok(true) ==> (IsProjectFileOf(disk.Contents(h.value), at, projectId)
          && StoredFile(disk.Contents(h.value), at, fileId) == Ok(None)
          && forall id :: id != fileId ==>
               StoredFile(disk.Contents(h.value), at, id) == StoredFile(old(disk.Contents(h.value)), at, id))
      ensures var h := old(HandleFor(projectId, access));
        r == Ok(true) ==> (var f := old(disk.Contents(h.value));
          var d := ProjectDoc(f, at);
          disk.folders == old(disk.folders)[h.value.folder :=
            Pruned(f, {DiagramName(fileId)})[at := FileEntry(Json(d.(files := Some(d.files.value - {fileId}))))]])
      ensures var h := old(HandleFor(projectId, access));
        h.Some? && (exists n :: IsProjectFileOf(old(disk.Contents(h.value)), n, projectId))
        && FilesListed(old(disk.Contents(h.value)), projectId)
        ==> r.Ok?
    {
      at := "";
      var h := GetProjectDirectoryHandle(projectId, access);
      if h.Some? {
        assert disk.Contents(h.value) == old(disk.Contents(h.value));
      }
      if h.None? {
        return Err(NoHandle("delete file for project", projectId)), at;
      }
      var found := FindProjectFile(projectId, h.value);
      if found.None? {
        NoProjectFile(old(disk.Contents(h.value)), disk.Contents(h.value), projectId);
        return Err(ProjectNotFound(projectId)), at;
      }
      var name := found.value;
      at := name;
      ghost var f := disk.Contents(h.value);
      var d := ProjectDoc(disk.Contents(h.value), name);
      if d.files.None? {
        return Err(CannotRead(fileId)), at;
      }
      if fileId !in d.files.value {
        return Ok(false), at;
      }
      DiagramIsNotProjectFile(fileId, name);
      var _ := disk.RemoveEntry(h.value, DiagramName(fileId));
      assert disk.Contents(h.value) == Pruned(f, {DiagramName(fileId)});
      // The project file was just read, so this write meets a file, never a sub-folder.
      var _ := disk.Write(h.value, name, Json(d.(files := Some(d.files.value - {fileId}))));
      r := Ok(true);
      forall id | id != fileId
        ensures StoredFile(disk.Contents(h.value), at, id) == StoredFile(f, at, id)
      {
        DiagramNameInjective(id, fileId);
        DiagramIsNotProjectFile(id, at);
      }
    }

    /**
     * deleteProjectFiles(projectId): removes every listed diagram file and the project
     * file (failures to remove are tolerated), then forgets the folder in memory and in
     * storage.
     */
    method DeleteProjectFiles(projectId: string, access: Access) returns (r: Result<()>, ghost at: string)
      modifies this, dirs, disk
      ensures old(HandleFor(projectId, access)).None? ==> r == Err(NoHandle("delete project", projectId)) && disk.folders == old(disk.folders)
      ensures var h := old(HandleFor(projectId, access));
        h.Some? && (forall n :: !IsProjectFileOf(old(disk.Contents(h.value)), n, projectId)) ==>
          r == Err(ProjectNotFound(projectId)) && disk.folders == old(disk.folders)
      ensures var h := old(HandleFor(projectId, access));
        h.Some? && (exists n :: IsProjectFileOf(old(disk.Contents(h.value)), n, projectId)) ==>
          (IsProjectFileOf(old(disk.Contents(h.value)), at, projectId)
          && projectDirectories == old(projectDirectories) - {projectId}
          && (r.Ok? <==> projectId != "")
          && var f := old(disk.Contents(h.value));
             disk.folders == old(disk.folders)[h.value.folder :=
               Pruned(f, DiagramNames(FilesOf(ProjectDoc(f, at)).Keys) + {at})])
      ensures var h := old(HandleFor(projectId, access));
        !(h.Some? && exists n :: IsProjectFileOf(old(disk.Contents(h.value)), n, projectId)) ==>
          projectDirectories == Remembered(old(projectDirectories), projectId, h)
      ensures dirs.db == if r.Ok? then old(dirs.db) - {Str(ProjectKey(projectId))} else old(LookedUp(projectId, access))
      ensures r.Ok? ==> forall a :: HandleFor(projectId, a).None?
    {
      at := "";
      var h := GetProjectDirectoryHandle(projectId, access);
      if h.Some? {
        assert disk.Contents(h.value) == old(disk.Contents(h.value));
      }
      if h.None? {
        return Err(NoHandle("delete project", projectId)), at;
      }
      var found := FindProjectFile(projectId, h.value);
      if found.None? {
        NoProjectFile(old(disk.Contents(h.value)), disk.Contents(h.value), projectId);
        return Err(ProjectNotFound(projectId)), at;
      }
      ghost var db := dirs.db;
      assert db == old(LookedUp(projectId, access));
      assert projectDirectories - {projectId} == old(projectDirectories) - {projectId};
      var name := found.value;
      at := name;
      var f := disk.Contents(h.value);
      assert disk.folders == old(disk.folders)[h.value.folder := f];
      var ids := FilesOf(ProjectDoc(f, name)).Keys;
      RemoveDiagrams(h.value, ids);
      PruneStep(f, DiagramNames(ids), name);
      var _ := disk.RemoveEntry(h.value, name);
      projectDirectories := projectDirectories - {projectId};
      var removed := dirs.RemoveProjectDirectory(Some(projectId));
      if removed.Err? {
        return Err(removed.message), at;
      }
      assert db - {Str(ProjectKey(projectId))} == old(dirs.db) - {Str(ProjectKey(projectId))};
      r := Ok(());
    }

    /** The loop of deleteProjectFiles: removes '<id>.mmd' for every id, tolerating failures. */
    method RemoveDiagrams(h: Handle, ids: set<string>)
      requires h.folder in disk.folders
      modifies disk
      ensures disk.folders == old(disk.folders)[h.folder := Pruned(old(disk.Contents(h)), DiagramNames(ids))]
    {
      ghost var f := disk.Contents(h);
      var todo := ids;
      ghost var done: set<string> := {};
      assert Pruned(f, DiagramNames(done)) == f;
      while todo != {}
        invariant todo <= ids && done == ids - todo
        invariant disk.folders == old(disk.folders)[h.folder := Pruned(f, DiagramNames(done))]
        decreases |todo|
      {
        var id :| id in todo;
        PruneStep(f, DiagramNames(done), DiagramName(id));
        assert DiagramNames(done) + {DiagramName(id)} == DiagramNames(done + {id});
        var _ := disk.RemoveEntry(h, DiagramName(id));
        todo := todo - {id};
        done := done + {id};
      }
      assert done == ids;
    }

    /** exportProject(projectId): the project's id and name with every file and its text. */
    method ExportProject(projectId: string, access: Access) returns (r: Result<Exported>, ghost at: string, ghost listedAt: string, ghost keys: seq<string>)
      modifies this, dirs
      ensures dirs.db == old(LookedUp(projectId, access))
      ensures projectDirectories == Remembered(old(projectDirectories), projectId, old(HandleFor(projectId, access)))
      ensures old(HandleFor(projectId, access)).None? ==> r == Err(NoHandle("export project", projectId))
      ensures var h := old(HandleFor(projectId, access));
        h.Some? ==> (r.Err? <==> forall n :: !IsProjectFileOf(disk.Contents(h.value), n, projectId))
      ensures var h := old(HandleFor(projectId, access));
        r.Ok? ==> (h.Some? && r.value.id == Some(projectId)
          && IsProjectFileOf(disk.Contents(h.value), at, projectId)
          && r.value.name == ProjectDoc(disk.Contents(h.value), at).metadata.value.name
          && IsProjectFileOf(disk.Contents(h.value), listedAt, projectId)
          && var files := FilesOf(ProjectDoc(disk.Contents(h.value), listedAt));
             (forall i :: 0 <= i < |keys| ==> keys[i] in files)
             && (forall k :: k in files ==> k in keys)
             && r.value.files == Listing(disk.Contents(h.value), files, keys))
    {
      at, listedAt, keys := "", "", [];
      var h := GetProjectDirectoryHandle(projectId, access);
      if h.Some? {
        assert disk.Contents(h.value) == old(disk.Contents(h.value));
      }
      if h.None? {
        return Err(NoHandle("export project", projectId)), at, listedAt, keys;
      }
      var found := FindProjectFile(projectId, h.value);
      if found.None? {
        NoProjectFile(old(disk.Contents(h.value)), disk.Contents(h.value), projectId);
        return Err(ProjectNotFound(projectId)), at, listedAt, keys;
      }
      at := found.value;
      var meta := ProjectDoc(disk.Contents(h.value), found.value).metadata.value;
      assert HandleFor(projectId, access) == h && IsProjectFileOf(disk.Contents(h.value), at, projectId);
      var files;
      files, listedAt, keys := GetFiles(projectId, access);
      assert exists n :: IsProjectFileOf(disk.Contents(h.value), n, projectId);
      // The project file was just found, so getFiles finds it too.
      assert files.Ok?;
      r := Ok(Exported(meta.id, meta.name, files.value));
    }

    /** The copy loop of duplicateProject: '<id>.mmd' for each copied file, stopping at the first write that throws. */
    method CopyDiagrams(nh: Handle, copied: seq<Doc>) returns (ok: bool, metas: map<string, Doc>)
      requires nh.folder in disk.folders
      modifies disk
      ensures ok ==> metas == MetaMap(copied)
      ensures ok ==> disk.folders == old(disk.folders)[nh.folder := WithDiagrams(old(disk.Contents(nh)), copied)]
      ensures DiagramsWritable(old(disk.Contents(nh)), copied) ==> ok
    {
      ghost var c1 := disk.Contents(nh);
      assert disk.folders == old(disk.folders)[nh.folder := WithDiagrams(c1, copied[..0])];
      metas := map[];
      var i := 0;
      while i < |copied|
        invariant 0 <= i <= |copied|
        invariant metas == MetaMap(copied[..i])
        invariant disk.folders == old(disk.folders)[nh.folder := WithDiagrams(c1, copied[..i])]
      {
        var x := copied[i];
        assert copied[..i + 1][..i] == copied[..i];
        var w := disk.Write(nh, DiagramName(Show(x.id)), Raw(Or(x.content, "")));
        if w.Err? {
          WithDiagramsKinds(c1, copied[..i], DiagramName(Show(x.id)));
          return false, metas;
        }
        metas := metas[Show(x.id) := FileMeta(x)];
        i := i + 1;
      }
      assert copied[..i] == copied;
      ok := true;
    }

    /**
     * The writes of duplicateProject into the copy's folder: the project file is created,
     * each diagram written, then the project file written; false at the first write that throws.
     */
    method WriteCopy(nh: Handle, newId: string, newName: string, theme: Option<string>, copied: seq<Doc>) returns (ok: bool)
      modifies disk
      ensures ok ==> disk.folders == old(disk.folders)[nh.folder := CopyFolder(old(disk.Contents(nh)), copied, newId, newName, theme)]
      ensures !IsSubfolder(old(disk.Contents(nh)), ProjectFileName(newName)) && DiagramsWritable(old(disk.Contents(nh)), copied) ==> ok
    {
      var pf := ProjectFileName(newName);
      var touched := disk.Touch(nh, pf);
      if touched.Err? {
        return false;
      }
      ghost var c1 := disk.Contents(nh);
      assert c1 == Touched(old(disk.Contents(nh)), pf);
      assert DiagramsWritable(old(disk.Contents(nh)), copied) ==> DiagramsWritable(c1, copied);
      var copiedAll, metas := CopyDiagrams(nh, copied);
      if !copiedAll {
        return false;
      }
      ProjectFileNameIsProjectFile(newName);
      forall k | k in ContentMap(copied)
        ensures DiagramName(k) != pf
      {
        DiagramIsNotProjectFile(k, pf);
      }
      WithDiagramsFrame(c1, copied, pf);
      // The project file was just created, so this write meets a file, never a sub-folder.
      var _ := disk.Write(nh, pf, Json(DuplicateDoc(newId, newName, theme, metas)));
      ok := true;
    }

    /**
     * duplicateProject(sourceProjectId, newProjectId, newProjectName): asks for a folder
     * for the copy, creates '<newProjectName>.mermaiditor-project.json' there, writes
     * every source diagram's text to '<id>.mmd' in order, then writes the new project
     * file. Every failure is caught and gives false. `at` is the source project file
     * whose theme is copied; `listedAt` and `keys` are the project file and entry order
     * getFiles used.
     */
    method DuplicateProject(sourceProjectId: string, newProjectId: string, newProjectName: string, access: Access, pick: Pick)
      returns (ok: bool, ghost at: string, ghost listedAt: string, ghost keys: seq<string>)
      modifies this, dirs, disk
      ensures old(HandleFor(sourceProjectId, access)).None? ==> !ok && disk.folders == old(disk.folders)
      ensures var h := old(HandleFor(sourceProjectId, access));
        h.Some? && (forall n :: !IsProjectFileOf(old(disk.Contents(h.value)), n, sourceProjectId)) ==>
          !ok && disk.folders == old(disk.folders)
      ensures !pick.Picked? ==> !ok && disk.folders == old(disk.folders)
      ensures var h := old(HandleFor(sourceProjectId, access));
        var reached := h.Some? && (exists n :: IsProjectFileOf(old(disk.Contents(h.value)), n, sourceProjectId)) && pick.Picked?;
        projectDirectories == (if reached then Remembered(old(projectDirectories), sourceProjectId, h)[newProjectId := pick.handle]
                               else Remembered(old(projectDirectories), sourceProjectId, h))
        && dirs.db == (if reached && newProjectId != "" then old(LookedUp(sourceProjectId, access))[Str(ProjectKey(newProjectId)) := Held(pick.handle)]
                       else old(LookedUp(sourceProjectId, access)))
      ensures ok ==> (pick.Picked? && newProjectId != "" && newProjectId in projectDirectories
        && projectDirectories[newProjectId] == pick.handle)
      ensures var h := old(HandleFor(sourceProjectId, access));
        ok ==> (h.Some?
          && IsProjectFileOf(old(disk.Contents(h.value)), at, sourceProjectId)
          && IsProjectFileOf(old(disk.Contents(h.value)), listedAt, sourceProjectId)
          && (forall i :: 0 <= i < |keys| ==> keys[i] in FilesOf(ProjectDoc(old(disk.Contents(h.value)), listedAt)))
          && (forall k :: k in FilesOf(ProjectDoc(old(disk.Contents(h.value)), listedAt)) ==> k in keys))
      ensures var h := old(HandleFor(sourceProjectId, access));
        ok ==> (h.Some? && IsProjectFileOf(old(disk.Contents(h.value)), at, sourceProjectId)
          && (forall i :: 0 <= i < |keys| ==> keys[i] in FilesOf(ProjectDoc(old(disk.Contents(h.value)), listedAt)))
          && disk.folders == old(disk.folders)[pick.handle.folder := CopyFolder(old(disk.Contents(pick.handle)),
               Listing(old(disk.Contents(h.value)), FilesOf(ProjectDoc(old(disk.Contents(h.value)), listedAt)), keys),
               newProjectId, newProjectName, ProjectDoc(old(disk.Contents(h.value)), at).metadata.value.theme)])
      ensures var h := old(HandleFor(sourceProjectId, access));
        h.Some? && (exists n :: IsProjectFileOf(old(disk.Contents(h.value)), n, sourceProjectId))
        && pick.Picked? && newProjectId != ""
        && (forall n :: !IsSubfolder(old(disk.Contents(pick.handle)), n))
        ==> ok
    {
      at, listedAt, keys := "", "", [];
      var h := GetProjectDirectoryHandle(sourceProjectId, access);
      if h.Some? {
        assert disk.Contents(h.value) == old(disk.Contents(h.value));
      }
      if h.None? {
        return false, at, listedAt, keys;
      }
      var found := FindProjectFile(sourceProjectId, h.value);
      if found.None? {
        NoProjectFile(old(disk.Contents(h.value)), disk.Contents(h.value), sourceProjectId);
        return false, at, listedAt, keys;
      }
      at := found.value;
      var theme := ProjectDoc(disk.Contents(h.value), found.value).metadata.value.theme;
      assert HandleFor(sourceProjectId, access) == h && IsProjectFileOf(disk.Contents(h.value), at, sourceProjectId);
      ghost var looked, lookedDb := projectDirectories, dirs.db;
      assert looked == Remembered(old(projectDirectories), sourceProjectId, h);
      assert lookedDb == old(LookedUp(sourceProjectId, access));
      var sourceFiles;
      sourceFiles, listedAt, keys := GetFiles(sourceProjectId, access);
      assert exists n :: IsProjectFileOf(disk.Contents(h.value), n, sourceProjectId);
      // The project file was just found, so getFiles finds it too.
      assert sourceFiles.Ok?;
      assert projectDirectories == looked && dirs.db == lookedDb;
      var copied := sourceFiles.value;
      var picked := SelectDirectoryForProject(newProjectId, pick);
      if picked.Err? {
        return false, at, listedAt, keys;
      }
      var nh := picked.value;
      ok := WriteCopy(nh, newProjectId, newProjectName, theme, copied);
    }
  }
}

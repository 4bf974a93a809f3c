/**
 * The project manager: the editor's coordinator. It holds the selected project and the
 * version of the file last opened or saved, creates and seeds projects, and reloads the
 * stored project before every file open or save so that the writes of a second editor
 * on the same project are seen. Projects are kept in localStorage under "project-<id>",
 * and the id of the last opened project under "selectedProject".
 *
 * A thrown exception is an Err result. State changed before the throw stays changed, as
 * it does in the source, where objects are mutated in place before they are saved.
 */
module Manager {
  import opened Wrappers
  import opened Js
  import opened Ids
  import opened Order
  import opened LocalStore
  import opened Templates
  import StorageUtils

  const SelectedProjectKey := "selectedProject"
  const DefaultName := "Default"
  const ReadmeName := "README"
  const CopySuffix := " (Copy)"
  const Overwrite := "overwrite"
  const CreateCopy := "create-copy"

  /** The TypeError raised when a property is read from null. */
  function NullRead(prop: string): string {
    "TypeError: Cannot read properties of null (reading '" + prop + "')"
  }

  /** The TypeError raised when a property is read from undefined. */
  function UndefinedRead(prop: string): string {
    "TypeError: Cannot read properties of undefined (reading '" + prop + "')"
  }

  /** The TypeError raised when a property is assigned on undefined. */
  function UndefinedSet(prop: string): string {
    "TypeError: Cannot set properties of undefined (setting '" + prop + "')"
  }

  /** The TypeError raised by `delete` and Object.values on undefined. */
  const NotAnObject := "TypeError: Cannot convert undefined or null to object"

  /** A seeded file: `{ id, name, content }`. */
  function SeedFile(id: string, name: string, content: string): Doc {
    EmptyDoc.(id := Some(id), name := Some(name), content := Some(content))
  }

  /** A file made by createFile: `{ id, version, name, content }`. */
  function FileRecord(id: string, version: string, name: Option<string>, content: string): Doc {
    EmptyDoc.(id := Some(id), version := Some(version), name := name, content := Some(content))
  }

  /** The n ids the id source hands out from base on, in order. */
  function IdRange(base: nat, n: nat): (r: seq<string>)
    ensures |r| == n && forall j :: 0 <= j < n ==> r[j] == Uuid(base + j)
  {
    seq(n, (j: int) requires 0 <= j => Uuid(base + j))
  }

  /** Ids handed out at different times differ. */
  lemma IdRangeDistinct(base: nat, n: nat)
    ensures StorageUtils.Distinct(IdRange(base, n))
  {
    var ids := IdRange(base, n);
    forall i, j | 0 <= i < j < n
      ensures ids[i] != ids[j]
    {
      if ids[i] == ids[j] {
        UuidInjective(base + i, base + j);
      }
    }
  }

  /** An id handed out before base is not among those handed out from base on. */
  lemma IdRangeAvoids(base: nat, n: nat, k: nat)
    requires k < base
    ensures Uuid(k) !in IdRange(base, n)
  {
    var ids := IdRange(base, n);
    if Uuid(k) in ids {
      var j :| 0 <= j < n && ids[j] == Uuid(k);
      UuidInjective(k, base + j);
    }
  }

  /** The files newProject seeds from the template names, the j-th under ids[j]. */
  function TemplateFiles(ids: seq<string>, names: seq<string>, template: string -> string): map<string, Doc>
    requires |ids| == |names|
    decreases |names|
  {
    if names == [] then map[]
    else
      var n := |names| - 1;
      TemplateFiles(ids[..n], names[..n], template)[ids[n] := SeedFile(ids[n], names[n], template(names[n]))]
  }

  /** The template files are stored under exactly the given ids. */
  lemma {:induction false} TemplateFilesKeys(ids: seq<string>, names: seq<string>, template: string -> string)
    requires |ids| == |names|
    ensures forall id :: id in TemplateFiles(ids, names, template) <==> id in ids
    decreases |names|
  {
    if names != [] {
      var n := |names| - 1;
      TemplateFilesKeys(ids[..n], names[..n], template);
      assert ids == ids[..n] + [ids[n]];
    }
  }

  /** With distinct ids, the file under the j-th id holds the template of the j-th name. */
  lemma {:induction false} TemplateFileAt(ids: seq<string>, names: seq<string>, template: string -> string, j: int)
    requires |ids| == |names| && StorageUtils.Distinct(ids) && 0 <= j < |names|
    ensures ids[j] in TemplateFiles(ids, names, template)
    ensures TemplateFiles(ids, names, template)[ids[j]] == SeedFile(ids[j], names[j], template(names[j]))
    decreases |names|
  {
    var n := |names| - 1;
    var last := SeedFile(ids[n], names[n], template(names[n]));
    assert TemplateFiles(ids, names, template) == TemplateFiles(ids[..n], names[..n], template)[ids[n] := last];
    if j < n {
      assert StorageUtils.Distinct(ids[..n]) by {
        forall a, b | 0 <= a < b < n
          ensures ids[..n][a] != ids[..n][b]
        {
          assert ids[..n][a] == ids[a] && ids[..n][b] == ids[b];
        }
      }
      TemplateFileAt(ids[..n], names[..n], template, j);
      assert ids[..n][j] == ids[j] && names[..n][j] == names[j];
    }
  }

  /** The project newProject(name) builds when the id source has handed out c ids. */
  function Seeded(name: Option<string>, c: nat): Doc {
    var fileId := Uuid(c + 1);
    var names := GetTemplateNames();
    var files :=
      if name == Some(DefaultName) then map[fileId := SeedFile(fileId, ReadmeName, GetReadmeContent())] + TemplateFiles(IdRange(c + 2, |names|), names, GetTemplate)
      else map[fileId := SeedFile(fileId, DefaultName, GetDefaultContent())];
    EmptyDoc.(id := Some(Uuid(c)), name := name, diagrams := Some(files), selectedFile := Some(fileId))
  }

  /** A file put in front of files that do not hold its id keeps its place. */
  lemma AddedFirst(files: map<string, Doc>, id: string, file: Doc)
    requires id !in files
    ensures forall k :: k in map[id := file] + files <==> k == id || k in files
    ensures (map[id := file] + files)[id] == file
    ensures forall k :: k in files ==> (map[id := file] + files)[k] == files[k]
  {
  }

  /** The files of a "Default" project, for any list of template names and any README text. */
  lemma DefaultFilesFacts(c: nat, names: seq<string>, template: string -> string, readmeText: string)
    ensures var ids := IdRange(c + 2, |names|);
      var files := map[Uuid(c + 1) := SeedFile(Uuid(c + 1), ReadmeName, readmeText)] + TemplateFiles(ids, names, template);
      && (forall id :: id in files <==> id == Uuid(c + 1) || id in ids)
      && Uuid(c + 1) !in ids
      && files[Uuid(c + 1)] == SeedFile(Uuid(c + 1), ReadmeName, readmeText)
      && forall j :: 0 <= j < |names| ==> ids[j] in files && files[ids[j]] == SeedFile(ids[j], names[j], template(names[j]))
  {
    var ids := IdRange(c + 2, |names|);
    var readme := SeedFile(Uuid(c + 1), ReadmeName, readmeText);
    var templates := TemplateFiles(ids, names, template);
    TemplateFilesKeys(ids, names, template);
    IdRangeAvoids(c + 2, |names|, c + 1);
    IdRangeDistinct(c + 2, |names|);
    AddedFirst(templates, Uuid(c + 1), readme);
    forall j | 0 <= j < |names|
      ensures ids[j] in templates && templates[ids[j]] == SeedFile(ids[j], names[j], template(names[j]))
    {
      TemplateFileAt(ids, names, template, j);
    }
  }

  /**
   * A seeded project selects a file it holds. "Default" holds the README under the selected
   * id and one file per template, each under its own fresh id; any other name holds exactly
   * one file named 'Default' with the default content.
   */
  lemma SeededFacts(name: Option<string>, c: nat)
    ensures var p := Seeded(name, c);
      && p.id == Some(Uuid(c)) && p.name == name && p.diagrams.Some?
      && p.selectedFile == Some(Uuid(c + 1)) && Uuid(c + 1) in p.diagrams.value
    ensures name == Some(DefaultName) ==>
      var files := Seeded(name, c).diagrams.value;
      var names := GetTemplateNames();
      var ids := IdRange(c + 2, |names|);
      && (forall id :: id in files <==> id == Uuid(c + 1) || id in ids)
      && Uuid(c + 1) !in ids
      && files[Uuid(c + 1)] == SeedFile(Uuid(c + 1), ReadmeName, GetReadmeContent())
      && forall j :: 0 <= j < |names| ==> ids[j] in files && files[ids[j]] == SeedFile(ids[j], names[j], GetTemplate(names[j]))
    ensures name != Some(DefaultName) ==>
      Seeded(name, c).diagrams.value == map[Uuid(c + 1) := SeedFile(Uuid(c + 1), DefaultName, GetDefaultContent())]
  {
    DefaultFilesFacts(c, GetTemplateNames(), GetTemplate, GetReadmeContent());
  }

  /** What resolveImportConflict(project, 'create-copy') saves: a new id and ' (Copy)' after the name. */
  function CopyOf(project: Doc, newId: string): (r: Doc)
    ensures r.id == Some(newId) && r.name.Some? && EndsWith(r.name.value, CopySuffix)
    ensures r.name.value[..|r.name.value| - |CopySuffix|] == Show(project.name)
    ensures r.(id := project.id, name := project.name) == project
  {
    project.(id := Some(newId), name := Some(Show(project.name) + CopySuffix))
  }

  /** `project.diagrams[file.id] = file` on a project that has diagrams. */
  function Placed(project: Doc, file: Doc): (r: Doc)
    requires project.diagrams.Some?
    ensures r.diagrams.Some? && Show(file.id) in r.diagrams.value && r.diagrams.value[Show(file.id)] == file
    ensures forall k :: k != Show(file.id) ==> (k in r.diagrams.value <==> k in project.diagrams.value)
    ensures forall k :: k != Show(file.id) && k in project.diagrams.value ==> r.diagrams.value[k] == project.diagrams.value[k]
    ensures r.(diagrams := project.diagrams) == project
  {
    project.(diagrams := Some(project.diagrams.value[Show(file.id) := file]))
  }

  /** The store once saveProject(project) has written the project under its own id. */
  function WithProject(items: map<string, Text>, project: Doc): map<string, Text> {
    items[StorageUtils.ProjectKey(Show(project.id)) := Json(project)]
  }

  /** A second save of the same project id overwrites the first. */
  lemma SavedTwice(items: map<string, Text>, first: Doc, second: Doc)
    requires first.id == second.id
    ensures WithProject(WithProject(items, first), second) == WithProject(items, second)
  {
  }

  /** The store once the project is saved and then opened, which remembers its id under "selectedProject". */
  function Opened(items: map<string, Text>, project: Doc): map<string, Text> {
    WithProject(items, project)[SelectedProjectKey := Raw(Show(project.id))]
  }

  /** The records of the store listed by getProjects: every "project-" key's parsed record. */
  ghost function Listed(items: map<string, Text>): set<Doc> {
    set k | k in StorageUtils.Prefixed(items, "project-") :: ParsedDoc(items[k])
  }

  /**
   * Every stored "project-" record parses, and the key of its own id holds a parseable
   * record too, so opening any listed project by its id finds one.
   */
  ghost predicate Reopenable(items: map<string, Text>) {
    forall k :: k in StorageUtils.Prefixed(items, "project-") ==>
      && !items[k].Raw?
      && StorageUtils.ProjectKey(Show(ParsedDoc(items[k]).id)) in items
      && !items[StorageUtils.ProjectKey(Show(ParsedDoc(items[k]).id))].Raw?
  }

  /** A listed record of a reopenable store is found again under its own id. */
  lemma ListedReopens(items: map<string, Text>, d: Doc)
    requires Reopenable(items) && d in Listed(items)
    ensures StorageUtils.Load(items, StorageUtils.ProjectKey(Show(d.id))).Ok?
    ensures StorageUtils.Load(items, StorageUtils.ProjectKey(Show(d.id))).value.Some?
  {
    var k :| k in StorageUtils.Prefixed(items, "project-") && d == ParsedDoc(items[k]);
  }

  /** The files of a map under the given keys, in the order of the keys. */
  function ValuesAt(files: map<string, Doc>, keys: seq<string>): seq<Doc>
    requires forall k :: k in keys ==> k in files
    decreases |keys|
  {
    if keys == [] then [] else ValuesAt(files, keys[..|keys| - 1]) + [files[keys[|keys| - 1]]]
  }

  /** The loop state of getFiles: the keys outside todo are gathered, each once, in keys and values. */
  ghost predicate Gathered(files: map<string, Doc>, todo: set<string>, keys: seq<string>, values: seq<Doc>) {
    && todo <= files.Keys
    && |values| + |todo| == |files.Keys|
    && StorageUtils.Distinct(keys)
    && (forall k :: k in keys <==> k in files && k !in todo)
    && (forall k :: k in files && k !in todo ==> files[k] in values)
    && (forall d :: d in values ==> d in files.Values)
    && values == ValuesAt(files, keys)
  }

  /** Gathering one more key of todo keeps the loop state. */
  lemma GatherStep(files: map<string, Doc>, todo: set<string>, keys: seq<string>, values: seq<Doc>, k: string)
    requires Gathered(files, todo, keys, values) && k in todo
    ensures Gathered(files, todo - {k}, keys + [k], values + [files[k]])
  {
    assert (keys + [k])[..|keys|] == keys;
    var keys', values' := keys + [k], values + [files[k]];
    forall d | d in values'
      ensures d in files.Values
    {
      if d != files[k] {
        assert d in values;
      }
    }
  }

  /** What `localStorage.getItem('selectedProject')` holds, "" when it is missing. */
  function LastSelectedId(items: map<string, Text>): string {
    if SelectedProjectKey in items then PlainText(items[SelectedProjectKey]) else ""
  }

  /** The key of the last selected project is never a project's key. */
  lemma SelectedKeyIsNoProjectKey(id: string)
    ensures StorageUtils.ProjectKey(id) != SelectedProjectKey
  {
    assert StorageUtils.ProjectKey(id)[1] == 'r';
  }

  /** Which file deleteFile(fileId) removes: the argument, else the selected file; None: neither is set. */
  function DeleteTarget(fileId: Option<string>, project: Doc): (r: Option<string>)
    ensures r.Some? ==> r.value != ""
    ensures OrNull(fileId).Some? ==> r == fileId
    ensures OrNull(fileId).None? ==> r == OrNull(project.selectedFile)
  {
    if OrNull(fileId).Some? then fileId else OrNull(project.selectedFile)
  }

  datatype VersionCheck =
    | NoConflict
    | Conflict(fileName: Option<string>, storageVersion: Option<string>, editorVersion: Option<string>)

  datatype ImportResult = Imported(project: Doc) | Conflicting(project: Doc, existing: Doc)

  class ProjectManager {
    var selectedProject: Option<Doc>
    /** The version of the file as the editor last opened or saved it. */
    var fileVersion: Option<string>
    const store: LocalStorage
    const ids: IdSource

    constructor (store: LocalStorage, ids: IdSource)
      ensures selectedProject == None && fileVersion == None
      ensures this.store == store && this.ids == ids
    {
      selectedProject := None;
      fileVersion := None;
      this.store := store;
      this.ids := ids;
    }

    /** getSelectedFileId() */
    function SelectedFileId(): (r: Option<string>)
      reads this
      ensures selectedProject.None? ==> r.None?
    {
      if selectedProject.Some? then selectedProject.value.selectedFile else None
    }

    /** The stored copy of the selected project, which a reload reads. */
    function StoredSelected(): (r: Result<Option<Doc>>)
      requires selectedProject.Some?
      reads this, store
      ensures var key := StorageUtils.ProjectKey(Show(selectedProject.value.id));
        && (r == Ok(None) <==> key !in store.items || store.items[key] == Raw(""))
        && (r.Err? ==> r.message == ParseErrorMessage)
        && (r.Ok? && r.value.Some? ==> key in store.items && Parse(store.items[key]) == Ok(r.value.value))
    {
      StorageUtils.GetProject(store, Show(selectedProject.value.id))
    }

    /** getFile(id): the file as the editor holds it, null without a selected project. */
    function GetFile(id: string): (r: Result<Option<Doc>>)
      reads this
      ensures selectedProject.None? ==> r == Ok(None)
      ensures r.Err? <==> selectedProject.Some? && selectedProject.value.diagrams.None?
      ensures r.Ok? && selectedProject.Some? ==> (r.value.Some? <==> id in selectedProject.value.diagrams.value)
      ensures r.Ok? && r.value.Some? ==> r.value.value == selectedProject.value.diagrams.value[id]
    {
      if selectedProject.None? then Ok(None)
      else if selectedProject.value.diagrams.None? then Err(UndefinedRead(id))
      else if id in selectedProject.value.diagrams.value then Ok(Some(selectedProject.value.diagrams.value[id]))
      else Ok(None)
    }

    /** getFileFromStorage(id): the file as the stored copy of the selected project holds it. */
    function GetFileFromStorage(id: string): (r: Result<Option<Doc>>)
      reads this, store
      ensures selectedProject.None? ==> r == Ok(None)
      ensures selectedProject.Some? && StoredSelected().Err? ==> r == StoredSelected()
      ensures selectedProject.Some? && StoredSelected() == Ok(None) ==> r == Err(NullRead("diagrams"))
      ensures r.Ok? && r.value.Some? ==>
        selectedProject.Some? && StoredSelected().Ok? && StoredSelected().value.Some?
        && StoredSelected().value.value.diagrams.Some?
        && id in StoredSelected().value.value.diagrams.value
        && r.value.value == StoredSelected().value.value.diagrams.value[id]
    {
      if selectedProject.None? then Ok(None)
      else
        match StoredSelected()
        case Err(m) => Err(m)
        case Ok(None) => Err(NullRead("diagrams"))
        case Ok(Some(p)) =>
          if p.diagrams.None? then Err(UndefinedRead(id))
          else if id in p.diagrams.value then Ok(Some(p.diagrams.value[id]))
          else Ok(None)
    }

    /** A project is selected and its stored copy parses and holds diagrams: a reload before a file operation succeeds. */
    predicate Reloadable()
      reads this, store
    {
      selectedProject.Some? && StoredSelected().Ok? && StoredSelected().value.Some?
      && StoredSelected().value.value.diagrams.Some?
    }

    /** A stored file whose version is not the one the editor last saw. */
    predicate Diverged(stored: Option<Doc>)
      reads this
    {
      stored.Some? && stored.value.version != fileVersion
    }

    /**
     * checkVersionConflict(fileId): a conflict exactly when the stored file exists and its
     * version differs from the editor's, reporting the editor's name for the file and
     * both versions. A stored file the editor does not hold makes reading its name throw.
     */
    function CheckVersionConflict(fileId: string): (r: Result<VersionCheck>)
      reads this, store
      ensures r.Ok? ==> GetFile(fileId).Ok? && GetFileFromStorage(fileId).Ok?
      ensures r.Ok? ==> (r.value.Conflict? <==> Diverged(GetFileFromStorage(fileId).value))
      ensures r.Ok? && r.value.Conflict? ==>
        && GetFile(fileId).value.Some?
        && r.value.fileName == GetFile(fileId).value.value.name
        && r.value.storageVersion == GetFileFromStorage(fileId).value.value.version
        && r.value.editorVersion == fileVersion
        && r.value.storageVersion != r.value.editorVersion
      ensures r.Err? <==>
        || GetFile(fileId).Err? || GetFileFromStorage(fileId).Err?
        || (Diverged(GetFileFromStorage(fileId).value) && GetFile(fileId).value.None?)
    {
      var file := GetFile(fileId);
      if file.Err? then Err(file.message)
      else
        var stored := GetFileFromStorage(fileId);
        if stored.Err? then Err(stored.message)
        else if Diverged(stored.value) then
          if file.value.None? then Err(UndefinedRead("name"))
          else Ok(Conflict(file.value.value.name, stored.value.value.version, fileVersion))
        else Ok(NoConflict)
    }

    /** saveProject(project): stores the project, and on success it becomes the selected one. */
    method SaveProject(project: Doc) returns (r: Result<()>)
      modifies this, store
      ensures r.Ok? <==> Accepts(old(store.writesLeft))
      ensures r.Err? ==> r.message == QuotaExceeded && store.items == old(store.items) && selectedProject == old(selectedProject)
      ensures r.Ok? ==> store.items == old(store.items)[StorageUtils.ProjectKey(Show(project.id)) := Json(project)]
      ensures r.Ok? ==> selectedProject == Some(project) && StoredSelected() == Ok(Some(project))
      ensures store.writesLeft == Spend(old(store.writesLeft)) && fileVersion == old(fileVersion)
    {
      r := StorageUtils.SaveProject(store, project);
      if r.Ok? {
        selectedProject := Some(project);
      }
    }

    /**
     * openProject(id): the stored project becomes the selected one and its id is remembered
     * under "selectedProject"; a missing project leaves none selected and throws.
     */
    method OpenProject(id: string) returns (r: Result<Doc>)
      modifies this, store
      ensures var loaded := old(StorageUtils.GetProject(store, id));
        && (loaded.Err? ==> r == Err(loaded.message) && selectedProject == old(selectedProject))
        && (loaded == Ok(None) ==> r == Err(NullRead("id")) && selectedProject == None)
        && (loaded.Ok? && loaded.value.Some? ==>
              && selectedProject == loaded.value
              && (r.Ok? <==> Accepts(old(store.writesLeft)))
              && (r.Ok? ==> r.value == loaded.value.value)
              && (r.Err? ==> r.message == QuotaExceeded))
      ensures r.Ok? ==> store.items == old(store.items)[SelectedProjectKey := Raw(Show(r.value.id))]
      ensures r.Ok? ==> StorageUtils.GetProject(store, id) == Ok(selectedProject)
      ensures r.Err? ==> store.items == old(store.items)
      ensures fileVersion == old(fileVersion)
      ensures old(store.writesLeft).None? ==> store.writesLeft.None?
    {
      var loaded := StorageUtils.GetProject(store, id);
      if loaded.Err? {
        return Err(loaded.message);
      }
      selectedProject := loaded.value;
      if loaded.value.None? {
        return Err(NullRead("id"));
      }
      var p := loaded.value.value;
      var w := store.SetItem(SelectedProjectKey, Raw(Show(p.id)));
      if w.Err? {
        return Err(w.message);
      }
      SelectedKeyIsNoProjectKey(id);
      StorageUtils.OtherKeyUnchanged(old(store.items), SelectedProjectKey, StorageUtils.ProjectKey(id), Raw(Show(p.id)));
      r := Ok(p);
    }

    /** The forEach of newProject over the template names: each template file under its own fresh id. */
    method SeedTemplates(names: seq<string>, template: string -> string) returns (files: map<string, Doc>)
      modifies ids
      ensures files == TemplateFiles(IdRange(old(ids.counter), |names|), names, template)
      ensures ids.counter == old(ids.counter) + |names|
    {
      ghost var base := ids.counter;
      files := map[];
      var i := 0;
      while i < |names|
        invariant 0 <= i <= |names|
        invariant ids.counter == base + i
        invariant files == TemplateFiles(IdRange(base, i), names[..i], template)
      {
        var id := ids.Next();
        var text := template(names[i]);
        ghost var nextNames, nextIds := names[..i + 1], IdRange(base, i + 1);
        assert nextNames[..i] == names[..i] && nextNames[i] == names[i];
        assert nextIds[..i] == IdRange(base, i) && nextIds[i] == id;
        assert TemplateFiles(nextIds, nextNames, template) == TemplateFiles(IdRange(base, i), names[..i], template)[id := SeedFile(id, names[i], text)];
        files := files[id := SeedFile(id, names[i], text)];
        i := i + 1;
      }
      assert names[..|names|] == names;
    }

    /** newProject(name): a project under a fresh id whose selected file is a second fresh id. */
    method NewProject(name: Option<string>) returns (project: Doc)
      modifies ids
      ensures project == Seeded(name, old(ids.counter))
      ensures ids.counter == old(ids.counter) + (if name == Some(DefaultName) then 2 + |GetTemplateNames()| else 2)
    {
      var projectId := ids.Next();
      var fileId := ids.Next();
      var diagrams: map<string, Doc>;
      if name == Some(DefaultName) {
        var readme := map[fileId := SeedFile(fileId, ReadmeName, GetReadmeContent())];
        var templates := SeedTemplates(GetTemplateNames(), GetTemplate);
        diagrams := readme + templates;
      } else {
        diagrams := map[fileId := SeedFile(fileId, DefaultName, GetDefaultContent())];
      }
      project := EmptyDoc.(id := Some(projectId), name := name, diagrams := Some(diagrams), selectedFile := Some(fileId));
    }

    /** createProject(name): seeds a project, saves it and opens it. */
    method CreateProject(name: Option<string>) returns (r: Result<Doc>)
      modifies this, store, ids
      ensures ids.counter == old(ids.counter) + (if name == Some(DefaultName) then 2 + |GetTemplateNames()| else 2)
      ensures r.Ok? ==> r.value == Seeded(name, old(ids.counter)) && selectedProject == Some(r.value)
      ensures r.Ok? ==> StoredSelected() == Ok(Some(r.value)) && store.GetItem(SelectedProjectKey) == Some(Raw(Show(r.value.id)))
      ensures r.Ok? ==> store.items == Opened(old(store.items), r.value)
      ensures r.Err? ==> r.message == QuotaExceeded
      ensures r.Err? ==> store.items == if old(store.writesLeft) == Some(0) then old(store.items)
                                       else WithProject(old(store.items), Seeded(name, old(ids.counter)))
      ensures old(store.writesLeft).None? ==> r.Ok? && store.writesLeft.None?
      ensures fileVersion == old(fileVersion)
    {
      var project := NewProject(name);
      var saved := SaveProject(project);
      if saved.Err? {
        return Err(saved.message);
      }
      r := OpenProject(Show(project.id));
    }

    /** getProjects(): every stored "project-" record, ordered by name. */
    method GetProjects() returns (r: Result<seq<Doc>>, ghost keys: seq<string>)
      ensures r.Err? <==> exists k :: k in StorageUtils.Prefixed(store.items, "project-") && store.items[k].Raw?
      ensures r.Err? ==> r.message == ParseErrorMessage
      ensures r.Ok? ==> SortedByName(r.value)
      ensures r.Ok? ==> forall d :: d in r.value <==> d in Listed(store.items)
      ensures r.Ok? ==> StorageUtils.Distinct(keys) && forall k :: k in keys <==> k in StorageUtils.Prefixed(store.items, "project-")
      ensures r.Ok? ==> multiset(r.value) == multiset(StorageUtils.RecordsAt(store.items, keys))
    {
      var found;
      found, keys := StorageUtils.GetProjects(store);
      if found.Err? {
        return Err(found.message), keys;
      }
      assert found.value == StorageUtils.RecordsAt(store.items, keys);
      var sorted := SortByName(found.value);
      forall d | d in Listed(store.items)
        ensures d in sorted
      {
        var k :| k in StorageUtils.Prefixed(store.items, "project-") && d == ParsedDoc(store.items[k]);
        var i :| 0 <= i < |keys| && keys[i] == k;
        assert found.value[i] == d;
        assert d in multiset(found.value);
      }
      forall d | d in sorted
        ensures d in Listed(store.items)
      {
        assert d in multiset(found.value);
        var i :| 0 <= i < |found.value| && found.value[i] == d;
        assert keys[i] in StorageUtils.Prefixed(store.items, "project-");
      }
      r := Ok(sorted);
    }

    /**
     * deleteProject(): removes the selected project, then opens the first remaining project
     * by name, or creates a new 'Default' one when none remains.
     */
    method DeleteProject() returns (r: Result<bool>, ghost remaining: seq<Doc>)
      modifies this, store, ids
      ensures old(selectedProject).None? ==> r == Ok(false) && selectedProject == None && store.items == old(store.items)
      ensures old(selectedProject).Some? && r.Ok? ==> r.value && selectedProject.Some?
      ensures r.Ok? && old(selectedProject).Some? && remaining != [] ==>
        && remaining[0] in Listed(old(store.items) - {StorageUtils.ProjectKey(Show(old(selectedProject).value.id))})
        && (forall d :: d in Listed(old(store.items) - {StorageUtils.ProjectKey(Show(old(selectedProject).value.id))}) ==> Le(NameKey(remaining[0]), NameKey(d)))
        && StorageUtils.GetProject(store, Show(remaining[0].id)) == Ok(selectedProject)
        && StorageUtils.ProjectKey(Show(old(selectedProject).value.id)) !in store.items
      ensures r.Ok? && old(selectedProject).Some? && remaining == [] ==>
        && Listed(old(store.items) - {StorageUtils.ProjectKey(Show(old(selectedProject).value.id))}) == {}
        && selectedProject == Some(Seeded(Some(DefaultName), old(ids.counter)))
      ensures r.Ok? && old(selectedProject).Some? ==>
        var rest := old(store.items) - {StorageUtils.ProjectKey(Show(old(selectedProject).value.id))};
        store.items == if remaining != [] then rest[SelectedProjectKey := Raw(Show(selectedProject.value.id))]
                       else Opened(rest, selectedProject.value)
      ensures r.Err? ==>
        && old(selectedProject).Some?
        && var rest := old(store.items) - {StorageUtils.ProjectKey(Show(old(selectedProject).value.id))};
           store.items == rest || store.items == WithProject(rest, Seeded(Some(DefaultName), old(ids.counter)))
      ensures old(selectedProject).Some? && old(store.writesLeft).None?
        && Reopenable(old(store.items) - {StorageUtils.ProjectKey(Show(old(selectedProject).value.id))})
        ==> r == Ok(true)
    {
      remaining := [];
      if selectedProject.None? {
        return Ok(false), remaining;
      }
      var oldId := Show(selectedProject.value.id);
      StorageUtils.DeleteProject(store, oldId);
      ghost var rest := store.items;
      assert rest == old(store.items) - {StorageUtils.ProjectKey(Show(old(selectedProject).value.id))};
      var reopened;
      reopened, remaining := ReopenAfterDelete();
      if reopened.Err? {
        return Err(reopened.message), remaining;
      }
      if remaining != [] {
        SelectedKeyIsNoProjectKey(oldId);
        assert StorageUtils.ProjectKey(oldId) !in rest;
      }
      r := Ok(true);
    }

    /**
     * The end of deleteProject, once the project is removed: the first stored project by
     * name is opened, or a new 'Default' one is created when none is stored.
     */
    method ReopenAfterDelete() returns (r: Result<()>, ghost remaining: seq<Doc>)
      modifies this, store, ids
      ensures r.Ok? ==> selectedProject.Some?
      ensures r.Ok? && remaining != [] ==>
        && remaining[0] in Listed(old(store.items))
        && (forall d :: d in Listed(old(store.items)) ==> Le(NameKey(remaining[0]), NameKey(d)))
        && StorageUtils.GetProject(store, Show(remaining[0].id)) == Ok(selectedProject)
        && store.items == old(store.items)[SelectedProjectKey := Raw(Show(selectedProject.value.id))]
      ensures r.Ok? && remaining == [] ==>
        && Listed(old(store.items)) == {}
        && selectedProject == Some(Seeded(Some(DefaultName), old(ids.counter)))
        && store.items == Opened(old(store.items), selectedProject.value)
      ensures r.Err? ==>
        store.items == old(store.items) || store.items == WithProject(old(store.items), Seeded(Some(DefaultName), old(ids.counter)))
      ensures old(store.writesLeft).None? && Reopenable(old(store.items)) ==> r.Ok?
    {
      var projects, _ := GetProjects();
      remaining := [];
      if projects.Err? {
        return Err(projects.message), remaining;
      }
      remaining := projects.value;
      if |projects.value| > 0 {
        var first := projects.value[0];
        forall d | d in Listed(store.items)
          ensures Le(NameKey(first), NameKey(d))
        {
          FirstIsLeast(remaining, d);
        }
        if Reopenable(store.items) {
          ListedReopens(store.items, first);
        }
        var reopened := OpenProject(Show(first.id));
        if reopened.Err? {
          return Err(reopened.message), remaining;
        }
      } else {
        assert Listed(store.items) == {};
        var created := CreateProject(Some(DefaultName));
        if created.Err? {
          return Err(created.message), remaining;
        }
      }
      r := Ok(());
    }

    /**
     * importProject(projectData): a project whose id is already stored is reported as a
     * conflict and nothing is written; any other project is saved and reopened.
     */
    method ImportProject(projectData: Text) returns (r: Result<ImportResult>)
      modifies this, store
      ensures Parse(projectData).Err? ==> r == Err(ParseErrorMessage) && store.items == old(store.items)
      ensures r.Ok? ==> Parse(projectData) == Ok(r.value.project)
      ensures r.Ok? && r.value.Conflicting? ==>
        && old(StorageUtils.GetProject(store, Show(r.value.project.id))) == Ok(Some(r.value.existing))
        && store.items == old(store.items) && selectedProject == old(selectedProject)
      ensures r.Ok? && r.value.Imported? ==>
        && old(StorageUtils.GetProject(store, Show(r.value.project.id))) == Ok(None)
        && selectedProject == Some(r.value.project) && StoredSelected() == Ok(Some(r.value.project))
        && store.items == Opened(old(store.items), r.value.project)
      ensures r.Err? ==> store.items == old(store.items) || store.items == WithProject(old(store.items), ParsedDoc(projectData))
      ensures !projectData.Raw? ==>
        var loaded := old(StorageUtils.GetProject(store, Show(ParsedDoc(projectData).id)));
        && (loaded.Err? ==> r == Err(loaded.message))
        && (loaded.Ok? && loaded.value.Some? ==> r == Ok(Conflicting(ParsedDoc(projectData), loaded.value.value)))
        && (loaded == Ok(None) && old(store.writesLeft).None? ==> r == Ok(Imported(ParsedDoc(projectData))))
    {
      var parsed := Parse(projectData);
      if parsed.Err? {
        return Err(parsed.message);
      }
      var project := parsed.value;
      var existing := StorageUtils.GetProject(store, Show(project.id));
      if existing.Err? {
        return Err(existing.message);
      }
      if existing.value.Some? {
        return Ok(Conflicting(project, existing.value.value));
      }
      var saved := SaveProject(project);
      if saved.Err? {
        return Err(saved.message);
      }
      var reopened := OpenProject(Show(project.id));
      if reopened.Err? {
        return Err(reopened.message);
      }
      r := Ok(Imported(project));
    }

    /**
     * resolveImportConflict(project, action): 'overwrite' saves the project under its own id,
     * 'create-copy' under a fresh id with ' (Copy)' after its name; both open what they
     * saved. Any other action changes nothing and answers false.
     */
    method ResolveImportConflict(project: Doc, action: string) returns (r: Result<bool>)
      modifies this, store, ids
      ensures action != Overwrite && action != CreateCopy ==>
        r == Ok(false) && store.items == old(store.items) && selectedProject == old(selectedProject) && ids.counter == old(ids.counter)
      ensures action == Overwrite && r.Ok? ==>
        r.value && selectedProject == Some(project) && StoredSelected() == Ok(Some(project))
        && store.items == Opened(old(store.items), project)
      ensures action == CreateCopy && r.Ok? ==>
        var copy := CopyOf(project, Uuid(old(ids.counter)));
        r.value && selectedProject == Some(copy) && StoredSelected() == Ok(Some(copy))
        && store.items == Opened(old(store.items), copy)
      ensures r.Err? ==>
        var chosen := if action == Overwrite then project else CopyOf(project, Uuid(old(ids.counter)));
        store.items == old(store.items) || store.items == WithProject(old(store.items), chosen)
      ensures action == CreateCopy ==> ids.counter == old(ids.counter) + 1
      ensures r.Err? ==> r.message == QuotaExceeded
      ensures (action == Overwrite || action == CreateCopy) && old(store.writesLeft).None? ==> r == Ok(true)
    {
      var chosen: Doc;
      if action == Overwrite {
        chosen := project;
      } else if action == CreateCopy {
        var id := ids.Next();
        chosen := CopyOf(project, id);
      } else {
        return Ok(false);
      }
      var saved := SaveProject(chosen);
      if saved.Err? {
        return Err(saved.message);
      }
      var reopened := OpenProject(Show(chosen.id));
      if reopened.Err? {
        return Err(reopened.message);
      }
      r := Ok(true);
    }

    /**
     * `this.selectedProject = this.getProject(this.selectedProject.id)`: the stored copy
     * replaces the editor's; a missing copy leaves none selected, and the next read of
     * its diagrams throws.
     */
    method Reload() returns (r: Result<Doc>)
      requires selectedProject.Some?
      modifies this
      ensures var loaded := old(StoredSelected());
        && (loaded.Err? ==> r == Err(loaded.message) && selectedProject == old(selectedProject))
        && (loaded == Ok(None) ==> r == Err(NullRead("diagrams")) && selectedProject == None)
        && (loaded.Ok? && loaded.value.Some? ==> r == Ok(loaded.value.value) && selectedProject == loaded.value)
      ensures fileVersion == old(fileVersion)
    {
      var loaded := StoredSelected();
      if loaded.Err? {
        return Err(loaded.message);
      }
      selectedProject := loaded.value;
      if loaded.value.None? {
        return Err(NullRead("diagrams"));
      }
      r := Ok(loaded.value.value);
    }

    /** setSelectedFile(fileId): records the selection in the project and saves it. */
    method SetSelectedFile(fileId: Option<string>) returns (r: Result<()>)
      modifies this, store
      ensures old(selectedProject).None? ==> r == Ok(()) && selectedProject == None && store.items == old(store.items)
      ensures old(selectedProject).Some? ==> selectedProject == Some(old(selectedProject).value.(selectedFile := fileId))
      ensures old(selectedProject).Some? ==> (r.Ok? <==> Accepts(old(store.writesLeft)))
      ensures r.Ok? && old(selectedProject).Some? ==>
        && store.items == old(store.items)[StorageUtils.ProjectKey(Show(selectedProject.value.id)) := Json(selectedProject.value)]
        && StoredSelected() == Ok(selectedProject)
      ensures r.Err? ==> r.message == QuotaExceeded && store.items == old(store.items)
      ensures fileVersion == old(fileVersion)
      ensures old(store.writesLeft).None? ==> store.writesLeft.None?
    {
      if selectedProject.None? {
        return Ok(());
      }
      var p := selectedProject.value.(selectedFile := fileId);
      selectedProject := Some(p);
      r := SaveProject(p);
    }

    /**
     * saveFile(file): reloads the stored project, stamps the file with a fresh version,
     * places it under its id, remembers that version as the editor's, and saves. The
     * stamped file is returned: the source mutates the caller's object. A stored copy that
     * does not parse throws before the stamp; a missing one throws just after it.
     */
    method SaveFile(file: Doc) returns (r: Result<bool>, stamped: Doc)
      modifies this, store, ids
      ensures old(selectedProject).None? ==>
        r == Ok(false) && stamped == file && selectedProject == None && store.items == old(store.items)
        && fileVersion == old(fileVersion) && ids.counter == old(ids.counter)
      ensures old(selectedProject).Some? && old(StoredSelected()).Err? ==>
        r == Err(ParseErrorMessage) && stamped == file && selectedProject == old(selectedProject)
        && fileVersion == old(fileVersion) && ids.counter == old(ids.counter)
      ensures old(selectedProject).Some? && old(StoredSelected()) == Ok(None) ==>
        r == Err(NullRead("diagrams")) && stamped == file.(version := Some(Uuid(old(ids.counter))))
        && selectedProject == None && fileVersion == old(fileVersion) && ids.counter == old(ids.counter) + 1
      ensures r == Ok(true) ==>
        && old(selectedProject).Some? && old(StoredSelected()).Ok? && old(StoredSelected()).value.Some?
        && old(StoredSelected()).value.value.diagrams.Some?
        && stamped == file.(version := Some(Uuid(old(ids.counter))))
        && Uuid(old(ids.counter)) !in Issued(old(ids.counter))
        && fileVersion == stamped.version
        && selectedProject == Some(Placed(old(StoredSelected()).value.value, stamped))
        && StoredSelected() == Ok(selectedProject)
        && GetFile(Show(file.id)) == Ok(Some(stamped))
        && CheckVersionConflict(Show(file.id)) == Ok(NoConflict)
      ensures r == Ok(true) ==> store.items == old(store.items)[StorageUtils.ProjectKey(Show(selectedProject.value.id)) := Json(selectedProject.value)]
      ensures r.Ok? ==> (r.value <==> old(selectedProject).Some?)
      ensures r.Err? ==> store.items == old(store.items)
      ensures old(store.writesLeft).None? && old(Reloadable()) ==> r == Ok(true)
      ensures old(store.writesLeft).None? ==> store.writesLeft.None?
    {
      if selectedProject.None? {
        return Ok(false), file;
      }
      var reloaded := Reload();
      if reloaded.Err? && selectedProject.Some? {
        return Err(reloaded.message), file;
      }
      var version := ids.Next();
      stamped := file.(version := Some(version));
      if reloaded.Err? {
        return Err(reloaded.message), stamped;
      }
      if reloaded.value.diagrams.None? {
        return Err(UndefinedSet(Show(file.id))), stamped;
      }
      var p := Placed(reloaded.value, stamped);
      selectedProject := Some(p);
      fileVersion := Some(version);
      var saved := SaveProject(p);
      if saved.Err? {
        return Err(saved.message), stamped;
      }
      r := Ok(true);
    }

    /**
     * openFile(id): reloads the stored project; a file it holds becomes the selected one and
     * its version the editor's. An absent file gives null and leaves the editor's version.
     */
    method OpenFile(id: string) returns (r: Result<Option<Doc>>)
      modifies this, store
      ensures old(selectedProject).None? ==> r == Ok(None) && selectedProject == None && store.items == old(store.items)
      ensures r.Ok? && r.value.None? ==> fileVersion == old(fileVersion) && store.items == old(store.items)
      ensures r.Ok? && r.value.None? && old(selectedProject).Some? ==>
        && old(StoredSelected()).Ok? && old(StoredSelected()).value.Some?
        && old(StoredSelected()).value.value.diagrams.Some?
        && id !in old(StoredSelected()).value.value.diagrams.value
      ensures r.Ok? && r.value.Some? ==>
        && old(selectedProject).Some? && old(StoredSelected()).Ok? && old(StoredSelected()).value.Some?
        && var p := old(StoredSelected()).value.value;
        && p.diagrams.Some? && id in p.diagrams.value && r.value.value == p.diagrams.value[id]
        && fileVersion == r.value.value.version
        && selectedProject == Some(p.(selectedFile := Some(id)))
        && StoredSelected() == Ok(selectedProject)
        && CheckVersionConflict(id) == Ok(NoConflict)
        && store.items == WithProject(old(store.items), selectedProject.value)
      ensures r.Ok? && r.value.None? && old(selectedProject).Some? ==> selectedProject == old(StoredSelected()).value
      ensures r.Err? ==> store.items == old(store.items)
      ensures old(store.writesLeft).None? && old(Reloadable()) ==>
        r.Ok? && (r.value.Some? <==> id in old(StoredSelected()).value.value.diagrams.value)
    {
      if selectedProject.None? {
        return Ok(None);
      }
      var reloaded := Reload();
      if reloaded.Err? {
        return Err(reloaded.message);
      }
      var p := reloaded.value;
      if p.diagrams.None? {
        return Err(UndefinedRead(id));
      }
      if id !in p.diagrams.value {
        return Ok(None);
      }
      var file := p.diagrams.value[id];
      fileVersion := file.version;
      var selected := SetSelectedFile(Some(id));
      if selected.Err? {
        return Err(selected.message);
      }
      r := Ok(Some(file));
    }

    /** getFiles(): the selected project's files ordered by name. */
    method GetFiles() returns (r: Result<seq<Doc>>, ghost keys: seq<string>)
      ensures selectedProject.None? ==> r == Ok([])
      ensures r.Err? <==> selectedProject.Some? && selectedProject.value.diagrams.None?
      ensures r.Ok? ==> SortedByName(r.value)
      ensures r.Ok? && selectedProject.Some? ==>
        && |r.value| == |selectedProject.value.diagrams.value|
        && forall d :: d in r.value <==> d in selectedProject.value.diagrams.value.Values
      ensures r.Ok? && selectedProject.Some? ==>
        && StorageUtils.Distinct(keys)
        && (forall k :: k in keys <==> k in selectedProject.value.diagrams.value)
        && multiset(r.value) == multiset(ValuesAt(selectedProject.value.diagrams.value, keys))
    {
      keys := [];
      if selectedProject.None? {
        return Ok([]), keys;
      }
      if selectedProject.value.diagrams.None? {
        return Err(NotAnObject), keys;
      }
      var files := selectedProject.value.diagrams.value;
      var todo := files.Keys;
      var values: seq<Doc> := [];
      while todo != {}
        invariant Gathered(files, todo, keys, values)
        decreases |todo|
      {
        var k :| k in todo;
        GatherStep(files, todo, keys, values, k);
        values := values + [files[k]];
        keys := keys + [k];
        todo := todo - {k};
      }
      var sorted := SortByName(values);
      assert forall d :: d in sorted <==> d in multiset(values);
      r := Ok(sorted);
    }

    /**
     * createFile(name, content): a file under a fresh id (an empty or missing content
     * takes the default template), saved into the selected project and selected.
     */
    method CreateFile(name: Option<string>, content: Option<string>) returns (r: Result<Option<Doc>>)
      modifies this, store, ids
      ensures old(selectedProject).None? ==> r == Ok(None) && selectedProject == None && store.items == old(store.items)
      ensures r.Ok? ==> (r.value.Some? <==> old(selectedProject).Some?)
      ensures r.Ok? && r.value.Some? ==>
        var id := Uuid(old(ids.counter));
        && r.value.value == FileRecord(id, Uuid(old(ids.counter) + 2), name, Or(content, GetDefaultContent()))
        && id !in Issued(old(ids.counter))
        && selectedProject.Some? && selectedProject.value.selectedFile == Some(id)
        && GetFile(id) == Ok(r.value)
        && fileVersion == r.value.value.version
        && StoredSelected() == Ok(selectedProject)
      ensures r.Ok? && r.value.Some? ==>
        && old(Reloadable())
        && selectedProject == Some(Placed(old(StoredSelected()).value.value, r.value.value).(selectedFile := Some(Uuid(old(ids.counter)))))
        && store.items == WithProject(old(store.items), selectedProject.value)
      ensures r.Err? ==>
        store.items == old(store.items)
        || (old(Reloadable()) && store.items == WithProject(old(store.items), Placed(old(StoredSelected()).value.value,
              FileRecord(Uuid(old(ids.counter)), Uuid(old(ids.counter) + 2), name, Or(content, GetDefaultContent())))))
      ensures old(store.writesLeft).None? && old(Reloadable()) ==> r.Ok? && r.value.Some?
    {
      if selectedProject.None? {
        return Ok(None);
      }
      var id := ids.Next();
      var version := ids.Next();
      var file := FileRecord(id, version, name, Or(content, GetDefaultContent()));
      var saved, stamped := SaveFile(file);
      if saved.Err? {
        return Err(saved.message);
      }
      ghost var first := selectedProject.value;
      assert store.items == WithProject(old(store.items), first);
      var selected := SetSelectedFile(Some(id));
      if selected.Err? {
        return Err(selected.message);
      }
      SavedTwice(old(store.items), first, selectedProject.value);
      r := Ok(Some(stamped));
    }

    /**
     * deleteFile(fileId): removes the file (by default the selected one) and saves. The
     * project never ends up empty: the first remaining file by name is selected, or, when
     * none remains, a new 'Default' file is created.
     */
    method DeleteFile(fileId: Option<string>) returns (r: Result<Option<Doc>>, ghost remaining: map<string, Doc>)
      modifies this, store, ids
      ensures r == Ok(None) <==> old(selectedProject).None? || DeleteTarget(fileId, old(selectedProject).value).None?
      ensures r == Ok(None) ==> selectedProject == old(selectedProject) && store.items == old(store.items)
      ensures r.Ok? && r.value.Some? ==>
        && old(selectedProject).value.diagrams.Some?
        && remaining == old(selectedProject).value.diagrams.value - {DeleteTarget(fileId, old(selectedProject).value).value}
        && selectedProject.Some? && selectedProject.value.diagrams.Some?
        && StoredSelected() == Ok(selectedProject)
        && selectedProject == Some(old(selectedProject).value.(diagrams := selectedProject.value.diagrams, selectedFile := r.value.value.id))
        && store.items == WithProject(old(store.items), selectedProject.value)
        && (remaining != map[] ==>
              && selectedProject.value.diagrams == Some(remaining)
              && r.value.value in remaining.Values
              && forall d :: d in remaining.Values ==> Le(NameKey(r.value.value), NameKey(d)))
        && (remaining == map[] ==>
              && selectedProject.value.diagrams == Some(map[Show(r.value.value.id) := r.value.value])
              && r.value.value.name == Some(DefaultName) && r.value.value.content == Some(GetDefaultContent()))
      ensures old(store.writesLeft).None? && old(selectedProject).Some? && old(selectedProject).value.diagrams.Some?
        && DeleteTarget(fileId, old(selectedProject).value).Some?
        ==> r.Ok? && r.value.Some?
    {
      remaining := map[];
      if selectedProject.None? {
        return Ok(None), remaining;
      }
      var target := DeleteTarget(fileId, selectedProject.value);
      if target.None? {
        return Ok(None), remaining;
      }
      if selectedProject.value.diagrams.None? {
        return Err(NotAnObject), remaining;
      }
      var rest := selectedProject.value.diagrams.value - {target.value};
      remaining := rest;
      var p := selectedProject.value.(diagrams := Some(rest));
      selectedProject := Some(p);
      var saved := SaveProject(p);
      if saved.Err? {
        return Err(saved.message), remaining;
      }
      var selected := SelectAfterDelete();
      if selected.Err? {
        return Err(selected.message), remaining;
      }
      r := Ok(Some(selected.value));
    }

    /**
     * The end of deleteFile, once the project without the file is saved: the first
     * remaining file by name is selected, or a new 'Default' file is created when none remains.
     */
    method SelectAfterDelete() returns (r: Result<Doc>)
      requires selectedProject.Some? && selectedProject.value.diagrams.Some?
      requires StoredSelected() == Ok(selectedProject)
      modifies this, store, ids
      ensures var files := old(selectedProject).value.diagrams.value;
        r.Ok? ==>
          && selectedProject.Some? && selectedProject.value.diagrams.Some?
          && StoredSelected() == Ok(selectedProject)
          && selectedProject == Some(old(selectedProject).value.(diagrams := selectedProject.value.diagrams, selectedFile := r.value.id))
          && store.items == WithProject(old(store.items), selectedProject.value)
          && (files != map[] ==>
                && selectedProject.value.diagrams == Some(files)
                && r.value in files.Values
                && forall d :: d in files.Values ==> Le(NameKey(r.value), NameKey(d)))
          && (files == map[] ==>
                && selectedProject.value.diagrams == Some(map[Show(r.value.id) := r.value])
                && r.value.name == Some(DefaultName) && r.value.content == Some(GetDefaultContent()))
      ensures old(store.writesLeft).None? ==> r.Ok?
    {
      var files, _ := GetFiles();
      assert files.Ok?;
      if |files.value| > 0 {
        var first := files.value[0];
        forall d | d in selectedProject.value.diagrams.value.Values
          ensures Le(NameKey(first), NameKey(d))
        {
          FirstIsLeast(files.value, d);
        }
        var selected := SetSelectedFile(first.id);
        if selected.Err? {
          return Err(selected.message);
        }
        r := Ok(first);
      } else {
        var created := CreateFile(Some(DefaultName), None);
        if created.Err? {
          return Err(created.message);
        }
        assert GetFile(created.value.value.id.value) == Ok(created.value);
        r := Ok(created.value.value);
      }
    }

    /**
     * renameFile(fileId, newName): the file the editor holds is renamed in place, in the
     * open project, and then saved through saveFile (and so stamped with a fresh version).
     */
    method RenameFile(fileId: string, newName: Option<string>) returns (r: Result<bool>)
      modifies this, store, ids
      ensures old(selectedProject).None? ==> r == Ok(false) && selectedProject == None && store.items == old(store.items)
      ensures r == Ok(false) && old(selectedProject).Some? ==> old(GetFile(fileId)) == Ok(None) && store.items == old(store.items)
      ensures r == Ok(true) ==>
        && old(GetFile(fileId)).Ok? && old(GetFile(fileId)).value.Some?
        && var renamed := old(GetFile(fileId)).value.value.(name := newName, version := Some(Uuid(old(ids.counter))));
        && GetFile(Show(renamed.id)) == Ok(Some(renamed))
        && fileVersion == renamed.version
        && StoredSelected() == Ok(selectedProject)
        && old(Reloadable())
        && selectedProject == Some(Placed(old(StoredSelected()).value.value, renamed))
        && store.items == WithProject(old(store.items), selectedProject.value)
      ensures (old(selectedProject).Some? && old(GetFile(fileId)).Ok? && old(GetFile(fileId)).value.Some?
               && old(StoredSelected()).Err?) ==>
          && r == Err(ParseErrorMessage)
          && selectedProject == Some(old(selectedProject).value.(diagrams := Some(old(selectedProject).value.diagrams.value
               [fileId := old(GetFile(fileId)).value.value.(name := newName)])))
      ensures r.Err? ==> store.items == old(store.items)
      ensures old(store.writesLeft).None? && old(Reloadable()) && old(GetFile(fileId)).Ok? && old(GetFile(fileId)).value.Some? ==>
        r == Ok(true)
    {
      if selectedProject.None? {
        return Ok(false);
      }
      var file := GetFile(fileId);
      if file.Err? {
        return Err(file.message);
      }
      if file.value.None? {
        return Ok(false);
      }
      var renamed := file.value.value.(name := newName);
      selectedProject := Some(selectedProject.value.(diagrams := Some(selectedProject.value.diagrams.value[fileId := renamed])));
      var saved, _ := SaveFile(renamed);
      if saved.Err? {
        return Err(saved.message);
      }
      r := Ok(true);
    }

    /**
     * duplicateFile(fileId, newName): a copy of the file under a fresh id and the new name,
     * saved through saveFile and selected.
     */
    method DuplicateFile(fileId: string, newName: Option<string>) returns (r: Result<Option<Doc>>)
      modifies this, store, ids
      ensures old(selectedProject).None? ==> r == Ok(None) && selectedProject == None && store.items == old(store.items)
      ensures r == Ok(None) && old(selectedProject).Some? ==> old(GetFile(fileId)) == Ok(None) && store.items == old(store.items)
      ensures r.Ok? && r.value.Some? ==>
        && old(GetFile(fileId)).Ok? && old(GetFile(fileId)).value.Some?
        && var id := Uuid(old(ids.counter));
        && r.value.value == old(GetFile(fileId)).value.value.(id := Some(id), name := newName, version := Some(Uuid(old(ids.counter) + 1)))
        && id !in Issued(old(ids.counter))
        && GetFile(id) == Ok(r.value)
        && selectedProject.value.selectedFile == Some(id)
        && fileVersion == r.value.value.version
        && old(Reloadable())
        && selectedProject == Some(Placed(old(StoredSelected()).value.value, r.value.value).(selectedFile := Some(id)))
        && StoredSelected() == Ok(selectedProject)
        && store.items == WithProject(old(store.items), selectedProject.value)
      ensures r.Err? ==>
        store.items == old(store.items)
        || (old(Reloadable()) && old(GetFile(fileId)).Ok? && old(GetFile(fileId)).value.Some?
            && store.items == WithProject(old(store.items), Placed(old(StoredSelected()).value.value,
                 old(GetFile(fileId)).value.value.(id := Some(Uuid(old(ids.counter))), name := newName,
                                                   version := Some(Uuid(old(ids.counter) + 1))))))
      ensures old(store.writesLeft).None? && old(Reloadable()) && old(GetFile(fileId)).Ok? && old(GetFile(fileId)).value.Some? ==>
        r.Ok? && r.value.Some?
    {
      if selectedProject.None? {
        return Ok(None);
      }
      var file := GetFile(fileId);
      if file.Err? {
        return Err(file.message);
      }
      if file.value.None? {
        return Ok(None);
      }
      var id := ids.Next();
      var copy := file.value.value.(id := Some(id), name := newName);
      var saved, stamped := SaveFile(copy);
      if saved.Err? {
        return Err(saved.message);
      }
      ghost var first := selectedProject.value;
      assert store.items == WithProject(old(store.items), first);
      var selected := SetSelectedFile(Some(id));
      if selected.Err? {
        return Err(selected.message);
      }
      SavedTwice(old(store.items), first, selectedProject.value);
      r := Ok(Some(stamped));
    }

    /**
     * openLastSelectedProject(): the project remembered under "selectedProject" when it is
     * still stored; otherwise the first stored project by name; otherwise a new 'Default'.
     */
    method OpenLastSelectedProject() returns (r: Result<Doc>, ghost resumed: bool, ghost listed: seq<Doc>)
      modifies this, store, ids
      ensures r.Ok? ==> selectedProject.Some?
      ensures resumed <==>
        var last := LastSelectedId(old(store.items));
        last != "" && old(StorageUtils.GetProject(store, last)).Ok? && old(StorageUtils.GetProject(store, last)).value.Some?
      ensures resumed && r.Ok? ==>
        && r.value == old(StorageUtils.GetProject(store, LastSelectedId(store.items))).value.value
        && selectedProject == Some(r.value)
        && store.items == old(store.items)[SelectedProjectKey := Raw(Show(r.value.id))]
      ensures !resumed && r.Ok? && listed != [] ==>
        store.items == old(store.items)[SelectedProjectKey := Raw(Show(selectedProject.value.id))]
      ensures !resumed && r.Ok? && listed == [] ==> store.items == Opened(old(store.items), r.value)
      ensures r.Err? ==>
        store.items == old(store.items)
        || (!resumed && listed == [] && store.items == WithProject(old(store.items), Seeded(Some(DefaultName), old(ids.counter))))
      ensures !resumed && r.Ok? && listed != [] ==>
        && r.value == listed[0] && r.value in Listed(old(store.items))
        && (forall d :: d in Listed(old(store.items)) ==> Le(NameKey(r.value), NameKey(d)))
        && StorageUtils.GetProject(store, Show(r.value.id)) == Ok(selectedProject)
      ensures !resumed && r.Ok? && listed == [] ==>
        && Listed(old(store.items)) == {}
        && r.value == Seeded(Some(DefaultName), old(ids.counter)) && selectedProject == Some(r.value)
      ensures old(store.writesLeft).None? && Reopenable(old(store.items)) ==> r.Ok?
    {
      listed := [];
      resumed := false;
      var item := store.GetItem(SelectedProjectKey);
      var last := if item.Some? then PlainText(item.value) else "";
      if last != "" {
        var project := StorageUtils.GetProject(store, last);
        assert StartsWith(StorageUtils.ProjectKey(last), "project-");
        if project.Err? {
          return Err(project.message), resumed, listed;
        }
        if project.value.Some? {
          resumed := true;
          var reopened := OpenProject(last);
          if reopened.Err? {
            return Err(reopened.message), resumed, listed;
          }
          return Ok(project.value.value), resumed, listed;
        }
      }
      var projects, _ := GetProjects();
      if projects.Err? {
        return Err(projects.message), resumed, listed;
      }
      listed := projects.value;
      if |projects.value| > 0 {
        forall d | d in Listed(store.items)
          ensures Le(NameKey(listed[0]), NameKey(d))
        {
          FirstIsLeast(listed, d);
        }
        if Reopenable(store.items) {
          ListedReopens(store.items, projects.value[0]);
        }
        var reopened := OpenProject(Show(projects.value[0].id));
        if reopened.Err? {
          return Err(reopened.message), resumed, listed;
        }
        SelectedKeyIsNoProjectKey(Show(projects.value[0].id));
        r := Ok(projects.value[0]);
      } else {
        r := CreateProject(Some(DefaultName));
      }
    }
  }
}

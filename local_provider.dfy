/**
 * storage/LocalStorageProvider.js: each project is one JSON record under
 * "project-<id>" in localStorage, holding its name and its diagrams by id. Every
 * mutator reads the whole record, changes it and writes it back; failures are caught
 * and reported as false or null, except in importProject, which throws.
 */
module LocalProvider {
  import opened Wrappers
  import opened Js
  import opened LocalStore
  import opened Ids
  import opened StorageUtils

  const InvalidProjectData := "Invalid project data"

  /** What importProject reports: { projectId, projectName }. */
  datatype Imported = Imported(projectId: Option<string>, projectName: Option<string>)

  /** `diagrams || {}` */
  function DiagramsOf(d: Doc): map<string, Doc> {
    if d.diagrams.Some? then d.diagrams.value else map[]
  }

  /** The record a file save writes: the file stored under its id, other diagrams kept. */
  function WithFile(project: Doc, file: Doc): (r: Doc)
    ensures r.diagrams.Some? && r.diagrams.value == DiagramsOf(project)[Show(file.id) := file]
    ensures r.(diagrams := project.diagrams) == project
  {
    project.(diagrams := Some(DiagramsOf(project)[Show(file.id) := file]))
  }

  /** `file.version || uuidv4()` as the version the stored file carries. */
  function Stamped(file: Doc, newVersion: string): (r: Doc)
    ensures newVersion != "" ==> r.version.Some? && r.version.value != ""
    ensures Or(file.version, "") != "" ==> r == file
    ensures Or(file.version, "") == "" ==> r == file.(version := Some(newVersion))
  {
    if Or(file.version, "") != "" then file else file.(version := Some(newVersion))
  }

  class LocalStorageProvider {
    const store: LocalStorage
    const ids: IdSource

    constructor (store: LocalStorage, ids: IdSource)
      ensures this.store == store && this.ids == ids
    {
      this.store := store;
      this.ids := ids;
    }

    /** The parsed record of a project; null when it is missing, empty or unparseable. */
    function StoredProject(projectId: string): (r: Option<Doc>)
      reads store
      ensures r.Some? <==> Load(store.items, ProjectKey(projectId)).Ok? && Load(store.items, ProjectKey(projectId)).value.Some?
      ensures r.Some? ==> r == Load(store.items, ProjectKey(projectId)).value
    {
      match Load(store.items, ProjectKey(projectId))
      case Ok(Some(d)) => Some(d)
      case _ => None
    }

    /** getProjectMetadata(projectId): { name } of the stored record, or null. */
    function GetProjectMetadata(projectId: string): (r: Option<Doc>)
      reads store
      ensures r.None? <==> StoredProject(projectId).None?
      ensures r.Some? ==> r.value == EmptyDoc.(name := StoredProject(projectId).value.name)
    {
      if StoredProject(projectId).Some? then Some(EmptyDoc.(name := StoredProject(projectId).value.name)) else None
    }

    /** createProject(projectId, projectName, initialFiles): writes { id, name, diagrams }. */
    method CreateProject(projectId: string, projectName: Option<string>, initialFiles: map<string, Doc>) returns (ok: bool)
      modifies store
      ensures ok <==> Accepts(old(store.writesLeft))
      ensures ok ==> store.items == old(store.items)[ProjectKey(projectId) :=
        Json(EmptyDoc.(id := Some(projectId), name := projectName, diagrams := Some(initialFiles)))]
      ensures ok ==> GetProjectMetadata(projectId) == Some(EmptyDoc.(name := projectName))
      ensures ok ==> GetProjectFiles(projectId) == Some(initialFiles)
      ensures !ok ==> store.items == old(store.items)
      ensures store.writesLeft == Spend(old(store.writesLeft))
    {
      var project := EmptyDoc.(id := Some(projectId), name := projectName, diagrams := Some(initialFiles));
      var w := store.SetItem(ProjectKey(projectId), Json(project));
      ok := w.Ok?;
    }

    /**
     * updateProjectMetadata(projectId, updates): false for a missing project; otherwise
     * the name is replaced when updates has one, and nothing else changes.
     */
    method UpdateProjectMetadata(projectId: string, updates: Doc) returns (ok: bool)
      modifies store
      ensures ok <==> old(StoredProject(projectId)).Some? && Accepts(old(store.writesLeft))
      ensures ok ==> store.items == old(store.items)[ProjectKey(projectId) := Json(
        if updates.name.Some? then old(StoredProject(projectId)).value.(name := updates.name)
        else old(StoredProject(projectId)).value)]
      ensures ok ==> StoredProject(projectId).value.(name := None) == old(StoredProject(projectId)).value.(name := None)
      ensures !ok ==> store.items == old(store.items)
      ensures store.writesLeft == if old(StoredProject(projectId)).Some? then Spend(old(store.writesLeft)) else old(store.writesLeft)
    {
      var project := StoredProject(projectId);
      if project.None? {
        return false;
      }
      var updated := project.value;
      if updates.name.Some? {
        updated := updated.(name := updates.name);
      }
      var w := store.SetItem(ProjectKey(projectId), Json(updated));
      ok := w.Ok?;
    }

    /** deleteProject(projectId): removes the record; always true. */
    method DeleteProject(projectId: string) returns (ok: bool)
      modifies store
      ensures ok
      ensures store.items == old(store.items) - {ProjectKey(projectId)}
      ensures StoredProject(projectId).None?
      ensures store.writesLeft == old(store.writesLeft)
    {
      store.RemoveItem(ProjectKey(projectId));
      ok := true;
    }

    /** getProjectFiles(projectId): the diagrams by id ({} when absent), or null. */
    function GetProjectFiles(projectId: string): (r: Option<map<string, Doc>>)
      reads store
      ensures r.None? <==> StoredProject(projectId).None?
      ensures r.Some? ==> r.value == DiagramsOf(StoredProject(projectId).value)
    {
      if StoredProject(projectId).Some? then Some(DiagramsOf(StoredProject(projectId).value)) else None
    }

    /** getFile(projectId, fileId): the stored file, or null when the project or the file is missing. */
    function GetFile(projectId: string, fileId: string): (r: Option<Doc>)
      reads store
      ensures r.Some? <==> StoredProject(projectId).Some? && fileId in DiagramsOf(StoredProject(projectId).value)
      ensures r.Some? ==> r.value == StoredProject(projectId).value.diagrams.value[fileId]
    {
      var files := GetProjectFiles(projectId);
      if files.Some? && fileId in files.value then Some(files.value[fileId]) else None
    }

    /**
     * saveFile(projectId, file): false for a missing project; otherwise the file, given
     * a fresh version when it has none, replaces diagrams[file.id] and nothing else.
     * `saved` is the caller's file object as the call leaves it.
     */
    method SaveFile(projectId: string, file: Doc) returns (ok: bool, saved: Doc)
      modifies store, ids
      ensures ok <==> old(StoredProject(projectId)).Some? && Accepts(old(store.writesLeft))
      ensures old(StoredProject(projectId)).Some? ==> saved == Stamped(file, Uuid(old(ids.counter)))
      ensures Or(file.version, "") != "" ==> saved == file
      ensures ok ==> store.items == old(store.items)[ProjectKey(projectId) :=
        Json(WithFile(old(StoredProject(projectId)).value, saved))]
      ensures ok ==> GetFile(projectId, Show(file.id)) == Some(saved)
      ensures ok ==> forall id :: id != Show(file.id) ==> GetFile(projectId, id) == old(GetFile(projectId, id))
      ensures !ok ==> store.items == old(store.items)
      ensures old(StoredProject(projectId)).None? ==> saved == file && ids.counter == old(ids.counter)
      ensures old(StoredProject(projectId)).Some? ==>
        ids.counter == old(ids.counter) + (if Or(file.version, "") == "" then 1 else 0)
      ensures store.writesLeft == if old(StoredProject(projectId)).Some? then Spend(old(store.writesLeft)) else old(store.writesLeft)
    {
      var project := StoredProject(projectId);
      if project.None? {
        return false, file;
      }
      saved := file;
      if Or(file.version, "") == "" {
        var v := ids.Next();
        saved := file.(version := Some(v));
      }
      var w := store.SetItem(ProjectKey(projectId), Json(WithFile(project.value, saved)));
      ok := w.Ok?;
    }

    /**
     * deleteFile(projectId, fileId): false only for a missing project; the record is
     * rewritten only when the file is there, and only that file goes.
     */
    method DeleteFile(projectId: string, fileId: string) returns (ok: bool)
      modifies store
      ensures old(StoredProject(projectId)).None? ==> !ok && store.items == old(store.items)
      ensures old(StoredProject(projectId)).Some? && old(GetFile(projectId, fileId)).None? ==> ok && store.items == old(store.items)
      ensures old(GetFile(projectId, fileId)).Some? ==> (ok <==> Accepts(old(store.writesLeft)))
      ensures ok && old(GetFile(projectId, fileId)).Some? ==> store.items == old(store.items)[ProjectKey(projectId) :=
        Json(old(StoredProject(projectId)).value.(diagrams := Some(DiagramsOf(old(StoredProject(projectId)).value) - {fileId})))]
      ensures ok ==> GetFile(projectId, fileId).None?
      ensures ok ==> forall id :: id != fileId ==> GetFile(projectId, id) == old(GetFile(projectId, id))
      ensures !ok ==> store.items == old(store.items)
      ensures store.writesLeft == if old(GetFile(projectId, fileId)).Some? then Spend(old(store.writesLeft)) else old(store.writesLeft)
    {
      var project := StoredProject(projectId);
      if project.None? {
        return false;
      }
      ok := true;
      if project.value.diagrams.Some? && fileId in project.value.diagrams.value {
        var kept := project.value.(diagrams := Some(project.value.diagrams.value - {fileId}));
        var w := store.SetItem(ProjectKey(projectId), Json(kept));
        ok := w.Ok?;
      }
    }

    /**
     * duplicateProject(sourceProjectId, newProjectId, newProjectName): the source record
     * with the new id and name, under the new id; false when the source is missing.
     */
    method DuplicateProject(sourceProjectId: string, newProjectId: string, newProjectName: Option<string>) returns (ok: bool)
      modifies store
      ensures ok <==> old(StoredProject(sourceProjectId)).Some? && Accepts(old(store.writesLeft))
      ensures ok ==> store.items == old(store.items)[ProjectKey(newProjectId) :=
        Json(old(StoredProject(sourceProjectId)).value.(id := Some(newProjectId), name := newProjectName))]
      ensures ok ==> GetProjectFiles(newProjectId) == old(GetProjectFiles(sourceProjectId))
      ensures ok && sourceProjectId != newProjectId ==> StoredProject(sourceProjectId) == old(StoredProject(sourceProjectId))
      ensures !ok ==> store.items == old(store.items)
      ensures store.writesLeft == if old(StoredProject(sourceProjectId)).Some? then Spend(old(store.writesLeft)) else old(store.writesLeft)
    {
      var source := StoredProject(sourceProjectId);
      if source.None? {
        return false;
      }
      var copy := source.value.(id := Some(newProjectId), name := newProjectName);
      var w := store.SetItem(ProjectKey(newProjectId), Json(copy));
      ok := w.Ok?;
      if ok && sourceProjectId != newProjectId {
        if ProjectKey(newProjectId) == ProjectKey(sourceProjectId) {
          PrefixedKeyInjective("project-", newProjectId, sourceProjectId);
        }
        OtherKeyUnchanged(old(store.items), ProjectKey(newProjectId), ProjectKey(sourceProjectId), Json(copy));
      }
    }

    /** exportProject(projectId): the stored text, verbatim; null when missing or empty. */
    function ExportProject(projectId: string): (r: Option<Text>)
      reads store
      ensures r.Some? <==> ProjectKey(projectId) in store.items && Truthy(store.items[ProjectKey(projectId)])
      ensures r.Some? ==> r.value == store.items[ProjectKey(projectId)]
    {
      var t := store.GetItem(ProjectKey(projectId));
      if t.Some? && Truthy(t.value) then t else None
    }

    /**
     * importProject(projectData): stores the text as given under its own id; text that is
     * not JSON (or a write that fails) throws 'Invalid project data'.
     */
    method ImportProject(projectData: Text) returns (r: Result<Imported>)
      modifies store
      ensures r.Ok? <==> !projectData.Raw? && Accepts(old(store.writesLeft))
      ensures r.Err? ==> r.message == InvalidProjectData && store.items == old(store.items)
      ensures r.Ok? ==> r.value == Imported(ParsedDoc(projectData).id, ParsedDoc(projectData).name)
      ensures r.Ok? ==> store.items == old(store.items)[ProjectKey(Show(r.value.projectId)) := projectData]
      ensures r.Ok? ==> ExportProject(Show(r.value.projectId)) == Some(projectData)
      ensures r.Ok? && old(ExportProject(Show(ParsedDoc(projectData).id))) == Some(projectData) ==> store.items == old(store.items)
      ensures store.writesLeft == if projectData.Raw? then old(store.writesLeft) else Spend(old(store.writesLeft))
    {
      var parsed := Parse(projectData);
      if parsed.Err? {
        return Err(InvalidProjectData);
      }
      var project := parsed.value;
      var w := store.SetItem(ProjectKey(Show(project.id)), projectData);
      if w.Err? {
        return Err(InvalidProjectData);
      }
      r := Ok(Imported(project.id, project.name));
    }
  }
}

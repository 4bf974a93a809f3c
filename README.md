# Mermaiditor project storage, modelled in Dafny

Mermaiditor is a browser editor for Mermaid diagrams. Diagrams ("files") are grouped into
projects. This model covers the part of the editor that keeps projects and files:

- the `ProjectManager`, which holds the open project and the version of the open file;
- the `localStorage` helpers and the two storage providers (browser storage and a local
  folder reached through the File System Access API);
- the store of folder handles, kept in IndexedDB;
- the migration of version-1 storage to the version-2 layout (project references),
  with its backup and restore;
- the record classes `ProjectReference`, `Project` and `File`;
- the table of diagram templates.

The classes that change their fields in place (the manager, the providers, the migration
manager, the handle store) are Dafny classes. Their methods state what they return and
how they change the state, including when they succeed: with an unlimited write quota (and,
for the folder provider, a folder that holds the project), every operation the code
expects to succeed is proved to succeed. Each success path states the whole new storage,
handle store and folder contents. On some error paths the contract states only the
possible states, or leaves the folder contents open; "## Left out" lists these members.
The record classes and the
template table are pure: they are datatypes, functions and lemmas.

The browser environment is modelled as follows:

- `localStorage` is a `LocalStore.LocalStorage` object: a map from key to stored text,
  plus a write quota. The quota is `None` (every write succeeds) or `Some(n)` (the next
  `n` writes succeed, then each one fails with the quota error). This one oracle is where
  every storage failure in the model comes from: a failed backup, a provider returning
  `false`, a migration that stops half way. Removing a key always succeeds.
- Stored text is `Raw(s)`, a string that is not JSON, so `JSON.parse` rejects it;
  `Json(doc)`, the serialisation of an object; or `Snapshot(entries)`, the serialised
  backup object. A parsed object is a `Js.Doc` with the fields the code reads. `None`
  stands for a field that is null or undefined.
- JavaScript's `a || b` on strings treats `""` like a missing value (`Js.Or`, `Js.OrNull`).
  Reading a property of null or undefined becomes an error result carrying the
  `TypeError` message.
- `uuidv4()` is a shared counter (`Ids.IdSource`) whose ids are proved pairwise distinct.
- The folder picker and the permission queries are oracle parameters (`Pick`, `Access`).
- A project folder is one entry of `Folders.Disk`: a map from entry name to a file (its
  text) or a sub-folder. The IndexedDB store (`idb-keyval`) is a map in
  `DirectoryStore.DirectoryStorage`.
- Key order, in both `localStorage.key(i)` and directory listings, is left unspecified.
  Loops pick any key not yet visited. Contracts speak of the sets of keys and of the ghost
  sequence of keys a loop visited.

## Model

| member | source | states |
|---|---|---|
| Records.ProjectReference.New | src/models/Project.js:9-15 | keeps id, provider and selected file; missing parameters become `{}` and a missing theme becomes 'default' |
| Records.ProjectReference.FromObject | src/models/Project.js:20-28 | copies id, provider and selected file; substitutes `{}` for missing parameters and 'default' for a missing or empty theme, so the theme is never empty |
| Records.ProjectReference.ToObject | src/models/Project.js:33-41 | the object has exactly the five reference fields; `FromObject(r.ToObject()) == r` whenever the parameters are present and the theme is non-empty |
| Records.ReferenceObjectNormalised | src/models/Project.js:20-41 | converting an object to a reference and back drops every other field, and a second round trip changes nothing |
| Records.Project.FromObject | src/models/Project.js:55-57 | the project takes the object's name |
| Records.Project.ToObject | src/models/Project.js:62-66 | the object holds only the name, and reading it back gives the same project |
| Records.File.New | src/models/Project.js:73-78 | the file holds the given id, name, content and version |
| Records.File.FromObject | src/models/Project.js:83-85 | copies id, name and content; a missing version becomes null |
| Records.File.ToObject | src/models/Project.js:90-97 | the object holds exactly the four file fields, and reading it back gives the same file |
| Templates.GetTemplate | src/managers/TemplateManager.js:68-70 | a name in the table gives its template; any other name gives the Graph template; the result is never empty |
| Templates.GetTemplateNames | src/managers/TemplateManager.js:46-74 | 18 distinct names, 'Graph' first and 'Readme' last, exactly the keys of the table |
| Templates.GetAllTemplates | src/managers/TemplateManager.js:76-78 | keys are exactly the template names, and each value is `GetTemplate` of its key |
| Templates.DefaultContentIsFallback | src/managers/TemplateManager.js:80-82 | the default content is the Graph template, which is non-empty and is what every unknown name gets |
| Templates.ReadmeContentIsTemplate | src/managers/TemplateManager.js:84-86 | the README content is the 'Readme' template and differs from the default content |
| StorageUtils.Load | src/utils/storage.js:9-12 | an absent or empty entry reads as null; a non-JSON entry is a parse error; otherwise the result is the parsed object |
| StorageUtils.StoredThenLoaded | src/utils/storage.js:5-12 | an object written under a key reads back as itself |
| StorageUtils.OtherKeyUnchanged | src/utils/storage.js:5-12 | a write under one key leaves what every other key reads unchanged |
| StorageUtils.PrefixedKeyInjective | src/utils/storage.js:5-37 | different ids give different 'project-' and 'file-' keys |
| StorageUtils.SaveProject | src/utils/storage.js:5-7 | on success only `project-<id>` changes and `GetProject(id)` returns the saved project; on a quota error nothing changes |
| StorageUtils.GetProject | src/utils/storage.js:9-12 | null iff `project-<id>` is absent or empty; the parse error iff it holds non-JSON text; otherwise the object that entry parses to |
| StorageUtils.GetProjects | src/utils/storage.js:14-24 | fails with the parse error iff some 'project-' entry is not JSON; otherwise returns one parsed record per 'project-' key, each key visited once |
| StorageUtils.DeleteProject | src/utils/storage.js:26-28 | removes `project-<id>` and nothing else |
| StorageUtils.SaveFile | src/utils/storage.js:30-32 | on success only `file-<id>` changes and `GetFile(id)` returns the saved file; on a quota error nothing changes |
| StorageUtils.GetFile | src/utils/storage.js:34-37 | null iff `file-<id>` is absent or empty; the parse error iff it holds non-JSON text; otherwise the object that entry parses to |
| StorageUtils.GetFiles | src/utils/storage.js:39-51 | fails iff some 'file-' entry is not JSON; otherwise returns exactly the stored files whose `projectId` matches, each once |
| StorageUtils.DeleteFile | src/utils/storage.js:53-55 | removes `file-<id>` and nothing else |
| LocalProvider.LocalStorageProvider.constructor | src/storage/LocalStorageProvider.js:8-10 | the provider works on the given storage |
| LocalProvider.LocalStorageProvider.StoredProject | src/storage/LocalStorageProvider.js:12-23 | the record under `project-<id>` when it exists and parses, otherwise none |
| LocalProvider.LocalStorageProvider.GetProjectMetadata | src/storage/LocalStorageProvider.js:12-23 | null for a missing project; otherwise `{name}` of the stored record |
| LocalProvider.LocalStorageProvider.CreateProject | src/storage/LocalStorageProvider.js:25-39 | succeeds iff the write is accepted; then the stored record is `{id, name, diagrams: initialFiles}`, the metadata reads back `{name}` and the files read back as given |
| LocalProvider.LocalStorageProvider.UpdateProjectMetadata | src/storage/LocalStorageProvider.js:41-57 | false for a missing project or a refused write; otherwise only `name` changes, and only when `updates.name` is defined; one write is attempted exactly when the project exists |
| LocalProvider.LocalStorageProvider.DeleteProject | src/storage/LocalStorageProvider.js:59-67 | always true; only `project-<id>` is removed and the project is then missing; removing uses no quota |
| LocalProvider.LocalStorageProvider.GetProjectFiles | src/storage/LocalStorageProvider.js:69-80 | null for a missing project; otherwise its diagrams, `{}` when it has none |
| LocalProvider.LocalStorageProvider.GetFile | src/storage/LocalStorageProvider.js:82-92 | the stored file, or null when the project or the file is missing |
| LocalProvider.WithFile | src/storage/LocalStorageProvider.js:94-116 | the project with `diagrams[file.id]` set to the file and every other field unchanged |
| LocalProvider.Stamped | src/storage/LocalStorageProvider.js:94-116 | a file that has a version keeps it; a file without one gets the fresh version |
| LocalProvider.LocalStorageProvider.SaveFile | src/storage/LocalStorageProvider.js:94-116 | false for a missing project or a refused write; otherwise the file, versioned only if it had no version, replaces `diagrams[file.id]` and every other file reads as before; a missing project leaves the file, the id counter and the quota as they were; for an existing project one id is drawn exactly when the file had no version, and one write is attempted |
| LocalProvider.LocalStorageProvider.DeleteFile | src/storage/LocalStorageProvider.js:118-133 | false only for a missing project or a refused write; an absent file gives true with nothing written; otherwise only that file is removed; one write is attempted exactly when the file is there |
| LocalProvider.LocalStorageProvider.DuplicateProject | src/storage/LocalStorageProvider.js:135-153 | false for a missing source; otherwise the new key holds the source record with the new id and name and the same files, and the source is untouched; one write is attempted exactly when the source exists |
| LocalProvider.LocalStorageProvider.ExportProject | src/storage/LocalStorageProvider.js:155-165 | the stored text verbatim, or null when the key is absent or empty |
| LocalProvider.LocalStorageProvider.ImportProject | src/storage/LocalStorageProvider.js:167-181 | non-JSON input fails with 'Invalid project data' and writes nothing; otherwise the text is stored under its own id, `{projectId, projectName}` is returned and exporting that id gives the text back; importing the text that exporting its own id returned leaves storage exactly as it was; one write is attempted exactly when the text is JSON |
| ProviderInterface.Unimplemented | src/storage/IStorageProvider.js:9-118 | `getIcon` says 'not implemented'; every other base method says '<method> must be implemented' |
| ProviderInterface.Invoke | src/storage/IStorageProvider.js:9-118 | calling any base method fails with that method's message |
| DirectoryStore.ProjectKey | src/utils/directoryStorage.js:16-18 | the key is 'mermaiditor-directory-' followed by the project id |
| DirectoryStore.ProjectKeyOfStripped | src/utils/directoryStorage.js:79-95 | stripping the prefix from a prefixed key and re-keying gives the same key |
| DirectoryStore.VerifyDirectoryAccess | src/utils/directoryStorage.js:100-121 | false without a handle; true when the query grants; on 'prompt', true iff the re-request grants; false on denial or error |
| DirectoryStore.DirectoryStorage.constructor | src/utils/directoryStorage.js:9-11 | the store starts with the given entries |
| DirectoryStore.DirectoryStorage.GetProjectDirectory | src/utils/directoryStorage.js:39-54 | a missing id is an error; otherwise the stored handle, or null when none is stored |
| DirectoryStore.DirectoryStorage.StoreProjectDirectory | src/utils/directoryStorage.js:23-34 | a missing id or handle is an error that writes nothing; otherwise only that project's key is set, and the handle reads back |
| DirectoryStore.DirectoryStorage.ClearProjectDirectory | src/utils/directoryStorage.js:59-67 | a missing id is an error; otherwise only that project's key is deleted and the project then has no handle |
| DirectoryStore.DirectoryStorage.RemoveProjectDirectory | src/utils/directoryStorage.js:72-74 | the same state change as clearing |
| DirectoryStore.DirectoryStorage.GetAllProjectDirectories | src/utils/directoryStorage.js:79-95 | exactly the prefixed keys holding a handle, with the prefix stripped; agrees with `GetProjectDirectory` on every id |
| DirectoryStore.DirectoryStorage.RestoreProjectDirectory | src/utils/directoryStorage.js:126-153 | null when nothing is stored; a stored handle without access is deleted and null returned; otherwise the handle is returned and the store is unchanged |
| FsProvider.DiagramNameInjective | src/storage/FileSystemStorageProvider.js:360-407 | different file ids give different '<id>.mmd' names |
| FsProvider.DiagramIsNotProjectFile | src/storage/FileSystemStorageProvider.js:649-666 | a '.mmd' name never ends in '.mermaiditor-project.json' |
| FsProvider.ProjectFileNameIsProjectFile | src/storage/FileSystemStorageProvider.js:198-241 | the name given to a new project's file is one the lookup considers |
| FsProvider.StoredFile | src/storage/FileSystemStorageProvider.js:412-457 | an error when the project file has no `files`; null when the id is not in the metadata; otherwise the metadata with the '.mmd' text, '' when that file is missing |
| FsProvider.Listing | src/storage/FileSystemStorageProvider.js:462-508 | one entry per key: the metadata with its '.mmd' text |
| FsProvider.Pruned | src/storage/FileSystemStorageProvider.js:561-607 | the named files are gone, sub-folders and every other entry are kept |
| FsProvider.ContentMap | src/storage/FileSystemStorageProvider.js:699-779 | the copied contents are keyed by the same ids as the copied metadata |
| FsProvider.WithDiagramsReadBack | src/storage/FileSystemStorageProvider.js:699-779 | every copied file's '.mmd' text reads back as its content |
| FsProvider.WithDiagramsFrame | src/storage/FileSystemStorageProvider.js:699-779 | copying diagrams leaves every other entry of the target folder as it was |
| FsProvider.WithDiagramsKinds | src/storage/FileSystemStorageProvider.js:699-779 | copying diagrams creates no sub-folder |
| FsProvider.CopyFolderFacts | src/storage/FileSystemStorageProvider.js:699-779 | the copy's folder has a project file for the new id listing every copied file, whose text reads back |
| FsProvider.FileSystemStorageProvider.constructor | src/storage/FileSystemStorageProvider.js:9-13 | the handle cache starts empty |
| FsProvider.FileSystemStorageProvider.GetProjectDirectoryHandle | src/storage/FileSystemStorageProvider.js:37-51 | the cached handle if any, else the restored one, which is then cached; null if neither exists; the handle store changes only when a restore finds a stored handle without access, which is deleted |
| FsProvider.FileSystemStorageProvider.SetProjectDirectoryHandle | src/storage/FileSystemStorageProvider.js:118-121 | caches the handle and stores it under the project's key; an empty id is an error from the store |
| FsProvider.FileSystemStorageProvider.ClearProjectDirectory | src/storage/FileSystemStorageProvider.js:126-129 | forgets the handle in memory and, for a non-empty id, in the store |
| FsProvider.FileSystemStorageProvider.SelectDirectoryForProject | src/storage/FileSystemStorageProvider.js:134-157 | the picked folder is cached and stored; no picker, a cancelled pick or a failing picker give their errors and change nothing |
| FsProvider.FileSystemStorageProvider.FindProjectFile | src/storage/FileSystemStorageProvider.js:649-666 | finds a '.mermaiditor-project.json' entry whose `metadata.id` is the project id, and returns null iff there is none |
| FsProvider.FileSystemStorageProvider.LocateProject | src/storage/FileSystemStorageProvider.js:649-666 | as `FindProjectFile`, where a non-JSON project file met on the scan fails with the parse error |
| FsProvider.FileSystemStorageProvider.CreateProject | src/storage/FileSystemStorageProvider.js:198-241 | a missing id or name is an error and nothing is written; otherwise '<name>.mermaiditor-project.json' is written with theme 'default' and `selectedFileId` a key of the initial files (null when there are none); the known or picked folder is cached, a picked one is also stored, and the handle store changes in no other way |
| FsProvider.FileSystemStorageProvider.GetProjectMetadata | src/storage/FileSystemStorageProvider.js:162-193 | null without a handle; otherwise the id, name, theme ('default' when missing) and selected file of a matching project file; when no project file in the folder fails to parse, non-null iff a matching one exists; the handle store changes only as the lookup of the handle does |
| FsProvider.FileSystemStorageProvider.GetProject | src/storage/FileSystemStorageProvider.js:246-272 | null without a handle or without a matching project file; a non-JSON project file met on the scan gives the parse error; otherwise the whole parsed project file, which is found whenever a matching one exists and none fails to parse; the handle store changes only as the lookup of the handle does |
| FsProvider.FileSystemStorageProvider.GetProjectFiles | src/storage/FileSystemStorageProvider.js:277-287 | null without a handle or project; otherwise the `files` of the matching project file, which are returned whenever a matching project file exists and none fails to parse; the handle store changes only as the lookup of the handle does |
| FsProvider.FileSystemStorageProvider.UpdateProjectMetadata | src/storage/FileSystemStorageProvider.js:292-325 | true iff a handle and a matching project file exist; then only that file changes, with the updates assigned over its metadata; the handle store changes only as the lookup of the handle does |
| FsProvider.FileSystemStorageProvider.DeleteProject | src/storage/FileSystemStorageProvider.js:330-355 | whenever a handle and a project file exist, exactly that entry is removed and the handle forgotten in memory, even for the empty id; the result is true iff also the id is non-empty, and only then is the stored handle deleted, the handle store otherwise changing only as the lookup of the handle does; without a handle or project file the folder is untouched |
| FsProvider.FileSystemStorageProvider.SaveFile | src/storage/FileSystemStorageProvider.js:360-407 | throws without a handle or project; otherwise writes the content to '<id>.mmd' and a content-free metadata entry; the file reads back and every other file reads as before; it succeeds whenever the project file lists files and no sub-folder takes the '<id>.mmd' name; the handle store changes only as the lookup of the handle does |
| FsProvider.FileSystemStorageProvider.GetFile | src/storage/FileSystemStorageProvider.js:412-457 | throws without a handle or project; otherwise the stored file by the rules of `StoredFile`; the handle store changes only as the lookup of the handle does |
| FsProvider.FileSystemStorageProvider.GetFiles | src/storage/FileSystemStorageProvider.js:462-508 | throws without a handle or project; otherwise one entry per id in the metadata, each with its '.mmd' text; the handle store changes only as the lookup of the handle does |
| FsProvider.FileSystemStorageProvider.DeleteFile | src/storage/FileSystemStorageProvider.js:513-556 | throws without a handle or project; false iff the id is not in the metadata; otherwise the '.mmd' file (if any) and the metadata entry are removed, and other files read as before; it never throws once the project file exists and lists files; the handle store changes only as the lookup of the handle does |
| FsProvider.FileSystemStorageProvider.DeleteProjectFiles | src/storage/FileSystemStorageProvider.js:561-607 | throws without a handle or project; otherwise removes every listed '.mmd' file and the project file and forgets the handle in memory; it succeeds, and deletes the stored handle, iff the id is non-empty |
| FsProvider.FileSystemStorageProvider.RemoveDiagrams | src/storage/FileSystemStorageProvider.js:577-586 | exactly the named '.mmd' files disappear from the folder |
| FsProvider.FileSystemStorageProvider.ExportProject | src/storage/FileSystemStorageProvider.js:612-644 | throws without a handle or project; otherwise the project id, the `metadata.name` of its project file, and every listed file with its content; the handle store changes only as the lookup of the handle does |
| FsProvider.FileSystemStorageProvider.CopyDiagrams | src/storage/FileSystemStorageProvider.js:699-779 | on success the new folder holds each copied file's '.mmd' text and the collected metadata is one entry per file; it succeeds whenever no sub-folder takes one of the '.mmd' names |
| FsProvider.FileSystemStorageProvider.WriteCopy | src/storage/FileSystemStorageProvider.js:699-779 | on success the new folder gets the diagrams and a project file for the new id and name; it succeeds whenever no sub-folder takes the project file's or a diagram's name |
| FsProvider.FileSystemStorageProvider.DuplicateProject | src/storage/FileSystemStorageProvider.js:699-779 | false without a source handle, a source project or a picked folder; on success the picked folder holds a copy of every source file under a new project file; once the picker runs, the new project's folder is cached and (for a non-empty id) stored, and the handle store changes in no other way; it succeeds whenever the source project exists, a folder without sub-folders is picked and the new id is non-empty |
| Manager.DefaultFilesFacts | src/managers/ProjectManager.js:24-45 | the 'Default' seed has the README under the first id, then one file per template name under fresh distinct ids, each holding its template |
| Manager.TemplateFileAt | src/managers/ProjectManager.js:37-40 | the file seeded for the j-th template name has that name and its template's text |
| Manager.SeededFacts | src/managers/ProjectManager.js:24-45 | a new project has a fresh id and selects its first file; 'Default' gets README plus every template; any other name gets exactly one 'Default' file with the default content |
| Manager.CopyOf | src/managers/ProjectManager.js:147-148 | the copy has the new id and the old name followed by ' (Copy)'; nothing else changes |
| Manager.Placed | src/managers/ProjectManager.js:201-203 | the project with only `diagrams[file.id]` replaced |
| Manager.DeleteTarget | src/managers/ProjectManager.js:235-236 | the given file id if non-empty, else the selected file if non-empty, else nothing |
| Manager.ListedReopens | src/managers/ProjectManager.js:70-71 | a record listed by `getProjects` is found again under its own id, so opening the first listed project succeeds |
| Manager.ProjectManager.constructor | src/managers/ProjectManager.js:9-14 | no project is open and no file version is known |
| Manager.ProjectManager.SelectedFileId | src/managers/ProjectManager.js:159-161 | undefined when no project is open |
| Manager.ProjectManager.GetFile | src/managers/ProjectManager.js:216-221 | null without a project; a project without diagrams throws; otherwise the in-memory file, null iff absent |
| Manager.ProjectManager.GetFileFromStorage | src/managers/ProjectManager.js:223-229 | null without a project; reads the stored project (errors propagate, a missing project throws on `diagrams`) and returns its file |
| Manager.ProjectManager.CheckVersionConflict | src/managers/ProjectManager.js:276-290 | a conflict iff the stored file exists and its version differs from the editor's, reporting name, storage version and editor version; no conflict right after `SaveFile` or `OpenFile` |
| Manager.ProjectManager.SaveProject | src/managers/ProjectManager.js:47-51 | writes the project under its key and makes it the open project, which then reads back from storage; a quota error changes nothing |
| Manager.ProjectManager.OpenProject | src/managers/ProjectManager.js:58-63 | makes the stored project the open one and records its id as last selected; a missing project throws on `id` and leaves no open project; with an unlimited quota it succeeds iff the project is stored and parses |
| Manager.ProjectManager.SeedTemplates | src/managers/ProjectManager.js:37-40 | one file per template name, under the next ids in order |
| Manager.ProjectManager.NewProject | src/managers/ProjectManager.js:24-45 | the seeded project described by `SeededFacts`, using 2, or 2 plus one per template, fresh ids |
| Manager.ProjectManager.CreateProject | src/managers/ProjectManager.js:16-22 | the new project is saved, opened and recorded as last selected: storage is the old storage plus its record and the last-selected key, and nothing else; a refused write leaves storage as it was, or with only the record written when the second write is refused; with an unlimited quota it always succeeds |
| Manager.ProjectManager.GetProjects | src/managers/ProjectManager.js:100-112 | the stored project records, each exactly once (as a multiset), sorted by name; a non-JSON record gives the parse error |
| Manager.ProjectManager.DeleteProject | src/managers/ProjectManager.js:65-77 | false without a project; otherwise the record is removed and a project is open afterwards: the first remaining by name (storage is the rest plus its last-selected key), or a new 'Default' (storage is the rest plus its record and key) when none remain; a refused write leaves the rest, or the rest plus the new 'Default' record; with an unlimited quota and readable records it returns true |
| Manager.ProjectManager.ReopenAfterDelete | src/managers/ProjectManager.js:70-75 | opens the first stored project by name, recording it as last selected and changing nothing else, or, when none is stored, creates and opens a new 'Default'; with an unlimited quota and readable records it succeeds |
| Manager.ProjectManager.ImportProject | src/managers/ProjectManager.js:122-137 | non-JSON input throws and writes nothing; a stored record that fails to parse gives the parse error; an existing id reports that conflict and writes nothing; otherwise the project is saved and opened (storage gains exactly its record and the last-selected key), which always succeeds with an unlimited quota |
| Manager.ProjectManager.ResolveImportConflict | src/managers/ProjectManager.js:139-157 | 'overwrite' saves and opens the project under its id; 'create-copy' saves and opens a copy with a fresh id and ' (Copy)' name; on success storage gains exactly that record and the last-selected key; both return true with an unlimited quota; any other action returns false and changes nothing |
| Manager.ProjectManager.Reload | src/managers/ProjectManager.js:187 | the open project becomes the stored one; a missing project clears it, and the next `diagrams` read throws |
| Manager.ProjectManager.SetSelectedFile | src/managers/ProjectManager.js:163-169 | without a project nothing happens; otherwise `selectedFile` is set and the project saved |
| Manager.ProjectManager.SaveFile | src/managers/ProjectManager.js:196-207 | false without a project; a stored project that fails to parse gives the parse error before the file is stamped; a stored project that is gone stamps the file, clears the open project and throws on `diagrams`; otherwise the file gets a fresh version and is stored under its id in the reloaded project, which is the only record written, `fileVersion` is that version, and no conflict is reported; it returns true whenever the quota is unlimited and the stored project has diagrams |
| Manager.ProjectManager.OpenFile | src/managers/ProjectManager.js:182-194 | null without a project or when the reloaded project lacks the id, with `fileVersion` and storage untouched and the reloaded project open; otherwise the stored file, whose version becomes `fileVersion`, and the file becomes selected in the project record, the only entry written; with an unlimited quota and a stored project with diagrams, the file is returned iff the project lists it |
| Manager.ProjectManager.GetFiles | src/managers/ProjectManager.js:209-214 | [] without a project; otherwise the project's files, each exactly once (as a multiset), sorted by name |
| Manager.ProjectManager.CreateFile | src/managers/ProjectManager.js:171-180 | null without a project; otherwise a file with fresh id, the given name and the content or the default, added to the reloaded project (every other file and field as reloaded), saved and selected, the project record being the only entry written; it succeeds whenever the quota is unlimited and the stored project has diagrams |
| Manager.ProjectManager.DeleteFile | src/managers/ProjectManager.js:231-249 | false (`None`) without a project or target; otherwise the file is removed from the saved project, the only record written, which never ends empty: the first remaining file by name is selected, or a new 'Default' file is created; every other file and field is kept; it succeeds whenever the quota is unlimited and the project has diagrams |
| Manager.ProjectManager.SelectAfterDelete | src/managers/ProjectManager.js:241-247 | once the project without the file is saved: the first remaining file by name is selected, or, when none remains, a new 'Default' file with the default content is created and selected; the project record is the only entry written, and with an unlimited quota this succeeds |
| Manager.ProjectManager.RenameFile | src/managers/ProjectManager.js:251-261 | false without a project or file; the file is renamed in the open project first, so a stored project that fails to parse leaves the renamed file open and throws; otherwise the file is saved with the new name and a fresh version into the reloaded project, the only record written, every other file and field as reloaded; it returns true whenever the quota is unlimited and the file is stored |
| Manager.ProjectManager.DuplicateFile | src/managers/ProjectManager.js:263-274 | null without a project or file; otherwise a copy with a fresh id and the new name is added to the reloaded project (every other file and field as reloaded), saved and selected, the project record being the only entry written; it succeeds whenever the quota is unlimited and the file is stored |
| Manager.ProjectManager.OpenLastSelectedProject | src/managers/ProjectManager.js:327-347 | on success a project is open: the last selected if stored, else the first by name (both only rewrite the last-selected key), else a new 'Default' (its record and the key are written); with an unlimited quota and readable records it always succeeds |
| Migration.MigratedDiagram | src/managers/StorageMigrationManager.js:178-183 | keeps the diagram id; name defaults to 'Untitled' and content to ''; an existing version is kept, otherwise a new one is used |
| Migration.MigratedDiagrams | src/managers/StorageMigrationManager.js:176-185 | the migrated diagrams have exactly the ids of the legacy diagrams |
| Migration.Selection | src/managers/StorageMigrationManager.js:168 | the selected file, falling back to an existing `selectedFileId`; never empty |
| Migration.MigratedRecordAsWritten | src/managers/StorageMigrationManager.js:164-187 | the record as the code builds it: the project id, 'Unnamed Project' and 'default' defaults, `selectedFileId` from `selectedFile` only, migrated diagrams |
| Migration.MigratedRecord | src/managers/StorageMigrationManager.js:164-187 | the same record with the selection kept, and it still looks like a legacy record |
| Migration.ReferenceFor | src/managers/StorageMigrationManager.js:189-200 | the reference `{id, 'localStorage', {}, theme or 'default', selection}`, which `ProjectReference.FromObject` reads back unchanged |
| Migration.RefKeyFacts | src/managers/StorageMigrationManager.js:127-131 | a 'project-ref-' key is never taken for a project record nor for the version key |
| Migration.RefOfCandidateKey | src/managers/StorageMigrationManager.js:199-200 | the reference key of a record needing migration is one a migration step may write |
| Migration.EvolvesTransitive | src/managers/StorageMigrationManager.js:108-115 | the allowed changes of successive migration steps compose: only records needing migration and their own 'project-ref-' keys are rewritten, and only with JSON |
| Migration.CandidatesShrink | src/managers/StorageMigrationManager.js:123-153 | a migration step never creates a new project needing migration |
| Migration.VersionWriteKeepsCandidates | src/managers/StorageMigrationManager.js:95 | writing the version key does not change which projects need migration |
| Migration.VersionsOfMigrated | src/managers/StorageMigrationManager.js:176-185 | migrating with the versions a migrated record holds reproduces that record |
| Migration.AsWrittenRerunDropsSelection | src/managers/StorageMigrationManager.js:168 | a record migrated by the code as written, migrated again, loses its selected file |
| Migration.MigrationIdempotent | src/managers/StorageMigrationManager.js:158-203 | migrating an already migrated record changes nothing, and its reference is the one the first run wrote |
| Migration.NothingLeft | src/managers/StorageMigrationManager.js:102-118 | once every candidate is migrated, no project needs migration |
| Migration.MigrationStep | src/managers/StorageMigrationManager.js:108-115 | migrating the next project keeps the earlier ones migrated and stays within the allowed changes |
| Migration.VersionWriteKeepsMigrated | src/managers/StorageMigrationManager.js:95 | writing the version key after a complete migration keeps it complete |
| Migration.HeldOfMigrated | src/managers/StorageMigrationManager.js:176-185 | a migrated record holds, for each diagram that had no version, the id minted for it |
| Migration.FreshIdsDistinct | src/managers/StorageMigrationManager.js:176-185 | when the unversioned diagrams hold fresh ids, no two of them hold the same id |
| Migration.NoneVersionedYet | src/managers/StorageMigrationManager.js:105-109 | before any record is migrated, no fresh id is owed |
| Migration.FreshStep | src/managers/StorageMigrationManager.js:108-115 | migrating one more record, with ids minted after the earlier ones, keeps every id held so far fresh and distinct and adds the new record's |
| Migration.FreshLoopStep | src/managers/StorageMigrationManager.js:108-115 | one pass of the migration loop keeps the ids of the records migrated so far fresh and distinct |
| Migration.EachStep | src/managers/StorageMigrationManager.js:108-115 | one successful pass of the migration loop keeps the earlier records migrated, the changes allowed and the minted ids fresh, and migrates the next record |
| Migration.VersionWriteKeepsFresh | src/managers/StorageMigrationManager.js:95 | writing the version key leaves the ids the records hold fresh and distinct |
| Migration.ParseTwo | src/managers/StorageMigrationManager.js:32-42 | the written version text '2' parses back as version 2 |
| Migration.Dashed | src/managers/StorageMigrationManager.js:210 | every ':' and '.' of the timestamp becomes '-', and nothing else changes |
| Migration.StorageMigrationManager.constructor | src/managers/StorageMigrationManager.js:8-12 | the manager works on the given storage |
| Migration.StorageMigrationManager.HasLegacyProjectData | src/managers/StorageMigrationManager.js:47-64 | true iff some 'project-' (not 'project-ref-') entry parses to a record with diagrams and no metadata; unparseable entries are skipped |
| Migration.StorageMigrationManager.GetCurrentStorageVersion | src/managers/StorageMigrationManager.js:32-42 | without a version key, 1 if legacy data exists and 2 otherwise; with one, its integer value |
| Migration.StorageMigrationManager.FindLegacyProjects | src/managers/StorageMigrationManager.js:123-153 | exactly the legacy records without a 'project-ref-' entry, each once with its id and parsed data |
| Migration.StorageMigrationManager.ConvertDiagrams | src/managers/StorageMigrationManager.js:176-185 | the migrated diagrams; fresh versions are minted exactly for diagrams without one, all distinct and new |
| Migration.StorageMigrationManager.MigrateLegacyProject | src/managers/StorageMigrationManager.js:158-203 | succeeds iff both writes are accepted, using two writes; then the record and its reference are written as `MigratedRecord` and `ReferenceFor` state |
| Migration.StorageMigrationManager.MigrateEach | src/managers/StorageMigrationManager.js:108-115 | migrates the found records in order, making only allowed changes; on success each is migrated and every diagram that had no version holds a fresh id of this run, no two the same; it stops only on the quota error, and it succeeds whenever the quota covers two writes per record |
| Migration.StorageMigrationManager.MigrateV1ToV2 | src/managers/StorageMigrationManager.js:102-118 | on success every legacy project is migrated, none remains, and the diagrams that had no version hold distinct ids minted by this run; on failure only allowed changes were made and the version key is untouched; it succeeds whenever the quota covers two writes per legacy project |
| Migration.StorageMigrationManager.RunMigrations | src/managers/StorageMigrationManager.js:69-97 | on success the version key is '2' and every legacy project from a version below 2 is migrated, with fresh distinct ids for its unversioned diagrams; on failure the version key is unwritten and every other change is one the migration allows (a migrated record or its reference); a refused migration write gives 'Migration failed: ' and the quota error, a refused version-key write gives the bare quota error, with every legacy project already migrated; it succeeds whenever the quota covers two writes per legacy project plus the version key |
| Migration.StorageMigrationManager.PerformMigrationIfNeeded | src/managers/StorageMigrationManager.js:17-27 | storage at version 2 or above is left untouched; otherwise, on success, storage is at version 2 with every legacy project migrated and fresh distinct ids for its unversioned diagrams; on failure the version key is unwritten and every other change is one the migration allows; it succeeds whenever the quota covers two writes per legacy project plus the version key |
| Migration.StorageMigrationManager.CreateBackup | src/managers/StorageMigrationManager.js:208-228 | returns the backup key, with every key's text in one snapshot, iff the write is accepted; a refused write returns null and changes nothing |
| Migration.StorageMigrationManager.RestoreFromBackup | src/managers/StorageMigrationManager.js:233-255 | a missing backup throws 'Backup not found' and a non-JSON one the parse error, both changing nothing; otherwise storage holds exactly the snapshot's entries, or a part of them if the quota runs out |
| Migration.StorageMigrationManager.Refill | src/managers/StorageMigrationManager.js:243-248 | an empty storage receives the entries; it holds all of them iff the quota covers them, and never anything else |
| Migration.StorageMigrationManager.GetMigrationStatus | src/managers/StorageMigrationManager.js:260-272 | current and target versions, the legacy flag, whether migration is needed and, only then, the number of projects needing it |
| Migration.StorageMigrationManager.BackupThenRestore | src/managers/StorageMigrationManager.js:208-255 | restoring a fresh backup gives back the storage as it was before the backup (the empty key aside); with no quota it always succeeds |

## Left out

- `ProjectManager.renameProject`, `duplicateProject`, `exportProject`, `getProject`, `setTheme`, `getTheme` and `getSelectedProject` (src/managers/ProjectManager.js:53-56, 79-98, 114-120, 311-325) are thin wrappers around `SaveProject`, `OpenProject` and `StorageUtils.GetProject`. They are not modelled separately.
- `ProjectManager.generateShareUrl` and `importFromUrl` need LZString, `atob` and `window.location`. They are not modelled; `ImportProject` covers the imported text.
- Logging (src/Logger.js and every `logger` call) prints only.
- Timestamps (`createdAt`, `modifiedAt`, `exportedAt`, `lastModified`) are omitted, and so is the clock that makes them. The backup key takes the timestamp as a parameter.
- async/await and `Promise.all`: every operation runs to completion before the next one starts. Concurrent editors are modelled only through `Reload` re-reading storage.
- `FileSystemStorageProvider.isSupported`, `initialize`, `getIcon`, `discoverProjectsInDirectory`, `openDiscoveredProject`, `tryAutoInitialize`, `clearStoredDirectory`, `getDisplayName` and `getProviderId` are browser plumbing. `clearStoredDirectory` and `tryAutoInitialize` also call functions that src/utils/directoryStorage.js does not define.
- Folder contents below the top level of a project folder are not modelled. A sub-folder is an opaque entry that blocks a file of the same name.
- Manager.ProjectManager.GetProjects: `localeCompare` is replaced by code-point order, so names that collate differently in a locale may sort differently. A nameless record is sorted as 'undefined'; the code's TypeError for a nameless record is not modelled.
- Manager.ProjectManager.GetFiles: same ordering simplification as `GetProjects`.
- Manager.ProjectManager.GetProjects and Manager.ProjectManager.GetFiles: the order of records with equal names is left open, where `Array.prototype.sort` is stable and keeps the storage order; since key order is not modelled either, the stable order has nothing to be stated against.
- FsProvider.FileSystemStorageProvider.CreateProject: `selectedFileId` is stated to be some key of the initial files, where the code takes `Object.keys(initialFiles)[0]`, the first in insertion order; maps carry no insertion order here.
- FsProvider.FileSystemStorageProvider.DuplicateProject: success is promised only for a picked folder without sub-folders; a sub-folder whose name no copied file takes would not stop the code either.
- FsProvider.FileSystemStorageProvider.GetProjectMetadata: a project file that fails to parse stops the scan with null, even if a matching project file comes later in directory order, which is not modelled; so "non-null iff a matching project file exists" is stated only for folders without unreadable project files.
- Migration.ReferenceFor: writes the corrected selection (`selectedFile`, else an existing `selectedFileId`) into the reference, where src/managers/StorageMigrationManager.js:195 copies the record's `selectedFile || null`; the as-written record is `MigratedRecordAsWritten` (see "## Findings").
- Migration.StorageMigrationManager.MigrateLegacyProject: writes `MigratedRecord`, the corrected selection, where src/managers/StorageMigrationManager.js:168 writes `selectedFile || null`; the two differ only for a record that already holds a `selectedFileId`, the re-run case of "## Findings".
- Migration.StorageMigrationManager.MigrateEach, Migration.StorageMigrationManager.MigrateV1ToV2, Migration.StorageMigrationManager.RunMigrations: through `MigrateLegacyProject`, they describe the corrected records.
- Migration.StorageMigrationManager.PerformMigrationIfNeeded: through `MigrateLegacyProject`, it describes the corrected records.
- Manager.ProjectManager.CreateProject, Manager.ProjectManager.DeleteProject, Manager.ProjectManager.ReopenAfterDelete, Manager.ProjectManager.ImportProject, Manager.ProjectManager.ResolveImportConflict, Manager.ProjectManager.OpenLastSelectedProject, Manager.ProjectManager.CreateFile, Manager.ProjectManager.DuplicateFile: on a refused write the new storage is stated as one of two states (nothing written, or only the project record written) rather than tied to which write the quota refused.
- Manager.ProjectManager.DeleteFile: the storage after a refused write is not stated; the success path and the no-target path state it.
- FsProvider.FileSystemStorageProvider.SaveFile: when it throws after the project file is found (no `files` in it, or a sub-folder named '<id>.mmd'), the folder contents are not stated; the code may already have written the '.mmd' file.
- FsProvider.FileSystemStorageProvider.DuplicateProject: when it returns false after the picker ran (a write into the picked folder fails), the picked folder's contents are not stated; the code leaves the files already copied there.
- Migration.StorageMigrationManager.RunMigrations and Migration.StorageMigrationManager.PerformMigrationIfNeeded: after a refused migration write, the storage is stated only as a state the migration allows (`Evolves`: each changed entry is a migrated record or its reference, and the version key is untouched), because which records were already rewritten depends on the unspecified key order.
- null and undefined are both `None`, and a JSON text that is not an object (a number, array or string) is treated like unparseable text.
- Aliasing: `ProjectManager.saveFile` stamps the caller's file object in place (`file.version = uuidv4()`), also when the reload then throws because the project is gone. The model returns the stamped copy in `stamped` on both paths instead of mutating a shared object; `RenameFile` likewise writes the renamed file into the open project rather than into a file object shared with it.
- Manager.ProjectManager.CheckVersionConflict: because null and undefined are merged, a stored version of null compared with an editor version of undefined counts as equal, where the source reports a conflict. The same merge hides the conflict the source reports for a seeded file, whose version is undefined, compared with the `fileVersion` of null set by the constructor (src/managers/ProjectManager.js:13 and 281).
- `IStorageProvider` is an abstract class that both providers extend. The model has no subclassing: it lists the base methods as an enumeration with their failure messages, and each provider is its own class.
- src/utils/compression.js, the UI, rendering, export and viewport managers and the two legacy monolithic scripts contain no storage logic beyond calls into the modelled classes.

## Findings

| source | as written | input that shows it | evidently intended | confidence | as-written member | corrected member |
|---|---|---|---|---|---|---|
| src/managers/StorageMigrationManager.js:168 | `selectedFileId: data.selectedFile \|\| null`: the selection is read only from `selectedFile` | A migration rewrites record `project-p1` (`selectedFile: 'f1'`) to one holding `selectedFileId: 'f1'`. The write of `project-ref-p1` then fails on the quota, so the record still counts as legacy. The next run migrates it again and reads `selectedFile`, which is now absent, so the selection becomes null. | keep the selection on a re-run: `data.selectedFile \|\| data.selectedFileId \|\| null` | not executed | Migration.AsWrittenRerunDropsSelection | Migration.MigrationIdempotent |

/**
 * The per-project cache of directory handles kept in IndexedDB (through idb-keyval),
 * under the key 'mermaiditor-directory-' + project id. Before a stored handle is used
 * again its permission is re-checked, and a handle that lost its permission is evicted.
 */
module DirectoryStore {
  import opened Wrappers
  import opened Js
  import opened Folders

  const KeyPrefix := "mermaiditor-directory-"
  const ProjectIdRequired := "Project ID is required"
  const HandleRequired := "Directory handle is required"

  /** An IndexedDB key: a string, or a key of another type (number, date, array). */
  datatype IdbKey = Str(s: string) | NonString(n: int)

  /** A stored value: a directory handle, or a falsy value (null, undefined, ''). */
  datatype Slot = Held(handle: Handle) | Blank

  /** What queryPermission and requestPermission({mode: 'readwrite'}) answer; Throws: the call rejects. */
  datatype Permission = Granted | Prompt | Denied | Throws

  /** The browser's answers for the handle being checked. */
  datatype Access = Access(query: Permission, request: Permission)

  function ProjectKey(projectId: string): (r: string)
    ensures StartsWith(r, KeyPrefix) && r[|KeyPrefix|..] == projectId
  {
    KeyPrefix + projectId
  }

  lemma ProjectKeyOfStripped(k: string)
    requires StartsWith(k, KeyPrefix)
    ensures ProjectKey(k[|KeyPrefix|..]) == k
  {
  }

  /** `!projectId`: undefined, null and '' are missing. */
  predicate Missing(projectId: Option<string>) {
    projectId.None? || projectId.value == ""
  }

  /**
   * verifyDirectoryAccess(handle): a granted permission, or a prompt that the re-request
   * turns into a grant. A rejected query or request counts as no access.
   */
  function VerifyDirectoryAccess(handle: Option<Handle>, access: Access): (r: bool)
    ensures r ==> handle.Some?
    ensures handle.Some? && access.query == Granted ==> r
    ensures access.query == Prompt ==> (r <==> handle.Some? && access.request == Granted)
    ensures access.query == Denied || access.query == Throws ==> !r
  {
    if handle.None? then false
    else match access.query
      case Granted => true
      case Prompt => access.request == Granted
      case _ => false
  }

  class DirectoryStorage {
    /** The idb-keyval store. */
    var db: map<IdbKey, Slot>

    constructor (initial: map<IdbKey, Slot>)
      ensures db == initial
    {
      db := initial;
    }

    /** getProjectDirectory(projectId): the stored handle, or null when none (or a falsy value) is stored. */
    function GetProjectDirectory(projectId: Option<string>): (r: Result<Option<Handle>>)
      reads this
      ensures r.Err? <==> Missing(projectId)
      ensures r.Err? ==> r.message == ProjectIdRequired
      ensures r.Ok? ==> (r.value.Some? <==> Str(ProjectKey(projectId.value)) in db && db[Str(ProjectKey(projectId.value))].Held?)
      ensures r.Ok? && r.value.Some? ==> db[Str(ProjectKey(projectId.value))] == Held(r.value.value)
    {
      if Missing(projectId) then Err(ProjectIdRequired)
      else
        var key := Str(ProjectKey(projectId.value));
        if key in db && db[key].Held? then Ok(Some(db[key].handle)) else Ok(None)
    }

    /** storeProjectDirectory(projectId, directoryHandle). */
    method StoreProjectDirectory(projectId: Option<string>, handle: Option<Handle>) returns (r: Result<()>)
      modifies this
      ensures r.Ok? <==> !Missing(projectId) && handle.Some?
      ensures Missing(projectId) ==> r == Err(ProjectIdRequired)
      ensures !Missing(projectId) && handle.None? ==> r == Err(HandleRequired)
      ensures r.Err? ==> db == old(db)
      ensures r.Ok? ==> db == old(db)[Str(ProjectKey(projectId.value)) := Held(handle.value)]
      ensures r.Ok? ==> GetProjectDirectory(projectId) == Ok(handle)
    {
      if Missing(projectId) {
        return Err(ProjectIdRequired);
      }
      if handle.None? {
        return Err(HandleRequired);
      }
      db := db[Str(ProjectKey(projectId.value)) := Held(handle.value)];
      r := Ok(());
    }

    /** clearProjectDirectory(projectId): deletes that project's key and no other. */
    method ClearProjectDirectory(projectId: Option<string>) returns (r: Result<()>)
      modifies this
      ensures r.Err? <==> Missing(projectId)
      ensures r.Err? ==> r.message == ProjectIdRequired && db == old(db)
      ensures r.Ok? ==> db == old(db) - {Str(ProjectKey(projectId.value))}
      ensures r.Ok? ==> GetProjectDirectory(projectId) == Ok(None)
    {
      if Missing(projectId) {
        return Err(ProjectIdRequired);
      }
      db := db - {Str(ProjectKey(projectId.value))};
      r := Ok(());
    }

    /** removeProjectDirectory(projectId): the same operation as clearProjectDirectory. */
    method RemoveProjectDirectory(projectId: Option<string>) returns (r: Result<()>)
      modifies this
      ensures r.Err? <==> Missing(projectId)
      ensures r.Err? ==> r.message == ProjectIdRequired && db == old(db)
      ensures r.Ok? ==> db == old(db) - {Str(ProjectKey(projectId.value))}
    {
      r := ClearProjectDirectory(projectId);
    }

    /**
     * getAllProjectDirectories(): for every string key with the prefix, the project id
     * (the key without the prefix) and its handle; falsy values are skipped. Keys are
     * visited in an unspecified order.
     */
    method GetAllProjectDirectories() returns (r: map<string, Handle>)
      ensures forall id :: id in r <==> Str(ProjectKey(id)) in db && db[Str(ProjectKey(id))].Held?
      ensures forall id :: id in r ==> db[Str(ProjectKey(id))] == Held(r[id])
      ensures forall id :: id != "" ==> GetProjectDirectory(Some(id)) == Ok(if id in r then Some(r[id]) else None)
    {
      r := map[];
      var todo := db.Keys;
      while todo != {}
        invariant todo <= db.Keys
        invariant forall id :: id in r <==> Str(ProjectKey(id)) in db && Str(ProjectKey(id)) !in todo && db[Str(ProjectKey(id))].Held?
        invariant forall id :: id in r ==> db[Str(ProjectKey(id))] == Held(r[id])
        decreases |todo|
      {
        var k :| k in todo;
        if k.Str? && StartsWith(k.s, KeyPrefix) && db[k].Held? {
          ProjectKeyOfStripped(k.s);
          r := r[k.s[|KeyPrefix|..] := db[k].handle];
        }
        todo := todo - {k};
      }
    }

    /**
     * restoreProjectDirectory(projectId): the stored handle when it still has access;
     * otherwise null, evicting a stored handle that lost its access. A missing id makes
     * the lookup and the eviction throw, both caught: null and nothing changes.
     */
    method RestoreProjectDirectory(projectId: Option<string>, access: Access) returns (r: Option<Handle>)
      modifies this
      ensures var stored := old(GetProjectDirectory(projectId));
        if stored.Ok? && stored.value.Some? then
          if VerifyDirectoryAccess(stored.value, access) then r == stored.value && db == old(db)
          else r.None? && db == old(db) - {Str(ProjectKey(projectId.value))}
        else r.None? && db == old(db)
      ensures r.Some? ==> GetProjectDirectory(projectId) == Ok(r) && VerifyDirectoryAccess(r, access)
      ensures r.None? && !Missing(projectId) ==> GetProjectDirectory(projectId) == Ok(None)
    {
      var stored := GetProjectDirectory(projectId);
      if stored.Err? {
        var _ := ClearProjectDirectory(projectId);
        return None;
      }
      if stored.value.None? {
        return None;
      }
      if !VerifyDirectoryAccess(stored.value, access) {
        var _ := ClearProjectDirectory(projectId);
        return None;
      }
      r := stored.value;
    }
  }
}

/**
 * utils/storage.js: projects kept under "project-<id>" and loose files under "file-<id>"
 * in localStorage, each as JSON text.
 */
module StorageUtils {
  import opened Wrappers
  import opened Js
  import opened LocalStore

  function ProjectKey(id: string): string {
    "project-" + id
  }

  function FileKey(id: string): string {
    "file-" + id
  }

  /** Keys built from the same prefix are equal only for equal ids. */
  lemma PrefixedKeyInjective(prefix: string, a: string, b: string)
    requires prefix + a == prefix + b
    ensures a == b
  {
    assert a == (prefix + a)[|prefix|..];
    assert b == (prefix + b)[|prefix|..];
  }

  /**
   * `text ? JSON.parse(text) : null` on the text under key: null for a missing key or an
   * empty string, a thrown SyntaxError for text that is not JSON.
   */
  function Load(items: map<string, Text>, key: string): (r: Result<Option<Doc>>)
    ensures r == Ok(None) <==> key !in items || !Truthy(items[key])
    ensures r.Err? <==> key in items && Truthy(items[key]) && items[key].Raw?
    ensures r.Ok? && r.value.Some? ==> key in items && r.value.value == ParsedDoc(items[key])
  {
    if key !in items || !Truthy(items[key]) then Ok(None)
    else
      match Parse(items[key])
      case Ok(d) => Ok(Some(d))
      case Err(m) => Err(m)
  }

  /** Storing a record and loading it back gives the record. */
  lemma {:induction false} StoredThenLoaded(items: map<string, Text>, key: string, d: Doc)
    ensures Load(items[key := Json(d)], key) == Ok(Some(d))
  {
  }

  /** Writing one key does not change what another key loads. */
  lemma {:induction false} OtherKeyUnchanged(items: map<string, Text>, key: string, other: string, t: Text)
    requires other != key
    ensures Load(items[key := t], other) == Load(items, other)
  {
    assert other in items[key := t] <==> other in items;
  }

  /** The keys of the store that start with prefix. */
  ghost function Prefixed(items: map<string, Text>, prefix: string): set<string> {
    set k | k in items && StartsWith(k, prefix)
  }

  predicate Distinct(s: seq<string>) {
    forall i, j :: 0 <= i < j < |s| ==> s[i] != s[j]
  }

  /** saveProject(project): stores the project's JSON under "project-<id>". */
  method SaveProject(store: LocalStorage, project: Doc) returns (r: Result<()>)
    modifies store
    ensures r.Ok? <==> Accepts(old(store.writesLeft))
    ensures r.Err? ==> r.message == QuotaExceeded
    ensures r.Ok? ==> store.items == old(store.items)[ProjectKey(Show(project.id)) := Json(project)]
    ensures r.Ok? ==> GetProject(store, Show(project.id)) == Ok(Some(project))
    ensures r.Err? ==> store.items == old(store.items)
    ensures store.writesLeft == Spend(old(store.writesLeft))
  {
    r := store.SetItem(ProjectKey(Show(project.id)), Json(project));
  }

  /**
   * getProject(id): null when "project-<id>" is missing or empty, the parse error when it
   * is not JSON, otherwise the record it holds.
   */
  function GetProject(store: LocalStorage, id: string): (r: Result<Option<Doc>>)
    reads store
    ensures r == Ok(None) <==> ProjectKey(id) !in store.items || store.items[ProjectKey(id)] == Raw("")
    ensures r.Err? <==> ProjectKey(id) in store.items && store.items[ProjectKey(id)].Raw? && store.items[ProjectKey(id)] != Raw("")
    ensures r.Err? ==> r.message == ParseErrorMessage
    ensures r.Ok? && r.value.Some? ==> ProjectKey(id) in store.items && Parse(store.items[ProjectKey(id)]) == Ok(r.value.value)
  {
    Load(store.items, ProjectKey(id))
  }

  /**
   * getProjects(): every record under a key starting "project-" (which includes the
   * "project-ref-" records), in the store's key order; the first unparseable one throws.
   */
  method GetProjects(store: LocalStorage) returns (r: Result<seq<Doc>>, ghost keys: seq<string>)
    ensures r.Err? <==> exists k :: k in Prefixed(store.items, "project-") && store.items[k].Raw?
    ensures r.Err? ==> r.message == ParseErrorMessage
    ensures r.Ok? ==> Distinct(keys) && (forall k :: k in keys <==> k in Prefixed(store.items, "project-"))
    ensures r.Ok? ==> |r.value| == |keys| && forall i :: 0 <= i < |keys| ==> keys[i] in store.items && r.value[i] == ParsedDoc(store.items[keys[i]])
  {
    var items := store.items;
    var todo := items.Keys;
    var found: seq<Doc> := [];
    keys := [];
    while todo != {}
      invariant todo <= items.Keys
      invariant forall k :: k in keys <==> k in items && k !in todo && StartsWith(k, "project-")
      invariant Distinct(keys)
      invariant |found| == |keys| && forall i :: 0 <= i < |keys| ==> found[i] == ParsedDoc(items[keys[i]])
      invariant forall k :: k in items && k !in todo && StartsWith(k, "project-") ==> !items[k].Raw?
      decreases |todo|
    {
      var k :| k in todo;
      todo := todo - {k};
      if StartsWith(k, "project-") {
        var parsed := Parse(items[k]);
        if parsed.Err? {
          return Err(parsed.message), keys;
        }
        found := found + [parsed.value];
        keys := keys + [k];
      }
    }
    r := Ok(found);
  }

  /** The records parsed from the texts under keys, in the order of keys. */
  ghost function RecordsAt(items: map<string, Text>, keys: seq<string>): seq<Doc> {
    seq(|keys|, i requires 0 <= i < |keys| => if keys[i] in items then ParsedDoc(items[keys[i]]) else EmptyDoc)
  }

  /** deleteProject(id): removes "project-<id>" and nothing else. */
  method DeleteProject(store: LocalStorage, id: string)
    modifies store
    ensures store.items == old(store.items) - {ProjectKey(id)}
    ensures store.writesLeft == old(store.writesLeft)
  {
    store.RemoveItem(ProjectKey(id));
  }

  /** saveFile(file): stores the file's JSON under "file-<id>". */
  method SaveFile(store: LocalStorage, file: Doc) returns (r: Result<()>)
    modifies store
    ensures r.Ok? <==> Accepts(old(store.writesLeft))
    ensures r.Err? ==> r.message == QuotaExceeded
    ensures r.Ok? ==> store.items == old(store.items)[FileKey(Show(file.id)) := Json(file)]
    ensures r.Ok? ==> GetFile(store, Show(file.id)) == Ok(Some(file))
    ensures r.Err? ==> store.items == old(store.items)
    ensures store.writesLeft == Spend(old(store.writesLeft))
  {
    r := store.SetItem(FileKey(Show(file.id)), Json(file));
  }

  /**
   * getFile(id): null when "file-<id>" is missing or empty, the parse error when it is not
   * JSON, otherwise the record it holds.
   */
  function GetFile(store: LocalStorage, id: string): (r: Result<Option<Doc>>)
    reads store
    ensures r == Ok(None) <==> FileKey(id) !in store.items || store.items[FileKey(id)] == Raw("")
    ensures r.Err? <==> FileKey(id) in store.items && store.items[FileKey(id)].Raw? && store.items[FileKey(id)] != Raw("")
    ensures r.Err? ==> r.message == ParseErrorMessage
    ensures r.Ok? && r.value.Some? ==> FileKey(id) in store.items && Parse(store.items[FileKey(id)]) == Ok(r.value.value)
  {
    Load(store.items, FileKey(id))
  }

  /**
   * getFiles(projectId): the records under "file-" keys whose projectId is projectId; an
   * unparseable "file-" record throws whichever project it belongs to.
   */
  method GetFiles(store: LocalStorage, projectId: Option<string>) returns (r: Result<seq<Doc>>, ghost keys: seq<string>)
    ensures r.Err? <==> exists k :: k in Prefixed(store.items, "file-") && store.items[k].Raw?
    ensures r.Err? ==> r.message == ParseErrorMessage
    ensures r.Ok? ==> Distinct(keys) && |r.value| == |keys|
    ensures r.Ok? ==> forall k :: k in keys <==> k in Prefixed(store.items, "file-") && ParsedDoc(store.items[k]).projectId == projectId
    ensures r.Ok? ==> forall i :: 0 <= i < |keys| ==> keys[i] in store.items && r.value[i] == ParsedDoc(store.items[keys[i]])
    ensures r.Ok? ==> forall d :: d in r.value ==> d.projectId == projectId
  {
    var items := store.items;
    var todo := items.Keys;
    var found: seq<Doc> := [];
    keys := [];
    while todo != {}
      invariant todo <= items.Keys
      invariant forall k :: k in keys <==> k in items && k !in todo && StartsWith(k, "file-") && ParsedDoc(items[k]).projectId == projectId
      invariant Distinct(keys)
      invariant |found| == |keys| && forall i :: 0 <= i < |keys| ==> found[i] == ParsedDoc(items[keys[i]])
      invariant forall k :: k in items && k !in todo && StartsWith(k, "file-") ==> !items[k].Raw?
      decreases |todo|
    {
      var k :| k in todo;
      todo := todo - {k};
      if StartsWith(k, "file-") {
        var parsed := Parse(items[k]);
        if parsed.Err? {
          return Err(parsed.message), keys;
        }
        if parsed.value.projectId == projectId {
          found := found + [parsed.value];
          keys := keys + [k];
        }
      }
    }
    r := Ok(found);
  }

  /** deleteFile(id): removes "file-<id>" and nothing else. */
  method DeleteFile(store: LocalStorage, id: string)
    modifies store
    ensures store.items == old(store.items) - {FileKey(id)}
    ensures store.writesLeft == old(store.writesLeft)
  {
    store.RemoveItem(FileKey(id));
  }
}

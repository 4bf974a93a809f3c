/**
 * managers/StorageMigrationManager.js: the storage format version lives under one
 * localStorage key. Version 1 kept each project as a record { name, diagrams, ... } under
 * "project-<id>"; version 2 rewrites each such record and adds a reference record under
 * "project-ref-<id>". The version key is written only once every step has succeeded.
 */
module Migration {
  import opened Wrappers
  import opened Js
  import opened LocalStore
  import opened Ids
  import opened StorageUtils
  import opened Records

  const TargetVersion := 2
  const VersionKey := "mermaiditor-storage-version"
  const RefPrefix := "project-ref-"
  const BackupPrefix := "mermaiditor-backup-"

  function RefKey(projectId: string): string {
    RefPrefix + projectId
  }

  // ---- recognising version-1 records ----

  /** The old format: diagrams present and no metadata. */
  predicate IsLegacyRecord(d: Doc) {
    d.diagrams.Some? && d.metadata.None?
  }

  /** A project record key that is not a reference key. */
  predicate IsRecordKey(k: string) {
    StartsWith(k, "project-") && !StartsWith(k, RefPrefix)
  }

  /** The project id a record key stands for: the key without "project-". */
  function IdOfKey(k: string): string
    requires StartsWith(k, "project-")
  {
    k[8..]
  }

  /** A record key whose text parses to an old-format record. */
  predicate LegacyShaped(items: map<string, Text>, k: string) {
    k in items && IsRecordKey(k) && !items[k].Raw? && IsLegacyRecord(ParsedDoc(items[k]))
  }

  /** `if (localStorage.getItem('project-ref-' + id))` */
  predicate HasRef(items: map<string, Text>, projectId: string) {
    RefKey(projectId) in items && Truthy(items[RefKey(projectId)])
  }

  /** Whether any record is in the old format (references are not consulted). */
  ghost predicate HasLegacy(items: map<string, Text>) {
    exists k :: LegacyShaped(items, k)
  }

  /** The records a v1-to-v2 run would migrate: old-format records without a reference. */
  ghost function Candidates(items: map<string, Text>): set<string> {
    set k | k in items && IsCandidate(items, k)
  }

  ghost predicate IsCandidate(items: map<string, Text>, k: string) {
    LegacyShaped(items, k) && !HasRef(items, IdOfKey(k))
  }

  /**
   * The version getCurrentStorageVersion reports; None is NaN. Without a version key it
   * is 1 when an old-format record exists and 2 otherwise.
   */
  ghost function StoredVersion(items: map<string, Text>): Option<int> {
    if VersionKey !in items then (if HasLegacy(items) then Some(1) else Some(TargetVersion))
    else ParseIntText(items[VersionKey])
  }

  /** `currentStorageVersion < this.currentVersion`; NaN compares false. */
  predicate NeedsMigration(v: Option<int>) {
    v.Some? && v.value < TargetVersion
  }

  // ---- the record rewrite ----

  /** One diagram in the new format; `minted` is the id drawn when it has no version. */
  function MigratedDiagram(diagramId: string, diagram: Doc, minted: string): (r: Doc)
    ensures r.id == Some(diagramId)
    ensures r.name == Some(Or(diagram.name, "Untitled")) && r.content == Some(Or(diagram.content, ""))
    ensures Or(diagram.version, "") != "" ==> r.version == diagram.version
    ensures Or(diagram.version, "") == "" ==> r.version == Some(minted)
  {
    EmptyDoc.(id := Some(diagramId), name := Some(Or(diagram.name, "Untitled")),
              content := Some(Or(diagram.content, "")), version := Some(Or(diagram.version, minted)))
  }

  /** `versions[id]`, or "" for a diagram that was given none. */
  function MintedFor(versions: map<string, string>, diagramId: string): string {
    if diagramId in versions then versions[diagramId] else ""
  }

  function MigratedDiagrams(data: Doc, versions: map<string, string>): (r: map<string, Doc>)
    ensures r.Keys == DiagramsOf(data).Keys
  {
    map id | id in DiagramsOf(data) :: MigratedDiagram(id, DiagramsOf(data)[id], MintedFor(versions, id))
  }

  /**
   * The state of the diagram conversion with the ids in todo still to visit: every visited
   * diagram is converted, and versions holds the ids minted for those that had none.
   */
  ghost predicate ConvertedSoFar(diagrams: map<string, Doc>, todo: set<string>, converted: map<string, Doc>, versions: map<string, string>) {
    && (forall id :: id in converted <==> id in diagrams && id !in todo)
    && (forall id :: id in converted ==> converted[id] == MigratedDiagram(id, diagrams[id], MintedFor(versions, id)))
    && (forall id :: id in versions <==> id in diagrams && id !in todo && Or(diagrams[id].version, "") == "")
  }

  /** Converting one more diagram, with a freshly minted version when it had none. */
  lemma ConvertStep(diagrams: map<string, Doc>, todo: set<string>, converted: map<string, Doc>, versions: map<string, string>,
                    id: string, minted: string)
    requires ConvertedSoFar(diagrams, todo, converted, versions) && id in todo && id in diagrams
    requires minted != ""
    ensures var v := Or(diagrams[id].version, "");
      var next := if v == "" then versions[id := minted] else versions;
      ConvertedSoFar(diagrams, todo - {id}, converted[id := MigratedDiagram(id, diagrams[id], if v == "" then minted else v)], next)
  {
    var v := Or(diagrams[id].version, "");
    var next := if v == "" then versions[id := minted] else versions;
    assert MigratedDiagram(id, diagrams[id], if v == "" then minted else v) == MigratedDiagram(id, diagrams[id], MintedFor(next, id));
    forall k | k in converted && k != id
      ensures MintedFor(next, k) == MintedFor(versions, k)
    {
    }
  }

  /** Once every diagram is visited, the conversion is the migrated map. */
  lemma ConvertedAll(data: Doc, converted: map<string, Doc>, versions: map<string, string>)
    requires ConvertedSoFar(DiagramsOf(data), {}, converted, versions)
    ensures converted == MigratedDiagrams(data, versions)
  {
    assert converted.Keys == MigratedDiagrams(data, versions).Keys;
  }

  /** `diagrams || {}` */
  function DiagramsOf(d: Doc): map<string, Doc> {
    if d.diagrams.Some? then d.diagrams.value else map[]
  }

  /** The selected file as the source computes it: `data.selectedFile || null`. */
  function SelectionAsWritten(data: Doc): Option<string> {
    OrNull(data.selectedFile)
  }

  /**
   * The selected file a rewrite should carry: the version-1 field, else the version-2
   * field of a record an interrupted run already rewrote.
   */
  function Selection(data: Doc): (r: Option<string>)
    ensures r.Some? ==> r.value != ""
    ensures SelectionAsWritten(data).Some? ==> r == SelectionAsWritten(data)
  {
    if OrNull(data.selectedFile).Some? then OrNull(data.selectedFile) else OrNull(data.selectedFileId)
  }

  /** The rewritten record as the source builds it (timestamps left out). */
  function MigratedRecordAsWritten(projectId: string, data: Doc, versions: map<string, string>): (r: Doc)
    ensures r.id == Some(projectId) && r.selectedFileId == SelectionAsWritten(data)
    ensures r.name == Some(Or(data.name, "Unnamed Project")) && r.theme == Some(Or(data.theme, "default"))
    ensures r.diagrams == Some(MigratedDiagrams(data, versions)) && r.metadata.None?
  {
    EmptyDoc.(id := Some(projectId), name := Some(Or(data.name, "Unnamed Project")),
              theme := Some(Or(data.theme, "default")), selectedFileId := SelectionAsWritten(data),
              diagrams := Some(MigratedDiagrams(data, versions)))
  }

  /** The rewritten record the model stores: as written, except for the selected file. */
  function MigratedRecord(projectId: string, data: Doc, versions: map<string, string>): (r: Doc)
    ensures r == MigratedRecordAsWritten(projectId, data, versions).(selectedFileId := Selection(data))
    ensures IsLegacyRecord(r)
  {
    EmptyDoc.(id := Some(projectId), name := Some(Or(data.name, "Unnamed Project")),
              theme := Some(Or(data.theme, "default")), selectedFileId := Selection(data),
              diagrams := Some(MigratedDiagrams(data, versions)))
  }

  /** The reference written beside a rewritten record. */
  function ReferenceFor(projectId: string, data: Doc): (r: Doc)
    ensures r == ProjectReference.New(Some(projectId), Some("localStorage"), Some(map[]),
                                      Some(Or(data.theme, "default")), Selection(data)).ToObject()
    ensures ProjectReference.FromObject(r) == ProjectReference(Some(projectId), Some("localStorage"), Some(map[]),
                                                               Some(Or(data.theme, "default")), Selection(data))
  {
    EmptyDoc.(id := Some(projectId), storageProvider := Some("localStorage"), storageProviderParameters := Some(map[]),
              theme := Some(Or(data.theme, "default")), selectedFileId := Selection(data))
  }

  /** The versions a rewritten record carries, diagram by diagram. */
  function VersionsOf(d: Doc): map<string, string> {
    map id | id in DiagramsOf(d) :: Or(DiagramsOf(d)[id].version, "")
  }

  /** Key k of `after` holds the rewrite of what k held in `before`, and its reference is written. */
  ghost predicate MigratedAt(before: map<string, Text>, after: map<string, Text>, k: string) {
    && k in before && StartsWith(k, "project-")
    && k in after && after[k].Json?
    && after[k].doc == MigratedRecord(IdOfKey(k), ParsedDoc(before[k]), VersionsOf(after[k].doc))
    && RefKey(IdOfKey(k)) in after && after[RefKey(IdOfKey(k))] == Json(ReferenceFor(IdOfKey(k), ParsedDoc(before[k])))
  }

  // ---- what a run may change ----

  /** Reference keys never collide with record keys, and distinct ids give distinct reference keys. */
  lemma RefKeyFacts(projectId: string)
    ensures StartsWith(RefKey(projectId), RefPrefix) && StartsWith(RefKey(projectId), "project-")
    ensures !IsRecordKey(RefKey(projectId))
    ensures RefKey(projectId) != VersionKey
  {
    assert RefKey(projectId)[..|RefPrefix|] == RefPrefix;
    assert RefKey(projectId)[0] == 'p' != VersionKey[0];
  }

  /** k is the reference key of a record that is pending in items. */
  ghost predicate RefOfCandidate(items: map<string, Text>, k: string) {
    StartsWith(k, RefPrefix) && "project-" + k[|RefPrefix|..] in Candidates(items)
  }

  /** The reference key of a pending record is a reference of a candidate. */
  lemma RefOfCandidateKey(items: map<string, Text>, c: string)
    requires c in Candidates(items)
    ensures RefOfCandidate(items, RefKey(IdOfKey(c)))
  {
    var k := RefKey(IdOfKey(c));
    RefKeyFacts(IdOfKey(c));
    assert k[|RefPrefix|..] == IdOfKey(c);
    assert c == "project-" + IdOfKey(c);
  }

  /**
   * Apart from the version key, `after` differs from `before` only by writes of JSON
   * records at record keys that were candidates in `before`, and at the reference keys
   * of those candidates.
   */
  ghost predicate Evolves(before: map<string, Text>, after: map<string, Text>) {
    && (forall k :: k in before && k != VersionKey ==> k in after)
    && (forall k :: k in after && k != VersionKey ==>
          ((k in before && after[k] == before[k])
           || (after[k].Json? && (k in Candidates(before) || RefOfCandidate(before, k)))))
  }

  lemma EvolvesReflexive(items: map<string, Text>)
    ensures Evolves(items, items)
  {
  }

  lemma {:induction false} EvolvesTransitive(a: map<string, Text>, b: map<string, Text>, c: map<string, Text>)
    requires Evolves(a, b) && Evolves(b, c)
    ensures Evolves(a, c)
  {
    forall k | k in c && k != VersionKey
      ensures (k in a && c[k] == a[k]) || (c[k].Json? && (k in Candidates(a) || RefOfCandidate(a, k)))
    {
      if !(k in b && c[k] == b[k]) {
        if k in Candidates(b) {
          CandidateShrinks(a, b, k);
        } else {
          CandidateShrinks(a, b, "project-" + k[|RefPrefix|..]);
        }
      }
    }
  }

  /** A key that is a candidate after some writes was a candidate before them. */
  lemma {:induction false} CandidateShrinks(before: map<string, Text>, after: map<string, Text>, k: string)
    requires Evolves(before, after) && k in Candidates(after)
    ensures k in Candidates(before)
  {
    assert IsRecordKey(k) && !StartsWith(k, RefPrefix);
    RefKeyFacts(IdOfKey(k));
    NotVersionKey(k);
  }

  /** Record keys are not the version key. */
  lemma NotVersionKey(k: string)
    requires StartsWith(k, "project-")
    ensures k != VersionKey
  {
    assert k[0] == 'p' != VersionKey[0];
  }

  /** Runs never add to the work of the next run. */
  lemma {:induction false} CandidatesShrink(before: map<string, Text>, after: map<string, Text>)
    requires Evolves(before, after)
    ensures Candidates(after) <= Candidates(before)
  {
    forall k | k in Candidates(after)
      ensures k in Candidates(before)
    {
      CandidateShrinks(before, after, k);
    }
  }

  lemma {:induction false} EvolvesByWrite(before: map<string, Text>, mid: map<string, Text>, key: string, t: Text)
    requires Evolves(before, mid) && t.Json?
    requires key in Candidates(before) || RefOfCandidate(before, key)
    ensures Evolves(before, mid[key := t])
  {
  }

  /** Writing the version key leaves the candidates and every rewrite in place. */
  lemma {:induction false} VersionWriteKeepsCandidates(items: map<string, Text>, t: Text)
    ensures Candidates(items[VersionKey := t]) == Candidates(items)
  {
    var after := items[VersionKey := t];
    forall k | IsRecordKey(k)
      ensures RefKey(IdOfKey(k)) != VersionKey && k != VersionKey
    {
      RefKeyFacts(IdOfKey(k));
      assert k[0] == 'p';
    }
    assert Candidates(after) == Candidates(items);
  }

  /** MigratedAt depends only on the record key and its reference key. */
  lemma {:induction false} MigratedAtFrame(before: map<string, Text>, after: map<string, Text>, later: map<string, Text>, k: string)
    requires MigratedAt(before, after, k)
    requires k in later && later[k] == after[k]
    requires RefKey(IdOfKey(k)) in later && later[RefKey(IdOfKey(k))] == after[RefKey(IdOfKey(k))]
    ensures MigratedAt(before, later, k)
  {
  }

  /** The versions read back from a rewritten record reproduce that record. */
  lemma {:induction false} VersionsOfMigrated(projectId: string, data: Doc, versions: map<string, string>)
    ensures MigratedRecord(projectId, data, VersionsOf(MigratedRecord(projectId, data, versions)))
         == MigratedRecord(projectId, data, versions)
  {
    var rec := MigratedRecord(projectId, data, versions);
    var read := VersionsOf(rec);
    forall id | id in DiagramsOf(data)
      ensures MigratedDiagram(id, DiagramsOf(data)[id], MintedFor(read, id))
           == MigratedDiagram(id, DiagramsOf(data)[id], MintedFor(versions, id))
    {
      assert DiagramsOf(rec)[id] == MigratedDiagram(id, DiagramsOf(data)[id], MintedFor(versions, id));
    }
    assert MigratedDiagrams(data, read) == MigratedDiagrams(data, versions);
  }

  // ---- the finding: re-running the rewrite on an already rewritten record ----

  /**
   * The rewrite as written keeps the selected file only from the version-1 field. A
   * record whose rewrite was stored but whose reference write failed is still in the old
   * shape, so the next run rewrites it again, and that second rewrite drops the selection.
   */
  lemma AsWrittenRerunDropsSelection()
    ensures var data := EmptyDoc.(name := Some("Notes"), selectedFile := Some("f1"), diagrams := Some(map[]));
            var once := MigratedRecordAsWritten("p1", data, map[]);
            && once.selectedFileId == Some("f1")
            && IsLegacyRecord(once)
            && MigratedRecordAsWritten("p1", once, map[]).selectedFileId == None
  {
  }

  /**
   * The corrected rewrite is idempotent: rewriting a rewritten record (whose missing
   * versions were filled with non-empty ids) changes nothing and draws no new ids.
   */
  lemma {:induction false} MigrationIdempotent(projectId: string, data: Doc, versions: map<string, string>, again: map<string, string>)
    requires forall id :: id in DiagramsOf(data) && Or(DiagramsOf(data)[id].version, "") == "" ==> MintedFor(versions, id) != ""
    ensures MigratedRecord(projectId, MigratedRecord(projectId, data, versions), again) == MigratedRecord(projectId, data, versions)
    ensures ReferenceFor(projectId, MigratedRecord(projectId, data, versions)) == ReferenceFor(projectId, data)
  {
    var once := MigratedRecord(projectId, data, versions);
    forall id | id in DiagramsOf(once)
      ensures MigratedDiagram(id, DiagramsOf(once)[id], MintedFor(again, id))
           == MigratedDiagram(id, DiagramsOf(data)[id], MintedFor(versions, id))
    {
      var d := DiagramsOf(data)[id];
      assert DiagramsOf(once)[id] == MigratedDiagram(id, d, MintedFor(versions, id));
      assert Or(d.version, MintedFor(versions, id)) != "";
    }
    assert MigratedDiagrams(once, again) == MigratedDiagrams(data, versions);
  }

  // ---- the manager ----

  /** What findLegacyProjects reports for one record: { key, projectId, data }. */
  datatype LegacyProject = LegacyProject(key: string, projectId: string, data: Doc)

  ghost function KeysOf(found: seq<LegacyProject>): set<string> {
    set i | 0 <= i < |found| :: found[i].key
  }

  lemma KeysOfAppend(found: seq<LegacyProject>, e: LegacyProject)
    ensures KeysOf(found + [e]) == KeysOf(found) + {e.key}
  {
    var s := found + [e];
    assert s[|found|] == e;
    forall x | x in KeysOf(s)
      ensures x in KeysOf(found) + {e.key}
    {
      var i :| 0 <= i < |s| && s[i].key == x;
      if i < |found| {
        assert found[i] == s[i];
      }
    }
    forall x | x in KeysOf(found)
      ensures x in KeysOf(s)
    {
      var i :| 0 <= i < |found| && found[i].key == x;
      assert s[i] == found[i];
    }
  }

  /**
   * The state of the findLegacyProjects scan with the keys in todo still to visit: found
   * describes, once each, exactly the candidates already visited.
   */
  ghost predicate Scanned(items: map<string, Text>, found: seq<LegacyProject>, todo: set<string>) {
    && (forall k :: k in KeysOf(found) <==> k in items && IsCandidate(items, k) && k !in todo)
    && (forall i, j :: 0 <= i < j < |found| ==> found[i].key != found[j].key)
    && (forall i :: 0 <= i < |found| ==> Describes(items, found[i]) && found[i].key !in todo)
  }

  /** Visiting a key that is no candidate leaves found as it is. */
  lemma ScanSkip(items: map<string, Text>, found: seq<LegacyProject>, todo: set<string>, k: string)
    requires Scanned(items, found, todo) && k in todo && !IsCandidate(items, k)
    ensures Scanned(items, found, todo - {k})
  {
  }

  /** Visiting a candidate appends its description. */
  lemma ScanAdd(items: map<string, Text>, found: seq<LegacyProject>, todo: set<string>, e: LegacyProject)
    requires Scanned(items, found, todo) && e.key in todo && IsCandidate(items, e.key) && Describes(items, e)
    ensures Scanned(items, found + [e], todo - {e.key})
  {
    KeysOfAppend(found, e);
    var s := found + [e];
    forall i, j | 0 <= i < j < |s|
      ensures s[i].key != s[j].key
    {
      if j < |found| {
        assert s[i] == found[i] && s[j] == found[j];
      } else {
        assert s[i] == found[i];
      }
    }
    forall i | 0 <= i < |s|
      ensures Describes(items, s[i]) && s[i].key !in todo - {e.key}
    {
      if i < |found| {
        assert s[i] == found[i];
      }
    }
  }

  /** Each id in versions was handed out between counter values lo and hi, and no two are the same. */
  ghost predicate MintedBetween(versions: map<string, string>, lo: nat, hi: nat) {
    && (forall id :: id in versions ==> versions[id] != "" && versions[id] in Issued(hi) && versions[id] !in Issued(lo))
    && (forall a, b :: a in versions && b in versions && a != b ==> versions[a] != versions[b])
  }

  lemma MintedExtend(versions: map<string, string>, lo: nat, mid: nat, id: string, v: string)
    requires MintedBetween(versions, lo, mid) && lo <= mid && id !in versions
    requires v == Uuid(mid) && v !in Issued(mid) && Issued(mid + 1) == Issued(mid) + {v}
    ensures MintedBetween(versions[id := v], lo, mid + 1)
  {
    IssuedGrows(lo, mid);
  }

  /** The ids of the diagrams of the record under k that carry no version. */
  ghost function Unversioned(items: map<string, Text>, k: string): set<string> {
    if k in items then
      set id | id in DiagramsOf(ParsedDoc(items[k])) && Or(DiagramsOf(ParsedDoc(items[k]))[id].version, "") == ""
    else {}
  }

  /** The version the JSON record under k holds for diagram id; "" when there is none. */
  function HeldVersion(items: map<string, Text>, k: string, diagramId: string): string {
    if k in items && items[k].Json? then MintedFor(VersionsOf(items[k].doc), diagramId) else ""
  }

  /**
   * Every diagram of a record under keys that had no version in `before` holds, in
   * `after`, an id handed out between counter values lo and hi, and owner maps that id
   * back to the record key and the diagram, so no other such diagram holds it.
   */
  ghost predicate Owned(before: map<string, Text>, after: map<string, Text>, keys: set<string>, lo: nat, hi: nat,
                        owner: map<string, (string, string)>) {
    forall k, id :: k in keys && id in Unversioned(before, k) ==>
      var v := HeldVersion(after, k, id);
      v != "" && v in Issued(hi) && v !in Issued(lo) && v in owner && owner[v] == (k, id)
  }

  /** The diagrams that had no version now hold fresh ids, one per diagram. */
  ghost predicate FreshlyVersioned(before: map<string, Text>, after: map<string, Text>, keys: set<string>, lo: nat, hi: nat) {
    exists owner :: Owned(before, after, keys, lo, hi, owner)
  }

  /** No two of the diagrams that had no version hold the same id. */
  lemma FreshIdsDistinct(before: map<string, Text>, after: map<string, Text>, keys: set<string>, lo: nat, hi: nat,
                         k1: string, id1: string, k2: string, id2: string)
    requires FreshlyVersioned(before, after, keys, lo, hi)
    requires k1 in keys && id1 in Unversioned(before, k1) && k2 in keys && id2 in Unversioned(before, k2)
    requires k1 != k2 || id1 != id2
    ensures HeldVersion(after, k1, id1) != HeldVersion(after, k2, id2)
  {
    var owner :| Owned(before, after, keys, lo, hi, owner);
    assert owner[HeldVersion(after, k1, id1)] == (k1, id1);
    assert owner[HeldVersion(after, k2, id2)] == (k2, id2);
  }

  /** Nothing is owed before any record is rewritten. */
  lemma NoneVersionedYet(before: map<string, Text>, after: map<string, Text>, n: nat)
    ensures FreshlyVersioned(before, after, {}, n, n)
  {
    assert Owned(before, after, {}, n, n, map[]);
  }

  /** The diagram a one-to-one versions map gives version v. */
  ghost function Preimage(versions: map<string, string>, v: string): string
    requires v in versions.Values
  {
    var id :| id in versions && versions[id] == v; id
  }

  /** A rewritten record holds, for a diagram that had no version, the id minted for it. */
  lemma HeldOfMigrated(projectId: string, data: Doc, versions: map<string, string>, diagramId: string)
    requires diagramId in DiagramsOf(data) && Or(DiagramsOf(data)[diagramId].version, "") == ""
    ensures MintedFor(VersionsOf(MigratedRecord(projectId, data, versions)), diagramId) == MintedFor(versions, diagramId)
  {
    var rec := MigratedRecord(projectId, data, versions);
    assert DiagramsOf(rec)[diagramId] == MigratedDiagram(diagramId, DiagramsOf(data)[diagramId], MintedFor(versions, diagramId));
  }

  /** Inverting a one-to-one versions map gives each diagram back. */
  lemma AddedOwner(versions: map<string, string>, key: string, id: string)
    requires forall a, b :: a in versions && b in versions && a != b ==> versions[a] != versions[b]
    requires id in versions
    ensures var added := map v | v in versions.Values :: (key, Preimage(versions, v));
      versions[id] in added && added[versions[id]] == (key, id)
  {
    assert versions[id] in versions.Values;
  }

  /**
   * Rewriting one more record, with ids minted after those of the records already
   * rewritten, keeps the minted ids fresh and distinct.
   */
  lemma {:induction false} FreshStep(before: map<string, Text>, mid: map<string, Text>, after: map<string, Text>, keys: set<string>,
                                     lp: LegacyProject, versions: map<string, string>, lo: nat, c1: nat, c2: nat)
    requires FreshlyVersioned(before, mid, keys, lo, c1) && lo <= c1 <= c2
    requires Describes(before, lp) && lp.key !in keys
    requires forall id :: id in versions <==> id in DiagramsOf(lp.data) && Or(DiagramsOf(lp.data)[id].version, "") == ""
    requires MintedBetween(versions, c1, c2)
    requires lp.key in after && after[lp.key] == Json(MigratedRecord(lp.projectId, lp.data, versions))
    requires forall k :: k in keys ==> k in mid && k in after && after[k] == mid[k]
    ensures FreshlyVersioned(before, after, keys + {lp.key}, lo, c2)
  {
    IssuedGrows(lo, c1);
    IssuedGrows(c1, c2);
    var owner :| Owned(before, mid, keys, lo, c1, owner);
    var added := map v | v in versions.Values :: (lp.key, Preimage(versions, v));
    var owner' := owner + added;
    forall k, id | k in keys + {lp.key} && id in Unversioned(before, k)
      ensures var v := HeldVersion(after, k, id);
        v != "" && v in Issued(c2) && v !in Issued(lo) && v in owner' && owner'[v] == (k, id)
    {
      if k == lp.key {
        HeldOfMigrated(lp.projectId, lp.data, versions, id);
        assert HeldVersion(after, k, id) == versions[id];
        AddedOwner(versions, lp.key, id);
        assert owner'[versions[id]] == added[versions[id]];
      } else {
        var v := HeldVersion(mid, k, id);
        assert HeldVersion(after, k, id) == v;
        assert v in Issued(c1) && v !in added;
        assert v in owner && owner'[v] == owner[v];
      }
    }
    assert Owned(before, after, keys + {lp.key}, lo, c2, owner');
  }

  /** Writing the version key leaves the versions the records hold in place. */
  lemma {:induction false} VersionWriteKeepsFresh(before: map<string, Text>, after: map<string, Text>, lo: nat, hi: nat, t: Text)
    requires FreshlyVersioned(before, after, Candidates(before), lo, hi)
    ensures FreshlyVersioned(before, after[VersionKey := t], Candidates(before), lo, hi)
  {
    var owner :| Owned(before, after, Candidates(before), lo, hi, owner);
    forall k, id | k in Candidates(before)
      ensures HeldVersion(after[VersionKey := t], k, id) == HeldVersion(after, k, id)
    {
      NotVersionKey(k);
    }
    assert Owned(before, after[VersionKey := t], Candidates(before), lo, hi, owner);
  }

  /** lp is what findLegacyProjects reports for the record under lp.key. */
  ghost predicate Describes(items: map<string, Text>, lp: LegacyProject) {
    && lp.key in items && StartsWith(lp.key, "project-")
    && lp.projectId == IdOfKey(lp.key) && lp.data == ParsedDoc(items[lp.key])
  }

  /** Two record keys with the same project id are the same key. */
  lemma IdOfKeyInjective(a: string, b: string)
    requires StartsWith(a, "project-") && StartsWith(b, "project-") && IdOfKey(a) == IdOfKey(b)
    ensures a == b
  {
    assert a == "project-" + IdOfKey(a);
    assert b == "project-" + IdOfKey(b);
  }

  /** After a complete run every pending record has its reference, so nothing is pending. */
  lemma {:induction false} NothingLeft(before: map<string, Text>, after: map<string, Text>)
    requires Evolves(before, after)
    requires forall k :: k in Candidates(before) ==> MigratedAt(before, after, k)
    ensures Candidates(after) == {}
  {
    forall k | k in Candidates(before)
      ensures k !in Candidates(after)
    {
      assert MigratedAt(before, after, k);
    }
    CandidatesShrink(before, after);
  }

  /** One successful migrateLegacyProject call keeps the ids minted so far fresh and distinct, and adds its own. */
  lemma {:induction false} FreshLoopStep(before: map<string, Text>, mid: map<string, Text>, legacy: seq<LegacyProject>, i: nat,
                                         versions: map<string, string>, lo: nat, c1: nat, c2: nat)
    requires i < |legacy|
    requires forall j :: 0 <= j < |legacy| ==> Describes(before, legacy[j]) && legacy[j].key in Candidates(before)
    requires forall j, l :: 0 <= j < l < |legacy| ==> legacy[j].key != legacy[l].key
    requires forall j :: 0 <= j < i ==> legacy[j].key in mid
    requires FreshlyVersioned(before, mid, KeysOf(legacy[..i]), lo, c1) && lo <= c1 <= c2
    requires forall id :: id in versions <==> id in DiagramsOf(legacy[i].data) && Or(DiagramsOf(legacy[i].data)[id].version, "") == ""
    requires MintedBetween(versions, c1, c2)
    ensures var lp := legacy[i];
      var after := mid[lp.key := Json(MigratedRecord(lp.projectId, lp.data, versions))]
                      [RefKey(lp.projectId) := Json(ReferenceFor(lp.projectId, lp.data))];
      FreshlyVersioned(before, after, KeysOf(legacy[..i + 1]), lo, c2)
  {
    var lp := legacy[i];
    var after := mid[lp.key := Json(MigratedRecord(lp.projectId, lp.data, versions))]
                    [RefKey(lp.projectId) := Json(ReferenceFor(lp.projectId, lp.data))];
    assert legacy[..i + 1] == legacy[..i] + [lp];
    KeysOfAppend(legacy[..i], lp);
    RefKeyFacts(lp.projectId);
    forall j | 0 <= j < i
      ensures legacy[..i][j].key != lp.key
    {
      assert legacy[..i][j] == legacy[j];
    }
    forall k | k in KeysOf(legacy[..i])
      ensures k in mid && k in after && after[k] == mid[k]
    {
      var j :| 0 <= j < i && legacy[..i][j].key == k;
      assert legacy[j].key == k && legacy[j].key in Candidates(before);
    }
    FreshStep(before, mid, after, KeysOf(legacy[..i]), lp, versions, lo, c1, c2);
  }

  /** One successful migrateLegacyProject call keeps the earlier rewrites and adds the next. */
  lemma {:induction false} MigrationStep(before: map<string, Text>, mid: map<string, Text>,
                                         legacy: seq<LegacyProject>, i: nat, versions: map<string, string>)
    requires i < |legacy|
    requires forall j :: 0 <= j < |legacy| ==> Describes(before, legacy[j]) && legacy[j].key in Candidates(before)
    requires forall j, l :: 0 <= j < l < |legacy| ==> legacy[j].key != legacy[l].key
    requires Evolves(before, mid)
    requires forall j :: 0 <= j < i ==> MigratedAt(before, mid, legacy[j].key)
    ensures var lp := legacy[i];
      var after := mid[lp.key := Json(MigratedRecord(lp.projectId, lp.data, versions))]
                      [RefKey(lp.projectId) := Json(ReferenceFor(lp.projectId, lp.data))];
      Evolves(before, after) && forall j :: 0 <= j <= i ==> MigratedAt(before, after, legacy[j].key)
  {
    var lp := legacy[i];
    var record := Json(MigratedRecord(lp.projectId, lp.data, versions));
    var one := mid[lp.key := record];
    var after := one[RefKey(lp.projectId) := Json(ReferenceFor(lp.projectId, lp.data))];
    RefKeyFacts(lp.projectId);
    RefOfCandidateKey(before, lp.key);
    EvolvesByWrite(before, mid, lp.key, record);
    EvolvesByWrite(before, one, RefKey(lp.projectId), Json(ReferenceFor(lp.projectId, lp.data)));
    assert after[lp.key] == record;
    VersionsOfMigrated(lp.projectId, lp.data, versions);
    assert MigratedAt(before, after, lp.key);
    forall j | 0 <= j < i
      ensures MigratedAt(before, after, legacy[j].key)
    {
      var other := legacy[j];
      RefKeyFacts(other.projectId);
      if other.projectId == lp.projectId {
        IdOfKeyInjective(other.key, lp.key);
      }
      if RefKey(other.projectId) == RefKey(lp.projectId) {
        PrefixedKeyInjective(RefPrefix, other.projectId, lp.projectId);
      }
      MigratedAtFrame(before, mid, after, other.key);
    }
  }

  /**
   * The state of the migrateV1ToV2 loop after the first i found records: each is
   * rewritten with its reference, the ids minted for them are fresh and distinct, and the
   * version key is untouched.
   */
  ghost predicate EachSoFar(before: map<string, Text>, items: map<string, Text>, legacy: seq<LegacyProject>, i: nat, lo: nat, hi: nat) {
    && i <= |legacy|
    && Evolves(before, items)
    && VersionEntry(items) == VersionEntry(before)
    && (forall j :: 0 <= j < i ==> MigratedAt(before, items, legacy[j].key))
    && lo <= hi && FreshlyVersioned(before, items, KeysOf(legacy[..i]), lo, hi)
  }

  /** One successful migrateLegacyProject call advances the loop state by one record. */
  lemma {:induction false} EachStep(before: map<string, Text>, mid: map<string, Text>, legacy: seq<LegacyProject>, i: nat,
                                    versions: map<string, string>, lo: nat, c1: nat, c2: nat)
    requires i < |legacy|
    requires forall j :: 0 <= j < |legacy| ==> Describes(before, legacy[j]) && legacy[j].key in Candidates(before)
    requires forall j, l :: 0 <= j < l < |legacy| ==> legacy[j].key != legacy[l].key
    requires EachSoFar(before, mid, legacy, i, lo, c1) && c1 <= c2
    requires forall id :: id in versions <==> id in DiagramsOf(legacy[i].data) && Or(DiagramsOf(legacy[i].data)[id].version, "") == ""
    requires MintedBetween(versions, c1, c2)
    ensures var lp := legacy[i];
      EachSoFar(before, mid[lp.key := Json(MigratedRecord(lp.projectId, lp.data, versions))]
                          [RefKey(lp.projectId) := Json(ReferenceFor(lp.projectId, lp.data))], legacy, i + 1, lo, c2)
  {
    var lp := legacy[i];
    NotVersionKey(lp.key);
    RefKeyFacts(lp.projectId);
    MigrationStep(before, mid, legacy, i, versions);
    forall j | 0 <= j < i
      ensures legacy[j].key in mid
    {
      assert MigratedAt(before, mid, legacy[j].key);
    }
    FreshLoopStep(before, mid, legacy, i, versions, lo, c1, c2);
  }

  /** The version key's entry, as getItem returns it. */
  function VersionEntry(items: map<string, Text>): Option<Text> {
    if VersionKey in items then Some(items[VersionKey]) else None
  }

  /** Setting the version key after a complete run keeps the run complete. */
  lemma {:induction false} VersionWriteKeepsMigrated(before: map<string, Text>, after: map<string, Text>, t: Text)
    requires Migrated(before, after)
    ensures Migrated(before, after[VersionKey := t])
  {
    var final := after[VersionKey := t];
    forall k | k in Candidates(before)
      ensures MigratedAt(before, final, k)
    {
      assert MigratedAt(before, after, k);
      NotVersionKey(k);
      RefKeyFacts(IdOfKey(k));
    }
    VersionWriteKeepsCandidates(after, t);
  }

  lemma ParseTwo()
    ensures ParseIntText(Raw("2")) == Some(2)
  {
    assert TrimStart("2") == "2";
    assert SignDropped("2") == "2";
    assert DigitPrefix("2") == "2";
    assert DigitsValue("2") == 2 by {
      assert "2"[..0] == [];
    }
  }

  /** What getMigrationStatus reports. */
  datatype MigrationStatus = MigrationStatus(
    currentVersion: Option<int>, targetVersion: int, hasLegacyData: bool, needsMigration: bool, legacyProjects: nat)

  /** ISO timestamps with ':' and '.' replaced by '-', as backup keys carry them. */
  function Dashed(s: string): (r: string)
    ensures |r| == |s|
    ensures forall i :: 0 <= i < |s| ==> r[i] == (if s[i] == ':' || s[i] == '.' then '-' else s[i])
    ensures ':' !in r && '.' !in r
  {
    if s == [] then []
    else [if s[0] == ':' || s[0] == '.' then '-' else s[0]] + Dashed(s[1..])
  }

  function BackupKey(timestamp: string): string {
    BackupPrefix + Dashed(timestamp)
  }

  /** The entries of the backup under key; {} when there is none to read. */
  function BackupEntries(items: map<string, Text>, key: string): map<string, Text> {
    if key in items && !items[key].Raw? then ParseEntries(items[key]).value else map[]
  }

  /** Every entry of `part` is an entry of `whole`. */
  ghost predicate Within(part: map<string, Text>, whole: map<string, Text>) {
    forall k :: k in part ==> k in whole && part[k] == whole[k]
  }

  /** Whether a write budget covers n more writes. */
  predicate Covers(w: Option<nat>, n: nat) {
    w.None? || w.value >= n
  }

  /** The budget left after n accepted writes. */
  function SpendN(w: Option<nat>, n: nat): Option<nat>
    requires Covers(w, n)
  {
    if w.None? then None else Some(w.value - n)
  }

  /** A budget that runs out before n writes does not cover n writes. */
  lemma RunsOutBefore(budget: Option<nat>, written: nat, n: nat)
    requires Covers(budget, written) && SpendN(budget, written) == Some(0) && written < n
    ensures !Covers(budget, n)
  {
  }

  /** A budget covering two writes for each of n records accepts both writes of record i < n. */
  lemma TwoWritesCovered(budget: Option<nat>, i: nat, n: nat)
    requires Covers(budget, 2 * n) && i < n
    ensures Covers(budget, 2 * i) && Covers(budget, 2 * (i + 1))
    ensures Accepts(SpendN(budget, 2 * i)) && Accepts(Spend(SpendN(budget, 2 * i)))
    ensures Spend(Spend(SpendN(budget, 2 * i))) == SpendN(budget, 2 * (i + 1))
  {
  }

  /** Copying one more entry of whole keeps a part of whole a part of it. */
  lemma WithinExtend(part: map<string, Text>, whole: map<string, Text>, k: string)
    requires Within(part, whole) && k in whole
    ensures Within(part[k := whole[k]], whole)
  {
  }

  /** A part of whole with all of whole's keys is whole. */
  lemma WithinAll(part: map<string, Text>, whole: map<string, Text>)
    requires Within(part, whole) && part.Keys == whole.Keys
    ensures part == whole
  {
  }

  /** Complete v1-to-v2 migration of everything that was pending in `before`. */
  ghost predicate Migrated(before: map<string, Text>, after: map<string, Text>) {
    && Evolves(before, after)
    && (forall k :: k in Candidates(before) ==> MigratedAt(before, after, k))
    && Candidates(after) == {}
  }

  lemma {:induction false} DistinctKeysCount(found: seq<LegacyProject>)
    requires forall i, j :: 0 <= i < j < |found| ==> found[i].key != found[j].key
    ensures |KeysOf(found)| == |found|
  {
    if found != [] {
      var last := |found| - 1;
      DistinctKeysCount(found[..last]);
      assert KeysOf(found) == KeysOf(found[..last]) + {found[last].key};
      assert found[last].key !in KeysOf(found[..last]);
    }
  }

  class StorageMigrationManager {
    const store: LocalStorage
    const ids: IdSource

    constructor (store: LocalStorage, ids: IdSource)
      ensures this.store == store && this.ids == ids
    {
      this.store := store;
      this.ids := ids;
    }

    /** hasLegacyProjectData(): whether some record parses to the old format; unparseable ones are skipped. */
    method HasLegacyProjectData() returns (r: bool)
      ensures r == HasLegacy(store.items)
    {
      var items := store.items;
      var todo := items.Keys;
      while todo != {}
        invariant todo <= items.Keys
        invariant forall k :: k in items && k !in todo ==> !LegacyShaped(items, k)
        decreases |todo|
      {
        var k :| k in todo;
        todo := todo - {k};
        if k != "" && IsRecordKey(k) {
          var parsed := Parse(items[k]);
          if parsed.Ok? && IsLegacyRecord(parsed.value) {
            assert LegacyShaped(items, k);
            return true;
          }
        }
      }
      return false;
    }

    /** getCurrentStorageVersion(): parseInt of the version key, else 1 or 2 by the records' shape. */
    method GetCurrentStorageVersion() returns (v: Option<int>)
      ensures v == StoredVersion(store.items)
    {
      var version := store.GetItem(VersionKey);
      if version.None? {
        var legacy := HasLegacyProjectData();
        return if legacy then Some(1) else Some(TargetVersion);
      }
      return ParseIntText(version.value);
    }

    /**
     * findLegacyProjects(): every old-format record with no reference yet, each once;
     * unparseable records are skipped.
     */
    method FindLegacyProjects() returns (found: seq<LegacyProject>)
      ensures KeysOf(found) == Candidates(store.items)
      ensures forall i, j :: 0 <= i < j < |found| ==> found[i].key != found[j].key
      ensures forall i :: 0 <= i < |found| ==> Describes(store.items, found[i])
    {
      var items := store.items;
      var todo := items.Keys;
      found := [];
      while todo != {}
        invariant todo <= items.Keys
        invariant Scanned(items, found, todo)
        decreases |todo|
      {
        var k :| k in todo;
        var added := false;
        if k != "" && IsRecordKey(k) {
          var projectId := IdOfKey(k);
          var ref := store.GetItem(RefKey(projectId));
          if !(ref.Some? && Truthy(ref.value)) {
            var parsed := Parse(items[k]);
            if parsed.Ok? && IsLegacyRecord(parsed.value) {
              var entry := LegacyProject(k, projectId, parsed.value);
              ScanAdd(items, found, todo, entry);
              found := found + [entry];
              added := true;
            }
          }
        }
        if !added {
          ScanSkip(items, found, todo, k);
        }
        todo := todo - {k};
      }
    }

    /**
     * The diagrams of a legacy record in the new format: ids kept, names default to
     * 'Untitled', content to '', and a diagram without a version gets a fresh id.
     */
    method ConvertDiagrams(data: Doc) returns (converted: map<string, Doc>, ghost versions: map<string, string>)
      modifies ids
      ensures converted == MigratedDiagrams(data, versions)
      ensures forall id :: id in versions <==> id in DiagramsOf(data) && Or(DiagramsOf(data)[id].version, "") == ""
      ensures MintedBetween(versions, old(ids.counter), ids.counter)
      ensures old(ids.counter) <= ids.counter
    {
      var diagrams := DiagramsOf(data);
      var todo := diagrams.Keys;
      converted := map[];
      versions := map[];
      while todo != {}
        invariant todo <= diagrams.Keys
        invariant ConvertedSoFar(diagrams, todo, converted, versions)
        invariant old(ids.counter) <= ids.counter
        invariant MintedBetween(versions, old(ids.counter), ids.counter)
        decreases |todo|
      {
        var id :| id in todo;
        var diagram := diagrams[id];
        var version := Or(diagram.version, "");
        ghost var minted := "-";
        if version == "" {
          ghost var before := ids.counter;
          version := ids.Next();
          minted := version;
          MintedExtend(versions, old(ids.counter), before, id, version);
        }
        ConvertStep(diagrams, todo, converted, versions, id, minted);
        if Or(diagram.version, "") == "" {
          versions := versions[id := version];
        }
        converted := converted[id := MigratedDiagram(id, diagram, version)];
        todo := todo - {id};
      }
      ConvertedAll(data, converted, versions);
    }

    /**
     * migrateLegacyProject(legacyProject): writes the rewritten record under its key, then
     * its reference under "project-ref-<id>". A refused second write leaves the first in place.
     */
    method MigrateLegacyProject(legacy: LegacyProject) returns (r: Result<()>, ghost versions: map<string, string>)
      modifies store, ids
      ensures forall id :: id in versions <==> id in DiagramsOf(legacy.data) && Or(DiagramsOf(legacy.data)[id].version, "") == ""
      ensures MintedBetween(versions, old(ids.counter), ids.counter)
      ensures old(ids.counter) <= ids.counter
      ensures r.Ok? <==> Accepts(old(store.writesLeft)) && Accepts(Spend(old(store.writesLeft)))
      ensures r.Ok? ==> store.writesLeft == Spend(Spend(old(store.writesLeft)))
      ensures r.Err? ==> r.message == QuotaExceeded
      ensures r.Ok? ==> store.items == old(store.items)
        [legacy.key := Json(MigratedRecord(legacy.projectId, legacy.data, versions))]
        [RefKey(legacy.projectId) := Json(ReferenceFor(legacy.projectId, legacy.data))]
      ensures r.Err? ==>
        (store.items == old(store.items)
         || store.items == old(store.items)[legacy.key := Json(MigratedRecord(legacy.projectId, legacy.data, versions))])
    {
      var diagrams;
      diagrams, versions := ConvertDiagrams(legacy.data);
      var record := EmptyDoc.(id := Some(legacy.projectId), name := Some(Or(legacy.data.name, "Unnamed Project")),
                              theme := Some(Or(legacy.data.theme, "default")), selectedFileId := Selection(legacy.data),
                              diagrams := Some(diagrams));
      var w := store.SetItem(legacy.key, Json(record));
      if w.Err? {
        return w, versions;
      }
      var reference := EmptyDoc.(id := Some(legacy.projectId), storageProvider := Some("localStorage"),
                                 storageProviderParameters := Some(map[]), theme := Some(Or(legacy.data.theme, "default")),
                                 selectedFileId := record.selectedFileId);
      w := store.SetItem(RefKey(legacy.projectId), Json(reference));
      r := w;
    }

    /** The loop of migrateV1ToV2: migrates the found records in order, stopping at the first refused write. */
    method MigrateEach(legacy: seq<LegacyProject>) returns (r: Result<()>)
      requires forall j :: 0 <= j < |legacy| ==> Describes(store.items, legacy[j]) && legacy[j].key in Candidates(store.items)
      requires forall j, l :: 0 <= j < l < |legacy| ==> legacy[j].key != legacy[l].key
      modifies store, ids
      ensures Evolves(old(store.items), store.items)
      ensures VersionEntry(store.items) == VersionEntry(old(store.items))
      ensures r.Ok? ==> forall j :: 0 <= j < |legacy| ==> MigratedAt(old(store.items), store.items, legacy[j].key)
      ensures r.Ok? ==> FreshlyVersioned(old(store.items), store.items, KeysOf(legacy), old(ids.counter), ids.counter)
      ensures r.Err? ==> r.message == QuotaExceeded
      ensures Covers(old(store.writesLeft), 2 * |legacy|) ==>
        r.Ok? && store.writesLeft == SpendN(old(store.writesLeft), 2 * |legacy|)
    {
      ghost var before := store.items;
      ghost var budget := store.writesLeft;
      ghost var lo := ids.counter;
      var i := 0;
      assert legacy[..0] == [] && KeysOf(legacy[..0]) == {};
      NoneVersionedYet(before, store.items, lo);
      while i < |legacy|
        invariant EachSoFar(before, store.items, legacy, i, lo, ids.counter)
        invariant Covers(budget, 2 * |legacy|) ==> store.writesLeft == SpendN(budget, 2 * i)
      {
        if Covers(budget, 2 * |legacy|) {
          TwoWritesCovered(budget, i, |legacy|);
        }
        var m := MigrateNext(legacy, i, before, lo);
        if m.Err? {
          return m;
        }
        i := i + 1;
      }
      assert legacy[..i] == legacy;
      r := Ok(());
    }

    /** One pass of the migrateV1ToV2 loop: migrateLegacyProject on the i-th found record. */
    method MigrateNext(legacy: seq<LegacyProject>, i: nat, ghost before: map<string, Text>, ghost lo: nat) returns (r: Result<()>)
      requires i < |legacy|
      requires forall j :: 0 <= j < |legacy| ==> Describes(before, legacy[j]) && legacy[j].key in Candidates(before)
      requires forall j, l :: 0 <= j < l < |legacy| ==> legacy[j].key != legacy[l].key
      requires EachSoFar(before, store.items, legacy, i, lo, ids.counter)
      modifies store, ids
      ensures r.Ok? ==> EachSoFar(before, store.items, legacy, i + 1, lo, ids.counter)
      ensures r.Err? ==> r.message == QuotaExceeded && Evolves(before, store.items) && VersionEntry(store.items) == VersionEntry(before)
      ensures r.Ok? <==> Accepts(old(store.writesLeft)) && Accepts(Spend(old(store.writesLeft)))
      ensures r.Ok? ==> store.writesLeft == Spend(Spend(old(store.writesLeft)))
    {
      ghost var mid := store.items;
      ghost var c1 := ids.counter;
      NotVersionKey(legacy[i].key);
      RefKeyFacts(legacy[i].projectId);
      ghost var versions;
      r, versions := MigrateLegacyProject(legacy[i]);
      if r.Err? {
        if store.items != mid {
          EvolvesByWrite(before, mid, legacy[i].key, Json(MigratedRecord(legacy[i].projectId, legacy[i].data, versions)));
        }
        return;
      }
      EachStep(before, mid, legacy, i, versions, lo, c1, ids.counter);
    }

    /**
     * migrateV1ToV2(): rewrites every pending record with its reference; the first
     * refused write stops the run and is rethrown, leaving the earlier ones in place.
     */
    method MigrateV1ToV2() returns (r: Result<()>)
      modifies store, ids
      ensures Evolves(old(store.items), store.items)
      ensures VersionEntry(store.items) == VersionEntry(old(store.items))
      ensures Candidates(store.items) <= Candidates(old(store.items))
      ensures r.Ok? ==> Migrated(old(store.items), store.items)
      ensures r.Ok? ==> FreshlyVersioned(old(store.items), store.items, Candidates(old(store.items)), old(ids.counter), ids.counter)
      ensures r.Err? ==> r.message == QuotaExceeded
      ensures Covers(old(store.writesLeft), 2 * |Candidates(old(store.items))|) ==>
        r.Ok? && store.writesLeft == SpendN(old(store.writesLeft), 2 * |Candidates(old(store.items))|)
    {
      ghost var before := store.items;
      var legacy := FindLegacyProjects();
      forall j | 0 <= j < |legacy|
        ensures legacy[j].key in Candidates(before)
      {
        assert legacy[j].key in KeysOf(legacy);
      }
      DistinctKeysCount(legacy);
      r := MigrateEach(legacy);
      if r.Ok? {
        forall k | k in Candidates(before)
          ensures MigratedAt(before, store.items, k)
        {
          var j :| 0 <= j < |legacy| && legacy[j].key == k;
        }
        NothingLeft(before, store.items);
      }
      CandidatesShrink(before, store.items);
    }

    /**
     * runMigrations(fromVersion): applies the steps fromVersion+1 .. 2 in order (only the
     * step to 2 does anything) and writes "2" under the version key once all succeed. A
     * failing step throws 'Migration failed: ...' with the version key untouched.
     */
    method RunMigrations(fromVersion: int) returns (r: Result<()>)
      modifies store, ids
      ensures Covers(old(store.writesLeft), 2 * |Candidates(old(store.items))| + 1) ==> r.Ok?
      ensures r.Ok? ==> store.GetItem(VersionKey) == Some(Raw("2"))
      ensures r.Ok? && fromVersion < TargetVersion ==> Migrated(old(store.items), store.items)
      ensures r.Ok? && fromVersion < TargetVersion ==>
        FreshlyVersioned(old(store.items), store.items, Candidates(old(store.items)), old(ids.counter), ids.counter)
      ensures r.Ok? && fromVersion >= TargetVersion ==> store.items == old(store.items)[VersionKey := Raw("2")]
      ensures r.Err? ==> VersionEntry(store.items) == VersionEntry(old(store.items))
      ensures r.Err? ==> Evolves(old(store.items), store.items)
      ensures r.Err? ==> r.message == QuotaExceeded || r.message == "Migration failed: " + QuotaExceeded
      ensures r.Err? && r.message == QuotaExceeded && fromVersion < TargetVersion ==> Migrated(old(store.items), store.items)
      ensures Candidates(store.items) <= Candidates(old(store.items))
    {
      ghost var before := store.items;
      ghost var budget := store.writesLeft;
      ghost var lo := ids.counter;
      EvolvesReflexive(before);
      var current := fromVersion;
      while current < TargetVersion
        invariant fromVersion <= current && (fromVersion < TargetVersion ==> current <= TargetVersion)
        invariant current < TargetVersion || fromVersion >= TargetVersion ==>
          store.items == before && store.writesLeft == budget && ids.counter == lo
        invariant fromVersion < TargetVersion && current == TargetVersion ==>
          FreshlyVersioned(before, store.items, Candidates(before), lo, ids.counter)
        invariant fromVersion < TargetVersion && current == TargetVersion && Covers(budget, 2 * |Candidates(before)| + 1) ==>
          store.writesLeft == SpendN(budget, 2 * |Candidates(before)|)
        invariant fromVersion < TargetVersion && current == TargetVersion ==> Migrated(before, store.items)
        invariant VersionEntry(store.items) == VersionEntry(before)
        invariant Evolves(before, store.items)
        decreases TargetVersion - current
      {
        var next := current + 1;
        if next == 2 {
          var m := MigrateV1ToV2();
          if m.Err? {
            return Err("Migration failed: " + m.message);
          }
        }
        current := next;
      }
      ghost var migrated := store.items;
      if fromVersion < TargetVersion {
        CandidatesShrink(before, migrated);
      }
      var w := store.SetItem(VersionKey, Raw("2"));
      if w.Err? {
        return w;
      }
      VersionWriteKeepsCandidates(migrated, Raw("2"));
      if fromVersion < TargetVersion {
        VersionWriteKeepsMigrated(before, migrated, Raw("2"));
        VersionWriteKeepsFresh(before, migrated, lo, ids.counter, Raw("2"));
      }
      r := Ok(());
    }

    /** performMigrationIfNeeded(): runs the migrations when the stored version is a number below 2. */
    method PerformMigrationIfNeeded() returns (r: Result<()>)
      modifies store, ids
      ensures !NeedsMigration(old(StoredVersion(store.items))) ==>
        r.Ok? && store.items == old(store.items) && store.writesLeft == old(store.writesLeft)
      ensures NeedsMigration(old(StoredVersion(store.items))) && r.Ok? ==>
        && store.GetItem(VersionKey) == Some(Raw("2"))
        && StoredVersion(store.items) == Some(TargetVersion)
        && Migrated(old(store.items), store.items)
        && FreshlyVersioned(old(store.items), store.items, Candidates(old(store.items)), old(ids.counter), ids.counter)
      ensures r.Err? ==> VersionEntry(store.items) == VersionEntry(old(store.items))
      ensures r.Err? ==> Evolves(old(store.items), store.items)
      ensures Covers(old(store.writesLeft), 2 * |Candidates(old(store.items))| + 1) ==> r.Ok?
    {
      var version := GetCurrentStorageVersion();
      if version.Some? && version.value < TargetVersion {
        r := RunMigrations(version.value);
        if r.Ok? {
          ParseTwo();
        }
      } else {
        r := Ok(());
      }
    }

    /**
     * createBackup(): copies every stored text (under a non-empty key) into one snapshot
     * stored under "mermaiditor-backup-<timestamp>"; a refused write gives null. The clock
     * reading is the timestamp parameter.
     */
    method CreateBackup(timestamp: string) returns (r: Option<string>)
      modifies store
      ensures r.Some? <==> Accepts(old(store.writesLeft))
      ensures r.Some? ==>
        r.value == BackupKey(timestamp) && store.items == old(store.items)[r.value := Snapshot(old(store.items) - {""})]
      ensures r.None? ==> store.items == old(store.items)
      ensures store.writesLeft == Spend(old(store.writesLeft))
    {
      var items := store.items;
      var todo := items.Keys;
      var backup: map<string, Text> := map[];
      while todo != {}
        invariant todo <= items.Keys
        invariant forall k :: k in backup <==> k in items && k !in todo && k != ""
        invariant forall k :: k in backup ==> backup[k] == items[k]
        decreases |todo|
      {
        var k :| k in todo;
        todo := todo - {k};
        if k != "" {
          backup := backup[k := items[k]];
        }
      }
      assert backup.Keys == (items - {""}).Keys;
      assert backup == items - {""};
      var key := BackupPrefix + Dashed(timestamp);
      var w := store.SetItem(key, Snapshot(backup));
      if w.Err? {
        return None;
      }
      return Some(key);
    }

    /**
     * restoreFromBackup(backupKey): a missing or empty backup throws 'Backup not found';
     * otherwise the store is cleared and refilled with the backup's entries, so that it
     * then holds exactly those keys. A refused write stops the refill part way.
     */
    method RestoreFromBackup(backupKey: string) returns (r: Result<()>)
      modifies store
      ensures var backup := old(store.GetItem(backupKey));
        (backup.None? || !Truthy(backup.value)) ==> r == Err("Backup not found: " + backupKey) && store.items == old(store.items)
      ensures var backup := old(store.GetItem(backupKey));
        backup.Some? && Truthy(backup.value) && backup.value.Raw? ==> r == Err(ParseErrorMessage) && store.items == old(store.items)
      ensures r.Ok? <==> var backup := old(store.GetItem(backupKey));
        backup.Some? && !backup.value.Raw? && Covers(old(store.writesLeft), |BackupEntries(old(store.items), backupKey).Keys|)
      ensures r.Ok? ==> store.items == BackupEntries(old(store.items), backupKey)
      ensures r.Err? ==>
        (store.items == old(store.items) || Within(store.items, BackupEntries(old(store.items), backupKey)))
    {
      var backup := store.GetItem(backupKey);
      if backup.None? || !Truthy(backup.value) {
        return Err("Backup not found: " + backupKey);
      }
      var data := ParseEntries(backup.value);
      if data.Err? {
        return Err(data.message);
      }
      store.Clear();
      r := Refill(data.value);
    }

    /** The refill loop of restoreFromBackup: setItem for each entry of the backup, into a cleared store. */
    method Refill(entries: map<string, Text>) returns (r: Result<()>)
      requires store.items == map[]
      modifies store
      ensures r.Ok? <==> Covers(old(store.writesLeft), |entries.Keys|)
      ensures r.Ok? ==> store.items == entries
      ensures Within(store.items, entries)
    {
      var todo := entries.Keys;
      ghost var budget := store.writesLeft;
      ghost var written: nat := 0;
      while todo != {}
        invariant todo <= entries.Keys
        invariant forall k :: k in store.items <==> k in entries && k !in todo
        invariant Within(store.items, entries)
        invariant written == |entries.Keys| - |todo|
        invariant Covers(budget, written) && store.writesLeft == SpendN(budget, written)
        decreases |todo|
      {
        var k :| k in todo;
        ghost var before := store.items;
        var w := store.SetItem(k, entries[k]);
        if w.Err? {
          RunsOutBefore(budget, written, |entries.Keys|);
          return w;
        }
        WithinExtend(before, entries, k);
        todo := todo - {k};
        written := written + 1;
      }
      assert store.items.Keys == entries.Keys;
      WithinAll(store.items, entries);
      r := Ok(());
    }

    /** getMigrationStatus(): the stored version, the target, and what a run would find. */
    method GetMigrationStatus() returns (status: MigrationStatus)
      ensures status.currentVersion == StoredVersion(store.items)
      ensures status.targetVersion == TargetVersion
      ensures status.hasLegacyData == HasLegacy(store.items)
      ensures status.needsMigration == NeedsMigration(status.currentVersion)
      ensures status.legacyProjects == if status.needsMigration then |Candidates(store.items)| else 0
    {
      var current := GetCurrentStorageVersion();
      var legacyData := HasLegacyProjectData();
      var needs := current.Some? && current.value < TargetVersion;
      var count := 0;
      if needs {
        var found := FindLegacyProjects();
        DistinctKeysCount(found);
        count := |found|;
      }
      status := MigrationStatus(current, TargetVersion, legacyData, needs, count);
    }

    /**
     * A backup taken and then restored returns the store to what it held before the
     * backup (apart from a value under the empty key, which a backup skips).
     */
    method BackupThenRestore(timestamp: string) returns (r: Result<()>)
      modifies store
      ensures r.Ok? ==> store.items == old(store.items) - {""}
      ensures old(store.writesLeft).None? ==> r.Ok?
    {
      var key := CreateBackup(timestamp);
      if key.None? {
        return Err("Backup not found: null");
      }
      r := RestoreFromBackup(key.value);
    }
  }
}

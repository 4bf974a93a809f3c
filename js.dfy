/**
 * The JavaScript values the storage code handles: strings, plain objects read from
 * JSON, and the text stored under a key or in a file.
 */
module Js {
  import opened Wrappers

  predicate StartsWith(s: string, p: string) {
    |p| <= |s| && s[..|p|] == p
  }

  predicate EndsWith(s: string, p: string) {
    |p| <= |s| && s[|s| - |p|..] == p
  }

  /** JavaScript's `o || d` on a value that is a string, null or undefined. */
  function Or(o: Option<string>, d: string): (r: string)
    ensures o.Some? && o.value != "" ==> r == o.value
    ensures o.None? || o.value == "" ==> r == d
  {
    if o.Some? && o.value != "" then o.value else d
  }

  /** `o || null`: an empty string counts as missing. */
  function OrNull(o: Option<string>): (r: Option<string>)
    ensures r.Some? <==> o.Some? && o.value != ""
    ensures r.Some? ==> r == o
  {
    if o.Some? && o.value != "" then o else None
  }

  /** A template literal `${x}` of a string that may be undefined. */
  function Show(o: Option<string>): string {
    if o.Some? then o.value else "undefined"
  }

  type Params = map<string, string>

  /**
   * A plain object as JSON.parse returns it, reduced to the fields the storage code
   * reads or writes; `kind` is the JSON field "type". None stands for a field that is
   * absent, null or undefined. Timestamps (createdAt, modifiedAt, exportedAt) are not kept.
   */
  datatype Doc = Doc(
    id: Option<string>,
    name: Option<string>,
    content: Option<string>,
    version: Option<string>,
    kind: Option<string>,
    projectId: Option<string>,
    theme: Option<string>,
    selectedFile: Option<string>,
    selectedFileId: Option<string>,
    storageProvider: Option<string>,
    storageProviderParameters: Option<Params>,
    diagrams: Option<map<string, Doc>>,
    files: Option<map<string, Doc>>,
    metadata: Option<Doc>)

  /** `{}` */
  const EmptyDoc: Doc := Doc(None, None, None, None, None, None, None, None, None, None, None, None, None, None)

  /**
   * The text held under a storage key or in a file.
   *  - Raw(s): the string s, which JSON.parse rejects (JSON texts that are not objects are
   *    treated the same way);
   *  - Json(d): the text JSON.stringify writes for the object d;
   *  - Snapshot(e): the text JSON.stringify writes for an object whose field k holds the
   *    stored text e[k] (a backup of a whole store).
   */
  datatype Text = Raw(s: string) | Json(doc: Doc) | Snapshot(entries: map<string, Text>)

  /** `if (text)`: only the empty string is falsy. */
  predicate Truthy(t: Text) {
    !(t.Raw? && t.s == "")
  }

  const ParseErrorMessage := "Unexpected token in JSON"

  /**
   * JSON.parse read as an object. A snapshot parses to an object whose fields are storage
   * keys; none of the modelled record fields is read from it.
   */
  function Parse(t: Text): (r: Result<Doc>)
    ensures r.Err? <==> t.Raw?
    ensures t.Json? ==> r == Ok(t.doc)
  {
    match t
    case Raw(_) => Err(ParseErrorMessage)
    case Json(d) => Ok(d)
    case Snapshot(_) => Ok(EmptyDoc)
  }

  /** The object a readable text parses to. */
  function ParsedDoc(t: Text): (r: Doc)
    ensures !t.Raw? ==> Parse(t) == Ok(r)
  {
    match t
    case Json(d) => d
    case _ => EmptyDoc
  }

  /** The string a file or key holds when read as plain text; documents read as "". */
  function PlainText(t: Text): string {
    if t.Raw? then t.s else ""
  }

  // ---- parseInt(s, 10) ----

  /** The characters JavaScript's parseInt skips before the number (WhiteSpace and LineTerminator). */
  predicate IsSpace(c: char) {
    c in {'\t', '\n', '\r', '\U{000B}', '\U{000C}', ' ', '\U{00A0}', '\U{FEFF}', '\U{1680}',
          '\U{2000}', '\U{2001}', '\U{2002}', '\U{2003}', '\U{2004}', '\U{2005}', '\U{2006}',
          '\U{2007}', '\U{2008}', '\U{2009}', '\U{200A}', '\U{2028}', '\U{2029}', '\U{202F}',
          '\U{205F}', '\U{3000}'}
  }

  predicate IsDigit(c: char) {
    '0' <= c <= '9'
  }

  function TrimStart(s: string): (r: string)
    ensures |r| <= |s| && r == s[|s| - |r|..]
    ensures r == [] || !IsSpace(r[0])
  {
    if s != [] && IsSpace(s[0]) then TrimStart(s[1..]) else s
  }

  /** The longest prefix of decimal digits. */
  function DigitPrefix(s: string): (r: string)
    ensures |r| <= |s| && r == s[..|r|]
    ensures forall i :: 0 <= i < |r| ==> IsDigit(r[i])
    ensures |r| < |s| ==> !IsDigit(s[|r|])
  {
    if s != [] && IsDigit(s[0]) then [s[0]] + DigitPrefix(s[1..]) else []
  }

  function DigitsValue(ds: string): nat
    requires forall i :: 0 <= i < |ds| ==> IsDigit(ds[i])
  {
    if ds == [] then 0
    else
      assert IsDigit(ds[|ds| - 1]);
      10 * DigitsValue(ds[..|ds| - 1]) + (ds[|ds| - 1] as int - '0' as int)
  }

  /** parseInt(s, 10); None is NaN. */
  function ParseInt(s: string): (r: Option<int>)
    ensures r.None? <==> DigitPrefix(SignDropped(TrimStart(s))) == []
  {
    var t := TrimStart(s);
    var negative := t != [] && t[0] == '-';
    var ds := DigitPrefix(SignDropped(t));
    if ds == [] then None
    else if negative then Some(0 - DigitsValue(ds) as int)
    else Some(DigitsValue(ds))
  }

  function SignDropped(t: string): string {
    if t != [] && (t[0] == '-' || t[0] == '+') then t[1..] else t
  }

  /** parseInt of a stored text: a document's text starts with '{', which is NaN. */
  function ParseIntText(t: Text): Option<int> {
    if t.Raw? then ParseInt(t.s) else None
  }

  // ---- Object.entries of a parsed object, for restoring a backup ----

  function StringField(key: string, o: Option<string>): map<string, Text> {
    if o.Some? then map[key := Raw(o.value)] else map[]
  }

  /** setItem(key, object) stores String(object). */
  function ObjectField(key: string, present: bool): map<string, Text> {
    if present then map[key := Raw("[object Object]")] else map[]
  }

  /** The key/text pairs `setItem(key, value)` writes for each field of an object. */
  function FieldTexts(d: Doc): map<string, Text> {
    StringField("id", d.id) + StringField("name", d.name) + StringField("content", d.content)
    + StringField("version", d.version) + StringField("type", d.kind)
    + StringField("projectId", d.projectId) + StringField("theme", d.theme)
    + StringField("selectedFile", d.selectedFile) + StringField("selectedFileId", d.selectedFileId)
    + StringField("storageProvider", d.storageProvider)
    + ObjectField("storageProviderParameters", d.storageProviderParameters.Some?)
    + ObjectField("diagrams", d.diagrams.Some?) + ObjectField("files", d.files.Some?)
    + ObjectField("metadata", d.metadata.Some?)
  }

  /** JSON.parse followed by Object.entries, as a restore reads a backup. */
  function ParseEntries(t: Text): (r: Result<map<string, Text>>)
    ensures t.Snapshot? ==> r == Ok(t.entries)
    ensures r.Err? <==> t.Raw?
  {
    match t
    case Raw(_) => Err(ParseErrorMessage)
    case Json(d) => Ok(FieldTexts(d))
    case Snapshot(e) => Ok(e)
  }
}

/**
 * The record classes of models/Project.js: a ProjectReference says where a project is
 * stored, a Project holds its name, a File is one diagram. Each converts to and from the
 * plain object that is serialised.
 */
module Records {
  import opened Wrappers
  import opened Js

  /** None stands for a field holding null or undefined. */
  datatype ProjectReference = ProjectReference(
    id: Option<string>,
    storageProvider: Option<string>,
    storageProviderParameters: Option<Params>,
    theme: Option<string>,
    selectedFileId: Option<string>)
  {
    /**
     * new ProjectReference(id, storageProvider, parameters, theme, selectedFileId): an
     * omitted parameter object becomes {}, an omitted theme 'default', an omitted selected
     * file null.
     */
    static function New(id: Option<string>, storageProvider: Option<string>,
                        parameters: Option<Params>, theme: Option<string>,
                        selectedFileId: Option<string>): (r: ProjectReference)
      ensures r.id == id && r.storageProvider == storageProvider
      ensures r.storageProviderParameters == Some(if parameters.Some? then parameters.value else map[])
      ensures r.theme == Some(if theme.Some? then theme.value else "default")
      ensures r.selectedFileId == selectedFileId
    {
      ProjectReference(id, storageProvider, Some(if parameters.None? then map[] else parameters.value),
                       Some(if theme.None? then "default" else theme.value), selectedFileId)
    }

    /**
     * ProjectReference.fromObject(obj): missing parameters become {}, a missing or empty
     * theme becomes 'default'.
     */
    static function FromObject(obj: Doc): (r: ProjectReference)
      ensures r.id == obj.id && r.storageProvider == obj.storageProvider
      ensures r.storageProviderParameters.Some?
      ensures obj.storageProviderParameters.Some? ==> r.storageProviderParameters == obj.storageProviderParameters
      ensures r.theme == Some(Or(obj.theme, "default")) && r.theme.value != ""
      ensures r.selectedFileId == obj.selectedFileId
    {
      New(obj.id, obj.storageProvider,
          Some(if obj.storageProviderParameters.Some? then obj.storageProviderParameters.value else map[]),
          Some(Or(obj.theme, "default")), obj.selectedFileId)
    }

    /**
     * reference.toObject(): exactly the five fields; reading it back gives the same
     * reference whenever the parameters are present and the theme is a non-empty string.
     */
    function ToObject(): (r: Doc)
      ensures r == EmptyDoc.(id := id, storageProvider := storageProvider,
                             storageProviderParameters := storageProviderParameters,
                             theme := theme, selectedFileId := selectedFileId)
      ensures storageProviderParameters.Some? && theme.Some? && theme.value != "" ==> FromObject(r) == this
    {
      Doc(id, None, None, None, None, None, theme, None, selectedFileId, storageProvider,
          storageProviderParameters, None, None, None)
    }
  }

  /** The project data that does not live with its reference: just the name. */
  datatype Project = Project(name: Option<string>)
  {
    static function FromObject(obj: Doc): (r: Project)
      ensures r.name == obj.name
    {
      Project(obj.name)
    }

    /** project.toObject(): only the name, and reading it back gives the same project. */
    function ToObject(): (r: Doc)
      ensures r == EmptyDoc.(name := name)
      ensures FromObject(r) == this
    {
      EmptyDoc.(name := name)
    }
  }

  /** One diagram: id, name, text and version (null until first saved). */
  datatype File = File(id: Option<string>, name: Option<string>, content: Option<string>, version: Option<string>)
  {
    /** new File(id, name, content, version = null). */
    static function New(id: Option<string>, name: Option<string>, content: Option<string>, version: Option<string>): (r: File)
      ensures r.id == id && r.name == name && r.content == content && r.version == version
    {
      File(id, name, content, version)
    }

    /** File.fromObject(obj): a missing version is null. */
    static function FromObject(obj: Doc): (r: File)
      ensures r.id == obj.id && r.name == obj.name && r.content == obj.content
      ensures obj.version.None? ==> r.version.None?
      ensures obj.version.Some? ==> r.version == obj.version
    {
      New(obj.id, obj.name, obj.content, obj.version)
    }

    /** file.toObject(): the four fields, and reading them back gives the same file. */
    function ToObject(): (r: Doc)
      ensures r == EmptyDoc.(id := id, name := name, content := content, version := version)
      ensures FromObject(r) == this
    {
      Doc(id, name, content, version, None, None, None, None, None, None, None, None, None, None)
    }
  }

  /** Converting an object to a reference and back drops every other field. */
  lemma ReferenceObjectNormalised(obj: Doc)
    ensures ProjectReference.FromObject(obj).ToObject().name.None?
    ensures ProjectReference.FromObject(obj).ToObject().diagrams.None?
    ensures ProjectReference.FromObject(ProjectReference.FromObject(obj).ToObject()) == ProjectReference.FromObject(obj)
  {
  }
}

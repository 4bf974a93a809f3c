/**
 * The abstract storage provider. Its operations exist to be overridden: called on the
 * base class, each one throws.
 */
module ProviderInterface {
  import opened Wrappers
  import opened Js

  datatype Operation =
    | GetIcon
    | GetProjectMetadata
    | CreateProject
    | UpdateProjectMetadata
    | DeleteProject
    | GetProjectFiles
    | GetFile
    | SaveFile
    | DeleteFile
    | DuplicateProject
    | ExportProject
    | ImportProject

  /** The method's name in the source. */
  function MethodName(op: Operation): string {
    match op
    case GetIcon => "getIcon"
    case GetProjectMetadata => "getProjectMetadata"
    case CreateProject => "createProject"
    case UpdateProjectMetadata => "updateProjectMetadata"
    case DeleteProject => "deleteProject"
    case GetProjectFiles => "getProjectFiles"
    case GetFile => "getFile"
    case SaveFile => "saveFile"
    case DeleteFile => "deleteFile"
    case DuplicateProject => "duplicateProject"
    case ExportProject => "exportProject"
    case ImportProject => "importProject"
  }

  const MustBeImplemented := " must be implemented"

  /** The message the base class throws for an operation. */
  function Unimplemented(op: Operation): (r: string)
    ensures op == GetIcon ==> r == "not implemented"
    ensures op != GetIcon ==> StartsWith(r, MethodName(op)) && EndsWith(r, MustBeImplemented)
  {
    if op == GetIcon then "not implemented" else MethodName(op) + MustBeImplemented
  }

  /** Calling an operation of the base class: whatever the arguments, it throws. */
  function Invoke<T>(op: Operation): (r: Result<T>)
    ensures r.Err? && r.message == Unimplemented(op)
  {
    Err(Unimplemented(op))
  }
}

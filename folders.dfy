/**
 * The local folders the File System Access API opens. A directory handle names one
 * folder; a folder maps entry names to files (their text) or sub-folders. The contents of
 * sub-folders are not modelled. A folder that is not on the disk reads as empty.
 */
module Folders {
  import opened Wrappers
  import opened Js

  /** A FileSystemDirectoryHandle: the number of the folder it opens. */
  datatype Handle = Handle(folder: nat)

  datatype Entry = FileEntry(text: Text) | DirEntry

  type Folder = map<string, Entry>

  const TypeMismatch := "TypeMismatchError: The path supplied exists, but was not an entry of requested type."
  const NotFound := "NotFoundError: A requested file or directory could not be found."

  /** getFileHandle(name) followed by getFile().text(): None when the call throws. */
  function ReadText(f: Folder, name: string): (r: Option<Text>)
    ensures r.Some? <==> name in f && f[name].FileEntry?
    ensures r.Some? ==> f[name] == FileEntry(r.value)
  {
    if name in f && f[name].FileEntry? then Some(f[name].text) else None
  }

  class Disk {
    var folders: map<nat, Folder>

    constructor (initial: map<nat, Folder>)
      ensures folders == initial
    {
      folders := initial;
    }

    function Contents(h: Handle): (r: Folder)
      reads this
      ensures h.folder in folders ==> r == folders[h.folder]
      ensures h.folder !in folders ==> r == map[]
    {
      if h.folder in folders then folders[h.folder] else map[]
    }

    /**
     * getFileHandle(name, {create: true}), createWritable(), write(t), close(): the file
     * ends up holding exactly t; a sub-folder of that name makes the call throw.
     */
    method Write(h: Handle, name: string, t: Text) returns (r: Result<()>)
      modifies this
      ensures r.Err? <==> name in old(Contents(h)) && old(Contents(h))[name].DirEntry?
      ensures r.Err? ==> r.message == TypeMismatch && folders == old(folders)
      ensures r.Ok? ==> folders == old(folders)[h.folder := old(Contents(h))[name := FileEntry(t)]]
    {
      var f := Contents(h);
      if name in f && f[name].DirEntry? {
        return Err(TypeMismatch);
      }
      folders := folders[h.folder := f[name := FileEntry(t)]];
      r := Ok(());
    }

    /** getFileHandle(name, {create: true}) alone: creates an empty file when none exists. */
    method Touch(h: Handle, name: string) returns (r: Result<()>)
      modifies this
      ensures r.Err? <==> name in old(Contents(h)) && old(Contents(h))[name].DirEntry?
      ensures r.Err? ==> r.message == TypeMismatch
      ensures name in old(Contents(h)) ==> folders == old(folders)
      ensures name !in old(Contents(h)) ==> folders == old(folders)[h.folder := old(Contents(h))[name := FileEntry(Raw(""))]]
    {
      var f := Contents(h);
      if name in f {
        return if f[name].DirEntry? then Err(TypeMismatch) else Ok(());
      }
      folders := folders[h.folder := f[name := FileEntry(Raw(""))]];
      r := Ok(());
    }

    /**
     * removeEntry(name): removes a file; a missing entry throws, and so does a sub-folder,
     * whose contents are taken to be non-empty.
     */
    method RemoveEntry(h: Handle, name: string) returns (r: Result<()>)
      modifies this
      ensures r.Ok? <==> name in old(Contents(h)) && old(Contents(h))[name].FileEntry?
      ensures r.Ok? ==> folders == old(folders)[h.folder := old(Contents(h)) - {name}]
      ensures r.Err? ==> folders == old(folders)
    {
      var f := Contents(h);
      if name !in f {
        return Err(NotFound);
      }
      if f[name].DirEntry? {
        return Err(TypeMismatch);
      }
      folders := folders[h.folder := f - {name}];
      r := Ok(());
    }
  }
}

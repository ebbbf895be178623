/** The registry service: the id counter and the two stores as fields of one
    object, and the thirteen endpoints as its methods. Each method does what
    its endpoint does, step by step, and promises exactly what the matching
    function of RegistrySpec describes. The clock is the parameter `now`. */
module Registry {
  import opened Types
  import opened KeyOrder
  import Spec = RegistrySpec
  import Props = RegistryProperties

  /** The scan of `get_all_files_by_folder_id` and of
      `get_all_files_by_folder_name`: walk the key-ordered listing and keep
      the files of folder `fid`. */
  method CollectFilesOf(files: seq<File>, fid: nat) returns (result: seq<File>)
    ensures result == Spec.FilesOf(files, fid)
  {
    result := [];
    var i := 0;
    while i < |files|
      invariant 0 <= i <= |files|
      invariant result == Spec.FilesOf(files[..i], fid)
    {
      var file := files[i];
      assert files[..i + 1][..i] == files[..i];
      if file.folderId == fid {
        result := result + [file];
      }
      i := i + 1;
    }
    assert files[..i] == files;
  }

  class Drive {
    var counter: nat
    var files: map<nat, File>
    var folders: map<nat, Folder>

    /** The state as a value. */
    function State(): Spec.Store
      reads this
    {
      Spec.Store(counter, files, folders)
    }

    ghost predicate Valid()
      reads this
    {
      Spec.Valid(State())
    }

    /** A fresh deployment: the counter starts at 0, both stores are empty. */
    constructor ()
      ensures State() == Spec.Empty() && Valid()
    {
      counter := 0;
      files := map[];
      folders := map[];
    }

    // -------------------------------------------------------------------
    // Helpers

    /** Reads the counter and stores its successor; answers the value that
        was replaced. */
    method MintId() returns (id: nat)
      modifies this`counter
      ensures id == old(counter) && counter == old(counter) + 1
    {
      id := counter;
      counter := counter + 1;
    }

    /** `do_insert_file`: upsert under the record's own id. */
    method DoInsertFile(file: File)
      modifies this`files
      ensures files == old(files)[file.id := file]
    {
      files := files[file.id := file];
    }

    /** `do_insert_folder`: upsert under the record's own id. */
    method DoInsertFolder(folder: Folder)
      modifies this`folders
      ensures folders == old(folders)[folder.id := folder]
    {
      folders := folders[folder.id := folder];
    }

    /** `_get_file`. */
    method LookupFile(id: nat) returns (r: Option<File>)
      ensures r.Some? <==> id in files
      ensures r.Some? ==> r.value == files[id]
    {
      r := if id in files then Some(files[id]) else None;
    }

    /** `_get_folder`. */
    method LookupFolder(id: nat) returns (r: Option<Folder>)
      ensures r.Some? <==> id in folders
      ensures r.Some? ==> r.value == folders[id]
    {
      r := if id in folders then Some(folders[id]) else None;
    }

    // -------------------------------------------------------------------
    // Queries; none has a modifies clause, so none changes the state.

    method GetFile(id: nat) returns (r: Result<File>)
      ensures r == Spec.GetFile(State(), id)
    {
      var found := LookupFile(id);
      match found
      case Some(file) => r := Ok(file);
      case None => r := Err(NotFound(FileIdNotFound(id)));
    }

    method GetAllFiles() returns (r: Result<seq<File>>)
      ensures r == Spec.GetAllFiles(State())
    {
      var all := InKeyOrder(files);
      if |all| != 0 {
        r := Ok(all);
      } else {
        r := Err(NotFound("No file found."));
      }
    }

    method GetAllFilesByFolderId(folderId: nat) returns (r: Result<seq<File>>)
      ensures r == Spec.GetAllFilesByFolderId(State(), folderId)
    {
      var found := LookupFolder(folderId);
      match found
      case Some(folder) =>
        var all := InKeyOrder(files);
        if |all| != 0 {
          var result := CollectFilesOf(all, folder.id);
          r := Ok(result);
        } else {
          r := Err(NotFound("No file found."));
        }
      case None =>
        r := Err(NotFound(FolderIdNotFound(folderId)));
    }

    method GetAllFilesByFolderName(folderName: string) returns (r: Result<seq<File>>)
      ensures r == Spec.GetAllFilesByFolderName(State(), folderName)
    {
      var all := InKeyOrder(folders);
      if |all| == 0 {
        return Err(NotFound("No folder found."));
      }
      var result: seq<File> := [];
      var i := 0;
      while i < |all|
        invariant 0 <= i <= |all|
        invariant forall j :: 0 <= j < i ==> all[j].folderName != folderName
        invariant result == []
      {
        if all[i].folderName == folderName {
          var found := all[i];
          Props.FindByNameFirst(all, folderName, i);
          var fileList := InKeyOrder(files);
          if |fileList| == 0 {
            return Err(NotFound("No file found."));
          }
          result := CollectFilesOf(fileList, found.id);
          break;
        }
        i := i + 1;
      }
      if i == |all| {
        assert Spec.FindByName(all, folderName).None?;
      }
      r := Ok(result);
    }

    method GetFolder(id: nat) returns (r: Result<Folder>)
      ensures r == Spec.GetFolder(State(), id)
    {
      var found := LookupFolder(id);
      match found
      case Some(folder) => r := Ok(folder);
      case None => r := Err(NotFound(FolderIdNotFound(id)));
    }

    method GetFolderByName(folderName: string) returns (r: Result<Folder>)
      ensures r == Spec.GetFolderByName(State(), folderName)
    {
      var all := InKeyOrder(folders);
      var result: Option<Folder> := None;
      if |all| != 0 {
        var i := 0;
        while i < |all|
          invariant 0 <= i <= |all|
          invariant result.None? ==> forall j :: 0 <= j < i ==> all[j].folderName != folderName
        {
          if all[i].folderName == folderName {
            Props.FindByNameFirst(all, folderName, i);
            result := Some(all[i]);
            break;
          }
          i := i + 1;
        }
        if result.None? {
          r := Err(NotFound("No folder found."));
        } else {
          r := Ok(result.value);
        }
      } else {
        r := Err(NotFound("No folder found."));
      }
    }

    method GetAllFolders() returns (r: Result<seq<Folder>>)
      ensures r == Spec.GetAllFolders(State())
    {
      var all := InKeyOrder(folders);
      if |all| != 0 {
        r := Ok(all);
      } else {
        r := Err(NotFound("No folder found."));
      }
    }

    // -------------------------------------------------------------------
    // Updates; each keeps the registry invariant.

    method CreateFile(payload: FilePayload, now: nat) returns (r: Result<File>)
      requires Valid()
      modifies this
      ensures Spec.Step(r, State()) == Spec.CreateFile(old(State()), payload, now)
      ensures Valid()
    {
      if |payload.fileName| == 0 {
        return Err(CreateFail("Invalid file name"));
      }
      if |payload.mimeType| == 0 {
        return Err(CreateFail("Invalid mime type"));
      }
      if |payload.content| == 0 {
        return Err(CreateFail("Invalid content"));
      }
      var id := MintId();
      var file := File(id, payload.folderId, payload.fileName, payload.mimeType, payload.content, Some(now));
      DoInsertFile(file);
      r := Ok(file);
      Props.CreateFileKeepsValid(old(State()), payload, now);
    }

    method UpdateFile(id: nat, payload: FilePayload, now: nat) returns (r: Result<File>)
      requires Valid()
      modifies this
      ensures Spec.Step(r, State()) == Spec.UpdateFile(old(State()), id, payload, now)
      ensures Valid()
    {
      if |payload.fileName| == 0 {
        return Err(UpdateFail("Invalid file name"));
      }
      if |payload.mimeType| == 0 {
        return Err(CreateFail("Invalid mime type"));
      }
      if |payload.content| == 0 {
        return Err(UpdateFail("Invalid content"));
      }
      var found := LookupFile(id);
      match found
      case Some(file) =>
        file := file.(folderId := payload.folderId);
        file := file.(fileName := payload.fileName);
        file := file.(mimeType := payload.mimeType);
        file := file.(content := payload.content);
        file := file.(updatedAt := Some(now));
        DoInsertFile(file);
        r := Ok(file);
        Props.UpdateFileKeepsValid(old(State()), id, payload, now);
      case None =>
        r := Err(NotFound(UpdateFileNotFound(id)));
    }

    method UpdateFileName(id: nat, fileName: string, now: nat) returns (r: Result<File>)
      requires Valid()
      modifies this
      ensures Spec.Step(r, State()) == Spec.UpdateFileName(old(State()), id, fileName, now)
      ensures Valid()
    {
      if |fileName| == 0 {
        return Err(UpdateFail("Invalid file name"));
      }
      var found := LookupFile(id);
      match found
      case Some(file) =>
        file := file.(fileName := fileName);
        file := file.(updatedAt := Some(now));
        DoInsertFile(file);
        r := Ok(file);
        Props.UpdateFileNameKeepsValid(old(State()), id, fileName, now);
      case None =>
        r := Err(NotFound(UpdateFileNotFound(id)));
    }

    method DeleteFile(id: nat) returns (r: Result<File>)
      requires Valid()
      modifies this
      ensures Spec.Step(r, State()) == Spec.DeleteFile(old(State()), id)
      ensures Valid()
    {
      if id in files {
        var file := files[id];
        files := files - {id};
        r := Ok(file);
      } else {
        r := Err(NotFound(DeleteFileNotFound(id)));
      }
    }

    method CreateFolder(payload: FolderPayload, now: nat) returns (r: Result<Folder>)
      requires Valid()
      modifies this
      ensures Spec.Step(r, State()) == Spec.CreateFolder(old(State()), payload, now)
      ensures Valid()
    {
      var id := MintId();
      var folder := Folder(id, payload.folderName, Some(now));
      DoInsertFolder(folder);
      r := Ok(folder);
      Props.CreateFolderKeepsValid(old(State()), payload, now);
    }

    method UpdateFolder(id: nat, payload: FolderPayload, now: nat) returns (r: Result<Folder>)
      requires Valid()
      modifies this
      ensures Spec.Step(r, State()) == Spec.UpdateFolder(old(State()), id, payload, now)
      ensures Valid()
    {
      var found := LookupFolder(id);
      match found
      case Some(folder) =>
        folder := folder.(folderName := payload.folderName);
        folder := folder.(updatedAt := Some(now));
        DoInsertFolder(folder);
        r := Ok(folder);
        Props.UpdateFolderKeepsValid(old(State()), id, payload, now);
      case None =>
        r := Err(NotFound(UpdateFolderNotFound(id)));
    }
  }
}

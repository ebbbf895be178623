/** The registry's persistent state as a value, and what each of the thirteen
    endpoints answers and leaves behind, as functions of that value. The
    class in module Registry runs the endpoints step by step and is proved
    to agree with these functions. */
module RegistrySpec {
  import opened Types
  import opened KeyOrder

  /** The shared id counter and the two stores. */
  datatype Store = Store(counter: nat, files: map<nat, File>, folders: map<nat, Folder>)

  /** What a write endpoint answers, and the state it leaves. */
  datatype Step<T> = Step(result: Result<T>, next: Store)

  /** The registry invariant: every stored record sits under its own id, every
      id was minted (is below the counter), and no id names both a file and a
      folder. */
  ghost predicate Valid(st: Store) {
    && (forall k :: k in st.files ==> k < st.counter && st.files[k].id == k)
    && (forall k :: k in st.folders ==> k < st.counter && st.folders[k].id == k)
    && st.files.Keys !! st.folders.Keys
  }

  /** The initial state: counter 0, both stores empty. */
  function Empty(): (st: Store)
    ensures Valid(st) && st.files == map[] && st.folders == map[]
  {
    Store(0, map[], map[])
  }

  predicate Complete(p: FilePayload) {
    |p.fileName| != 0 && |p.mimeType| != 0 && |p.content| != 0
  }

  function LookupFile(st: Store, id: nat): Option<File> {
    if id in st.files then Some(st.files[id]) else None
  }

  function LookupFolder(st: Store, id: nat): Option<Folder> {
    if id in st.folders then Some(st.folders[id]) else None
  }

  /** Reads the counter and stores its successor; the id handed out is the
      value replaced, i.e. the counter before the increment. */
  function Mint(st: Store): (nat, Store) {
    (st.counter, st.(counter := st.counter + 1))
  }

  // ---------------------------------------------------------------------
  // Scans over a key-ordered listing

  /** The files of `s` whose folder is `fid`, in the order of `s`. */
  function FilesOf(s: seq<File>, fid: nat): (r: seq<File>)
    ensures |r| <= |s|
    ensures forall i :: 0 <= i < |r| ==> r[i].folderId == fid
  {
    if s == [] then []
    else
      var last := s[|s| - 1];
      FilesOf(s[..|s| - 1], fid) + (if last.folderId == fid then [last] else [])
  }

  /** The first folder of `s` named `name`, if any. */
  function FindByName(s: seq<Folder>, name: string): (r: Option<Folder>)
    ensures r.None? <==> forall i :: 0 <= i < |s| ==> s[i].folderName != name
    ensures r.Some? ==> exists i :: 0 <= i < |s| && s[i] == r.value && s[i].folderName == name &&
                                    forall j :: 0 <= j < i ==> s[j].folderName != name
  {
    if s == [] then None
    else if s[0].folderName == name then Some(s[0])
    else
      var r := FindByName(s[1..], name);
      assert r.Some? ==> exists i :: 0 <= i < |s[1..]| && s[1..][i] == r.value && s[1..][i].folderName == name &&
                                     forall j :: 0 <= j < i ==> s[1..][j].folderName != name;
      assert forall i :: 1 <= i < |s| ==> s[i] == s[1..][i - 1];
      r
  }

  lemma {:induction false} FilesOfMembers(s: seq<File>, fid: nat, f: File)
    ensures f in FilesOf(s, fid) <==> f in s && f.folderId == fid
  {
    if s != [] {
      var init := s[..|s| - 1];
      FilesOfMembers(init, fid, f);
      assert s == init + [s[|s| - 1]];
    }
  }

  lemma {:induction false} FilesOfAscending(s: seq<File>, fid: nat)
    requires forall i, j :: 0 <= i < j < |s| ==> s[i].id < s[j].id
    ensures var r := FilesOf(s, fid); forall i, j :: 0 <= i < j < |r| ==> r[i].id < r[j].id
  {
    if s != [] {
      var init := s[..|s| - 1];
      var last := s[|s| - 1];
      FilesOfAscending(init, fid);
      var r0 := FilesOf(init, fid);
      forall i | 0 <= i < |r0|
        ensures r0[i].id < last.id
      {
        FilesOfMembers(init, fid, r0[i]);
        var k :| 0 <= k < |init| && init[k] == r0[i];
      }
    }
  }

  /** The first folder named `name` in a key-ordered listing is the one with
      the lowest id among those so named. */
  lemma FindByNameLowest(s: seq<Folder>, name: string)
    requires forall i, j :: 0 <= i < j < |s| ==> s[i].id < s[j].id
    ensures FindByName(s, name).Some? ==>
              forall j :: 0 <= j < |s| && s[j].folderName == name ==> FindByName(s, name).value.id <= s[j].id
  {
  }

  // ---------------------------------------------------------------------
  // Read endpoints

  /** `get_file`. */
  function GetFile(st: Store, id: nat): (r: Result<File>)
    ensures r.Ok? <==> id in st.files
    ensures r.Ok? ==> r.value == st.files[id]
    ensures r.Err? ==> r.error == NotFound(FileIdNotFound(id))
  {
    match LookupFile(st, id)
    case Some(file) => Ok(file)
    case None => Err(NotFound(FileIdNotFound(id)))
  }

  /** `get_all_files`. */
  function GetAllFiles(st: Store): (r: Result<seq<File>>)
    ensures r.Err? <==> st.files == map[]
    ensures r.Err? ==> r.error == NotFound("No file found.")
    ensures r.Ok? ==> |r.value| == |st.files| && forall f :: f in r.value <==> f in st.files.Values
  {
    var files := InKeyOrder(st.files);
    InKeyOrderEmpty(st.files);
    forall f ensures f in files <==> f in st.files.Values {
      InKeyOrderValues(st.files, f);
    }
    if |files| != 0 then Ok(files) else Err(NotFound("No file found."))
  }

  /** `get_all_files_by_folder_id`: NotFound for an unknown folder, NotFound
      for an empty file store, otherwise the files of that folder (possibly
      none). */
  function GetAllFilesByFolderId(st: Store, fid: nat): (r: Result<seq<File>>)
    ensures fid !in st.folders ==> r == Err(NotFound(FolderIdNotFound(fid)))
    ensures fid in st.folders && st.files == map[] ==> r == Err(NotFound("No file found."))
    ensures fid in st.folders && st.files != map[] ==>
              r.Ok? && forall f :: f in r.value <==> f in st.files.Values && f.folderId == st.folders[fid].id
  {
    match LookupFolder(st, fid)
    case Some(folder) =>
      var files := InKeyOrder(st.files);
      InKeyOrderEmpty(st.files);
      if |files| != 0 then
        forall f ensures f in FilesOf(files, folder.id) <==> f in st.files.Values && f.folderId == folder.id {
          FilesOfMembers(files, folder.id, f);
          InKeyOrderValues(st.files, f);
        }
        Ok(FilesOf(files, folder.id))
      else Err(NotFound("No file found."))
    case None => Err(NotFound(FolderIdNotFound(fid)))
  }

  /** Some stored folder is named `name`. */
  ghost predicate HasFolderNamed(st: Store, name: string) {
    exists k :: k in st.folders && st.folders[k].folderName == name
  }

  /** The scan over the key-ordered folder listing finds a folder named
      `name` exactly when one is stored. */
  lemma FindByNameInStore(st: Store, name: string)
    ensures FindByName(InKeyOrder(st.folders), name).Some? <==> HasFolderNamed(st, name)
  {
    var s := InKeyOrder(st.folders);
    if k :| k in st.folders && st.folders[k].folderName == name {
      InKeyOrderValues(st.folders, st.folders[k]);
    }
    if FindByName(s, name).Some? {
      InKeyOrderValues(st.folders, FindByName(s, name).value);
    }
  }

  /** `get_all_files_by_folder_name`: NotFound only for an empty folder store;
      no folder of that name gives an empty list; a folder of that name gives
      NotFound on an empty file store, else a list (which folder's files,
      lemma FilesByFolderNameIsLowestFolder says). */
  function GetAllFilesByFolderName(st: Store, name: string): (r: Result<seq<File>>)
    ensures st.folders == map[] ==> r == Err(NotFound("No folder found."))
    ensures st.folders != map[] && !HasFolderNamed(st, name) ==> r == Ok([])
    ensures HasFolderNamed(st, name) && st.files == map[] ==> r == Err(NotFound("No file found."))
    ensures HasFolderNamed(st, name) && st.files != map[] ==> r.Ok?
  {
    var folders := InKeyOrder(st.folders);
    InKeyOrderEmpty(st.folders);
    InKeyOrderEmpty(st.files);
    FindByNameInStore(st, name);
    if |folders| != 0 then
      match FindByName(folders, name)
      case None => Ok([])
      case Some(folder) =>
        var files := InKeyOrder(st.files);
        if |files| != 0 then Ok(FilesOf(files, folder.id))
        else Err(NotFound("No file found."))
    else Err(NotFound("No folder found."))
  }

  /** `get_folder`. */
  function GetFolder(st: Store, id: nat): (r: Result<Folder>)
    ensures r.Ok? <==> id in st.folders
    ensures r.Ok? ==> r.value == st.folders[id]
    ensures r.Err? ==> r.error == NotFound(FolderIdNotFound(id))
  {
    match LookupFolder(st, id)
    case Some(folder) => Ok(folder)
    case None => Err(NotFound(FolderIdNotFound(id)))
  }

  /** `get_folder_by_name`: a stored folder of that name, else NotFound. */
  function GetFolderByName(st: Store, name: string): (r: Result<Folder>)
    ensures r.Ok? <==> HasFolderNamed(st, name)
    ensures r.Ok? ==> r.value in st.folders.Values && r.value.folderName == name
    ensures r.Err? ==> r.error == NotFound("No folder found.")
  {
    var folders := InKeyOrder(st.folders);
    FindByNameInStore(st, name);
    if |folders| != 0 then
      match FindByName(folders, name)
      case None => Err(NotFound("No folder found."))
      case Some(folder) =>
        InKeyOrderValues(st.folders, folder);
        Ok(folder)
    else Err(NotFound("No folder found."))
  }

  /** `get_all_folders`. */
  function GetAllFolders(st: Store): (r: Result<seq<Folder>>)
    ensures r.Err? <==> st.folders == map[]
    ensures r.Err? ==> r.error == NotFound("No folder found.")
    ensures r.Ok? ==> |r.value| == |st.folders| && forall f :: f in r.value <==> f in st.folders.Values
  {
    var folders := InKeyOrder(st.folders);
    InKeyOrderEmpty(st.folders);
    forall f ensures f in folders <==> f in st.folders.Values {
      InKeyOrderValues(st.folders, f);
    }
    if |folders| != 0 then Ok(folders) else Err(NotFound("No folder found."))
  }

  // ---------------------------------------------------------------------
  // Write endpoints

  /** `create_file`: the first empty field (name, then mime type, then
      content) is reported as CreateFail and nothing changes; otherwise a new
      id is minted and the record stored under it. */
  function CreateFile(st: Store, p: FilePayload, now: nat): (s: Step<File>)
    ensures |p.fileName| == 0 ==> s == Step(Err(CreateFail("Invalid file name")), st)
    ensures |p.fileName| != 0 && |p.mimeType| == 0 ==> s == Step(Err(CreateFail("Invalid mime type")), st)
    ensures |p.fileName| != 0 && |p.mimeType| != 0 && |p.content| == 0 ==>
              s == Step(Err(CreateFail("Invalid content")), st)
    ensures s.result.Ok? <==> Complete(p)
    ensures s.result.Ok? ==>
              var f := s.result.value;
              && f.id == st.counter && s.next.counter == st.counter + 1
              && f.folderId == p.folderId && f.fileName == p.fileName
              && f.mimeType == p.mimeType && f.content == p.content && f.updatedAt == Some(now)
              && s.next.files == st.files[f.id := f] && s.next.folders == st.folders
  {
    if |p.fileName| == 0 then Step(Err(CreateFail("Invalid file name")), st)
    else if |p.mimeType| == 0 then Step(Err(CreateFail("Invalid mime type")), st)
    else if |p.content| == 0 then Step(Err(CreateFail("Invalid content")), st)
    else
      var (id, st1) := Mint(st);
      var file := File(id, p.folderId, p.fileName, p.mimeType, p.content, Some(now));
      Step(Ok(file), st1.(files := st1.files[file.id := file]))
  }

  /** `update_file`: the same three checks as `create_file`, before the
      lookup, but an empty name or content is an UpdateFail while an empty
      mime type is a CreateFail; then an unknown id is NotFound; otherwise
      every field but the id is replaced and the time stamped. */
  function UpdateFile(st: Store, id: nat, p: FilePayload, now: nat): (s: Step<File>)
    ensures |p.fileName| == 0 ==> s == Step(Err(UpdateFail("Invalid file name")), st)
    ensures |p.fileName| != 0 && |p.mimeType| == 0 ==> s == Step(Err(CreateFail("Invalid mime type")), st)
    ensures |p.fileName| != 0 && |p.mimeType| != 0 && |p.content| == 0 ==>
              s == Step(Err(UpdateFail("Invalid content")), st)
    ensures Complete(p) && id !in st.files ==> s == Step(Err(NotFound(UpdateFileNotFound(id))), st)
    ensures s.result.Ok? <==> Complete(p) && id in st.files
    ensures s.result.Ok? ==>
              var f := s.result.value;
              && f.id == st.files[id].id
              && f.folderId == p.folderId && f.fileName == p.fileName
              && f.mimeType == p.mimeType && f.content == p.content && f.updatedAt == Some(now)
              && s.next == st.(files := st.files[f.id := f])
  {
    if |p.fileName| == 0 then Step(Err(UpdateFail("Invalid file name")), st)
    else if |p.mimeType| == 0 then Step(Err(CreateFail("Invalid mime type")), st)
    else if |p.content| == 0 then Step(Err(UpdateFail("Invalid content")), st)
    else
      match LookupFile(st, id)
      case Some(file) =>
        var updated := file.(folderId := p.folderId, fileName := p.fileName, mimeType := p.mimeType,
                             content := p.content, updatedAt := Some(now));
        Step(Ok(updated), st.(files := st.files[updated.id := updated]))
      case None => Step(Err(NotFound(UpdateFileNotFound(id))), st)
  }

  /** `update_file_name`: an empty name is UpdateFail, an unknown id
      NotFound; otherwise only the name and the time stamp change. */
  function UpdateFileName(st: Store, id: nat, name: string, now: nat): (s: Step<File>)
    ensures |name| == 0 ==> s == Step(Err(UpdateFail("Invalid file name")), st)
    ensures |name| != 0 && id !in st.files ==> s == Step(Err(NotFound(UpdateFileNotFound(id))), st)
    ensures s.result.Ok? <==> |name| != 0 && id in st.files
    ensures s.result.Ok? ==>
              var f := s.result.value;
              && f == st.files[id].(fileName := name, updatedAt := Some(now))
              && s.next == st.(files := st.files[f.id := f])
  {
    if |name| == 0 then Step(Err(UpdateFail("Invalid file name")), st)
    else
      match LookupFile(st, id)
      case Some(file) =>
        var updated := file.(fileName := name, updatedAt := Some(now));
        Step(Ok(updated), st.(files := st.files[updated.id := updated]))
      case None => Step(Err(NotFound(UpdateFileNotFound(id))), st)
  }

  /** `delete_file`: removes the file and answers with its last record, or
      NotFound with nothing changed. */
  function DeleteFile(st: Store, id: nat): (s: Step<File>)
    ensures id !in st.files ==> s == Step(Err(NotFound(DeleteFileNotFound(id))), st)
    ensures id in st.files ==> s == Step(Ok(st.files[id]), st.(files := st.files - {id}))
  {
    if id in st.files then Step(Ok(st.files[id]), st.(files := st.files - {id}))
    else Step(Err(NotFound(DeleteFileNotFound(id))), st)
  }

  /** `create_folder`: never fails and accepts any name, even an empty one. */
  function CreateFolder(st: Store, p: FolderPayload, now: nat): (s: Step<Folder>)
    ensures s.result.Ok?
    ensures var f := s.result.value;
            && f == Folder(st.counter, p.folderName, Some(now))
            && s.next == Store(st.counter + 1, st.files, st.folders[f.id := f])
  {
    var (id, st1) := Mint(st);
    var folder := Folder(id, p.folderName, Some(now));
    Step(Ok(folder), st1.(folders := st1.folders[folder.id := folder]))
  }

  /** `update_folder`: NotFound for an unknown id; otherwise the name (any
      name, even an empty one) and the time stamp are replaced. */
  function UpdateFolder(st: Store, id: nat, p: FolderPayload, now: nat): (s: Step<Folder>)
    ensures id !in st.folders ==> s == Step(Err(NotFound(UpdateFolderNotFound(id))), st)
    ensures s.result.Ok? <==> id in st.folders
    ensures s.result.Ok? ==>
              var f := s.result.value;
              && f == st.folders[id].(folderName := p.folderName, updatedAt := Some(now))
              && s.next == st.(folders := st.folders[f.id := f])
  {
    match LookupFolder(st, id)
    case Some(folder) =>
      var updated := folder.(folderName := p.folderName, updatedAt := Some(now));
      Step(Ok(updated), st.(folders := st.folders[updated.id := updated]))
    case None => Step(Err(NotFound(UpdateFolderNotFound(id))), st)
  }
}

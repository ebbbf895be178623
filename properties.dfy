/** What the endpoints promise taken together: the registry invariant is kept,
    listings follow id order, reads see what writes left, and minted ids are
    fresh and never reused. */
module RegistryProperties {
  import opened Types
  import opened KeyOrder
  import opened RegistrySpec

  // ---------------------------------------------------------------------
  // Scans

  /** The scan that stops at the first folder named `name` finds what
      FindByName describes. */
  lemma FindByNameFirst(s: seq<Folder>, name: string, i: nat)
    requires i < |s| && s[i].folderName == name
    requires forall j :: 0 <= j < i ==> s[j].folderName != name
    ensures FindByName(s, name) == Some(s[i])
  {
  }

  /** Under the invariant, a store's listing is in strictly ascending id
      order. */
  lemma FileListingAscending(st: Store)
    requires Valid(st)
    ensures var s := InKeyOrder(st.files); forall i, j :: 0 <= i < j < |s| ==> s[i].id < s[j].id
  {
  }

  lemma FolderListingAscending(st: Store)
    requires Valid(st)
    ensures var s := InKeyOrder(st.folders); forall i, j :: 0 <= i < j < |s| ==> s[i].id < s[j].id
  {
  }

  /** `get_all_files` lists every file once, in ascending id order. */
  lemma AllFilesInIdOrder(st: Store)
    requires Valid(st)
    ensures GetAllFiles(st).Ok? ==>
              var s := GetAllFiles(st).value;
              && (forall i, j :: 0 <= i < j < |s| ==> s[i].id < s[j].id)
              && (forall k :: k in st.files <==> exists i :: 0 <= i < |s| && s[i].id == k)
  {
    FileListingAscending(st);
    var s := InKeyOrder(st.files);
    forall k ensures k in st.files <==> exists i :: 0 <= i < |s| && s[i].id == k {
      if k in st.files {
        InKeyOrderValues(st.files, st.files[k]);
      }
      if i :| 0 <= i < |s| && s[i].id == k {
        InKeyOrderValues(st.files, s[i]);
      }
    }
  }

  /** `get_all_folders` lists every folder once, in ascending id order. */
  lemma AllFoldersInIdOrder(st: Store)
    requires Valid(st)
    ensures GetAllFolders(st).Ok? ==>
              var s := GetAllFolders(st).value;
              && (forall i, j :: 0 <= i < j < |s| ==> s[i].id < s[j].id)
              && (forall k :: k in st.folders <==> exists i :: 0 <= i < |s| && s[i].id == k)
  {
    FolderListingAscending(st);
    var s := InKeyOrder(st.folders);
    forall k ensures k in st.folders <==> exists i :: 0 <= i < |s| && s[i].id == k {
      if k in st.folders {
        InKeyOrderValues(st.folders, st.folders[k]);
      }
      if i :| 0 <= i < |s| && s[i].id == k {
        InKeyOrderValues(st.folders, s[i]);
      }
    }
  }

  /** `get_all_files_by_folder_id(fid)` on a known folder and a non-empty file
      store answers exactly the files filed under `fid`, in ascending id
      order; possibly none. */
  lemma FilesByFolderIdExact(st: Store, fid: nat)
    requires Valid(st) && fid in st.folders && st.files != map[]
    ensures GetAllFilesByFolderId(st, fid).Ok?
    ensures var s := GetAllFilesByFolderId(st, fid).value;
            && (forall f :: f in s <==> f in st.files.Values && f.folderId == fid)
            && (forall i, j :: 0 <= i < j < |s| ==> s[i].id < s[j].id)
  {
    FolderListingIsFilter(st, fid);
    FilteredListingAscending(st, fid);
  }

  lemma FolderListingIsFilter(st: Store, fid: nat)
    requires Valid(st) && fid in st.folders && st.files != map[]
    ensures GetAllFilesByFolderId(st, fid) == Ok(FilesOf(InKeyOrder(st.files), fid))
  {
  }

  lemma FilteredListingAscending(st: Store, fid: nat)
    requires Valid(st)
    ensures var s := FilesOf(InKeyOrder(st.files), fid); forall i, j :: 0 <= i < j < |s| ==> s[i].id < s[j].id
  {
    FileListingAscending(st);
    FilesOfAscending(InKeyOrder(st.files), fid);
  }

  /** `get_folder_by_name` answers the folder of that name with the lowest
      id. */
  lemma FolderByNameIsLowest(st: Store, name: string)
    requires Valid(st)
    ensures GetFolderByName(st, name).Ok? ==>
              var f := GetFolderByName(st, name).value;
              forall k :: k in st.folders && st.folders[k].folderName == name ==> f.id <= k
  {
    var s := InKeyOrder(st.folders);
    FolderListingAscending(st);
    FindByNameLowest(s, name);
    forall k | k in st.folders && st.folders[k].folderName == name
      ensures exists j :: 0 <= j < |s| && s[j] == st.folders[k]
    {
      InKeyOrderValues(st.folders, st.folders[k]);
    }
  }

  /** When a folder is named `name` and files exist, `get_all_files_by_folder_name`
      answers what `get_all_files_by_folder_id` answers for the lowest-id
      folder of that name. */
  lemma FilesByFolderNameIsLowestFolder(st: Store, name: string, k: nat)
    requires Valid(st) && st.files != map[]
    requires k in st.folders && st.folders[k].folderName == name
    requires forall j :: j in st.folders && st.folders[j].folderName == name ==> k <= j
    ensures GetAllFilesByFolderName(st, name) == GetAllFilesByFolderId(st, k)
  {
    var s := InKeyOrder(st.folders);
    InKeyOrderEmpty(st.folders);
    InKeyOrderValues(st.folders, st.folders[k]);
    FolderListingAscending(st);
    FindByNameLowest(s, name);
    var f := FindByName(s, name).value;
    InKeyOrderValues(st.folders, f);
    var j :| j in st.folders && st.folders[j] == f;
    assert f.id == j;
  }

  // ---------------------------------------------------------------------
  // The invariant is kept, and created ids are fresh

  lemma CreateFileKeepsValid(st: Store, p: FilePayload, now: nat)
    requires Valid(st)
    ensures Valid(CreateFile(st, p, now).next)
    ensures CreateFile(st, p, now).result.Ok? ==>
              var id := CreateFile(st, p, now).result.value.id;
              id !in st.files && id !in st.folders
  {
  }

  lemma CreateFolderKeepsValid(st: Store, p: FolderPayload, now: nat)
    requires Valid(st)
    ensures Valid(CreateFolder(st, p, now).next)
    ensures var id := CreateFolder(st, p, now).result.value.id;
            id !in st.files && id !in st.folders
  {
  }

  lemma UpdateFileKeepsValid(st: Store, id: nat, p: FilePayload, now: nat)
    requires Valid(st)
    ensures Valid(UpdateFile(st, id, p, now).next)
  {
  }

  lemma UpdateFileNameKeepsValid(st: Store, id: nat, name: string, now: nat)
    requires Valid(st)
    ensures Valid(UpdateFileName(st, id, name, now).next)
  {
  }

  lemma UpdateFolderKeepsValid(st: Store, id: nat, p: FolderPayload, now: nat)
    requires Valid(st)
    ensures Valid(UpdateFolder(st, id, p, now).next)
  {
  }

  // ---------------------------------------------------------------------
  // Reads after writes

  /** A created file reads back as created; no other file changes. */
  lemma CreateFileThenGet(st: Store, p: FilePayload, now: nat, k: nat)
    requires Valid(st)
    ensures var s := CreateFile(st, p, now);
            s.result.Ok? ==>
              && GetFile(s.next, s.result.value.id) == Ok(s.result.value)
              && (k != s.result.value.id ==> GetFile(s.next, k) == GetFile(st, k))
              && GetFile(st, s.result.value.id).Err?
  {
  }

  /** A created folder reads back as created. */
  lemma CreateFolderThenGet(st: Store, p: FolderPayload, now: nat)
    requires Valid(st)
    ensures var s := CreateFolder(st, p, now);
            GetFolder(s.next, s.result.value.id) == Ok(s.result.value) && GetFolder(st, s.result.value.id).Err?
  {
  }

  /** A successful `update_file` keeps the id, is what `get_file` then
      answers, and touches no other file, no folder and not the counter. */
  lemma UpdateFileThenGet(st: Store, id: nat, p: FilePayload, now: nat, k: nat)
    requires Valid(st)
    ensures var s := UpdateFile(st, id, p, now);
            s.result.Ok? ==>
              && s.result.value.id == id && GetFile(s.next, id) == s.result
              && (k != id ==> GetFile(s.next, k) == GetFile(st, k))
              && s.next.folders == st.folders && s.next.counter == st.counter
  {
  }

  /** A successful `update_file_name` changes only the name and the stamp of
      that one file. */
  lemma UpdateFileNameThenGet(st: Store, id: nat, name: string, now: nat, k: nat)
    requires Valid(st)
    ensures var s := UpdateFileName(st, id, name, now);
            s.result.Ok? ==>
              && GetFile(s.next, id) == Ok(st.files[id].(fileName := name, updatedAt := Some(now)))
              && (k != id ==> GetFile(s.next, k) == GetFile(st, k))
              && s.next.folders == st.folders && s.next.counter == st.counter
  {
  }

  /** Delete is terminal: a deleted file is not found afterwards; the others
      are untouched. */
  lemma DeleteFileThenGet(st: Store, id: nat, k: nat)
    ensures var s := DeleteFile(st, id);
            && (s.result.Ok? ==> GetFile(s.next, id) == Err(NotFound(FileIdNotFound(id))))
            && (k != id ==> GetFile(s.next, k) == GetFile(st, k))
  {
  }

  // ---------------------------------------------------------------------
  // Runs of updates

  /** One call of a write endpoint. */
  datatype Op =
    | CreateFileOp(filePayload: FilePayload, now: nat)
    | UpdateFileOp(id: nat, filePayload: FilePayload, now: nat)
    | UpdateFileNameOp(id: nat, name: string, now: nat)
    | DeleteFileOp(id: nat)
    | CreateFolderOp(folderPayload: FolderPayload, now: nat)
    | UpdateFolderOp(id: nat, folderPayload: FolderPayload, now: nat)

  /** The state a call leaves, and the id it handed out, if it created. */
  function Apply(st: Store, op: Op): (Store, Option<nat>) {
    match op
    case CreateFileOp(p, now) =>
      var s := CreateFile(st, p, now);
      (s.next, if s.result.Ok? then Some(s.result.value.id) else None)
    case UpdateFileOp(id, p, now) => (UpdateFile(st, id, p, now).next, None)
    case UpdateFileNameOp(id, name, now) => (UpdateFileName(st, id, name, now).next, None)
    case DeleteFileOp(id) => (DeleteFile(st, id).next, None)
    case CreateFolderOp(p, now) =>
      var s := CreateFolder(st, p, now);
      (s.next, Some(s.result.value.id))
    case UpdateFolderOp(id, p, now) => (UpdateFolder(st, id, p, now).next, None)
  }

  /** Every call keeps the invariant, never moves the counter back, and
      advances it by exactly one when and only when it hands out an id: the
      counter's value before the call. */
  lemma ApplyStep(st: Store, op: Op)
    requires Valid(st)
    ensures var (next, minted) := Apply(st, op);
            && Valid(next)
            && (minted.None? ==> next.counter == st.counter)
            && (minted.Some? ==> minted.value == st.counter && next.counter == st.counter + 1)
  {
  }

  /** The state after a run of calls, and the ids handed out, in order. */
  function Run(st: Store, ops: seq<Op>): (Store, seq<nat>)
    decreases |ops|
  {
    if ops == [] then (st, [])
    else
      var (next, minted) := Apply(st, ops[0]);
      var (last, ids) := Run(next, ops[1..]);
      (last, (if minted.Some? then [minted.value] else []) + ids)
  }

  /** Over any run of calls, files and folders alike, deletes included: the
      invariant holds at the end, the ids handed out are strictly increasing
      (so pairwise distinct), and each lies in [counter before, counter
      after), so none was the id of any record stored before the run. */
  lemma {:induction false} RunMintsFreshIds(st: Store, ops: seq<Op>)
    requires Valid(st)
    ensures var (last, ids) := Run(st, ops);
            && Valid(last)
            && st.counter + |ids| == last.counter
            && (forall i, j :: 0 <= i < j < |ids| ==> ids[i] < ids[j])
            && (forall i :: 0 <= i < |ids| ==> st.counter <= ids[i] < last.counter)
    decreases |ops|
  {
    if ops != [] {
      ApplyStep(st, ops[0]);
      var (next, minted) := Apply(st, ops[0]);
      RunMintsFreshIds(next, ops[1..]);
    }
  }

  /** Hence no id handed out during a run names a file or folder that was
      stored before it, and no two of them are equal. */
  lemma RunIdsDistinctAndUnused(st: Store, ops: seq<Op>)
    requires Valid(st)
    ensures var ids := Run(st, ops).1;
            && (forall i, j :: 0 <= i < |ids| && 0 <= j < |ids| && i != j ==> ids[i] != ids[j])
            && (forall i :: 0 <= i < |ids| ==> ids[i] !in st.files && ids[i] !in st.folders)
  {
    RunMintsFreshIds(st, ops);
  }

  // ---------------------------------------------------------------------
  // A worked run from a fresh deployment: create folder "Docs", create a
  // file in it, list the folder, delete the file, list the folder again.
  // The first id handed out is 0.

  lemma DocsScenarioCreate(now: nat)
    ensures var docs := Folder(0, "Docs", Some(now));
            var note := File(1, 0, "a.txt", "text/plain", "hi", Some(now));
            && CreateFolder(Empty(), FolderPayload("Docs"), now) == Step(Ok(docs), Store(1, map[], map[0 := docs]))
            && CreateFile(Store(1, map[], map[0 := docs]), FilePayload(0, "a.txt", "text/plain", "hi"), now)
               == Step(Ok(note), Store(2, map[1 := note], map[0 := docs]))
  {
  }

  /** The folder lists its one file. */
  lemma DocsScenarioList(now: nat)
    ensures var docs := Folder(0, "Docs", Some(now));
            var note := File(1, 0, "a.txt", "text/plain", "hi", Some(now));
            GetAllFilesByFolderId(Store(2, map[1 := note], map[0 := docs]), 0) == Ok([note])
  {
    var note := File(1, 0, "a.txt", "text/plain", "hi", Some(now));
    var files := map[1 := note];
    assert files.Keys == {1};
    assert SortedKeys(files.Keys) == [1];
    assert InKeyOrder(files) == [note];
    assert FilesOf([note], 0) == [note] by {
      assert [note][..0] == [];
    }
  }

  /** After the delete the file store is empty, so listing the folder is
      NotFound although the folder exists. */
  lemma DocsScenarioDelete(now: nat)
    ensures var docs := Folder(0, "Docs", Some(now));
            var note := File(1, 0, "a.txt", "text/plain", "hi", Some(now));
            && DeleteFile(Store(2, map[1 := note], map[0 := docs]), 1) == Step(Ok(note), Store(2, map[], map[0 := docs]))
            && GetAllFilesByFolderId(Store(2, map[], map[0 := docs]), 0) == Err(NotFound("No file found."))
  {
  }
}

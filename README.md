# File/folder registry — a Dafny model

This project models the core of a small file-manager service: the registry in
`src/google_drive_backend/src/lib.rs`. The service keeps three pieces of
persistent state:

- one shared id counter, used to mint the ids of both files and folders;
- a file store, mapping ids to `File` records;
- a folder store, mapping ids to `Folder` records.

Both stores are ordered maps, so every listing and every "first match" follows
ascending id order. Thirteen endpoints sit on top of that state. Seven are
queries: `get_file`, `get_all_files`, `get_all_files_by_folder_id`,
`get_all_files_by_folder_name`, `get_folder`, `get_folder_by_name` and
`get_all_folders`. Six are updates: `create_file`, `update_file`,
`update_file_name`, `delete_file`, `create_folder` and `update_folder`. Every
endpoint answers either a record (or a list of records) or one of three
errors: `NotFound`, `CreateFail` or `UpdateFail`.

Layout:

- `types.dfy` (module `Types`): records, payloads, the error kinds and the
  messages that embed an id.
- `key_order.dfy` (module `KeyOrder`): a map's keys and values in ascending
  key order, which is what the stores' iterators yield.
- `registry_spec.dfy` (module `RegistrySpec`): the state as a value
  (`Store`), the registry invariant `Valid`, and one function per endpoint.
  Each function gives the endpoint's answer and the state it leaves.
- `registry.dfy` (module `Registry`): class `Drive`, whose fields are the
  counter and the two stores. Its methods run each endpoint step by step,
  with the scans written as loops. Each method is proved to give the answer
  and the new state of the matching `RegistrySpec` function. The update
  methods also keep `Valid`.
- `properties.dfy` (module `RegistryProperties`): what the endpoints promise
  together. The invariant is kept. Listings are in id order. A read sees what
  the last write left. Minted ids are fresh and pairwise distinct over any run
  of calls, deletes included. It also holds a worked example run.

Two behaviours of the code worth spelling out:

- The id is minted as `counter.set(current_value + 1)`, and `Cell::set`
  returns the value it replaced. So the id handed out is the counter value
  before the increment, and the first id handed out is 0. The worked example
  (`DocsScenarioCreate`) therefore gives the folder id 0 and the file id 1.
- `get_all_files_by_folder_name` answers `NotFound "No folder found."` only
  when the folder store is empty. When folders exist but none has the name,
  the loop finds nothing and the endpoint answers `Ok` with an empty list.
  When a folder has the name but the file store is empty, it answers
  `NotFound "No file found."`.

Kept as written, although they look unintended: `update_file` reports an empty
mime type as `CreateFail`, while an empty name or content is an `UpdateFail`.
All three of its field checks run before the lookup, so an empty name on an
unknown id is an `UpdateFail`, not a `NotFound`. `create_folder` and
`update_folder` accept any folder name, even an empty one. No write checks
that a file's `folder_id` names an existing folder.

The query methods of `Drive` have no `modifies` clause, so calling one never
changes the state. Two identical queries with no write in between therefore
give identical answers.

## Model

| member | source | states |
|---|---|---|
| KeyOrder.SortedKeys | src/google_drive_backend/src/lib.rs:111-113 | the keys of a store are listed once each, all drawn from the store, in strictly ascending order |
| KeyOrder.SortedKeysCover | src/google_drive_backend/src/lib.rs:111-113 | every stored key appears in the key-ordered listing |
| KeyOrder.InKeyOrder | src/google_drive_backend/src/lib.rs:111-113 | collecting a store's iterator gives one value per key, the i-th value being the one under the i-th smallest key |
| KeyOrder.InKeyOrderValues | src/google_drive_backend/src/lib.rs:111-113 | a record is in the collected listing exactly when it is stored |
| KeyOrder.InKeyOrderEmpty | src/google_drive_backend/src/lib.rs:115 | the collected listing is empty exactly when the store is empty |
| RegistrySpec.Empty | src/google_drive_backend/src/lib.rs:69-82 | a fresh deployment (counter 0, both stores empty) satisfies the registry invariant |
| RegistrySpec.FilesOf | src/google_drive_backend/src/lib.rs:132-139 | the filter keeps no more files than it scans, and every file it keeps has the requested folder id |
| RegistrySpec.FilesOfMembers | src/google_drive_backend/src/lib.rs:135-139 | a file is kept exactly when it was scanned and carries the requested folder id |
| RegistrySpec.FilesOfAscending | src/google_drive_backend/src/lib.rs:135-139 | filtering an id-ordered listing keeps it id-ordered |
| RegistrySpec.FindByName | src/google_drive_backend/src/lib.rs:207-214 | the scan finds nothing exactly when no folder has the name; otherwise it answers a folder with that name that no earlier folder shares |
| RegistrySpec.FindByNameLowest | src/google_drive_backend/src/lib.rs:207-214 | on an id-ordered listing, the folder found has the lowest id among the folders with that name |
| RegistrySpec.FindByNameInStore | src/google_drive_backend/src/lib.rs:161-164 | scanning the folder listing finds a match exactly when some stored folder has the name |
| RegistrySpec.GetFile | src/google_drive_backend/src/lib.rs:99-107 | `Ok` exactly for a stored id, with the stored record; otherwise `NotFound` with the id in the message |
| RegistrySpec.GetAllFiles | src/google_drive_backend/src/lib.rs:109-122 | `NotFound "No file found."` exactly when the file store is empty; otherwise every stored file once, and nothing else |
| RegistrySpec.GetAllFilesByFolderId | src/google_drive_backend/src/lib.rs:125-151 | an unknown folder gives `NotFound` naming its id; a known folder and an empty file store give `NotFound "No file found."`; otherwise `Ok` with exactly the files filed under that folder, possibly none |
| RegistrySpec.GetAllFilesByFolderName | src/google_drive_backend/src/lib.rs:154-189 | an empty folder store gives `NotFound "No folder found."`; folders but no name match give `Ok([])`; a match and an empty file store give `NotFound "No file found."`; a match and files give `Ok` |
| RegistrySpec.GetFolder | src/google_drive_backend/src/lib.rs:191-199 | `Ok` exactly for a stored folder id, with the stored record; otherwise `NotFound` with the id in the message |
| RegistrySpec.GetFolderByName | src/google_drive_backend/src/lib.rs:201-227 | `Ok` exactly when some stored folder has the name, and then a stored folder with that name; otherwise `NotFound "No folder found."` |
| RegistrySpec.GetAllFolders | src/google_drive_backend/src/lib.rs:229-242 | `NotFound "No folder found."` exactly when the folder store is empty; otherwise every stored folder once |
| RegistrySpec.CreateFile | src/google_drive_backend/src/lib.rs:244-280 | the checks run in the order empty name, empty mime type, empty content, each a `CreateFail` that leaves the state unchanged; otherwise the new file takes the counter's value as its id, the counter goes up by one, the record holds the payload and `Some(now)`, it is stored under its id, and the folders are unchanged |
| RegistrySpec.UpdateFile | src/google_drive_backend/src/lib.rs:282-316 | before any lookup: empty name is `UpdateFail`, empty mime type is `CreateFail`, empty content is `UpdateFail`; then an unknown id is `NotFound`; every failure leaves the state unchanged; success keeps the id, takes folder id, name, mime type and content from the payload, stamps `now`, and changes only that file |
| RegistrySpec.UpdateFileName | src/google_drive_backend/src/lib.rs:318-336 | an empty name is `UpdateFail` before the lookup; an unknown id is `NotFound`; success changes only the name and stamp of that one file |
| RegistrySpec.DeleteFile | src/google_drive_backend/src/lib.rs:338-346 | a stored id answers its last record and removes exactly that key; an unknown id is `NotFound` and changes nothing |
| RegistrySpec.CreateFolder | src/google_drive_backend/src/lib.rs:348-363 | never fails and accepts any name; the new folder takes the counter's value as its id, the counter goes up by one, and the files are unchanged |
| RegistrySpec.UpdateFolder | src/google_drive_backend/src/lib.rs:365-380 | an unknown id is `NotFound` and changes nothing; otherwise only the name (any name) and the stamp of that folder change |
| Registry.CollectFilesOf | src/google_drive_backend/src/lib.rs:132-139 | the loop that pushes the files of one folder builds exactly the filtered listing |
| Registry.Drive.constructor | src/google_drive_backend/src/lib.rs:64-84 | the counter starts at 0, both stores start empty, and the invariant holds |
| Registry.Drive.MintId | src/google_drive_backend/src/lib.rs:264-269 | the id handed out is the counter before the increment, and the counter goes up by exactly one |
| Registry.Drive.DoInsertFile | src/google_drive_backend/src/lib.rs:383-385 | upserts the record under its own id and changes nothing else |
| Registry.Drive.DoInsertFolder | src/google_drive_backend/src/lib.rs:387-389 | upserts the record under its own id and changes nothing else |
| Registry.Drive.LookupFile | src/google_drive_backend/src/lib.rs:391-394 | a record exactly for a stored id, and then the stored one |
| Registry.Drive.LookupFolder | src/google_drive_backend/src/lib.rs:396-399 | a record exactly for a stored id, and then the stored one |
| Registry.Drive.GetFile | src/google_drive_backend/src/lib.rs:99-107 | answers what `RegistrySpec.GetFile` describes, without changing the state |
| Registry.Drive.GetAllFiles | src/google_drive_backend/src/lib.rs:109-122 | answers what `RegistrySpec.GetAllFiles` describes, without changing the state |
| Registry.Drive.GetAllFilesByFolderId | src/google_drive_backend/src/lib.rs:125-151 | answers what `RegistrySpec.GetAllFilesByFolderId` describes, without changing the state |
| Registry.Drive.GetAllFilesByFolderName | src/google_drive_backend/src/lib.rs:154-189 | the scan that stops at the first folder with the name answers what `RegistrySpec.GetAllFilesByFolderName` describes |
| Registry.Drive.GetFolder | src/google_drive_backend/src/lib.rs:191-199 | answers what `RegistrySpec.GetFolder` describes, without changing the state |
| Registry.Drive.GetFolderByName | src/google_drive_backend/src/lib.rs:201-227 | the scan with `break` on the first match answers what `RegistrySpec.GetFolderByName` describes |
| Registry.Drive.GetAllFolders | src/google_drive_backend/src/lib.rs:229-242 | answers what `RegistrySpec.GetAllFolders` describes, without changing the state |
| Registry.Drive.CreateFile | src/google_drive_backend/src/lib.rs:244-280 | the answer and the new state are those of `RegistrySpec.CreateFile`; the invariant is kept |
| Registry.Drive.UpdateFile | src/google_drive_backend/src/lib.rs:282-316 | the answer and the new state are those of `RegistrySpec.UpdateFile`; the invariant is kept |
| Registry.Drive.UpdateFileName | src/google_drive_backend/src/lib.rs:318-336 | the answer and the new state are those of `RegistrySpec.UpdateFileName`; the invariant is kept |
| Registry.Drive.DeleteFile | src/google_drive_backend/src/lib.rs:338-346 | the answer and the new state are those of `RegistrySpec.DeleteFile`; the invariant is kept |
| Registry.Drive.CreateFolder | src/google_drive_backend/src/lib.rs:348-363 | the answer and the new state are those of `RegistrySpec.CreateFolder`; the invariant is kept |
| Registry.Drive.UpdateFolder | src/google_drive_backend/src/lib.rs:365-380 | the answer and the new state are those of `RegistrySpec.UpdateFolder`; the invariant is kept |
| RegistryProperties.FindByNameFirst | src/google_drive_backend/src/lib.rs:209-213 | a scan that stops at index i, the first folder with the name, answers that folder |
| RegistryProperties.FileListingAscending | src/google_drive_backend/src/lib.rs:111-113 | under the invariant, the file listing is in strictly ascending id order |
| RegistryProperties.FolderListingAscending | src/google_drive_backend/src/lib.rs:231-233 | under the invariant, the folder listing is in strictly ascending id order |
| RegistryProperties.AllFilesInIdOrder | src/google_drive_backend/src/lib.rs:109-122 | `get_all_files` lists the files in strictly ascending id order, and an id is stored exactly when some listed file carries it |
| RegistryProperties.AllFoldersInIdOrder | src/google_drive_backend/src/lib.rs:229-242 | `get_all_folders` lists the folders in strictly ascending id order, and an id is stored exactly when some listed folder carries it |
| RegistryProperties.FilesByFolderIdExact | src/google_drive_backend/src/lib.rs:125-151 | for a known folder and a non-empty file store: `Ok` with exactly the files whose folder id is the requested one, in ascending id order |
| RegistryProperties.FolderListingIsFilter | src/google_drive_backend/src/lib.rs:127-140 | for a known folder and a non-empty file store, the answer is the key-ordered listing filtered on that folder id |
| RegistryProperties.FilteredListingAscending | src/google_drive_backend/src/lib.rs:129-139 | the filtered listing is in strictly ascending id order |
| RegistryProperties.FolderByNameIsLowest | src/google_drive_backend/src/lib.rs:201-227 | `get_folder_by_name` answers the folder with the lowest id among those with the name |
| RegistryProperties.FilesByFolderNameIsLowestFolder | src/google_drive_backend/src/lib.rs:161-183 | when files exist and k is the lowest-id folder with the name, listing by name answers what listing folder k by id answers |
| RegistryProperties.CreateFileKeepsValid | src/google_drive_backend/src/lib.rs:264-279 | `create_file` keeps the invariant, and the new id is neither a file id nor a folder id |
| RegistryProperties.CreateFolderKeepsValid | src/google_drive_backend/src/lib.rs:350-362 | `create_folder` keeps the invariant, and the new id is neither a file id nor a folder id |
| RegistryProperties.UpdateFileKeepsValid | src/google_drive_backend/src/lib.rs:302-310 | `update_file` keeps the invariant |
| RegistryProperties.UpdateFileNameKeepsValid | src/google_drive_backend/src/lib.rs:325-330 | `update_file_name` keeps the invariant |
| RegistryProperties.UpdateFolderKeepsValid | src/google_drive_backend/src/lib.rs:367-374 | `update_folder` keeps the invariant |
| RegistryProperties.CreateFileThenGet | src/google_drive_backend/src/lib.rs:270-279 | after `create_file` succeeds, `get_file` of the new id answers the created record, that id was unknown before, and every other id reads as before |
| RegistryProperties.CreateFolderThenGet | src/google_drive_backend/src/lib.rs:356-362 | after `create_folder`, `get_folder` of the new id answers the created record, and that id was unknown before |
| RegistryProperties.UpdateFileThenGet | src/google_drive_backend/src/lib.rs:302-310 | after `update_file` succeeds, the id is unchanged, `get_file` answers the updated record, every other file reads as before, and the folders and the counter are unchanged |
| RegistryProperties.UpdateFileNameThenGet | src/google_drive_backend/src/lib.rs:325-330 | after `update_file_name` succeeds, `get_file` answers the old record with only the name and stamp replaced; other files, the folders and the counter are unchanged |
| RegistryProperties.DeleteFileThenGet | src/google_drive_backend/src/lib.rs:339-346 | after a successful delete, `get_file` of that id is `NotFound`; every other id reads as before |
| RegistryProperties.ApplyStep | src/google_drive_backend/src/lib.rs:264-269 | every write keeps the invariant; only a successful create moves the counter, by exactly one, and it hands out the counter's previous value |
| RegistryProperties.RunMintsFreshIds | src/google_drive_backend/src/lib.rs:350-355 | over any run of writes, deletes included, the invariant holds at the end, the ids handed out are strictly increasing, and each lies between the counter before and the counter after |
| RegistryProperties.RunIdsDistinctAndUnused | src/google_drive_backend/src/lib.rs:264-269 | ids handed out during a run are pairwise distinct, files and folders alike, and none was the id of a record stored before the run |
| RegistryProperties.DocsScenarioCreate | src/google_drive_backend/src/lib.rs:348-363 | from a fresh deployment, creating folder "Docs" gives id 0, and then creating a file in it gives id 1 |
| RegistryProperties.DocsScenarioList | src/google_drive_backend/src/lib.rs:125-151 | in that state, listing folder 0 answers the one file |
| RegistryProperties.DocsScenarioDelete | src/google_drive_backend/src/lib.rs:338-346 | deleting that file answers it, and listing folder 0 afterwards is `NotFound "No file found."` although the folder exists |

## Left out

- Serialisation of records through Candid (`Storable`, `BoundedStorable`, `MAX_SIZE = 1024`, lib.rs:24-62) is not modelled. It runs inside a foreign library, and the failure on an oversized record is a panic in that library, not a visible branch.
- The memory manager, the virtual memory regions and the `thread_local!`/`RefCell` borrowing (lib.rs:64-84) are not modelled. They become plain fields of one object.
- The clock `ic_cdk::api::time()` is a host call. Each update takes it as the parameter `now`.
- Ids and timestamps are `nat`. The `u64` overflow of `current_value + 1` and the `expect` on a failed counter write are not modelled.
- The stable map and cell libraries are treated as an ordered map and a counter. Their internals are not modelled.
- The endpoint attributes, `export_candid!` and the generated interface bindings in `src/declarations/` carry no logic and are not modelled.
- Reads are modelled as functions of the state, so two reads with no write between them trivially agree. No separate lemma states this.

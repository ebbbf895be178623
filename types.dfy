/** Records, payloads and errors of the file/folder registry, as they cross
    the service's call interface. Ids and timestamps are unsigned 64-bit
    integers in the service; here they are `nat`. */
module Types {

  datatype Option<T> = None | Some(value: T)

  /** A stored file; `folderId` refers to a folder that need not exist. */
  datatype File = File(
    id: nat,
    folderId: nat,
    fileName: string,
    mimeType: string,
    content: string,
    updatedAt: Option<nat>)

  /** A stored folder. */
  datatype Folder = Folder(id: nat, folderName: string, updatedAt: Option<nat>)

  /** Request body of `create_file` and `update_file`. */
  datatype FilePayload = FilePayload(folderId: nat, fileName: string, mimeType: string, content: string)

  /** Request body of `create_folder` and `update_folder`. */
  datatype FolderPayload = FolderPayload(folderName: string)

  /** The three error kinds every endpoint may answer with. */
  datatype Error =
    | NotFound(msg: string)
    | CreateFail(msg: string)
    | UpdateFail(msg: string)

  datatype Result<T> = Ok(value: T) | Err(error: Error)

  /** Decimal rendering of an id, as `format!("{}", id)` prints it. */
  function NatToString(n: nat): string
    decreases n
  {
    if n < 10 then ["0123456789"[n]]
    else NatToString(n / 10) + ["0123456789"[n % 10]]
  }

  // The messages that embed an id; the constant messages are written where
  // they are used.

  function FileIdNotFound(id: nat): string {
    "a file with id=" + NatToString(id) + " not found"
  }

  function FolderIdNotFound(id: nat): string {
    "a folder with id=" + NatToString(id) + " not found"
  }

  function UpdateFileNotFound(id: nat): string {
    "couldn't update a file with id=" + NatToString(id) + ". file not found"
  }

  function DeleteFileNotFound(id: nat): string {
    "couldn't delete a file with id=" + NatToString(id) + ". file not found."
  }

  function UpdateFolderNotFound(id: nat): string {
    "Folder with id=" + NatToString(id) + " not found."
  }
}

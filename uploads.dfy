/** A multipart file upload as the validation code sees it: its size in bytes
    (`isEmpty()` is size zero) and the client-supplied file name, which may be missing. */
module Uploads {
  import opened Wrappers

  datatype UploadedFile = UploadedFile(size: nat, originalFilename: Option<string>)

  /** `5 * 1024 * 1024` bytes, the size limit both upload paths share. */
  const MaxFileSize: nat := 5 * 1024 * 1024

  /** The image types both upload paths accept, compared after lower-casing. */
  const AllowedImageExtensions: seq<string> := [".jpg", ".jpeg", ".png", ".gif"]
}

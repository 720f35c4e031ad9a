/**
 * The two upload endpoints, identical in both view modules: the server-side
 * upload, which stores the file and answers its public URL and key, and the
 * presign endpoint, which answers the key, the public root and the bucket a
 * browser needs to upload directly.  The storage call's outcome (`storeOk`,
 * `signOk`) and the random hex prefix are parameters; `r2` is the object
 * storage settings, absent when USE_R2 is off.
 */
module UploadViews {
  import opened Wrappers
  import opened Text
  import opened Http
  import opened Storage
  import opened Settings

  /** The answer of the server-side upload. */
  datatype Uploaded = Uploaded(fileUrl: string, key: string)

  /** The answer of the presign endpoint (the signed form itself is left to the storage SDK). */
  datatype Presigned = Presigned(key: string, publicRoot: string, bucket: string)

  /**
   * `upload_file`: POST only (405), signed-in only (401), a file with a
   * non-empty name (400); the upload needs the storage settings, a bucket and
   * a successful store, and fails with 500 otherwise.  `fileName` is the
   * uploaded file's name, `None` when no file was sent; `uploadType` the form
   * field, `None` when absent.
   */
  function UploadFile(isPost: bool, who: Requester, fileName: Option<string>, uploadType: Option<string>,
                      hex: string, r2: Option<R2Settings>, storeOk: bool): (r: Response<Uploaded>)
    requires IsHexPrefix(hex)
    ensures !isPost ==> r == Error(MethodNotAllowed)
    ensures isPost && who.Anonymous? ==> r == Error(Unauthorized)
    ensures isPost && who.Member? && (fileName.None? || fileName == Some("")) ==> r == Error(BadRequest)
    ensures r.Ok? <==>
      isPost && who.Member? && fileName.Some? && fileName.value != "" && r2.Some? && r2.value.bucket.Some? && storeOk
    ensures r.Error? && r.status == ServerError ==> isPost && who.Member? && fileName.Some? && fileName.value != ""
    ensures r.Ok? ==>
      var folder := uploadType.GetOr("files");
      var root := PublicRoot(r2.value.cdn, r2.value.endpoint, r2.value.bucket.value);
      && SplitAtLastSlash(r.value.key) == Some((folder, UniqueName(hex, fileName.value)))
      && SplitAtLastSlash(r.value.fileUrl) == Some((root + "/" + folder, UniqueName(hex, fileName.value)))
      && r.value.fileUrl == root + "/" + r.value.key
  {
    if !isPost then Error(MethodNotAllowed)
    else if who.Anonymous? then Error(Unauthorized)
    else if fileName.None? || fileName.value == "" then Error(BadRequest)
    else if r2.None? || r2.value.bucket.None? || !storeOk then Error(ServerError)
    else
      var folder := uploadType.GetOr("files");
      var key := ObjectKey(folder, hex, fileName.value);
      var root := PublicRoot(r2.value.cdn, r2.value.endpoint, r2.value.bucket.value);
      KeyRoundTrip(folder, hex, fileName.value);
      FileUrlNamesUpload(root, folder, hex, fileName.value);
      Ok(Uploaded(FileUrl(root, key), key))
  }

  /**
   * `S3PresignView.post`: a body that is empty or not JSON is a 400; a body
   * that is not UTF-8, JSON that is not an object, or a filename, content
   * type or upload type that is not a string, is a 500; a blank filename is
   * a 400.  Then the signing needs the storage settings and a bucket.  There
   * is no sign-in check.
   */
  function Presign(isPost: bool, body: Body, hex: string, r2: Option<R2Settings>, signOk: bool): (r: Response<Presigned>)
    requires IsHexPrefix(hex)
    ensures !isPost ==> r == Error(MethodNotAllowed)
    ensures isPost && (body.Empty? || body.Malformed?) ==> r == Error(BadRequest)
    ensures isPost && (body.Undecodable? || body.NotAnObject?) ==> r == Error(ServerError)
    ensures isPost && body.Object? &&
      (GetStripped(body.fields, "filename", "").None? || GetStripped(body.fields, "contentType", "").None?
       || GetStripped(body.fields, "uploadType", "photos").None?)
      ==> r == Error(ServerError)
    ensures isPost && body.Object? && GetStripped(body.fields, "filename", "") == Some("")
      && GetStripped(body.fields, "contentType", "").Some? && GetStripped(body.fields, "uploadType", "photos").Some?
      ==> r == Error(BadRequest)
    ensures r.Ok? <==>
      && isPost && body.Object?
      && GetStripped(body.fields, "filename", "").Some? && GetStripped(body.fields, "filename", "") != Some("")
      && GetStripped(body.fields, "contentType", "").Some? && GetStripped(body.fields, "uploadType", "photos").Some?
      && r2.Some? && r2.value.bucket.Some? && signOk
    ensures r.Ok? ==>
      var name := GetStripped(body.fields, "filename", "").value;
      var folder := GetStripped(body.fields, "uploadType", "photos").value;
      && SplitAtLastSlash(r.value.key) == Some((folder, UniqueName(hex, name)))
      && r.value.publicRoot == PublicRoot(r2.value.cdn, r2.value.endpoint, r2.value.bucket.value)
      && r.value.bucket == r2.value.bucket.value
  {
    if !isPost then Error(MethodNotAllowed)
    else
      match body
      case Empty => Error(BadRequest)
      case Malformed => Error(BadRequest)
      case Undecodable => Error(ServerError)
      case NotAnObject => Error(ServerError)
      case Object(data) =>
        var filename := GetStripped(data, "filename", "");
        var contentType := GetStripped(data, "contentType", "");
        var uploadType := GetStripped(data, "uploadType", "photos");
        if filename.None? || contentType.None? || uploadType.None? then Error(ServerError)
        else if filename.value == "" then Error(BadRequest)
        else if r2.None? || r2.value.bucket.None? || !signOk then Error(ServerError)
        else
          var key := ObjectKey(uploadType.value, hex, filename.value);
          KeyRoundTrip(uploadType.value, hex, filename.value);
          Ok(Presigned(key, PublicRoot(r2.value.cdn, r2.value.endpoint, r2.value.bucket.value), r2.value.bucket.value))
  }
}

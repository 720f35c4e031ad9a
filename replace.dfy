/**
 * `ReplaceMediaView` of `core/views.py`: a form post naming a row by
 * `object_id` and `object_type`.  With a file, the file is stored under
 * `<media_type>s/` and its URL replaces the cover, the video file or the
 * photo file; without one, the title, description, duration and category
 * supplied in the form replace the row's.  Any `object_type` other than
 * "video" names a photo row.
 */
module ReplaceViews {
  import opened Wrappers
  import opened Text
  import opened Http
  import opened Models
  import opened Storage
  import opened Settings

  /** The form fields the view reads; `None` when a field is absent. `newFile` is the uploaded file's name. */
  datatype ReplaceForm = ReplaceForm(
    objectId: Option<string>,
    objectType: Option<string>,
    mediaType: Option<string>,
    newFile: Option<string>,
    title: Option<string>,
    description: Option<string>,
    duration: Option<string>,
    category: Option<string>)

  /** The view's answer: the new file's URL, or that the details were saved. */
  datatype ReplaceAnswer = NewMediaUrl(url: string) | DetailsSaved

  /** The answer together with the tables the request leaves behind. */
  datatype ReplaceEffect = ReplaceEffect(answer: ReplaceAnswer, videos: map<nat, Video>, photos: map<nat, Photo>)

  /** `if not x` on a form value. */
  predicate Blank(x: Option<string>) {
    x.None? || x.value == ""
  }

  /** The row id `object_id` names, when `int()` accepts it and it is not negative (no row has a negative id). */
  function RowId(objectId: string): (id: Option<nat>)
    ensures id.Some? ==> ParseInt(objectId) == Some(id.value as int)
    ensures id.None? ==> ParseInt(objectId).None? || ParseInt(objectId).value < 0
  {
    match ParseInt(objectId)
    case Some(n) => if n >= 0 then Some(n as nat) else None
    case None => None
  }

  /** The URL of a new file: the root by `ReplaceRoot` and the key `<media_type>s/<hex>_<safe name>`. */
  function ReplacedUrl(r2: R2Settings, bucket: string, mediaType: Option<string>, hex: string, name: string): (url: string)
    requires IsHexPrefix(hex)
    ensures SplitAtLastSlash(url) ==
      Some((ReplaceRoot(r2.cdn, r2.endpoint, bucket) + "/" + (MediaTypeText(mediaType) + "s"), UniqueName(hex, name)))
  {
    var root := ReplaceRoot(r2.cdn, r2.endpoint, bucket);
    FileUrlNamesUpload(root, MediaTypeText(mediaType) + "s", hex, name);
    FileUrl(root, ReplaceKey(mediaType, hex, name))
  }

  /** Which field of a video a new file replaces: the cover for "cover", the file for "video_file", none otherwise. */
  function VideoWithFile(v: Video, mediaType: Option<string>, url: string): (r: Video)
    ensures mediaType == Some("cover") ==> r == v.(coverImage := Some(url))
    ensures mediaType == Some("video_file") ==> r == v.(videoFile := Some(url))
    ensures mediaType != Some("cover") && mediaType != Some("video_file") ==> r == v
  {
    if mediaType == Some("cover") then v.(coverImage := Some(url))
    else if mediaType == Some("video_file") then v.(videoFile := Some(url))
    else v
  }

  /** The category a non-empty `category` field names, saved; outer `None` when the save fails. */
  function FormCategory(field: Option<string>, current: Option<CategoryId>, categories: set<CategoryId>): (r: Option<Option<CategoryId>>)
    ensures Blank(field) ==> r == Some(current)
    ensures !Blank(field) ==> (r.Some? <==> CategoryOf(JStr(field.value), categories).Some?)
    ensures !Blank(field) && r.Some? ==> r.value == CategoryOf(JStr(field.value), categories)
  {
    if Blank(field) then Some(current)
    else
      match CategoryOf(JStr(field.value), categories)
      case None => None
      case Some(c) => Some(Some(c))
  }

  /**
   * The details edit of a video: a title or description that is present
   * replaces the old one, a non-empty duration must be an integer (400
   * otherwise) and not negative (the save fails, 500), a non-empty category
   * must name an existing category (500 otherwise).
   */
  function VideoDetails(v: Video, form: ReplaceForm, categories: set<CategoryId>): (r: Response<Video>)
    ensures !Blank(form.duration) && ParseInt(form.duration.value).None? ==> r == Error(BadRequest)
    ensures !Blank(form.duration) && ParseInt(form.duration.value).Some? && ParseInt(form.duration.value).value < 0
      ==> r == Error(ServerError)
    ensures ((Blank(form.duration) || ParseInt(form.duration.value).Some?)
             && FormCategory(form.category, v.category, categories).None?) ==> r == Error(ServerError)
    ensures ((Blank(form.duration) || (ParseInt(form.duration.value).Some? && ParseInt(form.duration.value).value >= 0))
             && FormCategory(form.category, v.category, categories).Some?) ==> r.Ok?
    ensures r.Error? ==> r.status == BadRequest || r.status == ServerError
    ensures r.Ok? ==> r.value.id == v.id && r.value.owner == v.owner && r.value.views == v.views
    ensures r.Ok? ==> r.value.videoFile == v.videoFile && r.value.coverImage == v.coverImage
    ensures r.Ok? ==> r.value.title == form.title.GetOr(v.title) && r.value.description == form.description.GetOr(v.description)
    ensures r.Ok? ==> Blank(form.duration) ==> r.value.duration == v.duration
    ensures r.Ok? ==> !Blank(form.duration) ==> ParseInt(form.duration.value) == Some(r.value.duration as int)
    ensures r.Ok? ==> Some(r.value.category) == FormCategory(form.category, v.category, categories)
    ensures r.Ok? ==> r.value.category == v.category || (r.value.category.Some? && r.value.category.value in categories)
  {
    var duration: Option<int> := if Blank(form.duration) then Some(v.duration) else ParseInt(form.duration.value);
    if duration.None? then Error(BadRequest)
    else
      var category := FormCategory(form.category, v.category, categories);
      if duration.value < 0 || category.None? then Error(ServerError)
      else
        Ok(v.(title := form.title.GetOr(v.title), description := form.description.GetOr(v.description),
              duration := duration.value as nat, category := category.value))
  }

  /** The details edit of a photo: title, description and category as for a video. */
  function PhotoDetails(p: Photo, form: ReplaceForm, categories: set<CategoryId>): (r: Option<Photo>)
    ensures r.None? <==> FormCategory(form.category, p.category, categories).None?
    ensures r.Some? ==> r.value.id == p.id && r.value.owner == p.owner && r.value.photoFile == p.photoFile
    ensures r.Some? ==> r.value.title == form.title.GetOr(p.title) && r.value.description == form.description.GetOr(p.description)
    ensures r.Some? ==> Some(r.value.category) == FormCategory(form.category, p.category, categories)
    ensures r.Some? ==> r.value.category == p.category || (r.value.category.Some? && r.value.category.value in categories)
  {
    match FormCategory(form.category, p.category, categories)
    case None => None
    case Some(c) => Some(p.(title := form.title.GetOr(p.title), description := form.description.GetOr(p.description), category := c))
  }

  /**
   * The video row after the request, once it is found: 403 for a requester
   * who is neither owner nor staff; with a file, the storage settings, a
   * bucket and a successful store are needed (500 otherwise) and the new URL
   * goes into the field `media_type` names; without one, the details edit.
   */
  function VideoReplaced(v: Video, who: Requester, form: ReplaceForm, categories: set<CategoryId>,
                         hex: string, r2: Option<R2Settings>, storeOk: bool): (r: Response<(ReplaceAnswer, Video)>)
    requires IsHexPrefix(hex)
    ensures !MayModify(who, v.owner) ==> r == Error(Forbidden)
    ensures r.Ok? ==> MayModify(who, v.owner) && r.value.1.id == v.id && r.value.1.owner == v.owner
    ensures r.Ok? ==> r.value.1.category == v.category || (r.value.1.category.Some? && r.value.1.category.value in categories)
    ensures MayModify(who, v.owner) && !Blank(form.newFile) ==>
      (r.Ok? <==> r2.Some? && r2.value.bucket.Some? && storeOk) &&
      (r.Ok? ==>
        var url := ReplacedUrl(r2.value, r2.value.bucket.value, form.mediaType, hex, form.newFile.value);
        r.value == (NewMediaUrl(url), VideoWithFile(v, form.mediaType, url)))
    ensures MayModify(who, v.owner) && Blank(form.newFile) ==>
      (r.Ok? <==> VideoDetails(v, form, categories).Ok?) &&
      (r.Ok? ==> r.value == (DetailsSaved, VideoDetails(v, form, categories).value)) &&
      (r.Error? ==> r == Error(VideoDetails(v, form, categories).status))
  {
    if !MayModify(who, v.owner) then Error(Forbidden)
    else if !Blank(form.newFile) then
      if r2.None? || r2.value.bucket.None? || !storeOk then Error(ServerError)
      else
        var url := ReplacedUrl(r2.value, r2.value.bucket.value, form.mediaType, hex, form.newFile.value);
        Ok((NewMediaUrl(url), VideoWithFile(v, form.mediaType, url)))
    else
      match VideoDetails(v, form, categories)
      case Error(status) => Error(status)
      case Ok(nv) => Ok((DetailsSaved, nv))
  }

  /**
   * The photo row after the request, once it is found.  Only an
   * `object_type` of "photo" changes it; any other type besides "video"
   * reaches the photo table too, and then the row is saved unchanged.
   */
  function PhotoReplaced(p: Photo, isPhoto: bool, who: Requester, form: ReplaceForm, categories: set<CategoryId>,
                         hex: string, r2: Option<R2Settings>, storeOk: bool): (r: Response<(ReplaceAnswer, Photo)>)
    requires IsHexPrefix(hex)
    ensures !MayModify(who, p.owner) ==> r == Error(Forbidden)
    ensures r.Ok? ==> MayModify(who, p.owner) && r.value.1.id == p.id && r.value.1.owner == p.owner
    ensures r.Ok? ==> r.value.1.category == p.category || (r.value.1.category.Some? && r.value.1.category.value in categories)
    ensures r.Ok? && !isPhoto ==> r.value.1 == p
    ensures MayModify(who, p.owner) && !Blank(form.newFile) ==>
      (r.Ok? <==> r2.Some? && r2.value.bucket.Some? && storeOk) &&
      (r.Ok? ==>
        var url := ReplacedUrl(r2.value, r2.value.bucket.value, form.mediaType, hex, form.newFile.value);
        r.value.0 == NewMediaUrl(url) && (isPhoto ==> r.value.1 == p.(photoFile := Some(url))))
    ensures MayModify(who, p.owner) && Blank(form.newFile) && isPhoto ==>
      (r.Ok? <==> PhotoDetails(p, form, categories).Some?) &&
      (r.Ok? ==> r.value == (DetailsSaved, PhotoDetails(p, form, categories).value)) &&
      (r.Error? ==> r == Error(ServerError))
    ensures MayModify(who, p.owner) && Blank(form.newFile) && !isPhoto ==> r == Ok((DetailsSaved, p))
  {
    if !MayModify(who, p.owner) then Error(Forbidden)
    else if !Blank(form.newFile) then
      if r2.None? || r2.value.bucket.None? || !storeOk then Error(ServerError)
      else
        var url := ReplacedUrl(r2.value, r2.value.bucket.value, form.mediaType, hex, form.newFile.value);
        Ok((NewMediaUrl(url), if isPhoto then p.(photoFile := Some(url)) else p))
    else if isPhoto then
      match PhotoDetails(p, form, categories)
      case None => Error(ServerError)
      case Some(np) => Ok((DetailsSaved, np))
    else Ok((DetailsSaved, p))
  }

  /**
   * The outcome of the view on the given tables: 400 without id or type, 401
   * for a visitor, 500 for an id that names no row, then the row's own
   * outcome; only the named row changes.
   */
  function Replaced(videos: map<nat, Video>, photos: map<nat, Photo>, categories: set<CategoryId>, who: Requester,
                    form: ReplaceForm, hex: string, r2: Option<R2Settings>, storeOk: bool): (r: Response<ReplaceEffect>)
    requires IsHexPrefix(hex)
    ensures Blank(form.objectId) || Blank(form.objectType) ==> r == Error(BadRequest)
    ensures !Blank(form.objectId) && !Blank(form.objectType) && who.Anonymous? ==> r == Error(Unauthorized)
    ensures r.Ok? ==> who.Member? && !Blank(form.objectId) && !Blank(form.objectType) && RowId(form.objectId.value).Some?
    ensures (!Blank(form.objectId) && !Blank(form.objectType) && who.Member? && form.objectType == Some("video")
             && (RowId(form.objectId.value).None? || RowId(form.objectId.value).value !in videos)) ==> r == Error(ServerError)
    ensures (!Blank(form.objectId) && !Blank(form.objectType) && who.Member? && form.objectType != Some("video")
             && (RowId(form.objectId.value).None? || RowId(form.objectId.value).value !in photos)) ==> r == Error(ServerError)
    ensures (!Blank(form.objectId) && !Blank(form.objectType) && who.Member? && form.objectType == Some("video")
             && RowId(form.objectId.value).Some? && RowId(form.objectId.value).value in videos) ==>
      var row := VideoReplaced(videos[RowId(form.objectId.value).value], who, form, categories, hex, r2, storeOk);
      (r.Error? <==> row.Error?) && (r.Error? ==> r.status == row.status)
    ensures (!Blank(form.objectId) && !Blank(form.objectType) && who.Member? && form.objectType != Some("video")
             && RowId(form.objectId.value).Some? && RowId(form.objectId.value).value in photos) ==>
      var row := PhotoReplaced(photos[RowId(form.objectId.value).value], form.objectType == Some("photo"), who, form, categories, hex, r2, storeOk);
      (r.Error? <==> row.Error?) && (r.Error? ==> r.status == row.status)
    ensures r.Ok? && form.objectType == Some("video") ==>
      var id := RowId(form.objectId.value).value;
      && id in videos
      && var row := VideoReplaced(videos[id], who, form, categories, hex, r2, storeOk);
      && row.Ok? && r.value == ReplaceEffect(row.value.0, videos[id := row.value.1], photos)
    ensures r.Ok? && form.objectType != Some("video") ==>
      var id := RowId(form.objectId.value).value;
      && id in photos
      && var row := PhotoReplaced(photos[id], form.objectType == Some("photo"), who, form, categories, hex, r2, storeOk);
      && row.Ok? && r.value == ReplaceEffect(row.value.0, videos, photos[id := row.value.1])
  {
    if Blank(form.objectId) || Blank(form.objectType) then Error(BadRequest)
    else if who.Anonymous? then Error(Unauthorized)
    else
      var id := RowId(form.objectId.value);
      if form.objectType == Some("video") then
        if id.None? || id.value !in videos then Error(ServerError)
        else
          match VideoReplaced(videos[id.value], who, form, categories, hex, r2, storeOk)
          case Error(status) => Error(status)
          case Ok((answer, v)) => Ok(ReplaceEffect(answer, videos[id.value := v], photos))
      else
        if id.None? || id.value !in photos then Error(ServerError)
        else
          match PhotoReplaced(photos[id.value], form.objectType == Some("photo"), who, form, categories, hex, r2, storeOk)
          case Error(status) => Error(status)
          case Ok((answer, p)) => Ok(ReplaceEffect(answer, videos, photos[id.value := p]))
  }

  /** A duration that is not an integer is refused with 400 before anything is saved. */
  lemma NonIntegerDurationRefused(videos: map<nat, Video>, photos: map<nat, Photo>, categories: set<CategoryId>,
                                  who: Requester, form: ReplaceForm, hex: string, r2: Option<R2Settings>, storeOk: bool)
    requires IsHexPrefix(hex)
    requires form.objectType == Some("video") && !Blank(form.objectId) && Blank(form.newFile)
    requires RowId(form.objectId.value).Some? && RowId(form.objectId.value).value in videos
    requires MayModify(who, videos[RowId(form.objectId.value).value].owner)
    requires !Blank(form.duration) && ParseInt(form.duration.value).None?
    ensures Replaced(videos, photos, categories, who, form, hex, r2, storeOk) == Error(BadRequest)
  {
  }

  /** The URL of a new cover names the upload's unique name inside the "covers" folder. */
  lemma CoverUrlFolder(r2: R2Settings, bucket: string, hex: string, name: string)
    requires IsHexPrefix(hex)
    ensures var url := ReplacedUrl(r2, bucket, Some("cover"), hex, name);
      && SplitAtLastSlash(url).Some? && SplitAtLastSlash(url).value.1 == UniqueName(hex, name)
      && EndsWith(SplitAtLastSlash(url).value.0, "/covers")
  {
    var root := ReplaceRoot(r2.cdn, r2.endpoint, bucket);
    assert MediaTypeText(Some("cover")) + "s" == "covers";
    var front := root + "/" + "covers";
    assert front == root + "/covers";
    assert front[|root|..] == "/covers";
  }

  /**
   * A new cover lands in the video's cover field, under a URL whose last
   * segment is the upload's unique name inside the "covers" folder.
   */
  lemma NewCoverLandsInField(v: Video, who: Requester, form: ReplaceForm, categories: set<CategoryId>,
                             hex: string, r2: Option<R2Settings>, storeOk: bool)
    requires IsHexPrefix(hex)
    requires form.mediaType == Some("cover") && !Blank(form.newFile)
    ensures VideoReplaced(v, who, form, categories, hex, r2, storeOk).Ok? ==>
      var r := VideoReplaced(v, who, form, categories, hex, r2, storeOk).value;
      && r.0.NewMediaUrl? && r.1 == v.(coverImage := Some(r.0.url))
      && SplitAtLastSlash(r.0.url).Some? && SplitAtLastSlash(r.0.url).value.1 == UniqueName(hex, form.newFile.value)
      && EndsWith(SplitAtLastSlash(r.0.url).value.0, "/covers")
  {
    if VideoReplaced(v, who, form, categories, hex, r2, storeOk).Ok? {
      CoverUrlFolder(r2.value, r2.value.bucket.value, hex, form.newFile.value);
    }
  }

  /**
   * A successful request keeps the tables' keys, every row under its own
   * id, and every category reference pointing at an existing category.
   */
  lemma ReplacedKeepsTables(videos: map<nat, Video>, photos: map<nat, Photo>, categories: set<CategoryId>,
                            who: Requester, form: ReplaceForm, hex: string, r2: Option<R2Settings>, storeOk: bool)
    requires IsHexPrefix(hex)
    requires TablesConsistent(videos, photos, categories)
    requires Replaced(videos, photos, categories, who, form, hex, r2, storeOk).Ok?
    ensures var e := Replaced(videos, photos, categories, who, form, hex, r2, storeOk).value;
      && e.videos.Keys == videos.Keys && e.photos.Keys == photos.Keys
      && TablesConsistent(e.videos, e.photos, categories)
  {
  }

  /**
   * `ReplaceMediaView.post`: POST only (405); otherwise the tables become
   * those of `Replaced` and its answer is returned, or on an error nothing
   * changes.
   */
  method ReplaceMedia(db: Store, isPost: bool, who: Requester, form: ReplaceForm, hex: string, r2: Option<R2Settings>, storeOk: bool)
    returns (r: Response<ReplaceAnswer>)
    requires IsHexPrefix(hex)
    requires db.Valid()
    modifies db
    ensures db.Valid()
    ensures db.likes == old(db.likes) && db.categories == old(db.categories)
    ensures db.nextVideoId == old(db.nextVideoId) && db.nextPhotoId == old(db.nextPhotoId)
    ensures !isPost ==> r == Error(MethodNotAllowed) && db.videos == old(db.videos) && db.photos == old(db.photos)
    ensures isPost ==>
      match Replaced(old(db.videos), old(db.photos), db.categories, who, form, hex, r2, storeOk)
      case Error(status) => r == Error(status) && db.videos == old(db.videos) && db.photos == old(db.photos)
      case Ok(e) => r == Ok(e.answer) && db.videos == e.videos && db.photos == e.photos
  {
    if !isPost {
      return Error(MethodNotAllowed);
    }
    var outcome := Replaced(db.videos, db.photos, db.categories, who, form, hex, r2, storeOk);
    match outcome
    case Error(status) =>
      r := Error(status);
    case Ok(e) =>
      ReplacedKeepsTables(db.videos, db.photos, db.categories, who, form, hex, r2, storeOk);
      db.videos := e.videos;
      db.photos := e.photos;
      r := Ok(e.answer);
  }
}

/**
 * The record update API of `core/views.py`.  Each request names a row; the
 * owner or a staff member may change it with a JSON body.  Title and
 * description are replaced when their key is present, the duration when its
 * value is true, the category is replaced by the one a digit string names or
 * else cleared, and a file URL is replaced only by a true (non-empty) value.
 * Every failure inside the handler, a missing row included, answers 500.
 */
module Views {
  import opened Wrappers
  import opened Text
  import opened Http
  import opened Models

  /** `data.get(key, current)` stored into a NOT NULL text column; `None` when the value is null and the save fails. */
  function TextOrKeep(data: JsonObject, key: string, current: string): (r: Option<string>)
    ensures key !in data ==> r == Some(current)
    ensures key in data ==> r == StoredText(data[key])
  {
    if key in data then StoredText(data[key]) else Some(current)
  }

  /**
   * `int(data['duration']) if data.get('duration') else current`, stored into
   * a non-negative column; `None` when `int()` raises or the value is negative.
   */
  function DurationOrKeep(data: JsonObject, current: nat): (r: Option<nat>)
    ensures !("duration" in data && Truthy(data["duration"])) ==> r == Some(current)
    ensures "duration" in data && Truthy(data["duration"]) ==>
      (r.Some? <==> PyInt(data["duration"]).Some? && PyInt(data["duration"]).value >= 0) &&
      (r.Some? ==> r.value as int == PyInt(data["duration"]).value)
  {
    if "duration" in data && Truthy(data["duration"]) then
      match PyInt(data["duration"])
      case None => None
      case Some(n) => if n >= 0 then Some(n as nat) else None
    else Some(current)
  }

  /** `category_id and str(category_id).isdigit()` */
  predicate NamesCategory(data: JsonObject) {
    "category" in data && Truthy(data["category"]) && IsDigits(PyStr(data["category"]))
  }

  /**
   * The category after the update: the one a digit string names, which must
   * exist (outer `None` otherwise), or no category at all.
   */
  function DigitCategory(data: JsonObject, categories: set<CategoryId>): (r: Option<Option<CategoryId>>)
    ensures !NamesCategory(data) ==> r == Some(None)
    ensures NamesCategory(data) ==>
      (r.Some? <==> DigitsValue(PyStr(data["category"])) in categories) &&
      (r.Some? ==> r.value == Some(DigitsValue(PyStr(data["category"]))))
  {
    if NamesCategory(data) then
      DigitTextInt(data["category"]);
      match CategoryOf(data["category"], categories)
      case None => None
      case Some(c) => Some(Some(c))
    else Some(None)
  }

  /** `if key in data and data[key]: field = data[key]`, stored into a nullable text column. */
  function UrlIfTrue(data: JsonObject, key: string, current: Option<string>): (r: Option<string>)
    ensures !(key in data && Truthy(data[key])) ==> r == current
    ensures key in data && Truthy(data[key]) ==> r == StoredText(data[key]) && r.Some? && r.value != ""
  {
    if key in data && Truthy(data[key]) then
      assert data[key].JStr? ==> data[key].s != "";
      assert data[key].JInt? ==> IntToDecimal(data[key].i) != "";
      StoredText(data[key])
    else current
  }

  /**
   * The video after `UpdateVideoAPIView`, or `None` when its save fails (a
   * null title or description, a duration `int()` refuses or that is
   * negative, a named category that does not exist).
   */
  function ApiVideoEdit(v: Video, data: JsonObject, categories: set<CategoryId>): (r: Option<Video>)
    ensures r.None? <==>
      || TextOrKeep(data, "title", v.title).None? || TextOrKeep(data, "description", v.description).None?
      || DurationOrKeep(data, v.duration).None? || DigitCategory(data, categories).None?
    ensures r.Some? ==> r.value.id == v.id && r.value.owner == v.owner && r.value.views == v.views
    ensures r.Some? ==> Some(r.value.title) == TextOrKeep(data, "title", v.title)
    ensures r.Some? ==> Some(r.value.description) == TextOrKeep(data, "description", v.description)
    ensures r.Some? ==> Some(r.value.duration) == DurationOrKeep(data, v.duration)
    ensures r.Some? ==> (r.value.category.Some? <==> NamesCategory(data))
    ensures r.Some? ==> r.value.category.None? || r.value.category.value in categories
    ensures r.Some? ==> Some(r.value.category) == DigitCategory(data, categories)
    ensures r.Some? ==> r.value.videoFile == UrlIfTrue(data, "new_video_url", v.videoFile)
    ensures r.Some? ==> r.value.coverImage == UrlIfTrue(data, "new_cover_url", v.coverImage)
  {
    var title := TextOrKeep(data, "title", v.title);
    var description := TextOrKeep(data, "description", v.description);
    var duration := DurationOrKeep(data, v.duration);
    var category := DigitCategory(data, categories);
    if title.None? || description.None? || duration.None? || category.None? then None
    else
      Some(v.(title := title.value, description := description.value, duration := duration.value,
              category := category.value,
              videoFile := UrlIfTrue(data, "new_video_url", v.videoFile),
              coverImage := UrlIfTrue(data, "new_cover_url", v.coverImage)))
  }

  /** The photo after `UpdatePhotoAPIView`, or `None` when its save fails. */
  function ApiPhotoEdit(p: Photo, data: JsonObject, categories: set<CategoryId>): (r: Option<Photo>)
    ensures r.None? <==>
      || TextOrKeep(data, "title", p.title).None? || TextOrKeep(data, "description", p.description).None?
      || DigitCategory(data, categories).None?
    ensures r.Some? ==> r.value.id == p.id && r.value.owner == p.owner
    ensures r.Some? ==> Some(r.value.title) == TextOrKeep(data, "title", p.title)
    ensures r.Some? ==> Some(r.value.description) == TextOrKeep(data, "description", p.description)
    ensures r.Some? ==> (r.value.category.Some? <==> NamesCategory(data))
    ensures r.Some? ==> r.value.category.None? || r.value.category.value in categories
    ensures r.Some? ==> Some(r.value.category) == DigitCategory(data, categories)
    ensures r.Some? ==> r.value.photoFile == UrlIfTrue(data, "new_photo_url", p.photoFile)
  {
    var title := TextOrKeep(data, "title", p.title);
    var description := TextOrKeep(data, "description", p.description);
    var category := DigitCategory(data, categories);
    if title.None? || description.None? || category.None? then None
    else
      Some(p.(title := title.value, description := description.value, category := category.value,
              photoFile := UrlIfTrue(data, "new_photo_url", p.photoFile)))
  }

  /** An empty body changes nothing but the category, which it clears. */
  lemma EmptyBodyClearsCategory(v: Video, categories: set<CategoryId>)
    ensures ApiVideoEdit(v, map[], categories) == Some(v.(category := None))
  {
  }

  /** An empty URL never replaces a stored file: neither the video's, the cover's, nor the photo's. */
  lemma EmptyUrlKeepsFile(v: Video, p: Photo, data: JsonObject, categories: set<CategoryId>)
    requires "new_video_url" in data && data["new_video_url"] == JStr("")
    requires "new_photo_url" in data && data["new_photo_url"] == JStr("")
    ensures ApiVideoEdit(v, data, categories).Some? ==> ApiVideoEdit(v, data, categories).value.videoFile == v.videoFile
    ensures ApiPhotoEdit(p, data, categories).Some? ==> ApiPhotoEdit(p, data, categories).value.photoFile == p.photoFile
  {
  }

  /**
   * `UpdateVideoAPIView.post`: POST only (405); a missing row is a 500; a
   * requester who is neither owner nor staff gets 403; a body that is not a
   * JSON object is a 500; then the row becomes `ApiVideoEdit` of itself, or
   * the failed save answers 500 and leaves it as it was.  The answer is the
   * video's page.
   */
  method UpdateVideoApi(db: Store, isPost: bool, who: Requester, videoId: nat, body: Body) returns (r: Response<string>)
    requires db.Valid()
    modifies db
    ensures db.Valid()
    ensures db.photos == old(db.photos) && db.likes == old(db.likes) && db.categories == old(db.categories)
    ensures db.nextVideoId == old(db.nextVideoId) && db.nextPhotoId == old(db.nextPhotoId)
    ensures r.Error? ==> db.videos == old(db.videos)
    ensures !isPost ==> r == Error(MethodNotAllowed)
    ensures isPost && videoId !in old(db.videos) ==> r == Error(ServerError)
    ensures isPost && videoId in old(db.videos) && !MayModify(who, old(db.videos)[videoId].owner) ==> r == Error(Forbidden)
    ensures isPost && videoId in old(db.videos) && MayModify(who, old(db.videos)[videoId].owner) ==>
      match ObjectOrEmpty(body)
      case None => r == Error(ServerError)
      case Some(data) =>
        match ApiVideoEdit(old(db.videos)[videoId], data, db.categories)
        case None => r == Error(ServerError)
        case Some(v) => db.videos == old(db.videos)[videoId := v] && r == Ok("/video/" + NatToDecimal(videoId) + "/")
  {
    if !isPost {
      return Error(MethodNotAllowed);
    }
    if videoId !in db.videos {
      return Error(ServerError);
    }
    var video := db.videos[videoId];
    if !MayModify(who, video.owner) {
      return Error(Forbidden);
    }
    var parsed := ObjectOrEmpty(body);
    if parsed.None? {
      return Error(ServerError);
    }
    var data := parsed.value;
    var title := TextOrKeep(data, "title", video.title);
    var description := TextOrKeep(data, "description", video.description);
    var duration := DurationOrKeep(data, video.duration);
    var category := DigitCategory(data, db.categories);
    var videoFile := video.videoFile;
    if "new_video_url" in data && Truthy(data["new_video_url"]) {
      videoFile := StoredText(data["new_video_url"]);
    }
    var coverImage := video.coverImage;
    if "new_cover_url" in data && Truthy(data["new_cover_url"]) {
      coverImage := StoredText(data["new_cover_url"]);
    }
    if title.None? || description.None? || duration.None? || category.None? {
      return Error(ServerError);
    }
    db.videos := db.videos[videoId := video.(title := title.value, description := description.value,
      duration := duration.value, category := category.value, videoFile := videoFile, coverImage := coverImage)];
    r := Ok("/video/" + NatToDecimal(videoId) + "/");
  }

  /** `UpdatePhotoAPIView.post`: the same steps for a photo. */
  method UpdatePhotoApi(db: Store, isPost: bool, who: Requester, photoId: nat, body: Body) returns (r: Response<string>)
    requires db.Valid()
    modifies db
    ensures db.Valid()
    ensures db.videos == old(db.videos) && db.likes == old(db.likes) && db.categories == old(db.categories)
    ensures db.nextVideoId == old(db.nextVideoId) && db.nextPhotoId == old(db.nextPhotoId)
    ensures r.Error? ==> db.photos == old(db.photos)
    ensures !isPost ==> r == Error(MethodNotAllowed)
    ensures isPost && photoId !in old(db.photos) ==> r == Error(ServerError)
    ensures isPost && photoId in old(db.photos) && !MayModify(who, old(db.photos)[photoId].owner) ==> r == Error(Forbidden)
    ensures isPost && photoId in old(db.photos) && MayModify(who, old(db.photos)[photoId].owner) ==>
      match ObjectOrEmpty(body)
      case None => r == Error(ServerError)
      case Some(data) =>
        match ApiPhotoEdit(old(db.photos)[photoId], data, db.categories)
        case None => r == Error(ServerError)
        case Some(p) => db.photos == old(db.photos)[photoId := p] && r == Ok("/photo/" + NatToDecimal(photoId) + "/")
  {
    if !isPost {
      return Error(MethodNotAllowed);
    }
    if photoId !in db.photos {
      return Error(ServerError);
    }
    var photo := db.photos[photoId];
    if !MayModify(who, photo.owner) {
      return Error(Forbidden);
    }
    var parsed := ObjectOrEmpty(body);
    if parsed.None? {
      return Error(ServerError);
    }
    var data := parsed.value;
    var title := TextOrKeep(data, "title", photo.title);
    var description := TextOrKeep(data, "description", photo.description);
    var category := DigitCategory(data, db.categories);
    var photoFile := photo.photoFile;
    if "new_photo_url" in data && Truthy(data["new_photo_url"]) {
      photoFile := StoredText(data["new_photo_url"]);
    }
    if title.None? || description.None? || category.None? {
      return Error(ServerError);
    }
    db.photos := db.photos[photoId := photo.(title := title.value, description := description.value,
      category := category.value, photoFile := photoFile)];
    r := Ok("/photo/" + NatToDecimal(photoId) + "/");
  }
}

/**
 * The edit, delete and update endpoints of `core/views_fixed.py`.  Unlike
 * `core/views.py`, the update API leaves the category alone when none is
 * given (a given one must exist, else 500) and stores a file URL whenever
 * its key is present, an empty one included.  The form views `edit_video`,
 * `edit_photo`, `delete_video` and `delete_photo` sit behind the sign-in
 * redirect, answer 404 for a missing row, and show the detail page unchanged
 * to a requester who is neither owner nor staff.
 */
module FixedViews {
  import opened Wrappers
  import opened Text
  import opened Http
  import opened Models
  import Views

  /**
   * `if category_id: category = get_object_or_404(Category, id=category_id)`
   * inside the handler's `try`: the current category when the value is
   * absent or false, else the category it names; outer `None` (a 500) when
   * `int()` refuses the value or no such category exists.
   */
  function KeptCategory(data: JsonObject, current: Option<CategoryId>, categories: set<CategoryId>): (r: Option<Option<CategoryId>>)
    ensures !("category" in data && Truthy(data["category"])) ==> r == Some(current)
    ensures "category" in data && Truthy(data["category"]) ==>
      (r.Some? <==> CategoryOf(data["category"], categories).Some?) &&
      (r.Some? ==> r.value == CategoryOf(data["category"], categories))
  {
    if "category" in data && Truthy(data["category"]) then
      match CategoryOf(data["category"], categories)
      case None => None
      case Some(c) => Some(Some(c))
    else Some(current)
  }

  /** `if key in data: field = data[key]`, stored into a nullable text column. */
  function UrlIfPresent(data: JsonObject, key: string, current: Option<string>): (r: Option<string>)
    ensures key !in data ==> r == current
    ensures key in data ==> r == StoredText(data[key])
  {
    if key in data then StoredText(data[key]) else current
  }

  /**
   * The video after this module's `UpdateVideoAPIView`, or `None` when the
   * request fails with 500 (a null title or description, a bad duration, a
   * category that cannot be found).
   */
  function ApiVideoEdit(v: Video, data: JsonObject, categories: set<CategoryId>): (r: Option<Video>)
    ensures r.None? <==>
      || Views.TextOrKeep(data, "title", v.title).None? || Views.TextOrKeep(data, "description", v.description).None?
      || Views.DurationOrKeep(data, v.duration).None? || KeptCategory(data, v.category, categories).None?
    ensures r.Some? ==> r.value.id == v.id && r.value.owner == v.owner && r.value.views == v.views
    ensures r.Some? ==> Some(r.value.title) == Views.TextOrKeep(data, "title", v.title)
    ensures r.Some? ==> Some(r.value.description) == Views.TextOrKeep(data, "description", v.description)
    ensures r.Some? ==> Some(r.value.duration) == Views.DurationOrKeep(data, v.duration)
    ensures r.Some? ==> Some(r.value.category) == KeptCategory(data, v.category, categories)
    ensures r.Some? ==> r.value.videoFile == UrlIfPresent(data, "new_video_url", v.videoFile)
    ensures r.Some? ==> r.value.coverImage == UrlIfPresent(data, "new_cover_url", v.coverImage)
  {
    var title := Views.TextOrKeep(data, "title", v.title);
    var description := Views.TextOrKeep(data, "description", v.description);
    var duration := Views.DurationOrKeep(data, v.duration);
    var category := KeptCategory(data, v.category, categories);
    if title.None? || description.None? || duration.None? || category.None? then None
    else
      Some(v.(title := title.value, description := description.value, duration := duration.value,
              category := category.value,
              videoFile := UrlIfPresent(data, "new_video_url", v.videoFile),
              coverImage := UrlIfPresent(data, "new_cover_url", v.coverImage)))
  }

  /** The photo after this module's `UpdatePhotoAPIView`, or `None` when the request fails with 500. */
  function ApiPhotoEdit(p: Photo, data: JsonObject, categories: set<CategoryId>): (r: Option<Photo>)
    ensures r.None? <==>
      || Views.TextOrKeep(data, "title", p.title).None? || Views.TextOrKeep(data, "description", p.description).None?
      || KeptCategory(data, p.category, categories).None?
    ensures r.Some? ==> r.value.id == p.id && r.value.owner == p.owner
    ensures r.Some? ==> Some(r.value.title) == Views.TextOrKeep(data, "title", p.title)
    ensures r.Some? ==> Some(r.value.description) == Views.TextOrKeep(data, "description", p.description)
    ensures r.Some? ==> Some(r.value.category) == KeptCategory(data, p.category, categories)
    ensures r.Some? ==> r.value.photoFile == UrlIfPresent(data, "new_photo_url", p.photoFile)
  {
    var title := Views.TextOrKeep(data, "title", p.title);
    var description := Views.TextOrKeep(data, "description", p.description);
    var category := KeptCategory(data, p.category, categories);
    if title.None? || description.None? || category.None? then None
    else
      Some(p.(title := title.value, description := description.value, category := category.value,
              photoFile := UrlIfPresent(data, "new_photo_url", p.photoFile)))
  }

  /** An empty body leaves a video exactly as it was, where the other update API clears its category. */
  lemma EmptyBodyKeepsVideo(v: Video, categories: set<CategoryId>)
    ensures ApiVideoEdit(v, map[], categories) == Some(v)
    ensures v.category.Some? ==> Views.ApiVideoEdit(v, map[], categories) != ApiVideoEdit(v, map[], categories)
  {
    Views.EmptyBodyClearsCategory(v, categories);
  }

  /** An empty URL is stored as it is: the video's and the photo's file become "". */
  lemma EmptyUrlStored(v: Video, p: Photo, data: JsonObject, categories: set<CategoryId>)
    requires "new_video_url" in data && data["new_video_url"] == JStr("")
    requires "new_photo_url" in data && data["new_photo_url"] == JStr("")
    ensures ApiVideoEdit(v, data, categories).Some? ==> ApiVideoEdit(v, data, categories).value.videoFile == Some("")
    ensures ApiPhotoEdit(p, data, categories).Some? ==> ApiPhotoEdit(p, data, categories).value.photoFile == Some("")
  {
  }

  /**
   * The two update APIs agree on a body that names a category by a digit
   * string and whose file URLs, where present, are true: only absent
   * categories and empty URLs set them apart.
   */
  lemma UpdateApisAgree(v: Video, data: JsonObject, categories: set<CategoryId>)
    requires Views.NamesCategory(data)
    requires "new_video_url" in data ==> Truthy(data["new_video_url"])
    requires "new_cover_url" in data ==> Truthy(data["new_cover_url"])
    ensures ApiVideoEdit(v, data, categories) == Views.ApiVideoEdit(v, data, categories)
  {
    DigitTextInt(data["category"]);
  }

  /**
   * `UpdateVideoAPIView.post` of this module: POST only (405); a missing row
   * is a 500; a requester who is neither owner nor staff gets 403; a body
   * that is not a JSON object is a 500; then the row becomes `ApiVideoEdit`
   * of itself, or the failed save answers 500 and leaves it as it was.
   */
  method UpdateVideoApi(db: Store, isPost: bool, who: Requester, videoId: nat, body: Body) returns (r: Response<string>)
    requires db.Valid()
    modifies db
    ensures db.Valid()
    ensures db.photos == old(db.photos) && db.likes == old(db.likes) && db.categories == old(db.categories)
    ensures db.nextVideoId == old(db.nextVideoId) && db.nextPhotoId == old(db.nextPhotoId)
    ensures r.Error? ==> db.videos == old(db.videos)
    ensures !isPost ==> r == Error(MethodNotAllowed)
    ensures isPost && videoId !in old(db.videos) ==> r == Error(ServerError)
    ensures isPost && videoId in old(db.videos) && !MayModify(who, old(db.videos)[videoId].owner) ==> r == Error(Forbidden)
    ensures isPost && videoId in old(db.videos) && MayModify(who, old(db.videos)[videoId].owner) ==>
      match ObjectOrEmpty(body)
      case None => r == Error(ServerError)
      case Some(data) =>
        match ApiVideoEdit(old(db.videos)[videoId], data, db.categories)
        case None => r == Error(ServerError)
        case Some(v) => db.videos == old(db.videos)[videoId := v] && r == Ok("/video/" + NatToDecimal(videoId) + "/")
  {
    if !isPost {
      return Error(MethodNotAllowed);
    }
    if videoId !in db.videos {
      return Error(ServerError);
    }
    var video := db.videos[videoId];
    if !MayModify(who, video.owner) {
      return Error(Forbidden);
    }
    var parsed := ObjectOrEmpty(body);
    if parsed.None? {
      return Error(ServerError);
    }
    var data := parsed.value;
    var title := Views.TextOrKeep(data, "title", video.title);
    var description := Views.TextOrKeep(data, "description", video.description);
    var duration := Views.DurationOrKeep(data, video.duration);
    var category := KeptCategory(data, video.category, db.categories);
    var videoFile := video.videoFile;
    if "new_video_url" in data {
      videoFile := StoredText(data["new_video_url"]);
    }
    var coverImage := video.coverImage;
    if "new_cover_url" in data {
      coverImage := StoredText(data["new_cover_url"]);
    }
    if title.None? || description.None? || duration.None? || category.None? {
      return Error(ServerError);
    }
    db.videos := db.videos[videoId := video.(title := title.value, description := description.value,
      duration := duration.value, category := category.value, videoFile := videoFile, coverImage := coverImage)];
    r := Ok("/video/" + NatToDecimal(videoId) + "/");
  }

  /** `UpdatePhotoAPIView.post` of this module: the same steps for a photo. */
  method UpdatePhotoApi(db: Store, isPost: bool, who: Requester, photoId: nat, body: Body) returns (r: Response<string>)
    requires db.Valid()
    modifies db
    ensures db.Valid()
    ensures db.videos == old(db.videos) && db.likes == old(db.likes) && db.categories == old(db.categories)
    ensures db.nextVideoId == old(db.nextVideoId) && db.nextPhotoId == old(db.nextPhotoId)
    ensures r.Error? ==> db.photos == old(db.photos)
    ensures !isPost ==> r == Error(MethodNotAllowed)
    ensures isPost && photoId !in old(db.photos) ==> r == Error(ServerError)
    ensures isPost && photoId in old(db.photos) && !MayModify(who, old(db.photos)[photoId].owner) ==> r == Error(Forbidden)
    ensures isPost && photoId in old(db.photos) && MayModify(who, old(db.photos)[photoId].owner) ==>
      match ObjectOrEmpty(body)
      case None => r == Error(ServerError)
      case Some(data) =>
        match ApiPhotoEdit(old(db.photos)[photoId], data, db.categories)
        case None => r == Error(ServerError)
        case Some(p) => db.photos == old(db.photos)[photoId := p] && r == Ok("/photo/" + NatToDecimal(photoId) + "/")
  {
    if !isPost {
      return Error(MethodNotAllowed);
    }
    if photoId !in db.photos {
      return Error(ServerError);
    }
    var photo := db.photos[photoId];
    if !MayModify(who, photo.owner) {
      return Error(Forbidden);
    }
    var parsed := ObjectOrEmpty(body);
    if parsed.None? {
      return Error(ServerError);
    }
    var data := parsed.value;
    var title := Views.TextOrKeep(data, "title", photo.title);
    var description := Views.TextOrKeep(data, "description", photo.description);
    var category := KeptCategory(data, photo.category, db.categories);
    var photoFile := photo.photoFile;
    if "new_photo_url" in data {
      photoFile := StoredText(data["new_photo_url"]);
    }
    if title.None? || description.None? || category.None? {
      return Error(ServerError);
    }
    db.photos := db.photos[photoId := photo.(title := title.value, description := description.value,
      category := category.value, photoFile := photoFile)];
    r := Ok("/photo/" + NatToDecimal(photoId) + "/");
  }

  /** The page a form view answers with. */
  datatype Page =
    | Refused       // the detail page with an error message; nothing changes
    | EditPage      // the edit form (GET)
    | Saved         // the detail page after a successful edit
    | ConfirmPage   // the delete confirmation (GET)
    | Deleted       // the redirect home after a delete

  /** The fields of a form post. */
  type FormData = map<string, string>

  /** `request.POST.get(key, current)` */
  function FormText(form: FormData, key: string, current: string): (r: string)
    ensures key in form ==> r == form[key]
    ensures key !in form ==> r == current
  {
    if key in form then form[key] else current
  }

  /**
   * The category after a form edit: unchanged when the field is absent or
   * empty; a value `int()` refuses raises outside any handler (500); a value
   * that names no category is a 404.
   */
  function FormCategory(form: FormData, current: Option<CategoryId>, categories: set<CategoryId>): (r: Response<Option<CategoryId>>)
    ensures "category" !in form || form["category"] == "" ==> r == Ok(current)
    ensures "category" in form && form["category"] != "" ==>
      && (r == Error(ServerError) <==> ParseInt(form["category"]).None?)
      && (r == Error(NotFound) <==> ParseInt(form["category"]).Some? && CategoryOf(JStr(form["category"]), categories).None?)
      && (r.Ok? <==> CategoryOf(JStr(form["category"]), categories).Some?)
      && (r.Ok? ==> r.value == CategoryOf(JStr(form["category"]), categories))
  {
    if "category" !in form || form["category"] == "" then Ok(current)
    else if ParseInt(form["category"]).None? then Error(ServerError)
    else
      match CategoryOf(JStr(form["category"]), categories)
      case None => Error(NotFound)
      case Some(c) => Ok(Some(c))
  }

  /** The video after an `edit_video` post: title and description as posted or kept, the category as `FormCategory` says. */
  function EditedVideo(v: Video, form: FormData, categories: set<CategoryId>): (r: Response<Video>)
    ensures r.Error? <==> FormCategory(form, v.category, categories).Error?
    ensures r.Error? ==> r.status == FormCategory(form, v.category, categories).status
    ensures r.Ok? ==> r.value == v.(title := FormText(form, "title", v.title),
                                    description := FormText(form, "description", v.description),
                                    category := FormCategory(form, v.category, categories).value)
  {
    match FormCategory(form, v.category, categories)
    case Error(status) => Error(status)
    case Ok(c) => Ok(v.(title := FormText(form, "title", v.title), description := FormText(form, "description", v.description), category := c))
  }

  /** The photo after an `edit_photo` post. */
  function EditedPhoto(p: Photo, form: FormData, categories: set<CategoryId>): (r: Response<Photo>)
    ensures r.Error? <==> FormCategory(form, p.category, categories).Error?
    ensures r.Error? ==> r.status == FormCategory(form, p.category, categories).status
    ensures r.Ok? ==> r.value == p.(title := FormText(form, "title", p.title),
                                    description := FormText(form, "description", p.description),
                                    category := FormCategory(form, p.category, categories).value)
  {
    match FormCategory(form, p.category, categories)
    case Error(status) => Error(status)
    case Ok(c) => Ok(p.(title := FormText(form, "title", p.title), description := FormText(form, "description", p.description), category := c))
  }

  /** A form edit without title, description or category leaves the row as it was. */
  lemma EditKeepsAbsentFields(v: Video, form: FormData, categories: set<CategoryId>)
    requires "title" !in form && "description" !in form && "category" !in form
    ensures EditedVideo(v, form, categories) == Ok(v)
  {
  }

  /** A saved form edit changes only title, description and category, and names an existing category when it changed it. */
  lemma EditChangesOnlyText(v: Video, form: FormData, categories: set<CategoryId>)
    requires EditedVideo(v, form, categories).Ok?
    ensures var nv := EditedVideo(v, form, categories).value;
      && nv.id == v.id && nv.owner == v.owner && nv.videoFile == v.videoFile && nv.coverImage == v.coverImage
      && nv.duration == v.duration && nv.views == v.views
      && (nv.category == v.category || (nv.category.Some? && nv.category.value in categories))
  {
  }

  /**
   * `edit_video`: a visitor is sent to sign in (302); a missing row is a
   * 404; a requester who is neither owner nor staff sees the detail page and
   * nothing changes; GET shows the form; POST saves `EditedVideo`.
   */
  method EditVideo(db: Store, isPost: bool, who: Requester, videoId: nat, form: FormData) returns (r: Response<Page>)
    requires db.Valid()
    modifies db
    ensures db.Valid()
    ensures db.photos == old(db.photos) && db.likes == old(db.likes) && db.categories == old(db.categories)
    ensures db.nextVideoId == old(db.nextVideoId) && db.nextPhotoId == old(db.nextPhotoId)
    ensures r != Ok(Saved) ==> db.videos == old(db.videos)
    ensures who.Anonymous? ==> r == Error(LoginRedirect)
    ensures who.Member? && videoId !in old(db.videos) ==> r == Error(NotFound)
    ensures who.Member? && videoId in old(db.videos) ==>
      var v := old(db.videos)[videoId];
      && (!MayModify(who, v.owner) ==> r == Ok(Refused))
      && (MayModify(who, v.owner) && !isPost ==> r == Ok(EditPage))
      && (MayModify(who, v.owner) && isPost ==>
            match EditedVideo(v, form, db.categories)
            case Error(status) => r == Error(status)
            case Ok(nv) => r == Ok(Saved) && db.videos == old(db.videos)[videoId := nv])
  {
    if who.Anonymous? {
      return Error(LoginRedirect);
    }
    if videoId !in db.videos {
      return Error(NotFound);
    }
    var video := db.videos[videoId];
    if !MayModify(who, video.owner) {
      return Ok(Refused);
    }
    if !isPost {
      return Ok(EditPage);
    }
    video := video.(title := FormText(form, "title", video.title));
    video := video.(description := FormText(form, "description", video.description));
    if "category" in form && form["category"] != "" {
      var category := CategoryOf(JStr(form["category"]), db.categories);
      if ParseInt(form["category"]).None? {
        return Error(ServerError);
      }
      if category.None? {
        return Error(NotFound);
      }
      video := video.(category := category);
    }
    db.videos := db.videos[videoId := video];
    r := Ok(Saved);
  }

  /** `edit_photo`: the same steps for a photo. */
  method EditPhoto(db: Store, isPost: bool, who: Requester, photoId: nat, form: FormData) returns (r: Response<Page>)
    requires db.Valid()
    modifies db
    ensures db.Valid()
    ensures db.videos == old(db.videos) && db.likes == old(db.likes) && db.categories == old(db.categories)
    ensures db.nextVideoId == old(db.nextVideoId) && db.nextPhotoId == old(db.nextPhotoId)
    ensures r != Ok(Saved) ==> db.photos == old(db.photos)
    ensures who.Anonymous? ==> r == Error(LoginRedirect)
    ensures who.Member? && photoId !in old(db.photos) ==> r == Error(NotFound)
    ensures who.Member? && photoId in old(db.photos) ==>
      var p := old(db.photos)[photoId];
      && (!MayModify(who, p.owner) ==> r == Ok(Refused))
      && (MayModify(who, p.owner) && !isPost ==> r == Ok(EditPage))
      && (MayModify(who, p.owner) && isPost ==>
            match EditedPhoto(p, form, db.categories)
            case Error(status) => r == Error(status)
            case Ok(np) => r == Ok(Saved) && db.photos == old(db.photos)[photoId := np])
  {
    if who.Anonymous? {
      return Error(LoginRedirect);
    }
    if photoId !in db.photos {
      return Error(NotFound);
    }
    var photo := db.photos[photoId];
    if !MayModify(who, photo.owner) {
      return Ok(Refused);
    }
    if !isPost {
      return Ok(EditPage);
    }
    photo := photo.(title := FormText(form, "title", photo.title));
    photo := photo.(description := FormText(form, "description", photo.description));
    if "category" in form && form["category"] != "" {
      var category := CategoryOf(JStr(form["category"]), db.categories);
      if ParseInt(form["category"]).None? {
        return Error(ServerError);
      }
      if category.None? {
        return Error(NotFound);
      }
      photo := photo.(category := category);
    }
    db.photos := db.photos[photoId := photo];
    r := Ok(Saved);
  }

  /** The like table once a video is deleted: the deletion cascades to the likes of that video. */
  function LikesWithoutVideo(likes: set<Like>, videoId: nat): (r: set<Like>)
    ensures r <= likes
    ensures forall l :: l in r <==> l in likes && l.video != Some(videoId)
  {
    set l | l in likes && l.video != Some(videoId)
  }

  /** The like table once a photo is deleted. */
  function LikesWithoutPhoto(likes: set<Like>, photoId: nat): (r: set<Like>)
    ensures r <= likes
    ensures forall l :: l in r <==> l in likes && l.photo != Some(photoId)
  {
    set l | l in likes && l.photo != Some(photoId)
  }

  /**
   * `delete_video`: 302 for a visitor, 404 for a missing row, the detail
   * page and no change for a requester who is neither owner nor staff, the
   * confirmation page on GET; POST deletes the row and its likes.
   */
  method DeleteVideo(db: Store, isPost: bool, who: Requester, videoId: nat) returns (r: Response<Page>)
    requires db.Valid()
    modifies db
    ensures db.Valid()
    ensures db.photos == old(db.photos) && db.categories == old(db.categories)
    ensures db.nextVideoId == old(db.nextVideoId) && db.nextPhotoId == old(db.nextPhotoId)
    ensures r != Ok(Deleted) ==> db.videos == old(db.videos) && db.likes == old(db.likes)
    ensures who.Anonymous? ==> r == Error(LoginRedirect)
    ensures who.Member? && videoId !in old(db.videos) ==> r == Error(NotFound)
    ensures who.Member? && videoId in old(db.videos) ==>
      && (!MayModify(who, old(db.videos)[videoId].owner) ==> r == Ok(Refused))
      && (MayModify(who, old(db.videos)[videoId].owner) && !isPost ==> r == Ok(ConfirmPage))
      && (MayModify(who, old(db.videos)[videoId].owner) && isPost ==>
            r == Ok(Deleted) && db.videos == old(db.videos) - {videoId}
            && db.likes == LikesWithoutVideo(old(db.likes), videoId))
  {
    if who.Anonymous? {
      return Error(LoginRedirect);
    }
    if videoId !in db.videos {
      return Error(NotFound);
    }
    if !MayModify(who, db.videos[videoId].owner) {
      return Ok(Refused);
    }
    if !isPost {
      return Ok(ConfirmPage);
    }
    db.videos := db.videos - {videoId};
    db.likes := LikesWithoutVideo(db.likes, videoId);
    r := Ok(Deleted);
  }

  /** `delete_photo`: the same steps for a photo. */
  method DeletePhoto(db: Store, isPost: bool, who: Requester, photoId: nat) returns (r: Response<Page>)
    requires db.Valid()
    modifies db
    ensures db.Valid()
    ensures db.videos == old(db.videos) && db.categories == old(db.categories)
    ensures db.nextVideoId == old(db.nextVideoId) && db.nextPhotoId == old(db.nextPhotoId)
    ensures r != Ok(Deleted) ==> db.photos == old(db.photos) && db.likes == old(db.likes)
    ensures who.Anonymous? ==> r == Error(LoginRedirect)
    ensures who.Member? && photoId !in old(db.photos) ==> r == Error(NotFound)
    ensures who.Member? && photoId in old(db.photos) ==>
      && (!MayModify(who, old(db.photos)[photoId].owner) ==> r == Ok(Refused))
      && (MayModify(who, old(db.photos)[photoId].owner) && !isPost ==> r == Ok(ConfirmPage))
      && (MayModify(who, old(db.photos)[photoId].owner) && isPost ==>
            r == Ok(Deleted) && db.photos == old(db.photos) - {photoId}
            && db.likes == LikesWithoutPhoto(old(db.likes), photoId))
  {
    if who.Anonymous? {
      return Error(LoginRedirect);
    }
    if photoId !in db.photos {
      return Error(NotFound);
    }
    if !MayModify(who, db.photos[photoId].owner) {
      return Ok(Refused);
    }
    if !isPost {
      return Ok(ConfirmPage);
    }
    db.photos := db.photos - {photoId};
    db.likes := LikesWithoutPhoto(db.likes, photoId);
    r := Ok(Deleted);
  }
}

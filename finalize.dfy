/**
 * `FinalizeUploadView`, which records an upload as a new video or photo once
 * the browser has stored the file.  The two view modules differ only in the
 * page URL they answer: "/administration/video/<id>/" in one, "/video/<id>/"
 * in the other, so the prefix is a parameter.
 */
module FinalizeViews {
  import opened Wrappers
  import opened Text
  import opened Http
  import opened Models

  /** The row the view inserts; its id is handed out by the table. */
  datatype Draft = NewVideo(video: Video) | NewPhoto(photo: Photo)

  /** The view's answer: the new row's id and page. */
  datatype Finalized = Finalized(id: nat, url: string)

  /** The value a request field leaves in a nullable text column: NULL when absent. */
  function OptionalText(data: JsonObject, key: string): (r: Option<string>)
    ensures key !in data ==> r.None?
    ensures key in data ==> r == StoredText(data[key])
  {
    match Get(data, key)
    case None => None
    case Some(j) => StoredText(j)
  }

  /**
   * `category_id if category_id else None`, saved: no category when the value
   * is absent or falsy, else the category the value names; the outer `None`
   * is a save that fails.
   */
  function ChosenCategory(data: JsonObject, categories: set<CategoryId>): (r: Option<Option<CategoryId>>)
    ensures !("category" in data && Truthy(data["category"])) ==> r == Some(None)
    ensures "category" in data && Truthy(data["category"]) ==>
      (r.Some? <==> CategoryOf(data["category"], categories).Some?) &&
      (r.Some? ==> r.value == CategoryOf(data["category"], categories))
  {
    if "category" in data && Truthy(data["category"]) then
      match CategoryOf(data["category"], categories)
      case None => None
      case Some(c) => Some(Some(c))
    else Some(None)
  }

  /**
   * `int(duration) if duration else 0` with `duration` defaulting to 0, saved
   * into a non-negative column; `None` when `int()` raises or the value is
   * negative.
   */
  function ChosenDuration(data: JsonObject): (r: Option<nat>)
    ensures !("duration" in data && Truthy(data["duration"])) ==> r == Some(0)
    ensures "duration" in data && Truthy(data["duration"]) ==>
      (r.Some? <==> PyInt(data["duration"]).Some? && PyInt(data["duration"]).value >= 0) &&
      (r.Some? ==> r.value as int == PyInt(data["duration"]).value)
  {
    if "duration" in data && Truthy(data["duration"]) then
      match PyInt(data["duration"])
      case None => None
      case Some(n) => if n >= 0 then Some(n as nat) else None
    else Some(0)
  }

  /** Whether the request names a file URL that Python counts as true. */
  predicate HasFileUrl(data: JsonObject) {
    "fileURL" in data && Truthy(data["fileURL"])
  }

  /** `data.get('uploadType', 'photo')` */
  function UploadKind(data: JsonObject): Json {
    Get(data, "uploadType").GetOr(JStr("photo"))
  }

  /**
   * A member's request the view accepts: a true file URL, string title and
   * description with a non-blank title, a category that exists when one is
   * named, and a "video" with a readable duration or a "photo".
   */
  predicate Insertable(data: JsonObject, categories: set<CategoryId>) {
    && HasFileUrl(data)
    && GetStripped(data, "title", "").Some? && GetStripped(data, "title", "").value != ""
    && GetStripped(data, "description", "").Some?
    && ChosenCategory(data, categories).Some?
    && ((UploadKind(data) == JStr("video") && ChosenDuration(data).Some?) || UploadKind(data) == JStr("photo"))
  }

  /**
   * The row the view would insert, or its error status.  The body is read and
   * the title and description stripped before the sign-in check, so a body
   * that is not a JSON object, or a title or description that is not a
   * string, is a 500 even for a visitor; then come the 401, the 400 for a
   * missing URL or title, the type check, and the failures of the insert.
   */
  function FinalizeDraft(body: Body, who: Requester, categories: set<CategoryId>): (r: Response<Draft>)
    ensures ObjectOrEmpty(body).None? ==> r == Error(ServerError)
    ensures ObjectOrEmpty(body).Some? &&
      (GetStripped(ObjectOrEmpty(body).value, "title", "").None? || GetStripped(ObjectOrEmpty(body).value, "description", "").None?)
      ==> r == Error(ServerError)
    ensures who.Anonymous? ==> r == Error(Unauthorized) || r == Error(ServerError)
    ensures (who.Anonymous? && ObjectOrEmpty(body).Some?
             && GetStripped(ObjectOrEmpty(body).value, "title", "").Some?
             && GetStripped(ObjectOrEmpty(body).value, "description", "").Some?) ==> r == Error(Unauthorized)
    ensures (who.Member? && ObjectOrEmpty(body).Some? && r != Error(BadRequest)
             && !Insertable(ObjectOrEmpty(body).value, categories)) ==> r == Error(ServerError)
    ensures who.Member? && ObjectOrEmpty(body).Some? && Insertable(ObjectOrEmpty(body).value, categories) ==> r.Ok?
    ensures r == Error(BadRequest) <==>
      && who.Member? && ObjectOrEmpty(body).Some?
      && var data := ObjectOrEmpty(body).value;
      && GetStripped(data, "title", "").Some? && GetStripped(data, "description", "").Some?
      && (!HasFileUrl(data) || GetStripped(data, "title", "") == Some("")
          || (UploadKind(data) != JStr("video") && UploadKind(data) != JStr("photo")))
    ensures r.Ok? ==>
      && who.Member? && ObjectOrEmpty(body).Some?
      && var data := ObjectOrEmpty(body).value;
      && HasFileUrl(data)
      && GetStripped(data, "title", "").Some? && GetStripped(data, "title", "").value != ""
      && GetStripped(data, "description", "").Some?
      && ChosenCategory(data, categories).Some?
      && match r.value
         case NewVideo(v) =>
           && UploadKind(data) == JStr("video")
           && v.owner == Some(who.id) && v.views == 0
           && v.title == GetStripped(data, "title", "").value
           && v.description == GetStripped(data, "description", "").value
           && v.videoFile == StoredText(data["fileURL"]) && v.videoFile.Some?
           && v.coverImage == OptionalText(data, "cover_image")
           && Some(v.duration) == ChosenDuration(data)
           && v.category == ChosenCategory(data, categories).value
         case NewPhoto(p) =>
           && UploadKind(data) == JStr("photo")
           && p.owner == Some(who.id)
           && p.title == GetStripped(data, "title", "").value
           && p.description == GetStripped(data, "description", "").value
           && p.photoFile == StoredText(data["fileURL"]) && p.photoFile.Some?
           && p.category == ChosenCategory(data, categories).value
  {
    match ObjectOrEmpty(body)
    case None => Error(ServerError)
    case Some(data) =>
      var title := GetStripped(data, "title", "");
      var description := GetStripped(data, "description", "");
      if title.None? || description.None? then Error(ServerError)
      else if who.Anonymous? then Error(Unauthorized)
      else if !HasFileUrl(data) || title.value == "" then Error(BadRequest)
      else
        var file := StoredText(data["fileURL"]);
        var category := ChosenCategory(data, categories);
        if UploadKind(data) == JStr("video") then
          var duration := ChosenDuration(data);
          if duration.None? || category.None? then Error(ServerError)
          else
            Ok(NewVideo(Video(0, Some(who.id), title.value, description.value, file,
                              OptionalText(data, "cover_image"), duration.value, category.value, 0)))
        else if UploadKind(data) == JStr("photo") then
          if category.None? then Error(ServerError)
          else Ok(NewPhoto(Photo(0, Some(who.id), title.value, description.value, file, category.value)))
        else Error(BadRequest)
  }

  /** A video row whose duration was falsy or absent starts at zero seconds. */
  lemma DurationDefaultsToZero(body: Body, who: Requester, categories: set<CategoryId>)
    ensures FinalizeDraft(body, who, categories).Ok? && FinalizeDraft(body, who, categories).value.NewVideo?
      && !("duration" in ObjectOrEmpty(body).value && Truthy(ObjectOrEmpty(body).value["duration"]))
      ==> FinalizeDraft(body, who, categories).value.video.duration == 0
  {
  }

  /** A row `FinalizeDraft` describes names no category, or an existing one. */
  lemma DraftCategoryExists(body: Body, who: Requester, categories: set<CategoryId>)
    ensures FinalizeDraft(body, who, categories).Ok? ==>
      match FinalizeDraft(body, who, categories).value
      case NewVideo(v) => v.category.None? || v.category.value in categories
      case NewPhoto(p) => p.category.None? || p.category.value in categories
  {
  }

  /** `Video.objects.create`: the row goes in under the next id, which is then used up. */
  method CreateVideo(db: Store, v: Video) returns (id: nat)
    requires db.Valid()
    requires v.category.None? || v.category.value in db.categories
    modifies db
    ensures db.Valid()
    ensures id == old(db.nextVideoId) && db.nextVideoId == id + 1
    ensures db.videos == old(db.videos)[id := v.(id := id)]
    ensures db.photos == old(db.photos) && db.likes == old(db.likes) && db.categories == old(db.categories)
    ensures db.nextPhotoId == old(db.nextPhotoId)
  {
    id := db.nextVideoId;
    db.videos := db.videos[id := v.(id := id)];
    db.nextVideoId := id + 1;
  }

  /** `Photo.objects.create`: the same for a photo. */
  method CreatePhoto(db: Store, p: Photo) returns (id: nat)
    requires db.Valid()
    requires p.category.None? || p.category.value in db.categories
    modifies db
    ensures db.Valid()
    ensures id == old(db.nextPhotoId) && db.nextPhotoId == id + 1
    ensures db.photos == old(db.photos)[id := p.(id := id)]
    ensures db.videos == old(db.videos) && db.likes == old(db.likes) && db.categories == old(db.categories)
    ensures db.nextVideoId == old(db.nextVideoId)
  {
    id := db.nextPhotoId;
    db.photos := db.photos[id := p.(id := id)];
    db.nextPhotoId := id + 1;
  }

  /**
   * `FinalizeUploadView.post`: inserts the row `FinalizeDraft` describes
   * under the next id of its table and answers that id and the page
   * `prefix + "/video/<id>/"` or `prefix + "/photo/<id>/"`; on every error
   * nothing is inserted.
   */
  method FinalizeUpload(db: Store, prefix: string, isPost: bool, body: Body, who: Requester) returns (r: Response<Finalized>)
    requires db.Valid()
    modifies db
    ensures db.Valid()
    ensures db.likes == old(db.likes) && db.categories == old(db.categories)
    ensures !isPost ==> r == Error(MethodNotAllowed)
    ensures r.Error? ==>
      && db.videos == old(db.videos) && db.photos == old(db.photos)
      && db.nextVideoId == old(db.nextVideoId) && db.nextPhotoId == old(db.nextPhotoId)
    ensures isPost ==>
      match FinalizeDraft(body, who, old(db.categories))
      case Error(status) => r == Error(status)
      case Ok(NewVideo(v)) =>
        var id := old(db.nextVideoId);
        && db.videos == old(db.videos)[id := v.(id := id)] && db.photos == old(db.photos)
        && db.nextVideoId == id + 1 && db.nextPhotoId == old(db.nextPhotoId)
        && r == Ok(Finalized(id, prefix + "/video/" + NatToDecimal(id) + "/"))
      case Ok(NewPhoto(p)) =>
        var id := old(db.nextPhotoId);
        && db.photos == old(db.photos)[id := p.(id := id)] && db.videos == old(db.videos)
        && db.nextPhotoId == id + 1 && db.nextVideoId == old(db.nextVideoId)
        && r == Ok(Finalized(id, prefix + "/photo/" + NatToDecimal(id) + "/"))
  {
    if !isPost {
      return Error(MethodNotAllowed);
    }
    var draft := FinalizeDraft(body, who, db.categories);
    if draft.Error? {
      return Error(draft.status);
    }
    DraftCategoryExists(body, who, db.categories);
    match draft.value
    case NewVideo(v) =>
      var id := CreateVideo(db, v);
      r := Ok(Finalized(id, prefix + "/video/" + NatToDecimal(id) + "/"));
    case NewPhoto(p) =>
      var id := CreatePhoto(db, p);
      r := Ok(Finalized(id, prefix + "/photo/" + NatToDecimal(id) + "/"));
  }
}

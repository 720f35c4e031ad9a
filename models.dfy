/**
 * The records of the media application (videos, photos, likes, subscription
 * plans and subscriptions), the URL accessors the templates use, the
 * uniqueness rules the schema declares, and `Store`, the in-memory stand-in
 * for the database tables that the views read and write.
 */
module Models {
  import opened Wrappers
  import opened Text
  import opened Http

  type CategoryId = nat

  /**
   * A video row.  `videoFile` and `coverImage` hold full storage URLs and may
   * be NULL; `duration` (seconds) and `views` are non-negative integer columns.
   */
  datatype Video = Video(
    id: nat,
    owner: Option<UserId>,
    title: string,
    description: string,
    videoFile: Option<string>,
    coverImage: Option<string>,
    duration: nat,
    category: Option<CategoryId>,
    views: nat)

  /** A photo row; `photoFile` holds the full storage URL and may be NULL. */
  datatype Photo = Photo(
    id: nat,
    owner: Option<UserId>,
    title: string,
    description: string,
    photoFile: Option<string>,
    category: Option<CategoryId>)

  /** `value if value else ""` on a nullable text column. */
  function UrlOrEmpty(field: Option<string>): (r: string)
    ensures r == "" <==> field.None? || field == Some("")
    ensures r != "" ==> field == Some(r)
  {
    if field.Some? && field.value != "" then field.value else ""
  }

  /** `Video.video_url`: the stored file URL, or "" when none is stored. */
  function VideoUrl(v: Video): (r: string)
    ensures r == "" <==> v.videoFile.None? || v.videoFile == Some("")
    ensures r != "" ==> v.videoFile == Some(r)
  {
    UrlOrEmpty(v.videoFile)
  }

  /** `Video.cover_url`: the stored cover URL, or "" when none is stored. */
  function CoverUrl(v: Video): (r: string)
    ensures r == "" <==> v.coverImage.None? || v.coverImage == Some("")
    ensures r != "" ==> v.coverImage == Some(r)
  {
    UrlOrEmpty(v.coverImage)
  }

  /** `Photo.image_url`: the stored image URL, or "" when none is stored. */
  function ImageUrl(p: Photo): (r: string)
    ensures r == "" <==> p.photoFile.None? || p.photoFile == Some("")
    ensures r != "" ==> p.photoFile == Some(r)
  {
    UrlOrEmpty(p.photoFile)
  }

  /** A like row: a user and a video, a photo, or (as the schema allows) both or neither. */
  datatype Like = Like(user: UserId, video: Option<nat>, photo: Option<nat>)

  /**
   * `unique_together = [("user", "video"), ("user", "photo")]`.  A NULL video
   * or photo never clashes with another, as NULLs are distinct in SQL.
   */
  ghost predicate LikesUnique(likes: set<Like>) {
    && (forall a, b :: a in likes && b in likes && a.user == b.user && a.video.Some? && a.video == b.video ==> a == b)
    && (forall a, b :: a in likes && b in likes && a.user == b.user && a.photo.Some? && a.photo == b.photo ==> a == b)
  }

  /** Every like points at rows that exist (the foreign keys). */
  ghost predicate LikesReferToRows(likes: set<Like>, videos: map<nat, Video>, photos: map<nat, Photo>) {
    forall l :: l in likes ==>
      && (l.video.Some? ==> l.video.value in videos)
      && (l.photo.Some? ==> l.photo.value in photos)
  }

  /** A like made by the two toggle views: exactly one of video and photo is set. */
  predicate SingleTarget(l: Like) {
    l.video.Some? != l.photo.Some?
  }

  /** `Like.__str__`: names the liked video when one is set, otherwise the photo (or "None"). */
  function LikeDescription(like: Like, userName: string, videos: map<nat, Video>, photos: map<nat, Photo>): (r: string)
    requires like.video.Some? ==> like.video.value in videos
    requires like.photo.Some? ==> like.photo.value in photos
    ensures like.video.Some? ==> StartsWith(r, userName + " likes video: ") && EndsWith(r, videos[like.video.value].title)
    ensures like.video.None? ==> StartsWith(r, userName + " likes photo: ")
    ensures like.video.None? && like.photo.Some? ==> EndsWith(r, photos[like.photo.value].title)
    ensures like.video.None? && like.photo.None? ==> EndsWith(r, "None")
  {
    if like.video.Some? then
      userName + " likes video: " + videos[like.video.value].title
    else
      userName + " likes photo: " + (if like.photo.Some? then photos[like.photo.value].title else "None")
  }

  /** A plan; `price` and `durationDays` are non-negative integer columns. */
  datatype SubscriptionPlan = SubscriptionPlan(name: string, price: nat, durationDays: nat)

  /**
   * A user's subscription.  Dates are instants in seconds; an instance being
   * edited may lack them, a saved row has both.
   */
  datatype UserSubscription = UserSubscription(
    user: UserId,
    plan: Option<SubscriptionPlan>,
    startDate: Option<int>,
    endDate: Option<int>,
    isActive: bool)

  /** `user = OneToOneField(User)`: at most one subscription per user. */
  ghost predicate OnePerUser(subs: seq<UserSubscription>) {
    forall i, j :: 0 <= i < j < |subs| ==> subs[i].user != subs[j].user
  }

  /** Row keys match record ids, and every category a record names exists. */
  ghost predicate TablesConsistent(videos: map<nat, Video>, photos: map<nat, Photo>, categories: set<CategoryId>) {
    && (forall k :: k in videos ==> videos[k].id == k && (videos[k].category.Some? ==> videos[k].category.value in categories))
    && (forall k :: k in photos ==> photos[k].id == k && (photos[k].category.Some? ==> photos[k].category.value in categories))
  }

  /**
   * The category a saved row names when its `category_id` was set to `j`:
   * the column converts the value with `int()`, and the foreign key demands
   * an existing category.  `None` when either step fails and the save raises.
   */
  function CategoryOf(j: Json, categories: set<CategoryId>): (c: Option<CategoryId>)
    ensures c.Some? <==> PyInt(j).Some? && PyInt(j).value >= 0 && PyInt(j).value as nat in categories
    ensures c.Some? ==> c.value as int == PyInt(j).value
  {
    match PyInt(j)
    case Some(n) => if n >= 0 && n as nat in categories then Some(n as nat) else None
    case None => None
  }

  /** The tables the views read and write, with the next id each auto-increment key hands out. */
  class Store {
    var videos: map<nat, Video>
    var photos: map<nat, Photo>
    var likes: set<Like>
    var categories: set<CategoryId>
    var nextVideoId: nat
    var nextPhotoId: nat

    /** The constraints the schema enforces on every committed state. */
    ghost predicate Valid()
      reads this
    {
      && TablesConsistent(videos, photos, categories)
      && LikesReferToRows(likes, videos, photos)
      && LikesUnique(likes)
      && (forall k :: k in videos ==> k < nextVideoId)
      && (forall k :: k in photos ==> k < nextPhotoId)
    }
  }
}

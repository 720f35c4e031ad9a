/**
 * The like endpoints.  A toggle is a POST by a signed-in user: it removes the
 * user's like of the item when there is one and adds it otherwise, then
 * answers whether the item is now liked and how many likes it has.  The
 * photo status endpoint answers the same two questions without changing
 * anything.
 */
module LikeViews {
  import opened Wrappers
  import opened Http
  import opened Models

  /** The JSON answer of the like endpoints. */
  datatype LikeState = LikeState(isLiked: bool, likesCount: nat)

  /** The likes that name the video. */
  function VideoLikers(likes: set<Like>, videoId: nat): (s: set<Like>)
    ensures s <= likes
    ensures forall l :: l in likes && l.video == Some(videoId) ==> l in s
    ensures forall l :: l in s ==> l.video == Some(videoId)
  {
    set l | l in likes && l.video == Some(videoId)
  }

  /** The likes that name the photo. */
  function PhotoLikers(likes: set<Like>, photoId: nat): (s: set<Like>)
    ensures s <= likes
    ensures forall l :: l in likes && l.photo == Some(photoId) ==> l in s
    ensures forall l :: l in s ==> l.photo == Some(photoId)
  {
    set l | l in likes && l.photo == Some(photoId)
  }

  /** The like the video toggle looks up and creates: this user, this video, no photo. */
  function VideoLikeOf(user: UserId, videoId: nat): (l: Like)
    ensures l.user == user && l.video == Some(videoId) && l.photo.None? && SingleTarget(l)
  {
    Like(user, Some(videoId), None)
  }

  /** The like the photo toggle creates: this user, this photo, no video. */
  function PhotoLikeOf(user: UserId, photoId: nat): (l: Like)
    ensures l.user == user && l.photo == Some(photoId) && l.video.None? && SingleTarget(l)
  {
    Like(user, None, Some(photoId))
  }

  /** Whether the user has a like naming the photo (with or without a video). */
  predicate LikesPhoto(likes: set<Like>, user: UserId, photoId: nat) {
    exists l :: l in likes && l.user == user && l.photo == Some(photoId)
  }

  /** The likes with the user's like of the photo taken out. */
  function WithoutPhotoLike(likes: set<Like>, user: UserId, photoId: nat): (s: set<Like>)
    ensures s <= likes
    ensures forall l :: l in likes ==> (l in s <==> !(l.user == user && l.photo == Some(photoId)))
  {
    set l | l in likes && !(l.user == user && l.photo == Some(photoId))
  }

  /**
   * The like table after the video toggle, or None when the insert fails: the
   * video does not exist, or the user already likes it together with a photo,
   * which the (user, video) uniqueness refuses.
   */
  function ToggledVideoLikes(likes: set<Like>, videos: map<nat, Video>, user: UserId, videoId: nat): (r: Option<set<Like>>)
    ensures VideoLikeOf(user, videoId) in likes ==> r == Some(likes - {VideoLikeOf(user, videoId)})
    ensures VideoLikeOf(user, videoId) !in likes && r.Some? ==> r == Some(likes + {VideoLikeOf(user, videoId)})
    ensures VideoLikeOf(user, videoId) !in likes ==>
      (r.None? <==> videoId !in videos || exists l :: l in likes && l.user == user && l.video == Some(videoId))
  {
    var mine := VideoLikeOf(user, videoId);
    if mine in likes then Some(likes - {mine})
    else if videoId !in videos || exists l :: l in likes && l.user == user && l.video == Some(videoId) then None
    else Some(likes + {mine})
  }

  /**
   * The like table after the photo toggle, or None when the photo does not
   * exist and the insert fails.  An existing like of the photo is removed
   * whatever video it also names.
   */
  function ToggledPhotoLikes(likes: set<Like>, photos: map<nat, Photo>, user: UserId, photoId: nat): (r: Option<set<Like>>)
    ensures LikesPhoto(likes, user, photoId) ==> r == Some(WithoutPhotoLike(likes, user, photoId))
    ensures !LikesPhoto(likes, user, photoId) ==>
      (r.None? <==> photoId !in photos) && (r.Some? ==> r == Some(likes + {PhotoLikeOf(user, photoId)}))
  {
    if LikesPhoto(likes, user, photoId) then Some(WithoutPhotoLike(likes, user, photoId))
    else if photoId !in photos then None
    else Some(likes + {PhotoLikeOf(user, photoId)})
  }

  /** A toggle flips whether the user likes the video and leaves every other like alone. */
  lemma VideoToggleFlips(likes: set<Like>, videos: map<nat, Video>, user: UserId, videoId: nat)
    requires ToggledVideoLikes(likes, videos, user, videoId).Some?
    ensures var after := ToggledVideoLikes(likes, videos, user, videoId).value;
      && (VideoLikeOf(user, videoId) in after <==> VideoLikeOf(user, videoId) !in likes)
      && after - {VideoLikeOf(user, videoId)} == likes - {VideoLikeOf(user, videoId)}
  {
  }

  /** The video's count goes up by one on a like and down by one on an unlike. */
  lemma {:induction false} VideoToggleCount(likes: set<Like>, videos: map<nat, Video>, user: UserId, videoId: nat)
    requires ToggledVideoLikes(likes, videos, user, videoId).Some?
    ensures var after := ToggledVideoLikes(likes, videos, user, videoId).value;
      |VideoLikers(after, videoId)| ==
        if VideoLikeOf(user, videoId) in after then |VideoLikers(likes, videoId)| + 1
        else |VideoLikers(likes, videoId)| - 1
  {
    var mine := VideoLikeOf(user, videoId);
    var after := ToggledVideoLikes(likes, videos, user, videoId).value;
    if mine in likes {
      assert VideoLikers(after, videoId) == VideoLikers(likes, videoId) - {mine};
    } else {
      assert VideoLikers(after, videoId) == VideoLikers(likes, videoId) + {mine};
    }
  }

  /** A toggle keeps the schema: likes stay unique and point at existing rows. */
  lemma VideoToggleKeepsSchema(likes: set<Like>, videos: map<nat, Video>, photos: map<nat, Photo>, user: UserId, videoId: nat)
    requires LikesUnique(likes) && LikesReferToRows(likes, videos, photos)
    requires ToggledVideoLikes(likes, videos, user, videoId).Some?
    ensures var after := ToggledVideoLikes(likes, videos, user, videoId).value;
      LikesUnique(after) && LikesReferToRows(after, videos, photos)
  {
  }

  /** Toggling the same video twice gives the like table back. */
  lemma VideoToggleTwice(likes: set<Like>, videos: map<nat, Video>, photos: map<nat, Photo>, user: UserId, videoId: nat)
    requires LikesUnique(likes) && LikesReferToRows(likes, videos, photos)
    requires ToggledVideoLikes(likes, videos, user, videoId).Some?
    ensures ToggledVideoLikes(ToggledVideoLikes(likes, videos, user, videoId).value, videos, user, videoId) == Some(likes)
  {
    var mine := VideoLikeOf(user, videoId);
    var after := ToggledVideoLikes(likes, videos, user, videoId).value;
    if mine in likes {
      assert videoId in videos;
      assert forall l :: l in likes && l.user == user && l.video == Some(videoId) ==> l == mine;
      assert after + {mine} == likes;
    } else {
      assert after - {mine} == likes;
    }
  }

  /** Under uniqueness the photo toggle removes exactly one like: the one naming this user and photo. */
  lemma PhotoUnlikeRemovesOne(likes: set<Like>, user: UserId, photoId: nat) returns (gone: Like)
    requires LikesUnique(likes) && LikesPhoto(likes, user, photoId)
    ensures gone in likes && gone.user == user && gone.photo == Some(photoId)
    ensures WithoutPhotoLike(likes, user, photoId) == likes - {gone}
  {
    gone :| gone in likes && gone.user == user && gone.photo == Some(photoId);
  }

  /** The photo toggle flips whether the user likes the photo. */
  lemma PhotoToggleFlips(likes: set<Like>, photos: map<nat, Photo>, user: UserId, photoId: nat)
    requires ToggledPhotoLikes(likes, photos, user, photoId).Some?
    ensures LikesPhoto(ToggledPhotoLikes(likes, photos, user, photoId).value, user, photoId) <==> !LikesPhoto(likes, user, photoId)
  {
    if !LikesPhoto(likes, user, photoId) {
      var after := ToggledPhotoLikes(likes, photos, user, photoId).value;
      assert PhotoLikeOf(user, photoId) in after;
    }
  }

  /** The photo's count goes up by one on a like and down by one on an unlike. */
  lemma PhotoToggleCount(likes: set<Like>, photos: map<nat, Photo>, user: UserId, photoId: nat)
    requires LikesUnique(likes)
    requires ToggledPhotoLikes(likes, photos, user, photoId).Some?
    ensures var after := ToggledPhotoLikes(likes, photos, user, photoId).value;
      |PhotoLikers(after, photoId)| ==
        if LikesPhoto(likes, user, photoId) then |PhotoLikers(likes, photoId)| - 1
        else |PhotoLikers(likes, photoId)| + 1
  {
    var after := ToggledPhotoLikes(likes, photos, user, photoId).value;
    if LikesPhoto(likes, user, photoId) {
      var gone := PhotoUnlikeRemovesOne(likes, user, photoId);
      assert PhotoLikers(after, photoId) == PhotoLikers(likes, photoId) - {gone};
    } else {
      var mine := PhotoLikeOf(user, photoId);
      assert mine !in likes;
      assert PhotoLikers(after, photoId) == PhotoLikers(likes, photoId) + {mine};
    }
  }

  /** The photo toggle keeps the schema. */
  lemma PhotoToggleKeepsSchema(likes: set<Like>, videos: map<nat, Video>, photos: map<nat, Photo>, user: UserId, photoId: nat)
    requires LikesUnique(likes) && LikesReferToRows(likes, videos, photos)
    requires ToggledPhotoLikes(likes, photos, user, photoId).Some?
    ensures var after := ToggledPhotoLikes(likes, photos, user, photoId).value;
      LikesUnique(after) && LikesReferToRows(after, videos, photos)
  {
  }

  /**
   * Toggling the same photo twice gives the table back when every like names
   * exactly one item, as the toggles create them; a like naming both a video
   * and the photo would come back without its video.
   */
  lemma PhotoToggleTwice(likes: set<Like>, videos: map<nat, Video>, photos: map<nat, Photo>, user: UserId, photoId: nat)
    requires LikesUnique(likes) && LikesReferToRows(likes, videos, photos)
    requires forall l :: l in likes ==> SingleTarget(l)
    requires ToggledPhotoLikes(likes, photos, user, photoId).Some?
    ensures ToggledPhotoLikes(ToggledPhotoLikes(likes, photos, user, photoId).value, photos, user, photoId) == Some(likes)
  {
    var mine := PhotoLikeOf(user, photoId);
    var after := ToggledPhotoLikes(likes, photos, user, photoId).value;
    if LikesPhoto(likes, user, photoId) {
      var gone := PhotoUnlikeRemovesOne(likes, user, photoId);
      assert gone == mine;
      assert photoId in photos;
      assert !LikesPhoto(after, user, photoId);
      assert after + {mine} == likes;
    } else {
      assert LikesPhoto(after, user, photoId) by { assert mine in after; }
      assert WithoutPhotoLike(after, user, photoId) == likes;
    }
  }

  /**
   * `toggle_video_like`: POST only (405), signed-in only (302 to the login
   * page), then the toggle; a failed insert is a server error and changes
   * nothing.
   */
  method ToggleVideoLike(db: Store, isPost: bool, who: Requester, videoId: nat) returns (r: Response<LikeState>)
    requires db.Valid()
    modifies db
    ensures db.Valid()
    ensures db.videos == old(db.videos) && db.photos == old(db.photos) && db.categories == old(db.categories)
    ensures db.nextVideoId == old(db.nextVideoId) && db.nextPhotoId == old(db.nextPhotoId)
    ensures !isPost ==> r == Error(MethodNotAllowed) && db.likes == old(db.likes)
    ensures isPost && who.Anonymous? ==> r == Error(LoginRedirect) && db.likes == old(db.likes)
    ensures isPost && who.Member? ==>
      match ToggledVideoLikes(old(db.likes), db.videos, who.id, videoId)
      case None => r == Error(ServerError) && db.likes == old(db.likes)
      case Some(after) =>
        && db.likes == after
        && r == Ok(LikeState(VideoLikeOf(who.id, videoId) in after, |VideoLikers(after, videoId)|))
  {
    if !isPost {
      return Error(MethodNotAllowed);
    }
    if who.Anonymous? {
      return Error(LoginRedirect);
    }
    var mine := VideoLikeOf(who.id, videoId);
    var isLiked: bool;
    if mine in db.likes {
      db.likes := db.likes - {mine};
      isLiked := false;
    } else {
      if videoId !in db.videos || exists l :: l in db.likes && l.user == who.id && l.video == Some(videoId) {
        return Error(ServerError);
      }
      db.likes := db.likes + {mine};
      isLiked := true;
    }
    VideoToggleKeepsSchema(old(db.likes), db.videos, db.photos, who.id, videoId);
    var count := |VideoLikers(db.likes, videoId)|;
    r := Ok(LikeState(isLiked, count));
  }

  /**
   * `toggle_photo_like`: POST only (405), signed-in only (302), then the
   * toggle; creating a like of a missing photo is a server error.
   */
  method TogglePhotoLike(db: Store, isPost: bool, who: Requester, photoId: nat) returns (r: Response<LikeState>)
    requires db.Valid()
    modifies db
    ensures db.Valid()
    ensures db.videos == old(db.videos) && db.photos == old(db.photos) && db.categories == old(db.categories)
    ensures db.nextVideoId == old(db.nextVideoId) && db.nextPhotoId == old(db.nextPhotoId)
    ensures !isPost ==> r == Error(MethodNotAllowed) && db.likes == old(db.likes)
    ensures isPost && who.Anonymous? ==> r == Error(LoginRedirect) && db.likes == old(db.likes)
    ensures isPost && who.Member? ==>
      match ToggledPhotoLikes(old(db.likes), db.photos, who.id, photoId)
      case None => r == Error(ServerError) && db.likes == old(db.likes)
      case Some(after) =>
        && db.likes == after
        && r == Ok(LikeState(LikesPhoto(after, who.id, photoId), |PhotoLikers(after, photoId)|))
  {
    if !isPost {
      return Error(MethodNotAllowed);
    }
    if who.Anonymous? {
      return Error(LoginRedirect);
    }
    var isLiked: bool;
    if exists l :: l in db.likes && l.user == who.id && l.photo == Some(photoId) {
      var like :| like in db.likes && like.user == who.id && like.photo == Some(photoId);
      var gone := PhotoUnlikeRemovesOne(db.likes, who.id, photoId);
      assert like == gone;
      db.likes := db.likes - {like};
      isLiked := false;
    } else {
      if photoId !in db.photos {
        return Error(ServerError);
      }
      db.likes := db.likes + {PhotoLikeOf(who.id, photoId)};
      isLiked := true;
    }
    PhotoToggleKeepsSchema(old(db.likes), db.videos, db.photos, who.id, photoId);
    PhotoToggleFlips(old(db.likes), db.photos, who.id, photoId);
    var count := |PhotoLikers(db.likes, photoId)|;
    r := Ok(LikeState(isLiked, count));
  }

  /** `get_photo_like_status`: nothing for a visitor; otherwise whether the user likes the photo, and its count. */
  function PhotoLikeStatus(likes: set<Like>, who: Requester, photoId: nat): (s: LikeState)
    ensures who.Anonymous? ==> s == LikeState(false, 0)
    ensures who.Member? ==> (s.isLiked <==> exists l :: l in likes && l.user == who.id && l.photo == Some(photoId))
    ensures who.Member? ==> s.likesCount == |PhotoLikers(likes, photoId)|
  {
    if who.Anonymous? then LikeState(false, 0)
    else LikeState(LikesPhoto(likes, who.id, photoId), |PhotoLikers(likes, photoId)|)
  }

  /** After a toggle, the status endpoint reports the opposite of what it reported before. */
  lemma StatusFlipsOnToggle(likes: set<Like>, photos: map<nat, Photo>, user: UserId, isStaff: bool, photoId: nat)
    requires ToggledPhotoLikes(likes, photos, user, photoId).Some?
    ensures PhotoLikeStatus(ToggledPhotoLikes(likes, photos, user, photoId).value, Member(user, isStaff), photoId).isLiked
      == !PhotoLikeStatus(likes, Member(user, isStaff), photoId).isLiked
  {
    PhotoToggleFlips(likes, photos, user, photoId);
  }
}

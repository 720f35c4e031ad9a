/**
 * The home page: the slides of the carousel and the subscription flag.
 * Slides come from the slider items' videos that have a cover image; when
 * none does, from the first five videos with a cover.  A cover that does not
 * start with "http" is made absolute against the request, which is the
 * parameter `absolutize` here.
 */
module HomeView {
  import opened Wrappers
  import opened Text
  import opened Http
  import opened Models

  /** One slide of the carousel. */
  datatype Slide = Slide(image: string, text: string, videoId: nat)

  /** `if video.cover_image`: a cover is set and is not empty. */
  predicate HasCover(v: Video) {
    v.coverImage.Some? && v.coverImage.value != ""
  }

  /** The slide image: the cover as stored when it starts with "http", else made absolute. */
  function SlideImage(cover: string, absolutize: string -> string): (image: string)
    ensures StartsWith(cover, "http") ==> image == cover
    ensures !StartsWith(cover, "http") ==> image == absolutize(cover)
  {
    if StartsWith(cover, "http") then cover else absolutize(cover)
  }

  /** The slide of a video with a cover: its image, its title and its id. */
  function SlideFor(v: Video, absolutize: string -> string): (s: Slide)
    requires HasCover(v)
    ensures s.text == v.title && s.videoId == v.id
    ensures s.image == SlideImage(v.coverImage.value, absolutize)
  {
    Slide(SlideImage(v.coverImage.value, absolutize), v.title, v.id)
  }

  /** The slides of the videos with a cover, in order. */
  function SlidesOf(vs: seq<Video>, absolutize: string -> string): (slides: seq<Slide>)
    ensures |slides| <= |vs|
  {
    if vs == [] then []
    else
      var last := vs[|vs| - 1];
      SlidesOf(vs[..|vs| - 1], absolutize) + (if HasCover(last) then [SlideFor(last, absolutize)] else [])
  }

  /** The slides the page shows: the slider's, or the fallback from the first five videos. */
  function HomeSlides(slider: seq<Video>, videos: seq<Video>, absolutize: string -> string): (slides: seq<Slide>)
  {
    var fromSlider := SlidesOf(slider, absolutize);
    if fromSlider == [] && videos != [] then
      SlidesOf(videos[..if |videos| < 5 then |videos| else 5], absolutize)
    else fromSlider
  }

  /** Every slide is the slide of one of the videos, and that video has a cover. */
  lemma {:induction false} SlideSource(vs: seq<Video>, absolutize: string -> string, k: nat) returns (j: nat)
    requires k < |SlidesOf(vs, absolutize)|
    ensures j < |vs| && HasCover(vs[j]) && SlidesOf(vs, absolutize)[k] == SlideFor(vs[j], absolutize)
  {
    var init := vs[..|vs| - 1];
    if k < |SlidesOf(init, absolutize)| {
      j := SlideSource(init, absolutize, k);
      assert vs[j] == init[j];
    } else {
      j := |vs| - 1;
    }
  }

  /** Every video with a cover contributes a slide. */
  lemma {:induction false} CoversGiveSlides(vs: seq<Video>, absolutize: string -> string)
    ensures forall j :: 0 <= j < |vs| && HasCover(vs[j]) ==> SlideFor(vs[j], absolutize) in SlidesOf(vs, absolutize)
  {
    if vs != [] {
      var init := vs[..|vs| - 1];
      CoversGiveSlides(init, absolutize);
      forall j | 0 <= j < |vs| && HasCover(vs[j])
        ensures SlideFor(vs[j], absolutize) in SlidesOf(vs, absolutize)
      {
        if j < |init| {
          assert vs[j] == init[j];
        }
      }
    }
  }

  /** No video has a cover exactly when there are no slides. */
  lemma NoSlidesIffNoCovers(vs: seq<Video>, absolutize: string -> string)
    ensures SlidesOf(vs, absolutize) == [] <==> forall j :: 0 <= j < |vs| ==> !HasCover(vs[j])
  {
    if SlidesOf(vs, absolutize) != [] {
      var j := SlideSource(vs, absolutize, 0);
    }
    CoversGiveSlides(vs, absolutize);
  }

  /**
   * The slider decides when one of its videos has a cover; only otherwise do
   * the first five videos give the slides, and then at most five.
   */
  lemma HomeSlidesChoice(slider: seq<Video>, videos: seq<Video>, absolutize: string -> string)
    ensures (exists j :: 0 <= j < |slider| && HasCover(slider[j])) ==> HomeSlides(slider, videos, absolutize) == SlidesOf(slider, absolutize)
    ensures (forall j :: 0 <= j < |slider| ==> !HasCover(slider[j])) ==>
      HomeSlides(slider, videos, absolutize) == SlidesOf(videos[..if |videos| < 5 then |videos| else 5], absolutize)
    ensures |HomeSlides(slider, videos, absolutize)| <= if SlidesOf(slider, absolutize) == [] then 5 else |slider|
  {
    NoSlidesIffNoCovers(slider, absolutize);
  }

  /** The loop over a list of videos, appending the slide of each one with a cover. */
  method AppendSlides(slides: seq<Slide>, vs: seq<Video>, absolutize: string -> string) returns (out: seq<Slide>)
    ensures out == slides + SlidesOf(vs, absolutize)
  {
    out := slides;
    var i := 0;
    while i < |vs|
      invariant 0 <= i <= |vs|
      invariant out == slides + SlidesOf(vs[..i], absolutize)
    {
      var v := vs[i];
      assert vs[..i + 1][..i] == vs[..i];
      if v.coverImage.Some? && v.coverImage.value != "" {
        var image := v.coverImage.value;
        if !StartsWith(image, "http") {
          image := absolutize(image);
        }
        out := out + [Slide(image, v.title, v.id)];
      }
      i := i + 1;
    }
    assert vs[..|vs|] == vs;
  }

  /** `index`: the slides, built as the view builds them. */
  method BuildSlides(slider: seq<Video>, videos: seq<Video>, absolutize: string -> string) returns (slides: seq<Slide>)
    ensures slides == HomeSlides(slider, videos, absolutize)
  {
    slides := AppendSlides([], slider, absolutize);
    if slides == [] && videos != [] {
      var first := videos[..if |videos| < 5 then |videos| else 5];
      slides := AppendSlides(slides, first, absolutize);
    }
  }

  /** The active subscription of the user, if any: the row with this user and `is_active` set. */
  function ActiveSubscriptionOf(subs: seq<UserSubscription>, user: UserId): (found: Option<UserSubscription>)
    ensures found.Some? ==> found.value in subs && found.value.user == user && found.value.isActive
    ensures found.None? <==> forall i :: 0 <= i < |subs| ==> !(subs[i].user == user && subs[i].isActive)
  {
    if subs == [] then None
    else if subs[0].user == user && subs[0].isActive then Some(subs[0])
    else
      var rest := ActiveSubscriptionOf(subs[1..], user);
      assert forall i :: 1 <= i < |subs| ==> subs[i] == subs[1..][i - 1];
      rest
  }

  /**
   * `has_active_subscription`: a signed-in user whose active subscription
   * ends after `now`.  Saved rows always carry an end date.
   */
  function HasActiveSubscription(subs: seq<UserSubscription>, who: Requester, now: int): (active: bool)
    requires forall i :: 0 <= i < |subs| ==> subs[i].endDate.Some?
  {
    if who.Anonymous? then false
    else
      match ActiveSubscriptionOf(subs, who.id)
      case None => false
      case Some(sub) => sub.endDate.value > now
  }

  /**
   * With at most one subscription per user, the flag is on exactly when the
   * user has an active subscription that ends after `now`.
   */
  lemma HasActiveSubscriptionIff(subs: seq<UserSubscription>, who: Requester, now: int)
    requires forall i :: 0 <= i < |subs| ==> subs[i].endDate.Some?
    requires OnePerUser(subs)
    ensures HasActiveSubscription(subs, who, now) <==>
      who.Member? && exists i :: 0 <= i < |subs| && subs[i].user == who.id && subs[i].isActive && subs[i].endDate.value > now
  {
    if who.Member? {
      var found := ActiveSubscriptionOf(subs, who.id);
      if found.Some? {
        var k :| 0 <= k < |subs| && subs[k] == found.value;
        assert forall i :: 0 <= i < |subs| && subs[i].user == who.id ==> i == k;
      }
    }
  }
}

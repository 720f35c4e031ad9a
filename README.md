# Streams media site: a verified model of its upload, like and edit logic

This Dafny project models the core of a Django media-sharing site. Signed-in
users upload videos and photos to S3-compatible object storage (Cloudflare
R2), publish them, like them, and edit or replace them. The model covers:

- **Upload naming and URLs** (`storage.dfy`, `upload.dfy`). This covers:
  - the filename sanitiser;
  - the `<folder>/<12 hex>_<safe name>` object key;
  - the three-way public-root rule of the upload and presign views;
  - the replace view's `https://`-always root and its `<media_type>s/` folder.
- **Settings** (`settings.dfy`). This covers:
  - `MEDIA_URL` as derived from `R2_CDN_DOMAIN`, a rule deliberately kept apart from the views' rule;
  - the `DEBUG`, `USE_R2` and `EMAIL_USE_TLS` flags;
  - `ALLOWED_HOSTS`;
  - the storage settings the views read.
- **Records** (`models.dfy`). This covers:
  - videos, photos, likes and subscriptions;
  - the URL accessors and the like description;
  - the foreign-key conversion of a category id;
  - a `Store` class holding the tables that the views change in place.
- **Like toggling** (`likes.dfy`): a state machine over the like table, which is unique per (user, video) and per (user, photo).
- **Publishing and updating** (`finalize.dfy`, `views.dfy`, `views_fixed.dfy`, `replace.dfy`). This covers:
  - the validation order of the finalize view;
  - the two different partial-update rules of the update APIs in `core/views.py` and `core/views_fixed.py`;
  - the form edit and delete views of `core/views_fixed.py`;
  - both branches of the replace view.
- **Admin** (`admin.dfy`): the start and end dates that the subscription admin fills in on save.
- **Home page** (`home.dfy`): the slide list and the subscription flag.

How the outside world appears in the model:

- The database is in-memory maps and sets.
- Each view is a function or a method returning a `Response`, which is a value or an HTTP status.
- A Django `Http404` raised inside a handler's `try/except Exception` becomes the 500 the handler answers.
- A failed `save()` (a negative positive-integer field, a NULL in a NOT NULL column, a foreign key to a missing row) is a 500 as well.
- A request method other than POST answers 405, both on a class-based view and through `require_POST`.
- `login_required` answers a 302 redirect to the sign-in page.
- With USE_R2 off the storage settings are absent, and every storage step fails with 500.
- Parameters stand in for:
  - randomness, as a 12-hex-digit prefix;
  - the clock, as an integer timestamp;
  - the storage SDK's success, as a boolean;
  - URL absolutisation, as a function.

## Model

| member | source | states |
|---|---|---|
| Storage.SanitizeFilename | core/views.py:138 | same length as the input; each character of `[A-Za-z0-9._-]` is kept and every other becomes `_` (identical at core/views.py:198, 563 and core/views_fixed.py:77, 137) |
| Storage.SanitizedIsSafe | core/views.py:138 | every character of a sanitised name is safe, so it contains no `/` |
| Storage.SanitizeIdempotent | core/views.py:138 | sanitising twice changes nothing |
| Storage.SanitizeFixedPoints | core/views.py:138 | a name is left unchanged exactly when all its characters are safe |
| Storage.UniqueName | core/views.py:139 | the 12 hex digits, `_`, then the sanitised name; no `/` |
| Storage.ObjectKey | core/views.py:139-140 | the key starts with `<folder>/`, ends with the sanitised name, and is 14 characters longer than folder and name together |
| Storage.SplitAtLastSlash | core/views.py:140 | none exactly when there is no `/`; otherwise front + `/` + back with no `/` in back (the inverse used for the key round trips) |
| Storage.KeyRoundTrip | core/views.py:139-140 | splitting a key at its last `/` gives back the folder and the unique name |
| Storage.ViewCdn | core/views.py:159 | the CDN value the views read: the setting when non-empty, else the stripped environment variable |
| Storage.PublicRoot | core/views.py:159-165 | a CDN value starting with "http" gives exactly that value with its trailing `/` removed; any other non-empty value gives `https://` + the value with trailing `/` removed; no value gives the endpoint with trailing `/` removed + `/` + bucket (same rule at core/views_fixed.py:98-104 and in presign at core/views.py:228-235) |
| Storage.FileUrlNamesUpload | core/views.py:167 | the file URL splits into `<root>/<folder>` and the unique name |
| Storage.ReplaceKey | core/views.py:565 | the replace view's key is the object key in folder `<media_type>s` (`Nones` when the field is absent) |
| Storage.ReplaceRoot | core/views.py:587-593 | a non-blank CDN setting gives exactly `https://` + the stripped setting with trailing `/` removed, whatever scheme it already has; a blank one gives the endpoint/bucket root |
| Storage.ReplaceRootVersusPublicRoot | core/views.py:587-593 | for a CDN value that already starts with "http", the replace root is `https://` + the views' root; for a bare value the two agree |
| UploadViews.UploadFile | core/views.py:121-177 | 405, 401, then 400 for no file or an empty name; success exactly when storage settings, a bucket and the store succeed; the key splits into the folder (`uploadType`, default "files") and the unique name; the URL is root + `/` + key (identical at core/views_fixed.py:60-116) |
| UploadViews.Presign | core/views.py:186-250 | 400 for an empty or non-JSON body, 500 for a body that is not UTF-8, a non-object body or a non-string field, 400 for a blank filename; success exactly when everything is a string, the filename is non-blank and signing succeeds; the key's folder is `uploadType` (default "photos"); the public root is the views' rule (identical at core/views_fixed.py:125-190) |
| Settings.EnvFlag | stream/settings.py:25 | the flag is on exactly when the value (or the default) lower-cases to "true" |
| Settings.Debug | stream/settings.py:25 | off when unset; otherwise on exactly for a value that lower-cases to "true" |
| Settings.UseR2 | stream/settings.py:136 | off when unset; otherwise on exactly for "true" in any case |
| Settings.EmailUseTls | stream/settings.py:156 | on when unset; otherwise on exactly for "true" in any case |
| Settings.AllowedHosts | stream/settings.py:28 | comma-free pieces that join back to the value; `["localhost", "127.0.0.1"]` when unset |
| Settings.MediaUrlOf | stream/settings.py:125-128 | for a stripped value: the value + `/` with an explicit `http://`/`https://` scheme, `https://` + value + `/` for any other non-empty value, `/media/` exactly for the empty value |
| Settings.MediaUrl | stream/settings.py:124-128 | always ends with `/`; "/media/" exactly when the stripped value is empty; otherwise the value + `/` for an `http://`/`https://` value, else `https://` + value + `/` |
| Settings.MediaUrlOfBareValue | stream/settings.py:128 | a stripped, non-empty value without a scheme gives `https://` + value + `/` |
| Settings.ViewRootKeepsValue | core/views.py:160-161 | a value starting with "http" but not "https://" keeps its own scheme in the views' root, unlike `MEDIA_URL`'s rule |
| Settings.MediaUrlAgreesWithViewRoot | stream/settings.py:125-126 | for a stripped value with an explicit `http://` or `https://` scheme, `MEDIA_URL` is the views' root + `/` exactly when the value has no trailing `/` |
| Settings.R2 | stream/settings.py:136-148 | storage settings exist exactly when USE_R2 is on; endpoint and CDN are the stripped environment values |
| Settings.ViewCdnIsSetting | core/views.py:159 | with R2 on, the CDN value the views read is the stripped setting |
| Text.Strip | stream/settings.py:124 | `strip()`: empty exactly when the text is all whitespace (Python's `isspace` set), otherwise it starts and ends with a non-space |
| Text.StripTrimsOnlySpace | stream/settings.py:124 | `strip()` removes exactly the leading and trailing whitespace: the result is the contiguous run after the leading whitespace, and only whitespace follows it |
| Text.ParseInt | core/views.py:635 | `int()` of a string succeeds exactly when the stripped text is ASCII digits, optionally after one `+` or `-`; the value is the digits' number, negated for `-` |
| Text.RStrip | core/views.py:161 | `rstrip(c)`: a prefix of the text, everything cut off is `c`, and the result does not end in `c` |
| Text.LowerIsTrue | stream/settings.py:25 | a string lower-cases to "true" exactly when it is "true" in any mix of cases |
| Text.Lower | stream/settings.py:25 | `lower()`: same length, each ASCII capital replaced by its small letter and every other character kept |
| Text.JoinSplit | stream/settings.py:28 | joining the pieces of a split gives the string back |
| Text.Split | stream/settings.py:28 | `split(sep)`: at least one piece and no piece contains the separator (with JoinSplit, the pieces are exactly the text between separators) |
| Text.SplitJoin | stream/settings.py:28 | splitting a join of separator-free pieces gives the pieces back |
| Text.DecimalValue | core/views.py:476 | the decimal text of an id denotes the id |
| Text.ParseDecimal | core/views.py:460 | `int(str(i)) == i` for every integer |
| Http.StoredText | core/views.py:467 | a JSON value stored in a text column: NULL exactly for JSON null, a string as itself |
| Http.PyInt | core/views.py:456 | `int()` of a JSON value: an integer is itself, null raises |
| Http.DigitTextInt | core/views.py:460-461 | when `str(v).isdigit()`, `int(v)` is the number the digits spell |
| Http.NegativeNotDigits | core/views.py:460 | the text of a negative integer is not all digits |
| Http.ObjectOrEmpty | core/views.py:451 | `json.loads(body or "{}")`: an empty body is the empty object; a body that is not UTF-8, malformed JSON and non-objects fail |
| Http.GetStripped | core/views.py:190 | `data.get(key, default).strip()`: the stripped default when absent; fails exactly when the value is not a string |
| Http.MayModify | core/views.py:448 | the owner-or-staff gate: a signed-in requester who owns the row or is staff (same test at core/views.py:491, 554 and core/views_fixed.py:247, 277, 367, 408) |
| Models.UrlOrEmpty | core/models.py:49 | "" exactly when the field is NULL or empty, otherwise the field |
| Models.VideoUrl | core/models.py:46-49 | "" exactly when `video_file` is NULL or empty, otherwise `video_file` |
| Models.CoverUrl | core/models.py:51-54 | "" exactly when `cover_image` is NULL or empty, otherwise `cover_image` |
| Models.LikesUnique | core/models.py:104-108 | `unique_together` of (user, video) and (user, photo): no two likes of one user name the same video or the same photo (kept by VideoToggleKeepsSchema and PhotoToggleKeepsSchema) |
| Models.ImageUrl | core/models.py:80-83 | "" exactly when `photo_file` is NULL or empty, otherwise `photo_file` |
| Models.LikeDescription | core/models.py:110-113 | describes the video when one is set, otherwise the photo |
| Models.CategoryOf | core/models.py:33 | a category id is accepted exactly when `int()` takes it and it names an existing category, and then it is that number |
| Admin.DefaultedDates | core/admin.py:85-89 | a start date is kept, or set to now; an end date is kept; a missing end with a plan is start + `duration_days` days; no plan leaves it unset |
| Admin.ComputedEndNotBeforeStart | core/admin.py:89 | a computed end date is never before the start date |
| Admin.DefaultsIdempotent | core/admin.py:86-88 | saving again, at any later time, changes no date |
| Admin.SavableIffEndOrPlan | core/admin.py:88 | after defaulting, the end date is set exactly when it was set or there is a plan |
| Admin.SubscriptionInstance.SaveModel | core/admin.py:85-90 | the object's dates become the defaulted dates and nothing else changes; the row saves exactly when an end date existed or a plan is set |
| Admin.SubscriptionInstance.Row | core/models.py:139-144 | a row exists exactly when both dates are set, with the object's user, plan and flag |
| LikeViews.VideoLikers | core/views.py:775 | exactly the likes of that video |
| LikeViews.PhotoLikers | core/views.py:803 | exactly the likes of that photo |
| LikeViews.WithoutPhotoLike | core/views.py:795-797 | removes exactly the user's likes of the photo |
| LikeViews.ToggledVideoLikes | core/views.py:769-774 | an existing (user, video, no photo) like is removed; otherwise it is added, and the insert fails exactly when the video is missing or the user's like of it also names a photo |
| LikeViews.ToggledPhotoLikes | core/views.py:794-802 | the user's like of the photo is removed, or a new one added; the insert fails when the photo is missing |
| LikeViews.VideoToggleFlips | core/views.py:767-776 | after a toggle the like is present exactly when it was absent, and no other like changes |
| LikeViews.VideoToggleCount | core/views.py:775 | the count goes up by one on a like and down by one on an unlike |
| LikeViews.VideoToggleKeepsSchema | core/models.py:104-108 | a toggle keeps likes unique per (user, video) and per (user, photo), and pointing at existing rows |
| LikeViews.VideoToggleTwice | core/views.py:767-776 | toggling twice gives the original like table back |
| LikeViews.PhotoUnlikeRemovesOne | core/views.py:795-797 | with unique likes, an unlike removes exactly one like |
| LikeViews.PhotoToggleFlips | core/views.py:791-804 | the user likes the photo after the toggle exactly when they did not before |
| LikeViews.PhotoToggleCount | core/views.py:803 | the count goes up by one on a like and down by one on an unlike |
| LikeViews.PhotoToggleKeepsSchema | core/models.py:104-108 | the photo toggle keeps the table unique and its references valid |
| LikeViews.PhotoToggleTwice | core/views.py:791-804 | toggling twice gives the table back when each like names one item |
| LikeViews.ToggleVideoLike | core/views.py:765-776 | 405, 302, then the table becomes the toggled table (500 and no change when the insert fails); the answer is membership and count after the toggle; the videos, photos, categories and id counters are unchanged and the store stays valid |
| LikeViews.TogglePhotoLike | core/views.py:789-804 | the same for a photo |
| LikeViews.PhotoLikeStatus | core/views.py:778-787 | a visitor sees (false, 0); a user sees whether they like the photo and its like count |
| LikeViews.StatusFlipsOnToggle | core/views.py:784 | after a toggle, the status reports liked exactly when the user did not like the photo before |
| HomeView.SlideImage | core/views.py:686-688 | the cover as stored when it starts with "http", else absolutised |
| HomeView.SlideFor | core/views.py:689-693 | a slide carries the cover image, the title and the id |
| HomeView.SlidesOf | core/views.py:684-693 | no more slides than videos |
| HomeView.SlideSource | core/views.py:685 | every slide is the slide of a video with a cover |
| HomeView.CoversGiveSlides | core/views.py:685-693 | every video with a cover gives a slide |
| HomeView.NoSlidesIffNoCovers | core/views.py:694 | there are no slides exactly when no video has a cover |
| HomeView.HomeSlidesChoice | core/views.py:694-704 | the slider decides when one of its videos has a cover; otherwise the first five videos give the slides, at most five |
| HomeView.HomeSlides | core/views.py:694-704 | the slides of the slider videos, or of the first at most five videos when the slider gives none (stated by HomeSlidesChoice) |
| HomeView.AppendSlides | core/views.py:684-693 | the loop appends the slides of the videos with a cover, in order |
| HomeView.BuildSlides | core/views.py:683-704 | the loops build exactly the home slides |
| HomeView.ActiveSubscriptionOf | core/views.py:710 | a found subscription is the user's and active; none exactly when no row is |
| HomeView.HasActiveSubscriptionIff | core/views.py:707-713 | with one subscription per user, the flag is on exactly when a signed-in user's active subscription ends after now |
| HomeView.HasActiveSubscription | core/views.py:707-713 | the template flag: the requester's active subscription ends after now (stated by HasActiveSubscriptionIff) |
| FinalizeViews.OptionalText | core/views.py:259 | NULL when the key is absent, else the stored value |
| FinalizeViews.ChosenCategory | core/views.py:279 | no category when the value is absent or false, else the category it names; fails when none exists |
| FinalizeViews.ChosenDuration | core/views.py:278 | 0 when the value is absent or false, else its `int()`, which must not be negative |
| FinalizeViews.FinalizeDraft | core/views.py:255-295 | 500 for a non-object body or a non-string title or description; otherwise a visitor gets 401; 400 exactly for a missing URL, an empty title or an unknown type; a member's request with a true URL, a non-blank title, a readable category and a "video" with a readable duration or a "photo" succeeds, and any other member request that is not a 400 is a 500 (a failed insert); a new row carries the requester, the stripped title and description, and the URL, duration and category (identical at core/views_fixed.py:194-234) |
| FinalizeViews.DurationDefaultsToZero | core/views.py:278 | a video whose duration is absent or false starts at 0 seconds |
| FinalizeViews.DraftCategoryExists | core/views.py:279 | a row the view would insert names no category or an existing one |
| FinalizeViews.CreateVideo | core/views.py:272-280 | the video goes in under the next id, which is then used up; the store stays valid |
| FinalizeViews.CreatePhoto | core/views.py:283-289 | the photo goes in under the next id; the store stays valid |
| FinalizeViews.FinalizeUpload | core/views.py:281 | inserts the row under the next id and answers `prefix/video/<id>/` or `prefix/photo/<id>/`; nothing is inserted on error; the store stays valid (core/views_fixed.py:220, 229 use no prefix) |
| Views.TextOrKeep | core/views.py:454-455 | the old text when the key is absent, else the stored value |
| Views.DurationOrKeep | core/views.py:456 | the old duration unless the value is true, else its non-negative `int()` |
| Views.DigitCategory | core/views.py:459-463 | the category a digit string names (which must exist), or no category at all |
| Views.UrlIfTrue | core/views.py:466-469 | the old URL unless the new value is true; a true value is stored and non-empty |
| Views.ApiVideoEdit | core/views.py:454-471 | fails exactly on a NULL title or description, a bad duration or a missing category; otherwise the title, description and duration follow the rules above, the category is the one a digit string names and is cleared otherwise, and files change only for true values |
| Views.ApiPhotoEdit | core/views.py:497-511 | the same for a photo |
| Views.EmptyBodyClearsCategory | core/views.py:451-463 | an empty body changes nothing but the category, which it clears |
| Views.EmptyUrlKeepsFile | core/views.py:466-509 | an empty URL value never replaces a file, neither the video's, the cover's nor the photo's (lines 466-469 and 508-509) |
| Views.UpdateVideoApi | core/views.py:443-480 | 405, then 500 for a missing row, 403 for a requester who is neither owner nor staff, 500 for a bad body or a failed save; otherwise the row becomes the edit; the store stays valid |
| Views.UpdatePhotoApi | core/views.py:486-520 | the same for a photo |
| FixedViews.KeptCategory | core/views_fixed.py:378-380 | the old category unless the value is true; a true value must name an existing category |
| FixedViews.UrlIfPresent | core/views_fixed.py:383-386 | the stored value whenever the key is present, else the old URL |
| FixedViews.ApiVideoEdit | core/views_fixed.py:372-388 | fails exactly on a NULL text, a bad duration or a bad category; the category is kept when none is given; URLs are replaced whenever their key is present |
| FixedViews.ApiPhotoEdit | core/views_fixed.py:413-426 | the same for a photo |
| FixedViews.EmptyBodyKeepsVideo | core/views_fixed.py:370-388 | an empty body leaves the video unchanged, unlike the update API of core/views.py |
| FixedViews.EmptyUrlStored | core/views_fixed.py:383-384 | an empty URL value is stored as "" |
| FixedViews.UpdateApisAgree | core/views_fixed.py:372-388 | the two update APIs agree on bodies that name a category by digits and give only true URLs |
| FixedViews.UpdateVideoApi | core/views_fixed.py:362-397 | 405, 500, 403 and 500 as in the other module; otherwise the row becomes this module's edit |
| FixedViews.UpdatePhotoApi | core/views_fixed.py:403-435 | the same for a photo |
| FixedViews.FormText | core/views_fixed.py:255-256 | the posted text when present, else the old text |
| FixedViews.FormCategory | core/views_fixed.py:257-259 | unchanged when absent or empty; 500 when `int()` refuses the value; 404 when it names no category |
| FixedViews.EditedVideo | core/views_fixed.py:255-263 | the form's title, description and category replace the old ones, or the category lookup's error |
| FixedViews.EditedPhoto | core/views_fixed.py:304-312 | the same for a photo |
| FixedViews.EditKeepsAbsentFields | core/views_fixed.py:255-259 | a post without those fields leaves the video unchanged |
| FixedViews.EditChangesOnlyText | core/views_fixed.py:255-263 | a saved edit changes only title, description and category, to an existing category |
| FixedViews.EditVideo | core/views_fixed.py:241-268 | 302 for a visitor, 404 for a missing row, the detail page and no change for a non-owner non-staff, the form on GET; POST saves the edit; the store stays valid |
| FixedViews.EditPhoto | core/views_fixed.py:290-317 | the same for a photo |
| FixedViews.LikesWithoutVideo | core/models.py:100 | exactly the likes not pointing at the video (the delete cascade) |
| FixedViews.LikesWithoutPhoto | core/models.py:101 | exactly the likes not pointing at the photo |
| FixedViews.DeleteVideo | core/views_fixed.py:271-287 | 302, 404, refused with no change, confirmation on GET; POST removes the row and its likes; the store stays valid |
| FixedViews.DeletePhoto | core/views_fixed.py:320-336 | the same for a photo |
| ReplaceViews.RowId | core/views.py:551 | the id `int()` reads from `object_id`; none when it fails or is negative |
| ReplaceViews.ReplacedUrl | core/views.py:565-595 | the new URL splits into `<replace root>/<media_type>s` and the unique name |
| ReplaceViews.VideoWithFile | core/views.py:603-607 | "cover" replaces the cover, "video_file" the file, anything else neither |
| ReplaceViews.FormCategory | core/views.py:638-639 | unchanged for a blank field, else the category it names, which must exist |
| ReplaceViews.VideoDetails | core/views.py:623-639 | 400 for a duration `int()` refuses, 500 for a negative one or a missing category, success when both are fine; title and description change when present, duration and category when non-empty, nothing else |
| ReplaceViews.PhotoDetails | core/views.py:642-652 | title and description when present, category when non-empty; fails on a missing category |
| ReplaceViews.VideoReplaced | core/views.py:554-660 | 403 for a non-owner non-staff; with a file, success exactly when storage and the store succeed, and the URL lands in the named field; without one, the details edit |
| ReplaceViews.PhotoReplaced | core/views.py:554-660 | the same for the photo table; a type other than "photo" leaves the row unchanged |
| ReplaceViews.Replaced | core/views.py:538-555 | 400 without id or type, 401 for a visitor, 500 for an id that `int()` refuses or that names no row; otherwise the named row's outcome is the answer (its 403, 400 or 500 status, or its success), and only that row changes |
| ReplaceViews.NonIntegerDurationRefused | core/views.py:633-637 | a non-integer duration answers 400 |
| ReplaceViews.CoverUrlFolder | core/views.py:565 | a new cover's URL has the unique name inside the `covers` folder |
| ReplaceViews.NewCoverLandsInField | core/views.py:603-605 | a new cover replaces the video's cover with that URL |
| ReplaceViews.ReplacedKeepsTables | core/views.py:611 | a success keeps the table keys, the row ids and valid category references |
| ReplaceViews.ReplaceMedia | core/views.py:533-667 | 405 for a non-POST, then the tables become `Replaced`'s, or nothing changes on error; the store stays valid |

## Left out

- Object storage calls (`put_object`, `generate_presigned_post`) are foreign network calls. The model has a success flag for them. Presign's content-length range, expiry and signed form fields only pass through to the SDK.
- `uuid4` is a 12-hex-digit parameter. `timezone.now()` is an integer timestamp, with a day as 86400 seconds.
- `request.build_absolute_uri` is the `absolutize` parameter.
- ORM queries are not modelled: search (`icontains`), ordering, `annotate`, the six/twelve-item slices of the home page, and `get_object_or_404` beyond found or missing.
- Templates, flash messages and JSON response bodies are not modelled; the view answer is a value or a status.
- The ModelForm edit and delete views of `core/views.py` depend on framework form validation.
- Comments and their views, the video player's view counter, the user-content page and the username change are not modelled.
- core/async_views.py, core/configure_r2_cors.py, core/forms.py, core/urls.py, stream/middleware.py and core/static/js/mobile-nav.js are not part of this model.
- The rest of stream/settings.py (apps, middleware, OAuth, CORS and security flags) is static configuration and is not modelled.
- `isdigit`, `int()` and `lower` are modelled on ASCII digits and letters: Python's non-ASCII digits and case mappings are not modelled, and neither are `int()`'s underscores. `strip` uses Python's full `str.isspace` set.
- The `Payment` model and the default plan length are not read by any modelled view.
- JSON floats, arrays and objects as field values are not modelled. Fields are null, booleans, integers or strings.
- `max_length` limits on text columns are not enforced. Slider positions are the order of the `slider` sequence.
- Delete cascades to comments and slider items are not modelled; only the like table is.
- LikeViews.PhotoToggleTwice: holds only when every like names exactly one item. The admin can create a like naming both a video and a photo, and toggling the photo twice then gives the like back without its video.
- HomeView.HasActiveSubscription: requires saved rows to carry an end date, which the NOT NULL column guarantees.

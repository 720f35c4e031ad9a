/**
 * Naming of uploaded objects and the public URLs under which they are served:
 * the filename sanitiser, the object key `<folder>/<12 hex>_<safe name>`, and
 * the public roots built from a CDN domain or from the storage endpoint and
 * bucket.  `upload_file` and `S3PresignView` (identical in both view modules)
 * use `PublicRoot`; `ReplaceMediaView` uses its own `ReplaceRoot`.
 */
module Storage {
  import opened Wrappers
  import opened Text

  /** The characters the class `[a-zA-Z0-9._-]` matches. */
  predicate IsSafeChar(c: char) {
    'a' <= c <= 'z' || 'A' <= c <= 'Z' || '0' <= c <= '9' || c == '.' || c == '_' || c == '-'
  }

  function SafeChar(c: char): char {
    if IsSafeChar(c) then c else '_'
  }

  /**
   * `re.sub(r'[^a-zA-Z0-9._-]', '_', name)`: same length, safe characters
   * kept in place, every other character replaced by an underscore.
   */
  function SanitizeFilename(name: string): (safe: string)
    ensures |safe| == |name|
    ensures forall i :: 0 <= i < |name| ==> safe[i] == (if IsSafeChar(name[i]) then name[i] else '_')
  {
    if name == [] then [] else [SafeChar(name[0])] + SanitizeFilename(name[1..])
  }

  /** A sanitised name holds only safe characters; in particular no '/'. */
  lemma SanitizedIsSafe(name: string)
    ensures forall i :: 0 <= i < |name| ==> IsSafeChar(SanitizeFilename(name)[i])
    ensures '/' !in SanitizeFilename(name)
  {
  }

  /** Sanitising a sanitised name changes nothing. */
  lemma SanitizeIdempotent(name: string)
    ensures SanitizeFilename(SanitizeFilename(name)) == SanitizeFilename(name)
  {
    var safe := SanitizeFilename(name);
    SanitizedIsSafe(name);
    assert forall i :: 0 <= i < |safe| ==> SanitizeFilename(safe)[i] == safe[i];
  }

  /** A name is left unchanged exactly when all of its characters are safe. */
  lemma SanitizeFixedPoints(name: string)
    ensures SanitizeFilename(name) == name <==> forall i :: 0 <= i < |name| ==> IsSafeChar(name[i])
  {
    if SanitizeFilename(name) == name {
      SanitizedIsSafe(name);
    }
  }

  predicate IsHexDigit(c: char) {
    '0' <= c <= '9' || 'a' <= c <= 'f'
  }

  /** `uuid.uuid4().hex[:12]`: twelve lower-case hexadecimal digits. */
  predicate IsHexPrefix(hex: string) {
    |hex| == 12 && forall i :: 0 <= i < 12 ==> IsHexDigit(hex[i])
  }

  /** `f"{hex}_{safe_name}"`: the hex prefix, an underscore, then the sanitised name. */
  function UniqueName(hex: string, name: string): (u: string)
    requires IsHexPrefix(hex)
    ensures |u| == 13 + |name|
    ensures u[..12] == hex && u[12] == '_' && u[13..] == SanitizeFilename(name)
    ensures '/' !in u
  {
    SanitizedIsSafe(name);
    hex + "_" + SanitizeFilename(name)
  }

  /** `f"{folder}/{unique_name}"`: the object key of an upload. */
  function ObjectKey(folder: string, hex: string, name: string): (key: string)
    requires IsHexPrefix(hex)
    ensures |key| == |folder| + 14 + |name|
    ensures StartsWith(key, folder + "/")
    ensures EndsWith(key, SanitizeFilename(name))
  {
    var key := folder + "/" + UniqueName(hex, name);
    assert key[|key| - |name|..] == UniqueName(hex, name)[13..];
    key
  }

  /** The part before and the part after the last '/' of a path; `None` when there is no '/'. */
  function SplitAtLastSlash(path: string): (r: Option<(string, string)>)
    ensures r.None? <==> '/' !in path
    ensures r.Some? ==> path == r.value.0 + "/" + r.value.1 && '/' !in r.value.1
  {
    if path == [] then None
    else if path[|path| - 1] == '/' then Some((path[..|path| - 1], ""))
    else
      var last := path[|path| - 1];
      match SplitAtLastSlash(path[..|path| - 1])
      case None => None
      case Some(parts) =>
        assert path == path[..|path| - 1] + [last];
        Some((parts.0, parts.1 + [last]))
  }

  lemma {:induction false} SplitAtLastSlashOf(front: string, back: string)
    requires '/' !in back
    ensures SplitAtLastSlash(front + "/" + back) == Some((front, back))
  {
    var path := front + "/" + back;
    if back == [] {
      assert path[..|path| - 1] == front;
    } else {
      var b := back[..|back| - 1];
      assert path[..|path| - 1] == front + "/" + b;
      assert b + [back[|back| - 1]] == back;
      SplitAtLastSlashOf(front, b);
    }
  }

  /**
   * An object key can be taken apart again: its last '/' separates the folder
   * (which may itself contain '/') from the unique file name.
   */
  lemma KeyRoundTrip(folder: string, hex: string, name: string)
    requires IsHexPrefix(hex)
    ensures SplitAtLastSlash(ObjectKey(folder, hex, name)) == Some((folder, UniqueName(hex, name)))
  {
    SplitAtLastSlashOf(folder, UniqueName(hex, name));
  }

  /** `getattr(settings, 'R2_CDN_DOMAIN', '') or os.getenv('R2_CDN_DOMAIN', '').strip()` */
  function ViewCdn(settingCdn: string, envCdn: Option<string>): string {
    if settingCdn != "" then settingCdn else Strip(envCdn.GetOr(""))
  }

  /**
   * The public root of `upload_file` and `S3PresignView`: a CDN value starting
   * with "http" is used without its trailing slashes, any other non-empty CDN
   * value gets "https://" in front, and without a CDN the root is the endpoint
   * (trailing slashes removed), a slash, and the bucket.
   */
  function PublicRoot(cdn: string, endpoint: string, bucket: string): (root: string)
    ensures StartsWith(cdn, "http") ==> root == RStrip(cdn, '/') && StartsWith(root, "http") && StartsWith(cdn, root)
    ensures cdn != "" && !StartsWith(cdn, "http") ==> root == "https://" + RStrip(cdn, '/')
    ensures cdn == "" ==> root == RStrip(endpoint, '/') + "/" + bucket
  {
    if cdn != "" && StartsWith(cdn, "http") then
      RStripKeepsPrefix(cdn, '/', "http");
      RStrip(cdn, '/')
    else if cdn != "" then
      "https://" + RStrip(cdn, '/')
    else
      RStrip(endpoint, '/') + "/" + bucket
  }

  /** `f"{public_root}/{key}"` */
  function FileUrl(root: string, key: string): string {
    root + "/" + key
  }

  /** The last path segment of a file URL is the upload's unique name; everything before it is root and folder. */
  lemma FileUrlNamesUpload(root: string, folder: string, hex: string, name: string)
    requires IsHexPrefix(hex)
    ensures SplitAtLastSlash(FileUrl(root, ObjectKey(folder, hex, name))) == Some((root + "/" + folder, UniqueName(hex, name)))
  {
    assert FileUrl(root, ObjectKey(folder, hex, name)) == (root + "/" + folder) + "/" + UniqueName(hex, name);
    SplitAtLastSlashOf(root + "/" + folder, UniqueName(hex, name));
  }

  /** `ReplaceMediaView`'s key `f"{media_type}s/{hex}_{safe}"`: the object key with folder `str(media_type) + "s"`. */
  function ReplaceKey(mediaType: Option<string>, hex: string, name: string): (key: string)
    requires IsHexPrefix(hex)
    ensures key == ObjectKey(MediaTypeText(mediaType) + "s", hex, name)
  {
    MediaTypeText(mediaType) + "s/" + hex + "_" + SanitizeFilename(name)
  }

  /** `f"{media_type}"`: a missing form field renders as "None". */
  function MediaTypeText(mediaType: Option<string>): string {
    mediaType.GetOr("None")
  }

  /**
   * `ReplaceMediaView`'s public root: the CDN setting is stripped, and when
   * non-empty it always gets "https://" in front; otherwise endpoint and bucket.
   */
  function ReplaceRoot(cdnSetting: string, endpoint: string, bucket: string): (root: string)
    ensures Strip(cdnSetting) != "" ==> root == "https://" + RStrip(Strip(cdnSetting), '/')
    ensures Strip(cdnSetting) == "" ==> root == PublicRoot("", endpoint, bucket)
  {
    var cdn := Strip(cdnSetting);
    if cdn != "" then "https://" + RStrip(cdn, '/') else RStrip(endpoint, '/') + "/" + bucket
  }

  /**
   * The two root rules agree on a bare domain, but a CDN value that already
   * carries a scheme gets a second "https://" from `ReplaceMediaView`.
   */
  lemma ReplaceRootVersusPublicRoot(cdn: string, endpoint: string, bucket: string)
    requires Strip(cdn) == cdn && cdn != ""
    ensures StartsWith(cdn, "http") ==> ReplaceRoot(cdn, endpoint, bucket) == "https://" + PublicRoot(cdn, endpoint, bucket)
    ensures !StartsWith(cdn, "http") ==> ReplaceRoot(cdn, endpoint, bucket) == PublicRoot(cdn, endpoint, bucket)
  {
  }
}

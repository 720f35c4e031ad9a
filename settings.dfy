/**
 * The settings derived from environment variables: the boolean switches,
 * ALLOWED_HOSTS, MEDIA_URL, and the object-storage settings that exist only
 * when USE_R2 is on.  An unset variable is `None`.
 */
module Settings {
  import opened Wrappers
  import opened Text
  import Storage

  /** "true" in any mix of letter cases. */
  predicate IsTrueWord(s: string) {
    && |s| == 4
    && (s[0] == 't' || s[0] == 'T') && (s[1] == 'r' || s[1] == 'R')
    && (s[2] == 'u' || s[2] == 'U') && (s[3] == 'e' || s[3] == 'E')
  }

  /** `os.getenv(name, default).lower() == "true"` */
  function EnvFlag(value: Option<string>, default: string): (on: bool)
    ensures on <==> IsTrueWord(value.GetOr(default))
  {
    LowerIsTrue(value.GetOr(default));
    Lower(value.GetOr(default)) == "true"
  }

  /** DEBUG: on exactly when the variable spells "true" in some letter case; off when unset. */
  function Debug(env: Option<string>): (on: bool)
    ensures env.None? ==> !on
    ensures env.Some? ==> (on <==> IsTrueWord(env.value))
  {
    EnvFlag(env, "False")
  }

  /** USE_R2: the same rule as DEBUG, off when unset. */
  function UseR2(env: Option<string>): (on: bool)
    ensures env.None? ==> !on
    ensures env.Some? ==> (on <==> IsTrueWord(env.value))
  {
    EnvFlag(env, "False")
  }

  /** EMAIL_USE_TLS: the same rule, but on when unset. */
  function EmailUseTls(env: Option<string>): (on: bool)
    ensures env.None? ==> on
    ensures env.Some? ==> (on <==> IsTrueWord(env.value))
  {
    EnvFlag(env, "True")
  }

  /**
   * ALLOWED_HOSTS: the comma-separated pieces of the variable, which joined
   * with commas give the variable back; `["localhost", "127.0.0.1"]` when unset.
   */
  function AllowedHosts(env: Option<string>): (hosts: seq<string>)
    ensures |hosts| >= 1 && forall k :: 0 <= k < |hosts| ==> ',' !in hosts[k]
    ensures Join(hosts, ',') == env.GetOr("localhost,127.0.0.1")
    ensures env.None? ==> hosts == ["localhost", "127.0.0.1"]
  {
    var defaults := ["localhost", "127.0.0.1"];
    assert Join(defaults, ',') == "localhost,127.0.0.1";
    SplitJoin(defaults, ',');
    JoinSplit(env.GetOr("localhost,127.0.0.1"), ',');
    Split(env.GetOr("localhost,127.0.0.1"), ',')
  }

  /**
   * MEDIA_URL for the stripped value `cdn`: the value and "/" when it carries
   * an explicit "http://" or "https://" scheme, "https://" + value + "/" for
   * any other non-empty value, "/media/" for an empty one.
   */
  function MediaUrlOf(cdn: string): (url: string)
    ensures EndsWith(url, "/")
    ensures url == "/media/" <==> cdn == ""
    ensures StartsWith(cdn, "http://") || StartsWith(cdn, "https://") ==> url == cdn + "/"
    ensures cdn != "" && !StartsWith(cdn, "http://") && !StartsWith(cdn, "https://") ==> url == "https://" + cdn + "/"
    ensures cdn != "" ==> (StartsWith(url, "http://") || StartsWith(url, "https://")) && EndsWith(url, cdn + "/")
  {
    if StartsWith(cdn, "http://") || StartsWith(cdn, "https://") then
      var url := cdn + "/";
      assert url[..|cdn|] == cdn;
      assert url[0] == 'h';
      url
    else if cdn != "" then
      var url := "https://" + cdn + "/";
      assert url[..8] == "https://";
      assert url[0] == 'h';
      url
    else "/media/"
  }

  /**
   * MEDIA_URL from R2_CDN_DOMAIN (stripped first): always ends with "/"; is
   * "/media/" exactly when the value is empty; the value and "/" when it
   * carries an explicit "http://" or "https://" scheme; otherwise "https://",
   * the value and "/".  Only an explicit "http://" or "https://" counts as a
   * scheme here.
   */
  function MediaUrl(envCdn: Option<string>): (url: string)
    ensures EndsWith(url, "/")
    ensures url == "/media/" <==> Strip(envCdn.GetOr("")) == ""
    ensures Strip(envCdn.GetOr("")) != "" ==>
      (StartsWith(url, "http://") || StartsWith(url, "https://")) && EndsWith(url, Strip(envCdn.GetOr("")) + "/")
    ensures var c := Strip(envCdn.GetOr(""));
      StartsWith(c, "http://") || StartsWith(c, "https://") ==> url == c + "/"
    ensures var c := Strip(envCdn.GetOr(""));
      c != "" && !StartsWith(c, "http://") && !StartsWith(c, "https://") ==> url == "https://" + c + "/"
  {
    MediaUrlOf(Strip(envCdn.GetOr("")))
  }

  /**
   * A stripped value without an explicit scheme gets "https://" in MEDIA_URL,
   * even one such as "httpcdn.example.com" ...
   */
  lemma MediaUrlOfBareValue(cdn: string)
    requires Strip(cdn) == cdn && cdn != ""
    requires !StartsWith(cdn, "http://") && !StartsWith(cdn, "https://")
    ensures MediaUrl(Some(cdn)) == "https://" + cdn + "/"
  {
    assert Some(cdn).GetOr("") == cdn;
  }

  /**
   * ... while the views take any value starting with "http" to carry its own
   * scheme, so their root for that value does not start with "https://".
   */
  lemma ViewRootKeepsValue(cdn: string, endpoint: string, bucket: string)
    requires StartsWith(cdn, "http") && !StartsWith(cdn, "https://")
    ensures !StartsWith(Storage.PublicRoot(cdn, endpoint, bucket), "https://")
  {
    var root := Storage.PublicRoot(cdn, endpoint, bucket);
    assert StartsWith(cdn, root);
  }

  /**
   * On a value with an explicit scheme the two rules agree exactly when the
   * value has no trailing slash: MEDIA_URL keeps the value's own slashes and
   * adds one, while the views strip them.
   */
  lemma MediaUrlAgreesWithViewRoot(cdn: string, endpoint: string, bucket: string)
    requires Strip(cdn) == cdn
    requires StartsWith(cdn, "http://") || StartsWith(cdn, "https://")
    ensures MediaUrl(Some(cdn)) == Storage.PublicRoot(cdn, endpoint, bucket) + "/" <==> cdn[|cdn| - 1] != '/'
  {
    assert cdn[..4] == "http";
    assert Some(cdn).GetOr("") == cdn;
    if cdn[|cdn| - 1] == '/' {
      assert |RStrip(cdn, '/')| < |cdn|;
      assert |MediaUrl(Some(cdn))| != |Storage.PublicRoot(cdn, endpoint, bucket) + "/"|;
    } else {
      assert RStrip(cdn, '/') == cdn;
    }
  }

  /** The object-storage settings defined when USE_R2 is on. */
  datatype R2Settings = R2Settings(endpoint: string, bucket: Option<string>, cdn: string)

  /**
   * AWS_S3_ENDPOINT_URL, AWS_STORAGE_BUCKET_NAME and R2_CDN_DOMAIN exist only
   * when USE_R2 is on; endpoint and CDN domain are stripped, the bucket is not.
   */
  function R2(useR2: Option<string>, endpoint: Option<string>, bucket: Option<string>, cdn: Option<string>): (r: Option<R2Settings>)
    ensures r.Some? <==> UseR2(useR2)
    ensures r.Some? ==> r.value.bucket == bucket
    ensures r.Some? ==> r.value.cdn == Strip(cdn.GetOr("")) && r.value.endpoint == Strip(endpoint.GetOr(""))
  {
    if UseR2(useR2) then Some(R2Settings(Strip(endpoint.GetOr("")), bucket, Strip(cdn.GetOr("")))) else None
  }

  /**
   * With USE_R2 on, the views' CDN value (the R2_CDN_DOMAIN setting, or else
   * the stripped variable) is always the setting itself, as the setting is
   * already the stripped variable.
   */
  lemma ViewCdnIsSetting(useR2: Option<string>, endpoint: Option<string>, bucket: Option<string>, cdn: Option<string>)
    requires R2(useR2, endpoint, bucket, cdn).Some?
    ensures Storage.ViewCdn(R2(useR2, endpoint, bucket, cdn).value.cdn, cdn) == R2(useR2, endpoint, bucket, cdn).value.cdn
  {
  }
}

/**
 * `convert_github_url_to_raw` of the Python generator
 * (scripts/generate_matter_cluster_json.py): the page URL of a file on
 * GitHub is turned into the URL of its raw contents.
 */
module SourceUrl {
  import opened Text

  /** Both replacements are made, on every occurrence, only when the URL holds `github.com` and `/blob/`. */
  function ConvertGithubUrlToRaw(url: string): (r: string)
    ensures !(Contains(url, "github.com") && Contains(url, "/blob/")) ==> r == url
  {
    if Contains(url, "github.com") && Contains(url, "/blob/") then
      ReplaceAll(ReplaceAll(url, "github.com", "raw.githubusercontent.com"), "/blob/", "/")
    else url
  }

  /** `github.com` does not occur in `https://github.co`. */
  lemma SchemeLacksHost()
    ensures !Contains("https://" + "github.com"[..9], "github.com")
  {
    assert "github.com"[..9] == "github.co";
    ShorterLacks("github.co", "github.com");
    PrependLacking("https://", "github.co", "github.com");
  }

  /** The first replacement turns the host `github.com` into `raw.githubusercontent.com`, and only that. */
  lemma RawHost(rest: string)
    requires !Contains(rest, "github.com")
    ensures ReplaceAll("https://" + "github.com" + ("/" + rest), "github.com", "raw.githubusercontent.com") ==
      "https://" + "raw.githubusercontent.com" + ("/" + rest)
  {
    SchemeLacksHost();
    var r := "/" + rest;
    PrependLacking("/", rest, "github.com");
    ReplaceOnce("https://", "github.com", r, "raw.githubusercontent.com");
  }

  /** Two slashes before a string that does not start with `b` create no `/blob/`. */
  lemma SlashesLackBlob(y: string)
    requires |y| > 0 && y[0] != 'b' && !Contains(y, "/blob/")
    ensures !Contains("//" + y, "/blob/")
  {
    PrependCharLacking('/', y, "/blob/");
    var z := [('/')] + y;
    assert z[0] == '/';
    PrependCharLacking('/', z, "/blob/");
    assert [('/')] + z == "//" + y;
  }

  /** `/blob/` does not occur in `https://<host><x>` when it does not in `<x>` and the host has no `/`. */
  lemma RawPrefixLacksBlob(host: string, x: string)
    requires |host| > 0 && host[0] != 'b' && '/' !in host && !Contains(x, "/blob/")
    ensures !Contains("https:" + "//" + host + x, "/blob/")
  {
    var y := host + x;
    PrependLacking(host, x, "/blob/");
    assert y[0] == host[0];
    SlashesLackBlob(y);
    var scheme := "https:";
    assert '/' !in scheme;
    PrependLacking(scheme, "//" + y, "/blob/");
    assert scheme + ("//" + y) == "https:" + "//" + host + x;
  }

  /** The second replacement drops the one `/blob/` segment. */
  lemma RawPath(a: string, q: string)
    requires !Contains(a + "/blob", "/blob/") && !Contains(q, "/blob/")
    ensures ReplaceAll(a + "/blob/" + q, "/blob/", "/") == a + "/" + q
  {
    assert "/blob/"[..5] == "/blob";
    ReplaceOnce(a, "/blob/", q, "/");
  }

  /** The ways the blob URL is cut into pieces below. */
  lemma BlobUrlSplit(p: string, q: string)
    ensures "https://github.com/" + p + "/blob/" + q == "https://" + "github.com" + ("/" + (p + "/blob/" + q))
    ensures "https://github.com/" + p + "/blob/" + q == ("https://github.com/" + p) + "/blob/" + q
  {
    assert "https://github.com/" == "https://" + "github.com" + "/";
  }

  /** The URL with the raw host, cut after the host. */
  lemma RawUrlSplit(p: string, q: string)
    ensures "https://" + "raw.githubusercontent.com" + ("/" + (p + "/blob/" + q)) ==
      ("https://raw.githubusercontent.com/" + p) + "/blob/" + q
  {
    assert "https://raw.githubusercontent.com/" == "https://" + "raw.githubusercontent.com" + "/";
  }

  /** The URL with the raw host up to `/blob`, cut after the scheme. */
  lemma RawPrefixSplit(p: string)
    ensures "https:" + "//" + "raw.githubusercontent.com" + ("/" + p + "/blob") ==
      ("https://raw.githubusercontent.com/" + p) + "/blob"
  {
    assert "https://raw.githubusercontent.com/" == "https:" + "//" + "raw.githubusercontent.com" + "/";
  }

  /** A blob URL holds both `github.com` and `/blob/`. */
  lemma BlobUrlHasBoth(p: string, q: string)
    ensures Contains("https://github.com/" + p + "/blob/" + q, "github.com")
    ensures Contains("https://github.com/" + p + "/blob/" + q, "/blob/")
  {
    BlobUrlSplit(p, q);
    ContainsInfix("https://", "github.com", "/" + (p + "/blob/" + q), "github.com");
    ContainsInfix("https://github.com/" + p, "/blob/", q, "/blob/");
  }

  /** The host replacement on a blob URL. */
  lemma BlobUrlHost(p: string, q: string)
    requires !Contains(p + "/blob/" + q, "github.com")
    ensures ReplaceAll("https://github.com/" + p + "/blob/" + q, "github.com", "raw.githubusercontent.com") ==
      ("https://raw.githubusercontent.com/" + p) + "/blob/" + q
  {
    BlobUrlSplit(p, q);
    RawUrlSplit(p, q);
    RawHost(p + "/blob/" + q);
  }

  /** The `/blob/` replacement on the URL with the raw host. */
  lemma BlobUrlPath(p: string, q: string)
    requires !Contains("/" + p + "/blob", "/blob/") && !Contains(q, "/blob/")
    ensures ReplaceAll(("https://raw.githubusercontent.com/" + p) + "/blob/" + q, "/blob/", "/") ==
      "https://raw.githubusercontent.com/" + p + "/" + q
  {
    RawPrefixSplit(p);
    RawPrefixLacksBlob("raw.githubusercontent.com", "/" + p + "/blob");
    RawPath("https://raw.githubusercontent.com/" + p, q);
  }

  /**
   * A blob URL `https://github.com/<repo path>/blob/<branch and file>` becomes
   * `https://raw.githubusercontent.com/<repo path>/<branch and file>`, when
   * neither part holds `github.com` and no other `/blob/` occurs.
   */
  lemma BlobUrlToRaw(p: string, q: string)
    requires !Contains(p + "/blob/" + q, "github.com")
    requires !Contains("/" + p + "/blob", "/blob/") && !Contains(q, "/blob/")
    ensures ConvertGithubUrlToRaw("https://github.com/" + p + "/blob/" + q) ==
      "https://raw.githubusercontent.com/" + p + "/" + q
  {
    BlobUrlHasBoth(p, q);
    BlobUrlHost(p, q);
    BlobUrlPath(p, q);
  }
}

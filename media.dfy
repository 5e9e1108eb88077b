/**
 * The rules the car card and the video item apply before rendering: the
 * media-URL resolution against the production CDN, the tag badge and the
 * upload-date line.
 */
module Media {
  import opened Wrappers
  import opened Schema
  import opened Storage

  const ProductionCdn := "https://app.qalb9.com"

  /** `cdn`: the CDN origin in a production build, nothing otherwise. */
  function Cdn(isProduction: bool): (r: string)
    ensures isProduction ==> r == ProductionCdn
    ensures !isProduction ==> r == ""
  {
    if isProduction then ProductionCdn else ""
  }

  predicate StartsWith(s: string, prefix: string) {
    |prefix| <= |s| && s[..|prefix|] == prefix
  }

  /**
   * `getImageUrl` of the car card and `getMediaUrl` of the video item (the
   * two are the same): an empty URL stays empty, an absolute "http" URL is
   * kept, anything else is put behind the CDN.
   */
  function ResolveUrl(isProduction: bool, url: string): (r: string)
    ensures url == "" ==> r == ""
    ensures StartsWith(url, "http") ==> r == url
    ensures url != "" && !StartsWith(url, "http") ==> r == Cdn(isProduction) + url
  {
    if url == "" then ""
    else if StartsWith(url, "http") then url
    else Cdn(isProduction) + url
  }

  /** Outside production every URL passes through unchanged. */
  lemma DevelopmentIsIdentity(url: string)
    ensures ResolveUrl(false, url) == url
  {
    assert "" + url == url;
  }

  /** In production a resolved URL is empty or absolute, so resolving it again changes nothing. */
  lemma ProductionIsIdempotent(url: string)
    ensures var r := ResolveUrl(true, url); r == "" || StartsWith(r, "http")
    ensures ResolveUrl(true, ResolveUrl(true, url)) == ResolveUrl(true, url)
  {
    if url != "" && !StartsWith(url, "http") {
      var r := ProductionCdn + url;
      assert r[..4] == ProductionCdn[..4] == "http";
    }
  }

  /** The colour class of the tag badge. */
  datatype Badge = Green | Amber

  /** `car.tag && <Badge …>`: no badge for `null` or "", green only for "هجين". */
  function TagBadge(tag: Option<string>): (r: Option<Badge>)
    ensures r.None? <==> tag.None? || tag.value == ""
    ensures r == Some(Green) <==> tag == Some("هجين")
    ensures r == Some(Amber) <==> tag.Some? && tag.value != "" && tag.value != "هجين"
  {
    match tag
    case None => None
    case Some(t) => if t == "" then None else if t == "هجين" then Some(Green) else Some(Amber)
  }

  /** The three seeded cars show an amber badge, no badge, and a green badge. */
  lemma SeededCarBadges()
    ensures TagBadge(NewCar(1, SeedCar1).tag) == Some(Amber)
    ensures TagBadge(NewCar(2, SeedCar2).tag) == None
    ensures TagBadge(NewCar(3, SeedCar3).tag) == Some(Green)
  {
    assert "جديد" != "هجين" by {
      assert "جديد"[0] != "هجين"[0];
    }
  }

  const Recently := "مؤخراً"

  /**
   * The date line of a video item: empty without an upload date; otherwise
   * the formatter's text, or "مؤخراً" when the formatter throws. The
   * relative-time formatter itself is given as its outcome.
   */
  function UploadDateText(uploadDate: Option<Timestamp>, formatted: Result<string, ()>): (r: string)
    ensures uploadDate.None? ==> r == ""
    ensures uploadDate.Some? && formatted.Failure? ==> r == Recently
    ensures uploadDate.Some? && formatted.Success? ==> r == formatted.value
  {
    if uploadDate.None? then ""
    else match formatted
      case Success(text) => text
      case Failure(_) => Recently
  }
}

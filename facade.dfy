/**
 * What the filter reports to the media-filter framework: the bundle, format,
 * name and description of the bitstream it produces.  The lemmas tie these
 * to the guard: a thumbnail stored as reported is one the guard lets the
 * filter regenerate.
 */
module FilterFacade {
  import opened Wrappers
  import opened ThumbnailConfig
  import opened CustomThumbnailGuard

  /** Java string concatenation renders a null reference as "null". */
  function JavaString(s: Option<string>): string {
    s.GetOr("null")
  }

  /** getFilteredName: the source's name with ".jpg" appended. */
  function GetFilteredName(oldFilename: Option<string>): (r: string)
    ensures StartsWith(r, JavaString(oldFilename))
    ensures |r| == |JavaString(oldFilename)| + 4 && r[|r| - 4..] == ".jpg"
  {
    JavaString(oldFilename) + ".jpg"
  }

  function GetBundleName(): string {
    "THUMBNAIL"
  }

  function GetFormatString(): string {
    "JPEG"
  }

  function GetDescription(cfg: Config): string {
    cfg.bitstreamDescription
  }

  /** The reported metadata, and the worked example figure1.tif. */
  lemma FacadeMetadata(cfg: Config)
    ensures GetBundleName() == "THUMBNAIL" && GetFormatString() == "JPEG"
    ensures GetDescription(cfg) == cfg.bitstreamDescription
    ensures GetFilteredName(Some("figure1.tif")) == "figure1.tif.jpg"
    ensures GetFilteredName(None) == "null.jpg" == GetFilteredName(Some("null"))
  {
  }

  /** Distinct source names give distinct output names. */
  lemma FilteredNameInjective(a: string, b: string)
    requires GetFilteredName(Some(a)) == GetFilteredName(Some(b))
    ensures a == b
  {
  }

  /**
   * A thumbnail this filter stored for a source (its filtered name, its
   * description) is related to that source, yet never blocks regeneration,
   * whatever the replacement pattern.
   */
  lemma OwnThumbnailReplaceable(cfg: Config, matches: Matcher, sourceName: Option<string>)
    ensures !Unrelated(Candidate(Some(GetFilteredName(sourceName)), Some(GetDescription(cfg))), sourceName)
    ensures !Blocks(cfg, matches, sourceName, Candidate(Some(GetFilteredName(sourceName)), Some(GetDescription(cfg))))
  {
  }

  /** An item whose thumbnails all carry this filter's description may always be regenerated. */
  lemma RegenerationAllowed(cfg: Config, matches: Matcher, sourceName: Option<string>, bundles: seq<seq<Candidate>>)
    requires forall i, j | 0 <= i < |bundles| && 0 <= j < |bundles[i]| ::
               bundles[i][j].description == Some(GetDescription(cfg))
    ensures ShouldGenerate(cfg, matches, sourceName, bundles)
  {
  }

  /**
   * A thumbnail named like this filter's output for the source but carrying
   * a description that is neither the label nor a pattern match is a custom
   * one: generation for that source is refused.
   */
  lemma CustomThumbnailBlocks(cfg: Config, matches: Matcher, source: string, d: string,
                              pre: seq<seq<Candidate>>, post: seq<seq<Candidate>>)
    requires !matches(cfg.replaceRegex, d) && d != GetDescription(cfg)
    ensures !ShouldGenerate(cfg, matches, Some(source),
                            pre + [[Candidate(Some(GetFilteredName(Some(source))), Some(d))]] + post)
  {
    var c := Candidate(Some(GetFilteredName(Some(source))), Some(d));
    BlockerDecides(cfg, matches, Some(source), pre, [], c, [], post);
    assert [] + [c] + [] == [c];
  }
}

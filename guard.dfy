/**
 * The custom-thumbnail guard (preProcessBitstream): before a thumbnail is
 * generated for a source bitstream, scan every bitstream of every THUMBNAIL
 * bundle of the item.  At the first bitstream it does not skip by name, and
 * whose description is null or neither fully matches the pattern nor equals
 * the label, it refuses generation.  A bitstream is skipped by name when both
 * names are non-null and its name does not start with the source's name.
 * The code takes such a bitstream to be a custom thumbnail.
 */
module CustomThumbnailGuard {
  import opened Wrappers
  import opened ThumbnailConfig

  /** An existing bitstream of a THUMBNAIL bundle: name and description may be null. */
  datatype Candidate = Candidate(name: Option<string>, description: Option<string>)

  /** Full match of a compiled pattern against a whole string (Matcher.matches). */
  type Matcher = (Pattern, string) -> bool

  /** String.startsWith. */
  predicate StartsWith(s: string, prefix: string) {
    prefix <= s
  }

  /** Skipped by the scan: both names are known and the candidate's name does not extend the source's. */
  predicate Unrelated(c: Candidate, sourceName: Option<string>) {
    c.name.Some? && sourceName.Some? && !StartsWith(c.name.value, sourceName.value)
  }

  /** The description marks the candidate as one the filter may overwrite. */
  predicate Replaceable(cfg: Config, matches: Matcher, c: Candidate) {
    c.description.Some? &&
    (matches(cfg.replaceRegex, c.description.value) || c.description.value == cfg.bitstreamDescription)
  }

  /** A custom thumbnail of this source: the scan stops on it with `false`. */
  predicate Blocks(cfg: Config, matches: Matcher, sourceName: Option<string>, c: Candidate) {
    !Unrelated(c, sourceName) && !Replaceable(cfg, matches, c)
  }

  /** The decision the guard is meant to make: no candidate in any bundle blocks. */
  predicate ShouldGenerate(cfg: Config, matches: Matcher, sourceName: Option<string>, bundles: seq<seq<Candidate>>) {
    !exists i, j | 0 <= i < |bundles| && 0 <= j < |bundles[i]| :: Blocks(cfg, matches, sourceName, bundles[i][j])
  }

  /**
   * preProcessBitstream.  `thumbnailBundles` is what the item service
   * returns for the item's THUMBNAIL bundles, each with its bitstreams, in
   * enumeration order.
   */
  method PreProcessBitstream(cfg: Config, matches: Matcher, sourceName: Option<string>,
                             thumbnailBundles: seq<seq<Candidate>>)
    returns (proceed: bool)
    ensures proceed == ShouldGenerate(cfg, matches, sourceName, thumbnailBundles)
  {
    var nsrc := sourceName;
    for i := 0 to |thumbnailBundles|
      invariant forall i', j' | 0 <= i' < i && 0 <= j' < |thumbnailBundles[i']| ::
                  !Blocks(cfg, matches, nsrc, thumbnailBundles[i'][j'])
    {
      var b := thumbnailBundles[i];
      for j := 0 to |b|
        invariant forall j' | 0 <= j' < j :: !Blocks(cfg, matches, nsrc, b[j'])
      {
        var bit := b[j];
        var n := bit.name;
        if n.Some? {
          if nsrc.Some? {
            if !StartsWith(n.value, nsrc.value) {
              continue;
            }
          }
        }
        var description := bit.description;
        // anything other than a generated thumbnail halts the scan
        if description.Some? {
          if matches(cfg.replaceRegex, description.value) {
            continue;
          }
          if description.value == cfg.bitstreamDescription {
            continue;
          }
        }
        assert Blocks(cfg, matches, nsrc, thumbnailBundles[i][j]);
        return false;
      }
    }
    return true;
  }

  /** The decision for a single candidate, in the source's own terms. */
  lemma SingleCandidate(cfg: Config, matches: Matcher, sourceName: Option<string>, c: Candidate)
    ensures ShouldGenerate(cfg, matches, sourceName, [[c]]) <==>
              (c.name.Some? && sourceName.Some? && !(sourceName.value <= c.name.value)) ||
              (c.description.Some? &&
                (matches(cfg.replaceRegex, c.description.value) || c.description.value == cfg.bitstreamDescription))
  {
    if !ShouldGenerate(cfg, matches, sourceName, [[c]]) {
      var i, j :| 0 <= i < 1 && 0 <= j < |[[c]][i]| && Blocks(cfg, matches, sourceName, [[c]][i][j]);
      assert [[c]][i][j] == c;
    } else {
      assert [[c]][0][0] == c;
    }
  }

  /** With no thumbnail bitstreams at all, generation proceeds. */
  lemma NoThumbnailsGenerate(cfg: Config, matches: Matcher, sourceName: Option<string>, bundles: seq<seq<Candidate>>)
    requires forall i | 0 <= i < |bundles| :: bundles[i] == []
    ensures ShouldGenerate(cfg, matches, sourceName, bundles)
  {
  }

  /** A null description on a considered candidate blocks, whatever the pattern and label. */
  lemma NullDescriptionBlocks(cfg: Config, matches: Matcher, sourceName: Option<string>, c: Candidate)
    requires c.description.None?
    requires c.name.None? || sourceName.None? || StartsWith(c.name.value, sourceName.value)
    ensures Blocks(cfg, matches, sourceName, c)
  {
  }

  /**
   * Short circuit: once a blocking candidate is enumerated, the result is
   * false whatever precedes or follows it, in its bundle or in other bundles.
   */
  lemma BlockerDecides(cfg: Config, matches: Matcher, sourceName: Option<string>,
                       pre: seq<seq<Candidate>>, before: seq<Candidate>, c: Candidate,
                       after: seq<Candidate>, post: seq<seq<Candidate>>)
    requires Blocks(cfg, matches, sourceName, c)
    ensures !ShouldGenerate(cfg, matches, sourceName, pre + [before + [c] + after] + post)
  {
    var bundles := pre + [before + [c] + after] + post;
    assert bundles[|pre|] == before + [c] + after;
    assert bundles[|pre|][|before|] == c;
  }

  /** Scanning two groups of bundles decides as scanning each group alone, both must allow. */
  lemma ShouldGenerateConcat(cfg: Config, matches: Matcher, sourceName: Option<string>,
                             a: seq<seq<Candidate>>, b: seq<seq<Candidate>>)
    ensures ShouldGenerate(cfg, matches, sourceName, a + b) <==>
              ShouldGenerate(cfg, matches, sourceName, a) && ShouldGenerate(cfg, matches, sourceName, b)
  {
    var ab := a + b;
    if !ShouldGenerate(cfg, matches, sourceName, ab) {
      var i, j :| 0 <= i < |ab| && 0 <= j < |ab[i]| && Blocks(cfg, matches, sourceName, ab[i][j]);
      if i < |a| {
        assert ab[i] == a[i];
      } else {
        assert ab[i] == b[i - |a|];
      }
    }
    if !ShouldGenerate(cfg, matches, sourceName, a) {
      var i, j :| 0 <= i < |a| && 0 <= j < |a[i]| && Blocks(cfg, matches, sourceName, a[i][j]);
      assert ab[i] == a[i];
    }
    if !ShouldGenerate(cfg, matches, sourceName, b) {
      var i, j :| 0 <= i < |b| && 0 <= j < |b[i]| && Blocks(cfg, matches, sourceName, b[i][j]);
      assert ab[|a| + i] == b[i];
    }
  }

  /**
   * A candidate that does not block (unrelated or replaceable) has no
   * influence: removing it from its bundle leaves the decision unchanged.
   */
  lemma NonBlockerIrrelevant(cfg: Config, matches: Matcher, sourceName: Option<string>,
                             pre: seq<seq<Candidate>>, before: seq<Candidate>, c: Candidate,
                             after: seq<Candidate>, post: seq<seq<Candidate>>)
    requires !Blocks(cfg, matches, sourceName, c)
    ensures ShouldGenerate(cfg, matches, sourceName, pre + [before + [c] + after] + post) ==
            ShouldGenerate(cfg, matches, sourceName, pre + [before + after] + post)
  {
    var with := before + [c] + after;
    var without := before + after;
    ShouldGenerateConcat(cfg, matches, sourceName, pre + [with], post);
    ShouldGenerateConcat(cfg, matches, sourceName, pre, [with]);
    ShouldGenerateConcat(cfg, matches, sourceName, pre + [without], post);
    ShouldGenerateConcat(cfg, matches, sourceName, pre, [without]);
    if ShouldGenerate(cfg, matches, sourceName, [without]) {
      forall j | 0 <= j < |with| ensures !Blocks(cfg, matches, sourceName, with[j]) {
        if j < |before| {
          assert with[j] == [without][0][j];
        } else if j > |before| {
          assert with[j] == [without][0][j - 1];
        }
      }
    } else {
      var i, j :| 0 <= i < 1 && 0 <= j < |[without][i]| && Blocks(cfg, matches, sourceName, [without][i][j]);
      if j < |before| {
        assert [with][0][j] == [without][i][j];
      } else {
        assert [with][0][j + 1] == [without][i][j];
      }
    }
  }

  /** A pattern without metacharacters: its full match is plain string equality. */
  ghost predicate LiteralPattern(matches: Matcher, p: Pattern) {
    forall s :: matches(p, s) <==> s == p.source
  }

  /**
   * Under the default settings: the two default labels are replaceable,
   * while a null, an empty or any other description blocks a related
   * candidate.
   */
  lemma DefaultPolicy(cfg: Config, matches: Matcher, sourceName: Option<string>, name: Option<string>, d: string)
    requires cfg.replaceRegex == Pattern(DefaultPattern) && cfg.bitstreamDescription == DefaultDescription
    requires LiteralPattern(matches, cfg.replaceRegex)
    requires name.None? || sourceName.None? || StartsWith(name.value, sourceName.value)
    ensures !Blocks(cfg, matches, sourceName, Candidate(name, Some("Generated Thumbnail")))
    ensures !Blocks(cfg, matches, sourceName, Candidate(name, Some("IM Thumbnail")))
    ensures Blocks(cfg, matches, sourceName, Candidate(name, None))
    ensures Blocks(cfg, matches, sourceName, Candidate(name, Some("")))
    ensures Blocks(cfg, matches, sourceName, Candidate(name, Some(d))) <==>
              d != "Generated Thumbnail" && d != "IM Thumbnail"
  {
  }
}

/**
 * The filter's process-wide settings: the static fields of
 * ImageMagickThumbnailFilter and the static initializer that resolves them
 * from the configuration once, at class-load time.
 */
module ThumbnailConfig {
  import opened Wrappers

  /** A compiled regular expression, identified by its source text. */
  datatype Pattern = Pattern(source: string)

  const DefaultWidth: int := 180
  const DefaultHeight: int := 120
  const DefaultFlatten: bool := true
  const DefaultDescription: string := "IM Thumbnail"
  const DefaultPattern: string := "Generated Thumbnail"

  /** The resolved static fields; nothing changes them after initialisation. */
  datatype Config = Config(
    width: int,
    height: int,
    flatten: bool,
    bitstreamDescription: string,
    replaceRegex: Pattern)

  /**
   * The configured values the initializer reads.  None stands for a
   * property for which the configuration getter returns the default it is
   * given.
   */
  datatype Properties = Properties(
    maxWidth: Option<int>,
    maxHeight: Option<int>,
    flatten: Option<bool>,
    bitstreamDescription: Option<string>,
    replaceRegex: Option<string>)

  /**
   * The static field initializers followed by the static block.
   * `compiles(p)` says whether the regular-expression compiler accepts `p`
   * (PatternSyntaxException otherwise).
   */
  method StaticInit(props: Properties, compiles: string -> bool) returns (cfg: Config)
    requires compiles(DefaultPattern)  // the field initializer compiles it while the class loads
    ensures cfg.width == props.maxWidth.GetOr(DefaultWidth)
    ensures cfg.height == props.maxHeight.GetOr(DefaultHeight)
    ensures cfg.flatten == props.flatten.GetOr(DefaultFlatten)
    ensures props.bitstreamDescription.Some? ==> cfg.bitstreamDescription == props.bitstreamDescription.value
    ensures props.bitstreamDescription.None? ==> cfg.bitstreamDescription == DefaultDescription
    ensures props.replaceRegex.None? ==> cfg.replaceRegex == Pattern(DefaultPattern)
    ensures props.replaceRegex.Some? && compiles(props.replaceRegex.value) ==>
              cfg.replaceRegex == Pattern(props.replaceRegex.value)
    ensures props.replaceRegex.Some? && !compiles(props.replaceRegex.value) ==>
              cfg.replaceRegex == Pattern(DefaultPattern)
    // a pattern the compiler rejects never becomes the replacement pattern
    ensures compiles(cfg.replaceRegex.source)
  {
    // field initializers
    var width := DefaultWidth;
    var height := DefaultHeight;
    var flatten := DefaultFlatten;
    var bitstreamDescription := DefaultDescription;
    var replaceRegex := Pattern(DefaultPattern);
    // static block
    width := props.maxWidth.GetOr(width);
    height := props.maxHeight.GetOr(height);
    flatten := props.flatten.GetOr(flatten);
    var description := props.bitstreamDescription;
    if description.Some? {
      bitstreamDescription := description.value;
    }
    var patt := props.replaceRegex;
    var chosen := if patt.None? then DefaultPattern else patt.value;
    if compiles(chosen) {
      replaceRegex := Pattern(chosen);
    }
    // otherwise the syntax error is reported and the earlier pattern stays
    cfg := Config(width, height, flatten, bitstreamDescription, replaceRegex);
  }
}

# ImageMagick thumbnail filter — Dafny model

This project models DSpace's `ImageMagickThumbnailFilter`. That is the media filter that turns an
item's original bitstream into a JPEG thumbnail by running ImageMagick. The model covers:

- **the custom-thumbnail guard** (`preProcessBitstream`). It scans every bitstream of every
  `THUMBNAIL` bundle of the item. At the first bitstream it does not skip by name, and whose
  description is null or neither fully matches the pattern nor equals the label, it refuses
  generation. A bitstream is skipped by name when both names are non-null and its name does not
  start with the source's name. The code takes such a bitstream to be a custom thumbnail.
- **the settings resolved once by the static initializer**: bounding box, flatten flag, description
  label and replacement pattern.
- **the metadata the filter reports**: bundle, format, output name and description.
- **the buffered copy** of the source stream into a temporary file.
- **the ImageMagick argument lists** built by `getThumbnailFile` and `getImageFile`, and the sibling
  output file they name.

Modules, one per component:

- `ThumbnailConfig` (config.dfy): the static fields as a `Config` value, and `StaticInit`, which
  mirrors the field initializers and the static block.
- `CustomThumbnailGuard` (guard.dfy): `Candidate` (a thumbnail bitstream with nullable name and
  description), the decision as a predicate `ShouldGenerate`, and the nested loop
  `PreProcessBitstream`, which is proved equal to it.
- `FilterFacade` (facade.dfy): `getFilteredName`, `getBundleName`, `getFormatString` and
  `getDescription`, with lemmas linking the name and description the filter stores to what the
  guard accepts.
- `TempStaging` (staging.dfy): the stream and the output file as small classes, and the copy loop.
- `ConversionInvoker` (convert.dfy): `IMOperation` as a class that accumulates argument tokens, and
  the two converters.
- `JavaStrings` (javastrings.dfy): Java's `int`-to-decimal conversion, used for the `[page]`
  selector. Its round-trip lemma shows that the selector determines the page.
- `Wrappers` (wrappers.dfy): `Option`, for Java's nullable references.

The regular-expression engine is not modelled. Two parameters stand for it:

- `matches(p, s)`: `Matcher.matches`, a full match of pattern `p` against the whole of `s`.
- `compiles(p)`: `Pattern.compile(p)` raises no syntax error.

`LiteralPattern` describes the default pattern "Generated Thumbnail", which has no metacharacters:
for such a pattern a full match is string equality.

Two behaviours of the code matter here:

- A related thumbnail with a null description blocks generation. The null check falls through to
  the `return false`. So does an empty description, unless it matches the pattern or the label.
- The default description label is "IM Thumbnail". The default pattern is "Generated Thumbnail".
  These are two different strings, and each makes a thumbnail replaceable.

## Model

| member | source | states |
|---|---|---|
| `ThumbnailConfig.StaticInit` | dspace-api/src/main/java/org/dspace/app/mediafilter/ImageMagickThumbnailFilter.java:39-64 | Width, height and flatten are the configured values, or 180, 120 and true when absent. The description is overridden only when the property is present, and is "IM Thumbnail" otherwise. The pattern is the configured one if it compiles. It is "Generated Thumbnail" when none is configured or when compilation fails. Given that the default pattern compiles (class loading at line 44 fails otherwise), the resulting pattern always compiles: a rejected pattern never becomes the replacement pattern. |
| `CustomThumbnailGuard.PreProcessBitstream` | dspace-api/src/main/java/org/dspace/app/mediafilter/ImageMagickThumbnailFilter.java:153-189 | The nested scan with `continue` and early `return false` returns true exactly when no candidate in any THUMBNAIL bundle is related to the source and non-replaceable. |
| `CustomThumbnailGuard.SingleCandidate` | dspace-api/src/main/java/org/dspace/app/mediafilter/ImageMagickThumbnailFilter.java:160-183 | A single candidate allows generation iff both names are non-null and its name does not start with the source name, or its description is non-null and fully matches the pattern or equals the label. Both directions are proved. |
| `CustomThumbnailGuard.NoThumbnailsGenerate` | dspace-api/src/main/java/org/dspace/app/mediafilter/ImageMagickThumbnailFilter.java:186-188 | With no thumbnail bitstreams at all (no bundles, or only empty ones), the decision is to generate. |
| `CustomThumbnailGuard.NullDescriptionBlocks` | dspace-api/src/main/java/org/dspace/app/mediafilter/ImageMagickThumbnailFilter.java:166-183 | A considered candidate with a null description blocks, whatever the pattern and label. |
| `CustomThumbnailGuard.BlockerDecides` | dspace-api/src/main/java/org/dspace/app/mediafilter/ImageMagickThumbnailFilter.java:182-183 | Short circuit: a blocking candidate anywhere in the enumeration makes the result false. Nothing before or after it, in its bundle or in other bundles, changes that. |
| `CustomThumbnailGuard.ShouldGenerateConcat` | dspace-api/src/main/java/org/dspace/app/mediafilter/ImageMagickThumbnailFilter.java:158-159 | Scanning two groups of bundles in sequence allows generation iff each group alone does. |
| `CustomThumbnailGuard.NonBlockerIrrelevant` | dspace-api/src/main/java/org/dspace/app/mediafilter/ImageMagickThumbnailFilter.java:160-181 | An unrelated or replaceable candidate (one passed over by `continue`) has no influence: removing it from its bundle leaves the decision unchanged. |
| `CustomThumbnailGuard.DefaultPolicy` | dspace-api/src/main/java/org/dspace/app/mediafilter/ImageMagickThumbnailFilter.java:42-44 | Under the default label and the literal default pattern, a related candidate with description "Generated Thumbnail" or "IM Thumbnail" is replaceable. A related candidate with a null, an empty or any other description blocks. |
| `FilterFacade.GetFilteredName` | dspace-api/src/main/java/org/dspace/app/mediafilter/ImageMagickThumbnailFilter.java:71-74 | The output name starts with the source name and ends with ".jpg", four characters longer. A null source name is rendered as "null", as Java's string concatenation does. |
| `FilterFacade.FacadeMetadata` | dspace-api/src/main/java/org/dspace/app/mediafilter/ImageMagickThumbnailFilter.java:71-102 | The bundle is "THUMBNAIL" and the format is "JPEG". The description is the resolved label. "figure1.tif" becomes "figure1.tif.jpg". |
| `FilterFacade.FilteredNameInjective` | dspace-api/src/main/java/org/dspace/app/mediafilter/ImageMagickThumbnailFilter.java:71-74 | Distinct non-null source names give distinct output names. A null name and the name "null" both give "null.jpg". |
| `FilterFacade.GetBundleName` | dspace-api/src/main/java/org/dspace/app/mediafilter/ImageMagickThumbnailFilter.java:81-84 | Stated by `FacadeMetadata`: the bundle is "THUMBNAIL". |
| `FilterFacade.GetFormatString` | dspace-api/src/main/java/org/dspace/app/mediafilter/ImageMagickThumbnailFilter.java:90-93 | Stated by `FacadeMetadata`: the format is "JPEG". |
| `FilterFacade.GetDescription` | dspace-api/src/main/java/org/dspace/app/mediafilter/ImageMagickThumbnailFilter.java:99-102 | Stated by `FacadeMetadata`: the resolved description label. `OwnThumbnailReplaceable` and `RegenerationAllowed` show that a thumbnail carrying it is replaceable. |
| `FilterFacade.OwnThumbnailReplaceable` | dspace-api/src/main/java/org/dspace/app/mediafilter/ImageMagickThumbnailFilter.java:175-180 | A thumbnail stored with the filter's own output name and description is related to its source, yet never blocks regeneration, whatever the pattern. |
| `FilterFacade.RegenerationAllowed` | dspace-api/src/main/java/org/dspace/app/mediafilter/ImageMagickThumbnailFilter.java:175-180 | An item whose thumbnails all carry the filter's description may always have its thumbnail regenerated, whatever their names. |
| `FilterFacade.CustomThumbnailBlocks` | dspace-api/src/main/java/org/dspace/app/mediafilter/ImageMagickThumbnailFilter.java:160-183 | A thumbnail named like the filter's output for the source is a custom thumbnail if its description neither matches the pattern nor equals the label. It refuses generation for that source, wherever it sits among other bundles. |
| `TempStaging.InputStream.Read` | dspace-api/src/main/java/org/dspace/app/mediafilter/ImageMagickThumbnailFilter.java:110-113 | `read(buffer)` returns -1 at the end of the stream. Otherwise it fills 1 to 1024 bytes of the buffer with the next bytes of the stream and advances past them. |
| `TempStaging.FileOutputStream.Write` | dspace-api/src/main/java/org/dspace/app/mediafilter/ImageMagickThumbnailFilter.java:112 | `write(buffer, 0, len)` appends exactly the first `len` bytes of the buffer to the file. |
| `TempStaging.InputStreamToTempFile` | dspace-api/src/main/java/org/dspace/app/mediafilter/ImageMagickThumbnailFilter.java:104-117 | The copy loop consumes the stream to its end. The file's content equals the rest of the stream, byte for byte. The writes are exactly the chunks the successive reads returned, in order, each of 1 to 1024 bytes, and their concatenation is the file's content. |
| `ConversionInvoker.OutputFile` | dspace-api/src/main/java/org/dspace/app/mediafilter/ImageMagickThumbnailFilter.java:120 | The output file lies in the input's directory, is named as `getFilteredName` names it, and is never the input file itself. |
| `ConversionInvoker.IMOperation.constructor` | dspace-api/src/main/java/org/dspace/app/mediafilter/ImageMagickThumbnailFilter.java:123 | A new operation has no arguments. |
| `ConversionInvoker.IMOperation.AddImage` | dspace-api/src/main/java/org/dspace/app/mediafilter/ImageMagickThumbnailFilter.java:124-126 | `addImage` appends one image-path token and changes nothing else. |
| `ConversionInvoker.IMOperation.Thumbnail` | dspace-api/src/main/java/org/dspace/app/mediafilter/ImageMagickThumbnailFilter.java:125 | `thumbnail(w, h)` appends one bounding-box token. |
| `ConversionInvoker.IMOperation.Flatten` | dspace-api/src/main/java/org/dspace/app/mediafilter/ImageMagickThumbnailFilter.java:141-144 | `flatten()` appends one flatten token. |
| `ConversionInvoker.GetThumbnailFile` | dspace-api/src/main/java/org/dspace/app/mediafilter/ImageMagickThumbnailFilter.java:119-132 | Returns the sibling ".jpg" file and exactly the arguments: input path, thumbnail(width, height), output path. |
| `ConversionInvoker.GetImageFile` | dspace-api/src/main/java/org/dspace/app/mediafilter/ImageMagickThumbnailFilter.java:134-151 | Returns the sibling ".jpg" file. The first argument is the input path with the page selector `[page]`, and the last is the output path. There is exactly one flatten directive when flatten is configured and none otherwise, and there is no thumbnail directive. |
| `ConversionInvoker.PageSelector` | dspace-api/src/main/java/org/dspace/app/mediafilter/ImageMagickThumbnailFilter.java:139 | `"[" + page + "]"`. `GetImageFile` states that it follows the input path, and `PageArgumentInjective` states that it determines the page. |
| `ConversionInvoker.PageArgumentInjective` | dspace-api/src/main/java/org/dspace/app/mediafilter/ImageMagickThumbnailFilter.java:139-140 | The input argument built for a page determines that page: two different pages never give the same argument. |
| `JavaStrings.NatToString` | dspace-api/src/main/java/org/dspace/app/mediafilter/ImageMagickThumbnailFilter.java:139 | The decimal rendering of a natural number is a non-empty string of digits without a leading zero. |
| `JavaStrings.IntToString` | dspace-api/src/main/java/org/dspace/app/mediafilter/ImageMagickThumbnailFilter.java:139 | The rendering of the page number starts with '-' exactly for negative numbers. The rest is decimal digits without a leading zero. |
| `JavaStrings.ParseNatToString` | dspace-api/src/main/java/org/dspace/app/mediafilter/ImageMagickThumbnailFilter.java:139 | Reading the digits back gives the number rendered. |
| `JavaStrings.IntToStringRoundTrip` | dspace-api/src/main/java/org/dspace/app/mediafilter/ImageMagickThumbnailFilter.java:139 | Reading a rendered int back, sign included, gives the int. |
| `JavaStrings.IntToStringInjective` | dspace-api/src/main/java/org/dspace/app/mediafilter/ImageMagickThumbnailFilter.java:139 | Distinct ints render as distinct strings. |

## Left out

- Running the command (`cmd.run`) and everything ImageMagick does are not modelled: resizing, aspect ratio, page rendering, JPEG encoding, exit codes and the exceptions they raise. The converters return the argument list they would run.
- `ProcessStarter.setGlobalSearchPath` is not modelled. It is a library call that only locates the executable.
- Property parsing by the configuration manager is not modelled. A configured width, height or flatten flag is given as an optional value, and an absent one is `None`.
- The regular-expression engine is not modelled. The parameters `matches` (full match) and `compiles` (no syntax error) stand for it.
- The error message printed for an invalid pattern is not modelled.
- The item service's bundle lookup (`getBundles(item, "THUMBNAIL")`) and the database context are not modelled. The guard takes the THUMBNAIL bundles' bitstreams as input, in enumeration order.
- `item.getHandle()` is not modelled. It only appears in a diagnostic message.
- The verbose and diagnostic printing (`System.out` and `System.err`) is not modelled, and neither is the `verbose` parameter. They do not affect results.
- Temporary files are not modelled as files. The model leaves out `File.createTempFile` with its prefix and suffix, `deleteOnExit`, and closing the stream. It also leaves out the `IOException`s these raise. The temporary file is represented by the bytes written to it.
- InputStreamToTempFile: an `IOException` from `source.read` or `fos.write` inside the copy loop is not modelled. In Java it ends the copy with a partial temporary file and the output stream left open. In the model every read and write succeeds, so the copy cannot fail.
- `AbsolutePath` does not model `File.getAbsolutePath` fully. It joins the parent and the name with "/". Resolving a relative parent against the working directory and a file without a parent are not modelled.
- Java's UTF-16 strings are not modelled. Names and descriptions are Dafny strings, which are sequences of Unicode scalar values, while Java's `startsWith`, `equals` and `+` work on UTF-16 code units. The two agree on well-formed strings and differ only for strings that contain lone surrogates.
- Java's 32-bit `int` is not modelled for width, height and page. They are unbounded integers, because the code does no arithmetic on them. `IntToString` renders every value as `Integer.toString` renders the `int` values.

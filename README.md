# ImageMetaReader field resolution, modelled in Dafny

`ImageMetaReader` (fotolib2, package `de.k3b.media`) is a read-only view over a
JPEG file's parsed metadata. A metadata-extraction library parses the file; the
reader keeps the first EXIF IFD0, IPTC, JPEG-comment and GPS directories, an
embedded XMP segment and an optional external XMP sidecar. It answers each
field by trying those sources in a fixed order. A local `result` starts as
null, and each step assigns it only while it is still null (`isEmpty`) and the
source is present. Besides that precedence, the reader normalises empty
directory strings to null (`getString`), splits the Windows `XPKeywords` value
on `;`, and maps the EXIF Orientation tag to rotation degrees.

The project is organised as follows:

- `Wrappers.dfy`: an `Option` type. `None` stands for Java `null`.
- `Extractor.dfy`: what the library hands over, as abstract inputs. A
  `Directory` answers per `Tag` with an optional string, integer or date.
  `GeoLocation` carries an `isZero` flag. `MetaApi` is what an XMP source's
  getters report. `Metadata` is a parsed file.
- `Fallback.dfy`: `FirstPresent`, the reference meaning of a fallback chain
  (the first candidate that is not null), with lemmas about it.
- `KeywordSplit.dfy`: splitting on a separator; Java's `String.split`
  behaviour (drop trailing empty pieces; give back the input itself when no
  separator occurs); the joining round trips.
- `Resolution.dfy`: the cached sources as an immutable `Sources` record. It
  has one pure function per getter, whose body follows the source's guarded
  reassignments and whose contract equates the result with `FirstPresent` of
  that field's ordered chain. It also has `AfterInit`, the pure meaning of
  `init()`, and lemmas about which source wins.
- `Media.dfy`: the class `ImageMetaReader`, whose fields are the reader's
  fields. `Load` and `Init` update them. Each getter runs `Init` and then
  resolves its field over the cached sources. The setters always throw.

Behaviour of the code that the model keeps as written:

- `isEmpty` (ImageMetaReader.java:226-232) tests only `result == null`. So an
  empty string from an XMP source ends the title and description chains,
  while directory reads through `getString` never yield `""`.
- The EXIF rating step is guarded by the GPS location but reads the EXIF
  directory. So it is reached only when a GPS location is held, and it then
  needs an EXIF directory.
- `getTags` dereferences the EXIF directory unconditionally, so it requires
  one.
- `getOrientationInDegrees` does not call `init()`. It reads the EXIF
  directory cached by an earlier getter.
- `init()` overwrites the GPS location and the embedded XMP segment only when
  the current file has them. A reader reused for a second file keeps the
  first file's values (`StaleGpsSurvivesInit`, `ReloadKeepsLocation`).

## Model

| member | source | states |
|---|---|---|
| `Fallback.FirstPresent` | fotolib2/src/main/java/de/k3b/media/ImageMetaReader.java:139-144 | The chain's result is null exactly when every candidate is null. Otherwise it is a candidate all of whose predecessors are null. |
| `Fallback.FirstPresentAt` | fotolib2/src/main/java/de/k3b/media/ImageMetaReader.java:139-144 | A non-null candidate preceded only by nulls is the result. |
| `Fallback.FirstPresentIgnoresLater` | fotolib2/src/main/java/de/k3b/media/ImageMetaReader.java:250-271 | Once a candidate is non-null, the later candidates do not affect the result. |
| `Resolution.IsEmpty` | fotolib2/src/main/java/de/k3b/media/ImageMetaReader.java:226-232 | Only null counts as empty; the debugging switch that would make every value empty is constant off. |
| `Resolution.GetString` | fotolib2/src/main/java/de/k3b/media/ImageMetaReader.java:437-450 | Null when the directory or its value is absent. An empty value becomes null. Never returns `""`. Otherwise returns the directory's description. |
| `Resolution.DateTimeTaken` | fotolib2/src/main/java/de/k3b/media/ImageMetaReader.java:133-145 | The first non-null of EXIF DateTimeOriginal, external XMP, embedded XMP. Null only when all three are null or absent. |
| `Resolution.Latitude` | fotolib2/src/main/java/de/k3b/media/ImageMetaReader.java:173-184 | The first non-null of GPS location, external XMP, embedded XMP. |
| `Resolution.Longitude` | fotolib2/src/main/java/de/k3b/media/ImageMetaReader.java:187-199 | The first non-null of GPS location, external XMP, embedded XMP. |
| `Resolution.GpsLocationWins` | fotolib2/src/main/java/de/k3b/media/ImageMetaReader.java:173-199 | A held GPS location decides both latitude and longitude. |
| `Resolution.Title` | fotolib2/src/main/java/de/k3b/media/ImageMetaReader.java:205-224 | The first non-null of external XMP, EXIF XPTitle, embedded XMP, IPTC Headline. |
| `Resolution.EmptyExternalTitleStopsChain` | fotolib2/src/main/java/de/k3b/media/ImageMetaReader.java:213-232 | An empty external XMP title is the result, because `isEmpty` tests only for null. |
| `Resolution.EmptyTitleComesFromXmp` | fotolib2/src/main/java/de/k3b/media/ImageMetaReader.java:205-232 | An empty title can only come from an XMP source. |
| `Resolution.Description` | fotolib2/src/main/java/de/k3b/media/ImageMetaReader.java:243-272 | The first non-null of EXIF ImageDescription, external XMP, EXIF XPComment, embedded XMP, IPTC Caption-Abstract, JPEG comment. |
| `Resolution.DescriptionIgnoresLaterSources` | fotolib2/src/main/java/de/k3b/media/ImageMetaReader.java:250-271 | Sources after the first non-null description source are never consulted. |
| `Resolution.Tags` | fotolib2/src/main/java/de/k3b/media/ImageMetaReader.java:283-304 | Requires an EXIF directory. The first non-null of: external XMP tags; XPKeywords split on `;`; embedded XMP tags. |
| `Resolution.TagsFromKeywords` | fotolib2/src/main/java/de/k3b/media/ImageMetaReader.java:290-299 | With no external XMP tags and an XPKeywords value, the tags are that value's `;`-pieces. No piece contains `;`. |
| `Resolution.Rating` | fotolib2/src/main/java/de/k3b/media/ImageMetaReader.java:315-325 | Requires an EXIF directory whenever the GPS-guarded step is reached. The first non-null of external XMP, embedded XMP, EXIF Rating; the EXIF Rating step counts only when a GPS location is held. |
| `Resolution.RatingWithoutGpsIgnoresExif` | fotolib2/src/main/java/de/k3b/media/ImageMetaReader.java:321-323 | Without a GPS location the EXIF rating is never read, even when present. |
| `Resolution.RatingWithGpsReadsExif` | fotolib2/src/main/java/de/k3b/media/ImageMetaReader.java:321-323 | With a GPS location and no XMP rating, the rating is the EXIF Rating tag. |
| `Resolution.OrientationDegrees` | fotolib2/src/main/java/de/k3b/media/ImageMetaReader.java:337-358 | Always one of 0, 90, 180, 270. The result is 90, 180 or 270 exactly for orientation 6, 3 or 8 respectively. Every other value, and a missing tag, gives 0. |
| `Resolution.AfterInit` | fotolib2/src/main/java/de/k3b/media/ImageMetaReader.java:418-435 | EXIF, IPTC and comment directories are taken from the file. A zero GPS location is dropped and a non-zero one taken. With no GPS directory, the previous location is kept. The embedded XMP is replaced only when the file has XMP. External XMP is untouched. |
| `Resolution.AfterInitIdempotent` | fotolib2/src/main/java/de/k3b/media/ImageMetaReader.java:418-435 | Running init twice over the same file equals running it once. |
| `Resolution.ZeroGpsTreatedAsAbsent` | fotolib2/src/main/java/de/k3b/media/ImageMetaReader.java:424-428 | On a fresh reader, a zero GPS location counts as no location. The coordinates then come from the XMP sources. |
| `Resolution.StaleGpsReachesMissingExif` | fotolib2/src/main/java/de/k3b/media/ImageMetaReader.java:315-325 | A location kept from an earlier file reaches the EXIF Rating step with no EXIF directory (the dereference of null at line 323) when the new file has no EXIF or GPS directory and neither the external XMP nor the embedded XMP held after init has a rating. |
| `Resolution.StaleGpsSurvivesInit` | fotolib2/src/main/java/de/k3b/media/ImageMetaReader.java:424-428 | A location held from before survives init over a file without GPS data, and then decides the latitude. |
| `KeywordSplit.Split` | fotolib2/src/main/java/de/k3b/media/ImageMetaReader.java:297 | At least one piece. No piece contains the separator. |
| `KeywordSplit.JoinSplit` | fotolib2/src/main/java/de/k3b/media/ImageMetaReader.java:297 | Joining the pieces with the separator gives back the input. |
| `KeywordSplit.SplitJoin` | fotolib2/src/main/java/de/k3b/media/ImageMetaReader.java:297 | Splitting the join of separator-free pieces gives back the pieces. |
| `KeywordSplit.DropTrailingEmpty` | fotolib2/src/main/java/de/k3b/media/ImageMetaReader.java:297 | The result is a prefix of the input. Everything dropped is empty. The last kept piece is non-empty. |
| `KeywordSplit.JavaSplit` | fotolib2/src/main/java/de/k3b/media/ImageMetaReader.java:297 | No piece contains `;`. Without a separator the result is the input itself. Otherwise it is the full split minus its trailing empty pieces. |
| `KeywordSplit.JavaSplitKeepsLeadingPieces` | fotolib2/src/main/java/de/k3b/media/ImageMetaReader.java:297 | The kept pieces followed by empty pieces are the full split, which joins back to the input. |
| `Media.ImageMetaReader.constructor` | fotolib2/src/main/java/de/k3b/media/ImageMetaReader.java:63-72 | A new reader holds no file name, no metadata and no sources. |
| `Media.ImageMetaReader.Load` | fotolib2/src/main/java/de/k3b/media/ImageMetaReader.java:77-115 | Records the name, external XMP and parse result. Returns null exactly when parsing failed, and otherwise this reader. The cached directories are left unchanged. |
| `Media.ImageMetaReader.GetPath` | fotolib2/src/main/java/de/k3b/media/ImageMetaReader.java:120-122 | Returns the recorded file name. |
| `Media.ImageMetaReader.Init` | fotolib2/src/main/java/de/k3b/media/ImageMetaReader.java:418-435 | The cached sources become `AfterInit` of the metadata and the previous sources. |
| `Media.ImageMetaReader.GetDateTimeTaken` | fotolib2/src/main/java/de/k3b/media/ImageMetaReader.java:133-145 | Runs init, then returns `DateTimeTaken` of the refreshed sources. |
| `Media.ImageMetaReader.GetLatitude` | fotolib2/src/main/java/de/k3b/media/ImageMetaReader.java:173-184 | Runs init, then returns `Latitude` of the refreshed sources. |
| `Media.ImageMetaReader.GetLongitude` | fotolib2/src/main/java/de/k3b/media/ImageMetaReader.java:187-199 | Runs init, then returns `Longitude` of the refreshed sources. |
| `Media.ImageMetaReader.GetTitle` | fotolib2/src/main/java/de/k3b/media/ImageMetaReader.java:205-224 | Runs init, then returns `Title` of the refreshed sources. |
| `Media.ImageMetaReader.GetDescription` | fotolib2/src/main/java/de/k3b/media/ImageMetaReader.java:243-272 | Runs init, then returns `Description` of the refreshed sources. |
| `Media.ImageMetaReader.GetTags` | fotolib2/src/main/java/de/k3b/media/ImageMetaReader.java:283-304 | Requires the file to have an EXIF directory. Runs init, then returns `Tags` of the refreshed sources. |
| `Media.ImageMetaReader.GetRating` | fotolib2/src/main/java/de/k3b/media/ImageMetaReader.java:315-325 | Requires an EXIF directory when the GPS-guarded step will be reached. Runs init, then returns `Rating`. |
| `Media.ImageMetaReader.GetOrientationInDegrees` | fotolib2/src/main/java/de/k3b/media/ImageMetaReader.java:333-358 | Requires an already cached EXIF directory, since init is not run. The result is in {0, 90, 180, 270} and is the mapping of its Orientation tag. |
| `Media.ImageMetaReader.SetPath` | fotolib2/src/main/java/de/k3b/media/ImageMetaReader.java:125-127 | Always throws UnsupportedOperationException. Nothing changes. |
| `Media.ImageMetaReader.SetDateTimeTaken` | fotolib2/src/main/java/de/k3b/media/ImageMetaReader.java:148-150 | Always throws UnsupportedOperationException. Nothing changes. |
| `Media.ImageMetaReader.SetLatitude` | fotolib2/src/main/java/de/k3b/media/ImageMetaReader.java:158-160 | Always throws UnsupportedOperationException. Nothing changes. |
| `Media.ImageMetaReader.SetLongitude` | fotolib2/src/main/java/de/k3b/media/ImageMetaReader.java:168-170 | Always throws UnsupportedOperationException. Nothing changes. |
| `Media.ImageMetaReader.SetTitle` | fotolib2/src/main/java/de/k3b/media/ImageMetaReader.java:235-237 | Always throws UnsupportedOperationException. Nothing changes. |
| `Media.ImageMetaReader.SetDescription` | fotolib2/src/main/java/de/k3b/media/ImageMetaReader.java:275-277 | Always throws UnsupportedOperationException. Nothing changes. |
| `Media.ImageMetaReader.SetTags` | fotolib2/src/main/java/de/k3b/media/ImageMetaReader.java:307-309 | Always throws UnsupportedOperationException. Nothing changes. |
| `Media.ImageMetaReader.SetRating` | fotolib2/src/main/java/de/k3b/media/ImageMetaReader.java:328-330 | Always throws UnsupportedOperationException. Nothing changes. |
| `Media.ReadTitleOf` | fotolib2/src/main/java/de/k3b/media/ImageMetaReader.java:77-115 | A fresh reader gives null when parsing failed. Otherwise its first title read sees exactly the file's directories and the external XMP. |
| `Media.ReloadKeepsLocation` | fotolib2/src/main/java/de/k3b/media/ImageMetaReader.java:418-435 | After a reader is reused for a file without GPS data, the latitude is still the first file's. |

## Left out

- Parsing: the binary EXIF, IPTC, XMP and JPEG-comment parsing belongs to the metadata-extraction library (`JpegMetadataReader.readMetadata`, `Directory.getDescription`/`getInteger`/`getDate`). A parsed file is an abstract `Metadata` input, and a failed parse is `None`. The library's numeric tag ids are replaced by a `Tag` enumeration.
- I/O: the choice between reading an input stream and opening the file by name, and the `IOException` that may propagate from it, are not modelled.
- Library detail: the library may return no `GeoLocation` for a GPS directory that lacks coordinates. The model assumes a GPS directory always yields a location; in that case the source's `init()` would dereference null.
- Foreign code: `MediaXmpSegment` and the external `IMetaApi` are opaque records of what their getters return. Building the segment from the XMP directory is not modelled.
- Opaque values: `Date` and `Double` are opaque, and no arithmetic is done on them. `GeoLocation.isZero` is a flag. The time-zone argument of `getDate` is not modelled.
- `ListUtils.toStringList` is not part of this model; the split pieces are taken as the list unchanged.
- Crashes: a getter called when no metadata was loaded dereferences null in `init()` (line 419). Every `Media.ImageMetaReader` getter that runs `Init` excludes this NullPointerException with `requires metadata.Some?`.
- `Resolution.Tags` and `Media.ImageMetaReader.GetTags`: their requires exclude the NullPointerException of line 292, where a file without an EXIF IFD0 directory is dereferenced unconditionally.
- `Resolution.Rating` and `Media.ImageMetaReader.GetRating`: their requires exclude the NullPointerException of line 323, where the GPS-guarded step reads a missing EXIF directory. This happens through ordinary reuse of a reader: load a file with a non-zero GPS location and call a getter, then load a file with no EXIF IFD0 directory and no GPS directory, such that neither the external XMP nor the embedded XMP held after `init()` has a rating. The embedded XMP held is the new file's, or the earlier file's when the new one has none (lines 430-434); if that one has a rating, line 322 returns it and line 323 is not reached. `init()` keeps the old location (lines 425-428), so `getRating` crashes. `Resolution.StaleGpsReachesMissingExif` proves that this sequence reaches the excluded case.
- `Media.ImageMetaReader.GetOrientationInDegrees`: its requires excludes the NullPointerException of line 334, where the cached EXIF directory is read without running `init()` (no getter ran before it, or the last file had no EXIF IFD0 directory).
- Debugging: the logging, the `DEBUG` flag, `dbg_context` and `DEBUG_ALWAYS_NULL` (a constant `false`, so `isEmpty` is a null test) are not modelled.
- `toString` and `appendValue` (the debug dump) are not modelled, including `toString`'s side effect of building the embedded XMP segment.
- `close` does nothing; it is modelled as a method without effect and without a contract.
- The Android user-interface classes `FotoGalleryActivity` and `VirtualAlbumController` are not part of this model (activity lifecycle, dialogs, file-system checks).

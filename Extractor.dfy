/**
 * What the metadata-extraction library hands to the reader, as abstract inputs.
 * The binary EXIF/IPTC/XMP parsing is not modelled: a parsed file is a record of
 * optional directories, and a directory answers, per tag, with an optional value.
 */
module Extractor {
  import opened Wrappers

  /** A `java.util.Date`, treated as an opaque value. */
  type Date(==)

  /** A `java.lang.Double` (degrees), treated as an opaque value: no arithmetic is done. */
  type Double(==)

  /** The tags the reader asks for. The library's numeric tag ids are not modelled. */
  datatype Tag =
    | DateTimeOriginal   // EXIF IFD0 DateTimeOriginal
    | ImageDescription   // EXIF IFD0 ImageDescription
    | WinTitle           // EXIF IFD0 XPTitle
    | WinComment         // EXIF IFD0 XPComment
    | WinKeywords        // EXIF IFD0 XPKeywords
    | ExifRating         // EXIF IFD0 Rating
    | Orientation        // EXIF IFD0 Orientation
    | Headline           // IPTC Headline
    | Caption            // IPTC Caption-Abstract
    | Comment            // JPEG comment

  /**
   * One directory of a parsed file. Each map holds the tags for which the
   * corresponding library call (`getDescription`, `getInteger`, `getDate`)
   * answers with a non-null value.
   */
  datatype Directory = Directory(
    descriptions: map<Tag, string>,
    integers: map<Tag, int>,
    dates: map<Tag, Date>)
  {
    function GetDescription(tag: Tag): Option<string> {
      if tag in descriptions then Some(descriptions[tag]) else None
    }

    function GetInteger(tag: Tag): Option<int> {
      if tag in integers then Some(integers[tag]) else None
    }

    function GetDate(tag: Tag): Option<Date> {
      if tag in dates then Some(dates[tag]) else None
    }
  }

  /** The library's `GeoLocation`; `isZero` says both coordinates are 0. */
  datatype GeoLocation = GeoLocation(latitude: Double, longitude: Double, isZero: bool)

  /**
   * What an XMP source (the external sidecar or the embedded XMP segment)
   * reports through its getters; each getter may answer null.
   */
  datatype MetaApi = MetaApi(
    dateTimeTaken: Option<Date>,
    latitude: Option<Double>,
    longitude: Option<Double>,
    title: Option<string>,
    description: Option<string>,
    tags: Option<seq<string>>,
    rating: Option<int>)

  /** An XMP source that answers null to every getter. */
  const Silent := MetaApi(None, None, None, None, None, None, None)

  /**
   * A successfully parsed file: the first directory of each kind, if any.
   * `gps` is the location of the GPS directory, `xmp` what the embedded
   * XMP segment built from the XMP directory reports.
   */
  datatype Metadata = Metadata(
    exif: Option<Directory>,
    iptc: Option<Directory>,
    comment: Option<Directory>,
    gps: Option<GeoLocation>,
    xmp: Option<MetaApi>)
}

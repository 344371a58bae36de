/**
 * Field resolution of the image metadata reader. `Sources` is what the reader
 * holds after its initialisation step: the EXIF IFD0, IPTC and JPEG comment
 * directories, the GPS location, the external XMP sidecar and the embedded
 * XMP segment, each possibly absent. Each getter tries its sources in a fixed
 * order through guarded reassignments of a `result` that starts as null, and
 * is proved to return the first present candidate of its chain.
 */
module Resolution {
  import opened Wrappers
  import opened Extractor
  import opened Fallback
  import opened KeywordSplit

  datatype Sources = Sources(
    exif: Option<Directory>,
    gps: Option<GeoLocation>,
    iptc: Option<Directory>,
    comment: Option<Directory>,
    externalXmp: Option<MetaApi>,
    internalXmp: Option<MetaApi>)

  /**
   * The reader's emptiness test: only null counts as empty (its debugging
   * switch that would make every value count as empty is constant off).
   */
  predicate IsEmpty<T>(result: Option<T>): (empty: bool)
    ensures empty <==> result == None
  {
    result.None?
  }

  /** What an optional XMP source reports; an absent source reports nothing. */
  function Report(source: Option<MetaApi>): MetaApi {
    source.GetOr(Silent)
  }

  /**
   * A directory string read: null when the directory is absent or has no
   * value for the tag, and an empty value is turned into null.
   */
  function GetString(directory: Option<Directory>, tag: Tag): (r: Option<string>)
    ensures r != Some([])
    ensures directory.None? ==> r.None?
    ensures r.Some? <==>
      directory.Some? && directory.value.GetDescription(tag).Some? &&
      directory.value.GetDescription(tag).value != []
    ensures r.Some? ==> r == directory.value.GetDescription(tag)
  {
    var result := if directory.Some? then directory.value.GetDescription(tag) else None;
    if result.Some? && |result.value| == 0 then None else result
  }

  // ---------------------------------------------------------------- date taken

  /** Candidates in order: EXIF DateTimeOriginal, external XMP, embedded XMP. */
  function DateTimeTakenChain(s: Sources): seq<Option<Date>> {
    [ if s.exif.Some? then s.exif.value.GetDate(DateTimeOriginal) else None,
      Report(s.externalXmp).dateTimeTaken,
      Report(s.internalXmp).dateTimeTaken ]
  }

  function DateTimeTaken(s: Sources): (r: Option<Date>)
    ensures r == FirstPresent(DateTimeTakenChain(s))
  {
    var r0: Option<Date> := None;
    var r1 := if IsEmpty(r0) && s.exif.Some? then s.exif.value.GetDate(DateTimeOriginal) else r0;
    var r2 := if IsEmpty(r1) && s.externalXmp.Some? then s.externalXmp.value.dateTimeTaken else r1;
    var r3 := if IsEmpty(r2) && s.internalXmp.Some? then s.internalXmp.value.dateTimeTaken else r2;
    FirstPresentStepwise(DateTimeTakenChain(s));
    r3
  }

  // ---------------------------------------------------------- latitude, longitude

  /** Candidates in order: GPS location, external XMP, embedded XMP. */
  function LatitudeChain(s: Sources): seq<Option<Double>> {
    [ if s.gps.Some? then Some(s.gps.value.latitude) else None,
      Report(s.externalXmp).latitude,
      Report(s.internalXmp).latitude ]
  }

  function Latitude(s: Sources): (r: Option<Double>)
    ensures r == FirstPresent(LatitudeChain(s))
  {
    var r0: Option<Double> := None;
    var r1 := if IsEmpty(r0) && s.gps.Some? then Some(s.gps.value.latitude) else r0;
    var r2 := if IsEmpty(r1) && s.externalXmp.Some? then s.externalXmp.value.latitude else r1;
    var r3 := if IsEmpty(r2) && s.internalXmp.Some? then s.internalXmp.value.latitude else r2;
    FirstPresentStepwise(LatitudeChain(s));
    r3
  }

  /** Candidates in order: GPS location, external XMP, embedded XMP. */
  function LongitudeChain(s: Sources): seq<Option<Double>> {
    [ if s.gps.Some? then Some(s.gps.value.longitude) else None,
      Report(s.externalXmp).longitude,
      Report(s.internalXmp).longitude ]
  }

  function Longitude(s: Sources): (r: Option<Double>)
    ensures r == FirstPresent(LongitudeChain(s))
  {
    var r0: Option<Double> := None;
    var r1 := if IsEmpty(r0) && s.gps.Some? then Some(s.gps.value.longitude) else r0;
    var r2 := if IsEmpty(r1) && s.externalXmp.Some? then s.externalXmp.value.longitude else r1;
    var r3 := if IsEmpty(r2) && s.internalXmp.Some? then s.internalXmp.value.longitude else r2;
    FirstPresentStepwise(LongitudeChain(s));
    r3
  }

  /** A GPS location, whenever it is held, decides both coordinates. */
  lemma GpsLocationWins(s: Sources)
    requires s.gps.Some?
    ensures Latitude(s) == Some(s.gps.value.latitude)
    ensures Longitude(s) == Some(s.gps.value.longitude)
  {
  }

  // --------------------------------------------------------------------- title

  /** Candidates in order: external XMP, EXIF XPTitle, embedded XMP, IPTC Headline. */
  function TitleChain(s: Sources): seq<Option<string>> {
    [ Report(s.externalXmp).title,
      GetString(s.exif, WinTitle),
      Report(s.internalXmp).title,
      GetString(s.iptc, Headline) ]
  }

  function Title(s: Sources): (r: Option<string>)
    ensures r == FirstPresent(TitleChain(s))
  {
    var r0: Option<string> := None;
    var r1 := if IsEmpty(r0) && s.externalXmp.Some? then s.externalXmp.value.title else r0;
    var r2 := if IsEmpty(r1) then GetString(s.exif, WinTitle) else r1;
    var r3 := if IsEmpty(r2) && s.internalXmp.Some? then s.internalXmp.value.title else r2;
    var r4 := if IsEmpty(r3) then GetString(s.iptc, Headline) else r3;
    FirstPresentStepwise(TitleChain(s));
    r4
  }

  /** An empty title from the external XMP stops the chain: it is the result. */
  lemma EmptyExternalTitleStopsChain(s: Sources)
    requires Report(s.externalXmp).title == Some([])
    ensures Title(s) == Some([])
  {
  }

  /**
   * An empty title can only come from an XMP source, since directory reads
   * never give an empty string.
   */
  lemma EmptyTitleComesFromXmp(s: Sources)
    requires Title(s) == Some([])
    ensures Report(s.externalXmp).title == Some([]) ||
      (Report(s.externalXmp).title.None? && Report(s.internalXmp).title == Some([]))
  {
  }

  // --------------------------------------------------------------- description

  /**
   * Candidates in order: EXIF ImageDescription, external XMP, EXIF XPComment,
   * embedded XMP, IPTC Caption-Abstract, JPEG comment.
   */
  function DescriptionChain(s: Sources): seq<Option<string>> {
    [ GetString(s.exif, ImageDescription),
      Report(s.externalXmp).description,
      GetString(s.exif, WinComment),
      Report(s.internalXmp).description,
      GetString(s.iptc, Caption),
      GetString(s.comment, Comment) ]
  }

  function Description(s: Sources): (r: Option<string>)
    ensures r == FirstPresent(DescriptionChain(s))
  {
    var r0: Option<string> := None;
    var r1 := if IsEmpty(r0) then GetString(s.exif, ImageDescription) else r0;
    var r2 := if IsEmpty(r1) && s.externalXmp.Some? then s.externalXmp.value.description else r1;
    var r3 := if IsEmpty(r2) then GetString(s.exif, WinComment) else r2;
    var r4 := if IsEmpty(r3) && s.internalXmp.Some? then s.internalXmp.value.description else r3;
    var r5 := if IsEmpty(r4) then GetString(s.iptc, Caption) else r4;
    var r6 := if IsEmpty(r5) then GetString(s.comment, Comment) else r5;
    FirstPresentStepwise(DescriptionChain(s));
    r6
  }

  /**
   * Later description sources are never consulted: two sets of sources whose
   * first k+1 candidates agree, the last of them present, give the same description.
   */
  lemma {:induction false} DescriptionIgnoresLaterSources(s: Sources, t: Sources, k: nat)
    requires k < 6
    requires DescriptionChain(s)[..k + 1] == DescriptionChain(t)[..k + 1]
    requires DescriptionChain(s)[k].Some?
    ensures Description(s) == Description(t)
  {
    FirstPresentIgnoresLater(DescriptionChain(s), DescriptionChain(t), k);
  }

  // ---------------------------------------------------------------------- tags

  /** The XPKeywords value split on ';', when EXIF has one. */
  function KeywordTags(exif: Directory): Option<seq<string>> {
    var value := exif.GetDescription(WinKeywords);
    if value.Some? then Some(JavaSplit(value.value, KeywordSeparator)) else None
  }

  /** Candidates in order: external XMP, EXIF XPKeywords split on ';', embedded XMP. */
  function TagsChain(s: Sources): seq<Option<seq<string>>>
    requires s.exif.Some?
  {
    [ Report(s.externalXmp).tags,
      KeywordTags(s.exif.value),
      Report(s.internalXmp).tags ]
  }

  /** The EXIF directory is read unconditionally, so it must be present. */
  function Tags(s: Sources): (r: Option<seq<string>>)
    requires s.exif.Some?
    ensures r == FirstPresent(TagsChain(s))
  {
    var r0: Option<seq<string>> := None;
    var r1 := if IsEmpty(r0) && s.externalXmp.Some? then s.externalXmp.value.tags else r0;
    var value := s.exif.value.GetDescription(WinKeywords);
    var r2 := if IsEmpty(r1) && value.Some? then Some(JavaSplit(value.value, KeywordSeparator)) else r1;
    var r3 := if IsEmpty(r2) && s.internalXmp.Some? then s.internalXmp.value.tags else r2;
    FirstPresentStepwise(TagsChain(s));
    r3
  }

  /**
   * Without external XMP tags, a present XPKeywords value decides the tags:
   * they are its ';'-separated pieces, none of which contains ';'.
   */
  lemma TagsFromKeywords(s: Sources)
    requires s.exif.Some? && Report(s.externalXmp).tags.None?
    requires s.exif.value.GetDescription(WinKeywords).Some?
    ensures var v := s.exif.value.GetDescription(WinKeywords).value;
      Tags(s) == Some(JavaSplit(v, KeywordSeparator)) &&
      forall i :: 0 <= i < |Tags(s).value| ==> KeywordSeparator !in Tags(s).value[i]
  {
  }

  // -------------------------------------------------------------------- rating

  /**
   * The EXIF rating is reached only with no XMP rating and a GPS location;
   * the EXIF directory is then read without a null check.
   */
  predicate ReachesExifRating(s: Sources) {
    Report(s.externalXmp).rating.None? && Report(s.internalXmp).rating.None? && s.gps.Some?
  }

  /** Candidates in order: external XMP, embedded XMP, EXIF Rating (guarded by the GPS location). */
  function RatingChain(s: Sources): seq<Option<int>> {
    [ Report(s.externalXmp).rating,
      Report(s.internalXmp).rating,
      if s.gps.Some? && s.exif.Some? then s.exif.value.GetInteger(ExifRating) else None ]
  }

  function Rating(s: Sources): (r: Option<int>)
    requires ReachesExifRating(s) ==> s.exif.Some?
    ensures r == FirstPresent(RatingChain(s))
  {
    var r0: Option<int> := None;
    var r1 := if IsEmpty(r0) && s.externalXmp.Some? then s.externalXmp.value.rating else r0;
    var r2 := if IsEmpty(r1) && s.internalXmp.Some? then s.internalXmp.value.rating else r1;
    var r3 := if IsEmpty(r2) && s.gps.Some? then s.exif.value.GetInteger(ExifRating) else r2;
    FirstPresentStepwise(RatingChain(s));
    r3
  }

  /** Without a GPS location the EXIF rating is never consulted, even when present. */
  lemma RatingWithoutGpsIgnoresExif(s: Sources)
    requires s.gps.None?
    ensures Rating(s) == FirstPresent([Report(s.externalXmp).rating, Report(s.internalXmp).rating])
  {
  }

  /** With a GPS location and no XMP rating, the rating is the EXIF Rating tag. */
  lemma RatingWithGpsReadsExif(s: Sources)
    requires ReachesExifRating(s) && s.exif.Some?
    ensures Rating(s) == s.exif.value.GetInteger(ExifRating)
  {
  }

  // --------------------------------------------------------------- orientation

  const OrientationRotate180 := 3
  const OrientationRotate90 := 6
  const OrientationRotate270 := 8

  /** Rotation in degrees for an EXIF Orientation value; 0 when unknown or missing. */
  function OrientationDegrees(orientation: Option<int>): (r: int)
    ensures r in {0, 90, 180, 270}
    ensures r == 90 <==> orientation == Some(6)
    ensures r == 180 <==> orientation == Some(3)
    ensures r == 270 <==> orientation == Some(8)
  {
    if orientation.None? then 0
    else if orientation.value == OrientationRotate90 then 90
    else if orientation.value == OrientationRotate180 then 180
    else if orientation.value == OrientationRotate270 then 270
    else 0
  }

  // ------------------------------------------------------------ initialisation

  /**
   * The sources after the initialisation step over a parsed file, given those
   * held before. The EXIF, IPTC and comment directories are read afresh; a GPS
   * location is taken unless it is zero; an embedded XMP segment is built when
   * the file has XMP. A GPS location or XMP segment held from before is kept
   * when the file has none. The external XMP is left as it is.
   */
  function AfterInit(md: Metadata, prev: Sources): (r: Sources)
    ensures r.exif == md.exif && r.iptc == md.iptc && r.comment == md.comment
    ensures r.externalXmp == prev.externalXmp
    ensures md.gps.Some? && !md.gps.value.isZero ==> r.gps == md.gps
    ensures md.gps.Some? && md.gps.value.isZero ==> r.gps.None?
    ensures md.gps.None? ==> r.gps == prev.gps
    ensures md.xmp.Some? ==> r.internalXmp == md.xmp
    ensures md.xmp.None? ==> r.internalXmp == prev.internalXmp
  {
    var gps :=
      if md.gps.Some? then (if md.gps.value.isZero then None else md.gps)
      else prev.gps;
    var internalXmp := if md.xmp.Some? then md.xmp else prev.internalXmp;
    Sources(md.exif, gps, md.iptc, md.comment, prev.externalXmp, internalXmp)
  }

  /** Initialising twice over the same file is the same as initialising once. */
  lemma AfterInitIdempotent(md: Metadata, prev: Sources)
    ensures AfterInit(md, AfterInit(md, prev)) == AfterInit(md, prev)
  {
  }

  /** A reader that held nothing before, with the given external XMP. */
  function Unset(externalXmp: Option<MetaApi>): Sources {
    Sources(None, None, None, None, externalXmp, None)
  }

  /**
   * On a reader that held nothing before, a zero GPS location counts as no
   * location: the coordinates then come from the XMP sources.
   */
  lemma ZeroGpsTreatedAsAbsent(md: Metadata, externalXmp: Option<MetaApi>)
    requires md.gps.Some? && md.gps.value.isZero
    ensures var s := AfterInit(md, Unset(externalXmp));
      Latitude(s) == FirstPresent([Report(externalXmp).latitude, Report(md.xmp).latitude]) &&
      Longitude(s) == FirstPresent([Report(externalXmp).longitude, Report(md.xmp).longitude])
  {
  }

  /**
   * A location held from an earlier file survives initialisation over a file
   * without GPS data, and then decides the coordinates.
   */
  lemma StaleGpsSurvivesInit(md: Metadata, prev: Sources)
    requires md.gps.None? && prev.gps.Some?
    ensures Latitude(AfterInit(md, prev)) == Some(prev.gps.value.latitude)
  {
  }

  /**
   * A reader reused for a file without EXIF IFD0 or GPS data, after a file with
   * a GPS location, reaches the EXIF Rating step with no EXIF directory when
   * neither the external XMP nor the embedded XMP held after init has a rating.
   */
  lemma StaleGpsReachesMissingExif(md: Metadata, prev: Sources)
    requires md.exif.None? && md.gps.None? && prev.gps.Some?
    requires Report(prev.externalXmp).rating.None?
    requires Report(AfterInit(md, prev).internalXmp).rating.None?
    ensures ReachesExifRating(AfterInit(md, prev)) && AfterInit(md, prev).exif.None?
  {
  }
}

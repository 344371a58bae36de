/**
 * The stateful reader. `Load` records the file name, the external XMP and the
 * parse result; `Init` refreshes the cached directories from the parse result;
 * each getter runs `Init` and then resolves its field over the cached sources.
 */
module Media {
  import opened Wrappers
  import opened Extractor
  import opened Resolution

  /**
   * How a setter of the metadata interface ends: returning the reader for
   * chaining, or throwing. This reader is read-only, so its setters only ever
   * throw; `ReturnedThis` is the interface's normal outcome, which they never give.
   */
  datatype SetterOutcome = ReturnedThis | ThrewUnsupportedOperation

  class ImageMetaReader {
    var filename: Option<string>
    var externalXmp: Option<MetaApi>
    var internalXmp: Option<MetaApi>
    var metadata: Option<Metadata>
    var exifDir: Option<Directory>
    var exifGps: Option<GeoLocation>
    var iptcDir: Option<Directory>
    var commentDir: Option<Directory>

    /** The cached sources the getters read. */
    function View(): Sources
      reads this
    {
      Sources(exifDir, exifGps, iptcDir, commentDir, externalXmp, internalXmp)
    }

    /** A new reader holds nothing. */
    constructor ()
      ensures filename.None? && metadata.None?
      ensures View() == Unset(None)
    {
      filename, externalXmp, internalXmp, metadata := None, None, None, None;
      exifDir, exifGps, iptcDir, commentDir := None, None, None, None;
    }

    /**
     * Records the file and its parse result (`None` when the library failed to
     * parse it). Returns this reader, or null when parsing failed. The cached
     * directories are not touched.
     */
    method Load(name: string, parsed: Option<Metadata>, externalXmpContent: Option<MetaApi>)
      returns (r: ImageMetaReader?)
      modifies this
      ensures filename == Some(name) && metadata == parsed && externalXmp == externalXmpContent
      ensures internalXmp == old(internalXmp) && exifGps == old(exifGps)
      ensures exifDir == old(exifDir) && iptcDir == old(iptcDir) && commentDir == old(commentDir)
      ensures r == null <==> parsed.None?
      ensures r != null ==> r == this
    {
      filename := Some(name);
      externalXmp := externalXmpContent;
      metadata := parsed;
      if parsed.None? {
        return null;
      }
      return this;
    }

    method GetPath() returns (r: Option<string>)
      ensures r == filename
    {
      r := filename;
    }

    /** Refreshes the cached sources from the parse result. */
    method Init()
      requires metadata.Some?
      modifies this
      ensures filename == old(filename) && metadata == old(metadata)
      ensures View() == AfterInit(metadata.value, old(View()))
    {
      var md := metadata.value;
      exifDir := md.exif;
      iptcDir := md.iptc;
      commentDir := md.comment;
      if md.gps.Some? {
        exifGps := md.gps;
        if exifGps.value.isZero {
          exifGps := None;
        }
      }
      if md.xmp.Some? {
        internalXmp := md.xmp;
      }
    }

    method GetDateTimeTaken() returns (r: Option<Date>)
      requires metadata.Some?
      modifies this
      ensures filename == old(filename) && metadata == old(metadata)
      ensures View() == AfterInit(metadata.value, old(View()))
      ensures r == DateTimeTaken(View())
    {
      Init();
      r := DateTimeTaken(View());
    }

    method GetLatitude() returns (r: Option<Double>)
      requires metadata.Some?
      modifies this
      ensures filename == old(filename) && metadata == old(metadata)
      ensures View() == AfterInit(metadata.value, old(View()))
      ensures r == Latitude(View())
    {
      Init();
      r := Latitude(View());
    }

    method GetLongitude() returns (r: Option<Double>)
      requires metadata.Some?
      modifies this
      ensures filename == old(filename) && metadata == old(metadata)
      ensures View() == AfterInit(metadata.value, old(View()))
      ensures r == Longitude(View())
    {
      Init();
      r := Longitude(View());
    }

    method GetTitle() returns (r: Option<string>)
      requires metadata.Some?
      modifies this
      ensures filename == old(filename) && metadata == old(metadata)
      ensures View() == AfterInit(metadata.value, old(View()))
      ensures r == Title(View())
    {
      Init();
      r := Title(View());
    }

    method GetDescription() returns (r: Option<string>)
      requires metadata.Some?
      modifies this
      ensures filename == old(filename) && metadata == old(metadata)
      ensures View() == AfterInit(metadata.value, old(View()))
      ensures r == Description(View())
    {
      Init();
      r := Description(View());
    }

    /** The EXIF directory is dereferenced unconditionally, so the file must have one. */
    method GetTags() returns (r: Option<seq<string>>)
      requires metadata.Some? && metadata.value.exif.Some?
      modifies this
      ensures filename == old(filename) && metadata == old(metadata)
      ensures View() == AfterInit(metadata.value, old(View()))
      ensures r == Tags(View())
    {
      Init();
      r := Tags(View());
    }

    /** The EXIF directory is dereferenced when the GPS-guarded step is reached. */
    method GetRating() returns (r: Option<int>)
      requires metadata.Some?
      requires ReachesExifRating(AfterInit(metadata.value, View())) ==> metadata.value.exif.Some?
      modifies this
      ensures filename == old(filename) && metadata == old(metadata)
      ensures View() == AfterInit(metadata.value, old(View()))
      ensures r == Rating(View())
    {
      Init();
      r := Rating(View());
    }

    /**
     * Reads the cached EXIF directory without refreshing it first, so a
     * directory must already be cached by an earlier getter.
     */
    method GetOrientationInDegrees() returns (r: int)
      requires exifDir.Some?
      ensures r in {0, 90, 180, 270}
      ensures r == OrientationDegrees(exifDir.value.GetInteger(Orientation))
    {
      var orientation := exifDir.value.GetInteger(Orientation);
      r := OrientationDegrees(orientation);
    }

    // The reader is read-only: every setter throws.

    method SetPath(filePath: string) returns (r: SetterOutcome)
      ensures r == ThrewUnsupportedOperation
    {
      r := ThrewUnsupportedOperation;
    }

    method SetDateTimeTaken(value: Option<Date>) returns (r: SetterOutcome)
      ensures r == ThrewUnsupportedOperation
    {
      r := ThrewUnsupportedOperation;
    }

    method SetLatitude(latitude: Option<Double>) returns (r: SetterOutcome)
      ensures r == ThrewUnsupportedOperation
    {
      r := ThrewUnsupportedOperation;
    }

    method SetLongitude(longitude: Option<Double>) returns (r: SetterOutcome)
      ensures r == ThrewUnsupportedOperation
    {
      r := ThrewUnsupportedOperation;
    }

    method SetTitle(title: Option<string>) returns (r: SetterOutcome)
      ensures r == ThrewUnsupportedOperation
    {
      r := ThrewUnsupportedOperation;
    }

    method SetDescription(description: Option<string>) returns (r: SetterOutcome)
      ensures r == ThrewUnsupportedOperation
    {
      r := ThrewUnsupportedOperation;
    }

    method SetTags(tags: Option<seq<string>>) returns (r: SetterOutcome)
      ensures r == ThrewUnsupportedOperation
    {
      r := ThrewUnsupportedOperation;
    }

    method SetRating(value: Option<int>) returns (r: SetterOutcome)
      ensures r == ThrewUnsupportedOperation
    {
      r := ThrewUnsupportedOperation;
    }

    /** Closing releases nothing and changes nothing. */
    method Close() {
    }
  }

  /**
   * A fresh reader over a parsed file: a failed parse gives null; otherwise
   * the first getter sees exactly the file's directories, with a zero GPS
   * location dropped.
   */
  method ReadTitleOf(name: string, parsed: Option<Metadata>, externalXmpContent: Option<MetaApi>)
    returns (title: Option<Option<string>>)
    ensures parsed.None? ==> title.None?
    ensures parsed.Some? ==> title == Some(Title(AfterInit(parsed.value, Unset(externalXmpContent))))
  {
    var reader := new ImageMetaReader();
    var loaded := reader.Load(name, parsed, externalXmpContent);
    if loaded == null {
      return None;
    }
    var t := loaded.GetTitle();
    return Some(t);
  }

  /**
   * Reusing one reader for a second file without GPS data keeps the first
   * file's location: init never clears it.
   */
  method ReloadKeepsLocation(first: Metadata, second: Metadata, loc: GeoLocation)
    returns (latitude: Option<Double>)
    requires first.gps == Some(loc) && !loc.isZero && second.gps.None?
    ensures latitude == Some(loc.latitude)
  {
    var reader := new ImageMetaReader();
    var _ := reader.Load("first.jpg", Some(first), None);
    var _ := reader.GetLatitude();
    var _ := reader.Load("second.jpg", Some(second), None);
    latitude := reader.GetLatitude();
  }
}

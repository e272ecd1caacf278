/**
 * The metadata readers of the processing pool: GPS latitude, longitude and
 * altitude with their reference-sign correction (the GPS attribute tags of
 * Exif, CIPA DC-008 section 4.6.6), the GPS date and time and capture
 * date-time texts, and the pixel width and height read from an external
 * tool's output.
 *
 * The EXIF parser is a foreign library: its result is taken as a tag table
 * mapping each tag of the primary image to the field's value and the text
 * the library displays for it. A RATIONAL component is taken as the real
 * number it denotes.
 */
module ExifReaders {
  import opened Wrappers
  import opened Text

  datatype Tag =
    | GPSLatitude | GPSLatitudeRef
    | GPSLongitude | GPSLongitudeRef
    | GPSAltitude | GPSAltitudeRef
    | GPSDateStamp | GPSTimeStamp
    | DateTime

  /** A field's value: a vector of RATIONAL components, or a value of another type. */
  datatype Value = Rational(parts: seq<real>) | OtherValue

  /** A field of the primary image: its value and its displayed text. */
  datatype Field = Field(value: Value, display: string)

  /** The parsed EXIF segment of one file. */
  type Exif = map<Tag, Field>

  /** The metadata computed for one photo. */
  datatype ExifMetadata = ExifMetadata(
    latitude: real,
    longitude: real,
    altitude: real,
    gpsDate: string,
    gpsTime: string,
    datetime: string,
    width: u32,
    height: u32)

  function GetField(exif: Exif, tag: Tag): Option<Field> {
    if tag in exif then Some(exif[tag]) else None
  }

  /** The tag is present and its displayed text is exactly `text`. */
  predicate Displays(exif: Exif, tag: Tag, text: string) {
    tag in exif && exif[tag].display == text
  }

  /**
   * The coordinate readers only check that a RATIONAL vector is non-empty
   * before reading its components 0, 1 and 2; a vector of one or two
   * components would be read out of bounds. This is their precondition.
   */
  predicate DmsReadable(exif: Exif, tag: Tag) {
    tag in exif && exif[tag].value.Rational? && exif[tag].value.parts != [] ==> |exif[tag].value.parts| >= 3
  }

  /** Degrees, minutes and seconds combined into degrees. */
  function Dms(d: real, m: real, s: real): real {
    d + m / 60.0 + s / 3600.0
  }

  /** The unsigned coordinate: 0 for an absent tag, a non-RATIONAL value or an empty vector. */
  function Coordinate(exif: Exif, tag: Tag): (r: real)
    requires DmsReadable(exif, tag)
    ensures (tag !in exif || !exif[tag].value.Rational? || exif[tag].value.parts == []) ==> r == 0.0
    ensures tag in exif && exif[tag].value.Rational? && |exif[tag].value.parts| >= 3 ==>
      var v := exif[tag].value.parts; r == Dms(v[0], v[1], v[2])
  {
    match GetField(exif, tag)
    case Some(Field(Rational(v), _)) =>
      if v != [] then Dms(v[0], v[1], v[2]) else 0.0
    case _ => 0.0
  }

  /**
   * The latitude reference after normalisation: "S" when the field displays
   * "S", "N" for "N", for any other text, and when the tag is absent.
   */
  function LatitudeRef(exif: Exif): (r: string)
    ensures r == "N" || r == "S"
    ensures r == "S" <==> Displays(exif, GPSLatitudeRef, "S")
  {
    match GetField(exif, GPSLatitudeRef)
    case Some(field) =>
      if field.display == "N" then "N" else if field.display == "S" then "S" else "N"
    case None => "N"
  }

  /**
   * The longitude reference after normalisation: "W" when the field displays
   * "W", "E" for "E", for any other text, and when the tag is absent.
   */
  function LongitudeRef(exif: Exif): (r: string)
    ensures r == "E" || r == "W"
    ensures r == "W" <==> Displays(exif, GPSLongitudeRef, "W")
  {
    match GetField(exif, GPSLongitudeRef)
    case Some(field) =>
      if field.display == "E" then "E" else if field.display == "W" then "W" else "E"
    case None => "E"
  }

  /**
   * The altitude reference after normalisation: "below sea level" when the
   * field displays exactly that, "above sea level" otherwise and when the tag
   * is absent.
   */
  function AltitudeRef(exif: Exif): (r: string)
    ensures r == "above sea level" || r == "below sea level"
    ensures r == "below sea level" <==> Displays(exif, GPSAltitudeRef, "below sea level")
  {
    match GetField(exif, GPSAltitudeRef)
    case Some(field) =>
      if field.display == "above sea level" then "above sea level"
      else if field.display == "below sea level" then "below sea level"
      else "above sea level"
    case None => "above sea level"
  }

  /** Latitude in signed degrees: south is negative. */
  function ReadLatitude(exif: Exif): (r: real)
    requires DmsReadable(exif, GPSLatitude)
    ensures Displays(exif, GPSLatitudeRef, "S") ==> r == -Coordinate(exif, GPSLatitude)
    ensures !Displays(exif, GPSLatitudeRef, "S") ==> r == Coordinate(exif, GPSLatitude)
  {
    var latitude := Coordinate(exif, GPSLatitude);
    if LatitudeRef(exif) == "S" then latitude * -1.0 else latitude
  }

  /** Longitude in signed degrees: west is negative. */
  function ReadLongitude(exif: Exif): (r: real)
    requires DmsReadable(exif, GPSLongitude)
    ensures Displays(exif, GPSLongitudeRef, "W") ==> r == -Coordinate(exif, GPSLongitude)
    ensures !Displays(exif, GPSLongitudeRef, "W") ==> r == Coordinate(exif, GPSLongitude)
  {
    var longitude := Coordinate(exif, GPSLongitude);
    if LongitudeRef(exif) == "W" then longitude * -1.0 else longitude
  }

  /** The unsigned altitude: the first RATIONAL component only, 0 when there is none. */
  function Altitude(exif: Exif): (r: real)
    ensures (GPSAltitude !in exif || !exif[GPSAltitude].value.Rational? || exif[GPSAltitude].value.parts == []) ==> r == 0.0
    ensures GPSAltitude in exif && exif[GPSAltitude].value.Rational? && exif[GPSAltitude].value.parts != []
            ==> r == exif[GPSAltitude].value.parts[0]
  {
    match GetField(exif, GPSAltitude)
    case Some(Field(Rational(v), _)) => if v != [] then v[0] else 0.0
    case _ => 0.0
  }

  /** Altitude in metres: below sea level is negative. */
  function ReadAltitude(exif: Exif): (r: real)
    ensures Displays(exif, GPSAltitudeRef, "below sea level") ==> r == -Altitude(exif)
    ensures !Displays(exif, GPSAltitudeRef, "below sea level") ==> r == Altitude(exif)
  {
    var altitude := Altitude(exif);
    if AltitudeRef(exif) == "below sea level" then altitude * -1.0 else altitude
  }

  /** The displayed text of a tag, or the empty string when the tag is absent. */
  function ReadDisplayed(exif: Exif, tag: Tag): (r: string)
    ensures tag in exif ==> r == exif[tag].display
    ensures tag !in exif ==> r == ""
  {
    match GetField(exif, tag)
    case Some(field) => field.display
    case None => ""
  }

  function ReadGpsDate(exif: Exif): (r: string)
    ensures GPSDateStamp in exif ==> r == exif[GPSDateStamp].display
    ensures GPSDateStamp !in exif ==> r == ""
  {
    ReadDisplayed(exif, GPSDateStamp)
  }

  function ReadGpsTime(exif: Exif): (r: string)
    ensures GPSTimeStamp in exif ==> r == exif[GPSTimeStamp].display
    ensures GPSTimeStamp !in exif ==> r == ""
  {
    ReadDisplayed(exif, GPSTimeStamp)
  }

  function ReadExifDatetime(exif: Exif): (r: string)
    ensures DateTime in exif ==> r == exif[DateTime].display
    ensures DateTime !in exif ==> r == ""
  {
    ReadDisplayed(exif, DateTime)
  }

  const U32Limit: nat := 0x1_0000_0000

  /**
   * Parsing text as an unsigned 32-bit integer: an optional leading '+', then
   * one or more decimal digits (leading zeros allowed), with a value that
   * fits in 32 bits. No sign '-', no whitespace.
   */
  function ParseU32(s: string): (r: Option<u32>)
    ensures r.Some? ==> s != [] && AllDigits(if s[0] == '+' then s[1..] else s)
  {
    var digits := if |s| > 0 && s[0] == '+' then s[1..] else s;
    if digits == [] || !AllDigits(digits) then None
    else if DigitsValue(digits) < U32Limit then Some(DigitsValue(digits))
    else None
  }

  /**
   * A dimension read from the tool's output: the output parsed as an
   * unsigned 32-bit integer, or 0 when it does not parse (including empty
   * output).
   */
  function ReadDimension(stdout: string): (r: u32)
    ensures ParseU32(stdout).Some? ==> r == ParseU32(stdout).value
    ensures ParseU32(stdout).None? ==> r == 0
  {
    ParseU32(stdout).GetOr(0)
  }

  /** The metadata record of one photo, from its tag table and the two tool outputs. */
  function ReadMetadata(exif: Exif, widthStdout: string, heightStdout: string): (m: ExifMetadata)
    requires DmsReadable(exif, GPSLatitude) && DmsReadable(exif, GPSLongitude)
    ensures m.latitude == ReadLatitude(exif) && m.longitude == ReadLongitude(exif)
    ensures m.altitude == ReadAltitude(exif)
    ensures m.gpsDate == ReadGpsDate(exif) && m.gpsTime == ReadGpsTime(exif)
    ensures m.datetime == ReadExifDatetime(exif)
    ensures m.width == ReadDimension(widthStdout) && m.height == ReadDimension(heightStdout)
  {
    ExifMetadata(
      ReadLatitude(exif), ReadLongitude(exif), ReadAltitude(exif),
      ReadGpsDate(exif), ReadGpsTime(exif), ReadExifDatetime(exif),
      ReadDimension(widthStdout), ReadDimension(heightStdout))
  }

  // ----- Properties -----

  /** Latitude from a three-component vector: d + m/60 + s/3600, negated exactly when the reference displays "S". */
  lemma LatitudeFromDms(exif: Exif, d: real, m: real, s: real, rest: seq<real>)
    requires GPSLatitude in exif && exif[GPSLatitude].value == Rational([d, m, s] + rest)
    ensures ReadLatitude(exif) == if Displays(exif, GPSLatitudeRef, "S") then -Dms(d, m, s) else Dms(d, m, s)
  {
    var v := [d, m, s] + rest;
    assert v[0] == d && v[1] == m && v[2] == s;
  }

  /** Longitude from a three-component vector, negated exactly when the reference displays "W". */
  lemma LongitudeFromDms(exif: Exif, d: real, m: real, s: real, rest: seq<real>)
    requires GPSLongitude in exif && exif[GPSLongitude].value == Rational([d, m, s] + rest)
    ensures ReadLongitude(exif) == if Displays(exif, GPSLongitudeRef, "W") then -Dms(d, m, s) else Dms(d, m, s)
  {
    var v := [d, m, s] + rest;
    assert v[0] == d && v[1] == m && v[2] == s;
  }

  /** A reference that is not exactly "S" (lower case "s", "South", "N", absent) never negates. */
  lemma LatitudeNonNegativeUnlessSouth(exif: Exif)
    requires DmsReadable(exif, GPSLatitude)
    requires GPSLatitude in exif && exif[GPSLatitude].value.Rational?
    requires forall i | 0 <= i < |exif[GPSLatitude].value.parts| :: exif[GPSLatitude].value.parts[i] >= 0.0
    ensures ReadLatitude(exif) < 0.0 ==> Displays(exif, GPSLatitudeRef, "S")
  {
  }

  /** Ten degrees thirty minutes: (10, 30, 0) reads as 10.5 degrees, and as -10.5 in the south. */
  lemma LatitudeExample(exif: Exif)
    requires GPSLatitude in exif && exif[GPSLatitude].value == Rational([10.0, 30.0, 0.0])
    ensures Displays(exif, GPSLatitudeRef, "S") ==> ReadLatitude(exif) == -10.5
    ensures !Displays(exif, GPSLatitudeRef, "S") ==> ReadLatitude(exif) == 10.5
  {
    LatitudeFromDms(exif, 10.0, 30.0, 0.0, []);
  }

  /** Altitude 5 below sea level is -5; with any other or no reference it is 5. */
  lemma AltitudeExample(exif: Exif)
    requires GPSAltitude in exif && exif[GPSAltitude].value == Rational([5.0])
    ensures Displays(exif, GPSAltitudeRef, "below sea level") ==> ReadAltitude(exif) == -5.0
    ensures !Displays(exif, GPSAltitudeRef, "below sea level") ==> ReadAltitude(exif) == 5.0
  {
  }

  /** Any rendered 32-bit number parses back to itself. */
  lemma ParseU32RoundTrip(n: u32)
    ensures ParseU32(Decimal(n)) == Some(n)
    ensures ParseU32("+" + Decimal(n)) == Some(n)
  {
    DecimalRoundTrip(n);
    assert ("+" + Decimal(n))[1..] == Decimal(n);
  }

  /** A number of 2^32 or more does not fit and reads as 0. */
  lemma ReadDimensionOverflow(n: nat)
    requires n >= U32Limit
    ensures ReadDimension(Decimal(n)) == 0
  {
    DecimalRoundTrip(n);
  }

  /** A dimension the tool prints is read back unchanged; a trailing newline makes it 0. */
  lemma ReadDimensionOfOutput(n: u32)
    ensures ReadDimension(Decimal(n)) == n
    ensures ReadDimension(Decimal(n) + "\n") == 0
  {
    ParseU32RoundTrip(n);
    var s := Decimal(n) + "\n";
    assert s[0] == Decimal(n)[0] && !IsDigit(s[|s| - 1]);
  }

  /** A file whose tag table is empty and whose tool outputs are empty gives the all-default record. */
  lemma EmptyTableDefaults()
    ensures ReadMetadata(map[], "", "") == ExifMetadata(0.0, 0.0, 0.0, "", "", "", 0, 0)
  {
  }
}

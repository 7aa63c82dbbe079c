/** The Earth imagery normaliser: selection of the latest image or the whole
    series from an EPIC API response, and construction of archive image URLs. */
module Epic {
  import opened Wrappers
  import opened Text

  /** The imagery variant to fetch. */
  datatype Collection = Natural | Enhanced | Aerosol | Cloud

  function CollectionValue(c: Collection): string {
    match c
    case Natural => "natural"
    case Enhanced => "enhanced"
    case Aerosol => "aerosol"
    case Cloud => "cloud"
  }

  /** The image resolution, which is also the file extension. */
  datatype ImageType = Png | Jpg | Thumbs

  function ImageTypeValue(t: ImageType): string {
    match t
    case Png => "png"
    case Jpg => "jpg"
    case Thumbs => "thumbs"
  }

  /** Floating-point payloads of an item, copied through unchanged. */
  datatype Vector3 = Vector3(x: real, y: real, z: real)

  datatype Quaternion = Quaternion(q0: real, q1: real, q2: real, q3: real)

  datatype Position = Position(
    centroidLat: real,
    centroidLon: real,
    dscovr: Vector3,
    lunar: Vector3,
    sun: Vector3,
    attitude: Quaternion)

  /** One item of the provider's response: the image file name, its date as
      "YYYY-MM-DD HH:MM:SS", and its position data. */
  datatype EpicItem = EpicItem(image: string, date: string, position: Position)

  /** One normalised image record. */
  datatype EarthImage = EarthImage(image: string, timestamp: int, position: Position)

  const ApiBase: string := "https://epic.gsfc.nasa.gov/api/"
  const ArchiveBase: string := "https://epic.gsfc.nasa.gov/archive/"

  /** The provider URL: the collection, scoped to a day when a date is given. */
  function ApiUrl(collection: Collection, imageDate: Option<string>): (url: string)
    ensures StartsWith(url, ApiBase + CollectionValue(collection))
    ensures imageDate.None? ==> url == ApiBase + CollectionValue(collection)
    ensures imageDate.Some? ==> url == ApiBase + CollectionValue(collection) + "/date/" + imageDate.value
  {
    var base := ApiBase + CollectionValue(collection);
    assert (base + "/date/")[..|base|] == base;
    match imageDate
    case None => base
    case Some(d) =>
      assert (base + "/date/" + d)[..|base|] == base;
      base + "/date/" + d
  }

  /** The year, month and day fields of an item's date: the fixed slices
      [0:4], [5:7] and [8:10] of the date string. */
  function DateFields(date: string): (string, string, string) {
    (Slice(date, 0, 4), Slice(date, 5, 7), Slice(date, 8, 10))
  }

  /** For a date in "YYYY-MM-DD..." form the three fields, rejoined with
      dashes, give back the date part of the string. */
  lemma {:induction false} DateFieldsRoundTrip(date: string)
    requires |date| >= 10 && date[4] == '-' && date[7] == '-'
    ensures DateFields(date).0 + "-" + DateFields(date).1 + "-" + DateFields(date).2 == date[..10]
  {
    var (y, m, d) := DateFields(date);
    assert y == date[..4] && m == date[5..7] && d == date[8..10];
    assert date[..10] == date[..4] + [date[4]] + date[5..7] + [date[7]] + date[8..10];
  }

  /** The archive URL of an image:
      archive/{collection}/{year}/{month}/{day}/{type}/{file}.{type}. */
  function ArchiveUrl(collection: Collection, imageType: ImageType, item: EpicItem): (url: string)
    ensures StartsWith(url, ArchiveBase + CollectionValue(collection) + "/")
    ensures Contains(url, "/" + ImageTypeValue(imageType) + "/")
    ensures Contains(url, "." + ImageTypeValue(imageType))
    ensures url == ArchiveBase + CollectionValue(collection) + "/"
                   + DateFields(item.date).0 + "/" + DateFields(item.date).1 + "/" + DateFields(item.date).2
                   + "/" + ImageTypeValue(imageType) + "/" + item.image + "." + ImageTypeValue(imageType)
  {
    var (year, month, day) := DateFields(item.date);
    var c := CollectionValue(collection);
    var t := ImageTypeValue(imageType);
    var head := ArchiveBase + c + "/";
    var middle := head + year + "/" + month + "/" + day;
    var url := middle + "/" + t + "/" + item.image + "." + t;
    assert url[..|head|] == head;
    assert OccursAt(url, "/" + t + "/", |middle|);
    assert OccursAt(url, "." + t, |middle| + |t| + 2 + |item.image|);
    url
  }

  /** For an item dated "YYYY-MM-DD...", the archive path holds the year,
      month and day of that date as three segments, which rejoined with
      dashes give back the date. */
  lemma ArchiveUrlOfDate(collection: Collection, imageType: ImageType, item: EpicItem)
    requires |item.date| >= 10 && item.date[4] == '-' && item.date[7] == '-'
    ensures ArchiveUrl(collection, imageType, item)
         == ArchiveBase + CollectionValue(collection) + "/"
            + item.date[..4] + "/" + item.date[5..7] + "/" + item.date[8..10]
            + "/" + ImageTypeValue(imageType) + "/" + item.image + "." + ImageTypeValue(imageType)
    ensures DateFields(item.date).0 + "-" + DateFields(item.date).1 + "-" + DateFields(item.date).2 == item.date[..10]
  {
    DateFieldsRoundTrip(item.date);
  }

  /** How the source's f-strings render a member of these plain (not
      string-valued) enumerations: the class name, a dot and the member name. */
  function QualifiedCollection(c: Collection): string {
    "EPICAPICollectionType." + Upper(CollectionValue(c))
  }

  function QualifiedImageType(t: ImageType): string {
    "EPICAPIImageType." + Upper(ImageTypeValue(t))
  }

  /** The provider URL as the source writes it, interpolating the enumeration
      member itself rather than its value. */
  function ApiUrlAsWritten(collection: Collection, imageDate: Option<string>): string {
    var base := ApiBase + QualifiedCollection(collection);
    match imageDate
    case None => base
    case Some(d) => base + "/date/" + d
  }

  /** The archive URL as the source writes it, with both members interpolated
      as qualified names. */
  function ArchiveUrlAsWritten(collection: Collection, imageType: ImageType, item: EpicItem): string {
    ArchiveBase + QualifiedCollection(collection) + ArchiveTail(QualifiedImageType(imageType), item)
  }

  /** The part of an archive URL after the collection: /{year}/{month}/{day}/{type}/{file}.{type}. */
  function ArchiveTail(t: string, item: EpicItem): string {
    var (year, month, day) := DateFields(item.date);
    "/" + year + "/" + month + "/" + day + "/" + t + "/" + item.image + "." + t
  }

  /** A URL whose character right after `base` is the upper-case 'E' of a
      class name cannot start with a prefix that has a lower-case letter there. */
  lemma {:induction false} QualifiedNameBreaksPrefix(url: string, base: string, prefix: string)
    requires |url| > |base| && url[|base|] == 'E'
    requires |prefix| > |base| && IsLowerLetter(prefix[|base|])
    ensures !StartsWith(url, prefix)
  {
  }

  /** The provider URL as written never starts with the collection's value
      after the base, so it never equals the intended URL. */
  lemma {:induction false} ApiUrlAsWrittenMisses(collection: Collection, imageDate: Option<string>)
    ensures !StartsWith(ApiUrlAsWritten(collection, imageDate), ApiBase + CollectionValue(collection))
    ensures ApiUrlAsWritten(collection, imageDate) != ApiUrl(collection, imageDate)
  {
    var q := QualifiedCollection(collection);
    var v := CollectionValue(collection);
    var written := ApiUrlAsWritten(collection, imageDate);
    assert written[..|ApiBase + q|] == ApiBase + q;
    assert written[|ApiBase|] == (ApiBase + q)[|ApiBase|] == 'E';
    assert (ApiBase + v)[|ApiBase|] == v[0];
    QualifiedNameBreaksPrefix(written, ApiBase, ApiBase + v);
  }

  /** Likewise the archive URL as written: the intended one starts with the
      collection's value and a slash after the archive base, the written one does not. */
  lemma {:induction false} ArchiveUrlAsWrittenMisses(collection: Collection, imageType: ImageType, item: EpicItem)
    ensures !StartsWith(ArchiveUrlAsWritten(collection, imageType, item), ArchiveBase + CollectionValue(collection) + "/")
    ensures ArchiveUrlAsWritten(collection, imageType, item) != ArchiveUrl(collection, imageType, item)
  {
    var q := QualifiedCollection(collection);
    var v := CollectionValue(collection);
    var archive := ArchiveUrlAsWritten(collection, imageType, item);
    assert archive[|ArchiveBase|] == q[0] == 'E';
    assert (ArchiveBase + v + "/")[|ArchiveBase|] == v[0];
    QualifiedNameBreaksPrefix(archive, ArchiveBase, ArchiveBase + v + "/");
  }

  /** The normalised record of one item; `epoch` stands for parsing the date
      as UTC and taking its epoch seconds. */
  function ToImage(collection: Collection, imageType: ImageType, epoch: string -> int, item: EpicItem): EarthImage {
    EarthImage(ArchiveUrl(collection, imageType, item), epoch(item.date), item.position)
  }

  /** `get_EPIC_API_images`: fetch the collection (for one day when a date is
      given); a failed or empty response gives no images; otherwise build one
      record per item for a series, or one record from the last (latest) item. */
  function EpicImages(
    collection: Collection,
    series: bool,
    imageType: ImageType,
    imageDate: Option<string>,
    fetch: string -> Option<seq<EpicItem>>,
    epoch: string -> int): (r: seq<EarthImage>)
    ensures
      var res := fetch(ApiUrl(collection, imageDate));
      && (res.None? || res.value == [] <==> r == [])
      && (res.Some? && res.value != [] && !series ==>
            r == [ToImage(collection, imageType, epoch, res.value[|res.value| - 1])])
      && (res.Some? && series ==>
            |r| == |res.value| &&
            forall i :: 0 <= i < |r| ==> r[i] == ToImage(collection, imageType, epoch, res.value[i]))
    ensures forall i :: 0 <= i < |r| ==> StartsWith(r[i].image, ArchiveBase + CollectionValue(collection) + "/")
  {
    var res := fetch(ApiUrl(collection, imageDate));
    if res.None? || res.value == [] then
      []
    else
      var items := if series then res.value else [res.value[|res.value| - 1]];
      seq(|items|, i requires 0 <= i < |items| => ToImage(collection, imageType, epoch, items[i]))
  }

  /** A series never has fewer images than the single latest image of the same query. */
  lemma SeriesAtLeastLatest(
    collection: Collection,
    imageType: ImageType,
    imageDate: Option<string>,
    fetch: string -> Option<seq<EpicItem>>,
    epoch: string -> int)
    ensures |EpicImages(collection, true, imageType, imageDate, fetch, epoch)|
         >= |EpicImages(collection, false, imageType, imageDate, fetch, epoch)|
  {
  }

  /** A provider call that fails (the handler's empty list) or returns nothing
      gives no images, whatever the other parameters. */
  lemma FailedFetchGivesNothing(
    collection: Collection,
    series: bool,
    imageType: ImageType,
    imageDate: Option<string>,
    fetch: string -> Option<seq<EpicItem>>,
    epoch: string -> int)
    requires fetch(ApiUrl(collection, imageDate)) == None || fetch(ApiUrl(collection, imageDate)) == Some([])
    ensures EpicImages(collection, series, imageType, imageDate, fetch, epoch) == []
  {
  }
}

/** The rover photo normaliser in its two revisions: the newer one queries
    every rover and filters the returned items by camera; the older one (the
    revision the HTTP routes use) first intersects the requested cameras with
    each rover's cameras and skips a rover whose intersection is empty. */
module MarsPhotos {
  import opened Wrappers
  import opened Text
  import Seqs
  import Rovers
  import Catalog

  /** One item of a provider photo response. */
  datatype PhotoItem = PhotoItem(
    cameraName: string,
    cameraFullName: string,
    roverName: string,
    imgSrc: string,
    earthDate: string,
    sol: int)

  /** One normalised photo record. */
  datatype MarsImage = MarsImage(
    roverName: string,
    camera: Catalog.Camera,
    image: string,
    earthDate: string,
    sol: int)

  datatype Endpoint = Photos | LatestPhotos

  /** One provider request: a rover, an endpoint and the date/sol parameters. */
  datatype PhotoQuery = PhotoQuery(
    rover: Rovers.RoverType,
    endpoint: Endpoint,
    earthDate: Option<string>,
    sol: Option<nat>)

  /** The latest photos are requested exactly when neither an earth date nor a sol is given. */
  function ChooseEndpoint(earthDate: Option<string>, sol: Option<nat>): (e: Endpoint)
    ensures e == LatestPhotos <==> earthDate.None? && sol.None?
  {
    if earthDate.None? && sol.None? then LatestPhotos else Photos
  }

  function Query(rover: Rovers.RoverType, earthDate: Option<string>, sol: Option<nat>): PhotoQuery {
    PhotoQuery(rover, ChooseEndpoint(earthDate, sol), earthDate, sol)
  }

  /** The record of an item; its camera is taken from the item as reported. */
  function ToImage(item: PhotoItem): MarsImage {
    MarsImage(item.roverName, Catalog.Camera(item.cameraName, item.cameraFullName),
              item.imgSrc, item.earthDate, item.sol)
  }

  function ToImages(items: seq<PhotoItem>): (r: seq<MarsImage>)
    ensures |r| == |items|
    ensures forall i :: 0 <= i < |items| ==> r[i] == ToImage(items[i])
  {
    seq(|items|, i requires 0 <= i < |items| => ToImage(items[i]))
  }

  /** A camera filter is in force when a non-empty camera set is given
      (Python treats `None` and an empty set alike). */
  predicate Requested(cameras: Option<set<Catalog.CameraType>>) {
    cameras.Some? && cameras.value != {}
  }

  /** The newer revision's filter: keep an item unless a filter is in force
      and the item's camera, lower-cased, is not among the requested values. */
  predicate KeepItem(cameras: Option<set<Catalog.CameraType>>, item: PhotoItem) {
    !Requested(cameras) || Lower(item.cameraName) in Catalog.CameraValues(cameras.value)
  }

  function KeepItems(cameras: Option<set<Catalog.CameraType>>): PhotoItem -> bool {
    item => KeepItem(cameras, item)
  }

  /** An output record satisfies the requested camera filter. */
  predicate MatchesCameras(cameras: Option<set<Catalog.CameraType>>, image: MarsImage) {
    !Requested(cameras) || Lower(image.camera.short) in Catalog.CameraValues(cameras.value)
  }

  function MatchingCameras(cameras: Option<set<Catalog.CameraType>>): MarsImage -> bool {
    image => MatchesCameras(cameras, image)
  }

  /** The camera filter applied to finished records. */
  function FilterImages(images: seq<MarsImage>, cameras: Option<set<Catalog.CameraType>>): seq<MarsImage> {
    Seqs.Filter(images, MatchingCameras(cameras))
  }

  /** The records of the items that pass a filter, in provider order: each is
      the record of a passing item, and no passing item is missing. */
  function KeptImages(items: seq<PhotoItem>, keep: PhotoItem -> bool): (r: seq<MarsImage>)
    ensures forall k :: 0 <= k < |r| ==> exists j :: 0 <= j < |items| && keep(items[j]) && r[k] == ToImage(items[j])
    ensures forall j :: 0 <= j < |items| && keep(items[j]) ==> ToImage(items[j]) in r
  {
    var kept := Seqs.Filter(items, keep);
    var r := ToImages(kept);
    assert forall k :: 0 <= k < |r| ==> kept[k] in items && keep(kept[k]);
    assert forall j :: 0 <= j < |items| && keep(items[j]) ==> ToImage(items[j]) in r by {
      forall j | 0 <= j < |items| && keep(items[j])
        ensures ToImage(items[j]) in r
      {
        var k :| 0 <= k < |kept| && kept[k] == items[j];
        assert r[k] == ToImage(items[j]);
      }
    }
    r
  }

  /** `ToImages` distributes over concatenation. */
  lemma ToImagesAppend(a: seq<PhotoItem>, b: seq<PhotoItem>)
    ensures ToImages(a + b) == ToImages(a) + ToImages(b)
  {
  }

  /** The kept records of two item lists in turn are the kept records of
      their concatenation: selection keeps provider order. */
  lemma KeptImagesAppend(a: seq<PhotoItem>, b: seq<PhotoItem>, keep: PhotoItem -> bool)
    ensures KeptImages(a + b, keep) == KeptImages(a, keep) + KeptImages(b, keep)
  {
    Seqs.FilterAppend(a, b, keep);
    ToImagesAppend(Seqs.Filter(a, keep), Seqs.Filter(b, keep));
  }

  /** No items give no records, and one item gives its record exactly when it
      passes. With `KeptImagesAppend` this determines `KeptImages` on every list. */
  lemma KeptImagesBase(item: PhotoItem, keep: PhotoItem -> bool)
    ensures KeptImages([], keep) == []
    ensures KeptImages([item], keep) == if keep(item) then [ToImage(item)] else []
  {
    assert [item][1..] == [];
  }

  /** One rover's share of the newer revision: query the chosen endpoint and
      keep, in provider order, the items that pass the camera filter. A failed
      query raises. */
  function RoverPhotos(
    rover: Rovers.RoverType,
    cameras: Option<set<Catalog.CameraType>>,
    earthDate: Option<string>,
    sol: Option<nat>,
    fetch: PhotoQuery -> Option<seq<PhotoItem>>): (r: Result<seq<MarsImage>, Catalog.Error>)
    ensures r.Success? <==> fetch(Query(rover, earthDate, sol)).Some?
    ensures r.Failure? ==> r.error == Catalog.ProviderFailure(Rovers.Value(rover))
    ensures r.Success? ==> forall k :: 0 <= k < |r.value| ==> MatchesCameras(cameras, r.value[k])
    ensures r.Success? ==> forall item :: item in fetch(Query(rover, earthDate, sol)).value && KeepItem(cameras, item) ==>
      ToImage(item) in r.value
    ensures r.Success? ==> r.value == KeptImages(fetch(Query(rover, earthDate, sol)).value, KeepItems(cameras))
  {
    match fetch(Query(rover, earthDate, sol))
    case None => Failure(Catalog.ProviderFailure(Rovers.Value(rover)))
    case Some(items) =>
      Success(KeptImages(items, KeepItems(cameras)))
  }

  /** Every kept record comes from a passing item at some position of the
      input list. */
  lemma KeptImagesFrom(items: seq<PhotoItem>, keep: PhotoItem -> bool, k: nat)
    requires k < |KeptImages(items, keep)|
    ensures exists j :: 0 <= j < |items| && keep(items[j]) && KeptImages(items, keep)[k] == ToImage(items[j])
  {
    var kept := Seqs.Filter(items, keep);
    assert kept[k] in items && keep(kept[k]);
    var j :| 0 <= j < |items| && items[j] == kept[k];
  }

  /** The camera filter's records, each traced back to a passing item. */
  lemma KeptByCameras(items: seq<PhotoItem>, cameras: Option<set<Catalog.CameraType>>, k: nat)
    requires k < |KeptImages(items, KeepItems(cameras))|
    ensures exists j :: 0 <= j < |items| && KeepItem(cameras, items[j]) && KeptImages(items, KeepItems(cameras))[k] == ToImage(items[j])
  {
    KeptImagesFrom(items, KeepItems(cameras), k);
    var j :| 0 <= j < |items| && KeepItems(cameras)(items[j]) && KeptImages(items, KeepItems(cameras))[k] == ToImage(items[j]);
    assert KeepItem(cameras, items[j]);
  }

  function PhotoStep(
    cameras: Option<set<Catalog.CameraType>>,
    earthDate: Option<string>,
    sol: Option<nat>,
    fetch: PhotoQuery -> Option<seq<PhotoItem>>): Rovers.RoverType -> Result<seq<MarsImage>, Catalog.Error>
  {
    rover => RoverPhotos(rover, cameras, earthDate, sol, fetch)
  }

  /** `get_mars_photo_API_images` (newer revision): every rover's share, in
      rover iteration order; the first failed query raises. */
  function PhotoImages(
    rovers: seq<Rovers.RoverType>,
    cameras: Option<set<Catalog.CameraType>>,
    earthDate: Option<string>,
    sol: Option<nat>,
    fetch: PhotoQuery -> Option<seq<PhotoItem>>): (r: Result<seq<MarsImage>, Catalog.Error>)
    ensures r.Success? <==> forall i :: 0 <= i < |rovers| ==> fetch(Query(rovers[i], earthDate, sol)).Some?
    ensures r.Success? ==> forall k :: 0 <= k < |r.value| ==> MatchesCameras(cameras, r.value[k])
    ensures r.Failure? ==> exists i :: 0 <= i < |rovers| && r.error == Catalog.ProviderFailure(Rovers.Value(rovers[i]))
  {
    var r := Seqs.ConcatResults(rovers, PhotoStep(cameras, earthDate, sol, fetch));
    if r.Success? then
      Seqs.ConcatResultsAll(rovers, PhotoStep(cameras, earthDate, sol, fetch), MatchingCameras(cameras));
      r
    else
      r
  }

  /** Nothing that passes the filter is lost: every kept item of every queried
      rover appears in the output. */
  lemma PhotoImagesComplete(
    rovers: seq<Rovers.RoverType>,
    cameras: Option<set<Catalog.CameraType>>,
    earthDate: Option<string>,
    sol: Option<nat>,
    fetch: PhotoQuery -> Option<seq<PhotoItem>>,
    k: nat,
    item: PhotoItem)
    requires PhotoImages(rovers, cameras, earthDate, sol, fetch).Success?
    requires k < |rovers| && item in fetch(Query(rovers[k], earthDate, sol)).value
    requires KeepItem(cameras, item)
    ensures ToImage(item) in PhotoImages(rovers, cameras, earthDate, sol, fetch).value
  {
    Seqs.ConcatResultsContains(rovers, PhotoStep(cameras, earthDate, sol, fetch), k, ToImage(item));
  }

  /** Nothing is invented: every output photo is the record of an item that
      one of the queried rovers returned and that passes the camera filter. */
  lemma PhotoImagesSound(
    rovers: seq<Rovers.RoverType>,
    cameras: Option<set<Catalog.CameraType>>,
    earthDate: Option<string>,
    sol: Option<nat>,
    fetch: PhotoQuery -> Option<seq<PhotoItem>>,
    k: nat)
    requires PhotoImages(rovers, cameras, earthDate, sol, fetch).Success?
    requires k < |PhotoImages(rovers, cameras, earthDate, sol, fetch).value|
    ensures exists i, j ::
      && 0 <= i < |rovers|
      && 0 <= j < |fetch(Query(rovers[i], earthDate, sol)).value|
      && KeepItem(cameras, fetch(Query(rovers[i], earthDate, sol)).value[j])
      && PhotoImages(rovers, cameras, earthDate, sol, fetch).value[k] == ToImage(fetch(Query(rovers[i], earthDate, sol)).value[j])
  {
    var step := PhotoStep(cameras, earthDate, sol, fetch);
    var out := PhotoImages(rovers, cameras, earthDate, sol, fetch).value;
    Seqs.ConcatResultsFrom(rovers, step, k);
    var i, m :| 0 <= i < |rovers| && step(rovers[i]).Success? && 0 <= m < |step(rovers[i]).value|
                && step(rovers[i]).value[m] == out[k];
    var items := fetch(Query(rovers[i], earthDate, sol)).value;
    KeptByCameras(items, cameras, m);
    var j :| 0 <= j < |items| && KeepItem(cameras, items[j]) && step(rovers[i]).value[m] == ToImage(items[j]);
  }

  /** The output follows the rover iteration order: querying one list of
      rovers and then another gives the two outputs one after the other. */
  lemma PhotoImagesAppend(
    rovers1: seq<Rovers.RoverType>,
    rovers2: seq<Rovers.RoverType>,
    cameras: Option<set<Catalog.CameraType>>,
    earthDate: Option<string>,
    sol: Option<nat>,
    fetch: PhotoQuery -> Option<seq<PhotoItem>>)
    requires PhotoImages(rovers1, cameras, earthDate, sol, fetch).Success?
    requires PhotoImages(rovers2, cameras, earthDate, sol, fetch).Success?
    ensures PhotoImages(rovers1 + rovers2, cameras, earthDate, sol, fetch)
         == Success(PhotoImages(rovers1, cameras, earthDate, sol, fetch).value
                    + PhotoImages(rovers2, cameras, earthDate, sol, fetch).value)
  {
    Seqs.ConcatResultsAppend(rovers1, rovers2, PhotoStep(cameras, earthDate, sol, fetch));
  }

  /** For a single rover the newer revision's output is that rover's share
      exactly: its kept items in provider order, or its failure. With
      `PhotoImagesAppend` this fixes the output for every rover list. */
  lemma PhotoImagesSingle(
    rover: Rovers.RoverType,
    cameras: Option<set<Catalog.CameraType>>,
    earthDate: Option<string>,
    sol: Option<nat>,
    fetch: PhotoQuery -> Option<seq<PhotoItem>>)
    ensures PhotoImages([rover], cameras, earthDate, sol, fetch) == RoverPhotos(rover, cameras, earthDate, sol, fetch)
  {
    Seqs.ConcatResultsSingle(rover, PhotoStep(cameras, earthDate, sol, fetch));
  }

  /** Filtering the newer revision's output again with the same cameras changes nothing. */
  lemma PhotoImagesFilterIdempotent(
    rovers: seq<Rovers.RoverType>,
    cameras: Option<set<Catalog.CameraType>>,
    earthDate: Option<string>,
    sol: Option<nat>,
    fetch: PhotoQuery -> Option<seq<PhotoItem>>)
    requires PhotoImages(rovers, cameras, earthDate, sol, fetch).Success?
    ensures FilterImages(PhotoImages(rovers, cameras, earthDate, sol, fetch).value, cameras)
         == PhotoImages(rovers, cameras, earthDate, sol, fetch).value
  {
    var out := PhotoImages(rovers, cameras, earthDate, sol, fetch).value;
    Seqs.FilterKeepsAll(out, MatchingCameras(cameras));
  }

  // The older revision.

  /** The lower-cased camera names the catalog lists for a rover; a group flag
      has no catalog entry. */
  function RoverCameraValues(rover: Rovers.RoverType): Option<set<string>> {
    var key := Rovers.Value(rover);
    if key in Catalog.RoverTable then
      Some(set n | n in Catalog.RoverTable[key].cameraNames :: Lower(n))
    else
      None
  }

  /** `filter_cameras`: the requested values that the rover has, when a
      filter is in force; no filter otherwise. */
  function FilterCameras(cameras: Option<set<Catalog.CameraType>>, roverCameras: set<string>): (f: Option<set<string>>)
    ensures f.Some? <==> Requested(cameras)
    ensures f.Some? ==> f.value <= roverCameras && f.value <= Catalog.CameraValues(cameras.value)
    ensures f.Some? ==> forall v :: v in roverCameras && v in Catalog.CameraValues(cameras.value) ==> v in f.value
  {
    if Requested(cameras) then Some(Catalog.CameraValues(cameras.value) * roverCameras) else None
  }

  /** A rover is queried when no filter is in force or its intersection is non-empty. */
  predicate Queried(cameras: Option<set<Catalog.CameraType>>, roverCameras: set<string>) {
    !Requested(cameras) || FilterCameras(cameras, roverCameras).value != {}
  }

  predicate KeepLegacyItem(cameras: Option<set<Catalog.CameraType>>, roverCameras: set<string>, item: PhotoItem) {
    !Requested(cameras) || Lower(item.cameraName) in FilterCameras(cameras, roverCameras).value
  }

  function KeepLegacyItems(cameras: Option<set<Catalog.CameraType>>, roverCameras: set<string>): PhotoItem -> bool {
    item => KeepLegacyItem(cameras, roverCameras, item)
  }

  /** One rover's share of the older revision: a rover without a catalog entry
      raises; a rover whose cameras miss every requested camera is skipped
      without a query; otherwise its items are kept against the intersection. */
  function LegacyRoverPhotos(
    rover: Rovers.RoverType,
    cameras: Option<set<Catalog.CameraType>>,
    earthDate: Option<string>,
    sol: Option<nat>,
    fetch: PhotoQuery -> Option<seq<PhotoItem>>): (r: Result<seq<MarsImage>, Catalog.Error>)
    ensures r.Success? <==>
      RoverCameraValues(rover).Some? &&
      (Queried(cameras, RoverCameraValues(rover).value) ==> fetch(Query(rover, earthDate, sol)).Some?)
    ensures r.Success? && !Queried(cameras, RoverCameraValues(rover).value) ==> r.value == []
    ensures r.Success? ==> forall k :: 0 <= k < |r.value| ==> MatchesCameras(cameras, r.value[k])
    ensures RoverCameraValues(rover).None? ==> r == Failure(Catalog.UnknownRover(Rovers.Value(rover)))
    ensures r.Success? && Queried(cameras, RoverCameraValues(rover).value) ==>
      var items := fetch(Query(rover, earthDate, sol)).value;
      var roverCameras := RoverCameraValues(rover).value;
      && r.value == KeptImages(items, KeepLegacyItems(cameras, roverCameras))
      && (forall k :: 0 <= k < |r.value| ==>
            exists j :: 0 <= j < |items| && KeepLegacyItem(cameras, roverCameras, items[j]) && r.value[k] == ToImage(items[j]))
      && (forall j :: 0 <= j < |items| && KeepLegacyItem(cameras, roverCameras, items[j]) ==> ToImage(items[j]) in r.value)
  {
    match RoverCameraValues(rover)
    case None => Failure(Catalog.UnknownRover(Rovers.Value(rover)))
    case Some(roverCameras) =>
      if !Queried(cameras, roverCameras) then
        Success([])
      else
        match fetch(Query(rover, earthDate, sol))
        case None => Failure(Catalog.ProviderFailure(Rovers.Value(rover)))
        case Some(items) => Success(KeptImages(items, KeepLegacyItems(cameras, roverCameras)))
  }

  function LegacyStep(
    cameras: Option<set<Catalog.CameraType>>,
    earthDate: Option<string>,
    sol: Option<nat>,
    fetch: PhotoQuery -> Option<seq<PhotoItem>>): Rovers.RoverType -> Result<seq<MarsImage>, Catalog.Error>
  {
    rover => LegacyRoverPhotos(rover, cameras, earthDate, sol, fetch)
  }

  /** `get_mars_photos_API_images` (older revision): every rover's share, in
      rover iteration order; the first failure raises. */
  function LegacyPhotoImages(
    rovers: seq<Rovers.RoverType>,
    cameras: Option<set<Catalog.CameraType>>,
    earthDate: Option<string>,
    sol: Option<nat>,
    fetch: PhotoQuery -> Option<seq<PhotoItem>>): (r: Result<seq<MarsImage>, Catalog.Error>)
    ensures r.Success? ==> forall i :: 0 <= i < |r.value| ==> MatchesCameras(cameras, r.value[i])
    ensures r.Success? <==> forall i :: 0 <= i < |rovers| ==>
      RoverCameraValues(rovers[i]).Some? &&
      (Queried(cameras, RoverCameraValues(rovers[i]).value) ==> fetch(Query(rovers[i], earthDate, sol)).Some?)
  {
    var r := Seqs.ConcatResults(rovers, LegacyStep(cameras, earthDate, sol, fetch));
    if r.Success? then
      Seqs.ConcatResultsAll(rovers, LegacyStep(cameras, earthDate, sol, fetch), MatchingCameras(cameras));
      r
    else
      r
  }

  /** The older revision never consults the provider for a skipped rover: two
      fetchers that agree on the queried rovers give the same result. */
  lemma LegacyIgnoresSkippedRovers(
    rovers: seq<Rovers.RoverType>,
    cameras: Option<set<Catalog.CameraType>>,
    earthDate: Option<string>,
    sol: Option<nat>,
    fetch1: PhotoQuery -> Option<seq<PhotoItem>>,
    fetch2: PhotoQuery -> Option<seq<PhotoItem>>)
    requires forall i :: 0 <= i < |rovers| && RoverCameraValues(rovers[i]).Some?
                         && Queried(cameras, RoverCameraValues(rovers[i]).value) ==>
                         fetch1(Query(rovers[i], earthDate, sol)) == fetch2(Query(rovers[i], earthDate, sol))
    ensures LegacyPhotoImages(rovers, cameras, earthDate, sol, fetch1)
         == LegacyPhotoImages(rovers, cameras, earthDate, sol, fetch2)
  {
    Seqs.ConcatResultsCongruent(rovers, LegacyStep(cameras, earthDate, sol, fetch1), LegacyStep(cameras, earthDate, sol, fetch2));
  }

  /** Nothing that passes the older filter is lost: every item a queried
      rover returns whose camera is in that rover's intersection appears in
      the output. */
  lemma LegacyPhotoImagesComplete(
    rovers: seq<Rovers.RoverType>,
    cameras: Option<set<Catalog.CameraType>>,
    earthDate: Option<string>,
    sol: Option<nat>,
    fetch: PhotoQuery -> Option<seq<PhotoItem>>,
    i: nat,
    item: PhotoItem)
    requires LegacyPhotoImages(rovers, cameras, earthDate, sol, fetch).Success?
    requires i < |rovers| && RoverCameraValues(rovers[i]).Some?
    requires fetch(Query(rovers[i], earthDate, sol)).Some? && item in fetch(Query(rovers[i], earthDate, sol)).value
    requires KeepLegacyItem(cameras, RoverCameraValues(rovers[i]).value, item)
    ensures ToImage(item) in LegacyPhotoImages(rovers, cameras, earthDate, sol, fetch).value
  {
    var roverCameras := RoverCameraValues(rovers[i]).value;
    var items := fetch(Query(rovers[i], earthDate, sol)).value;
    assert Queried(cameras, roverCameras);
    var j :| 0 <= j < |items| && items[j] == item;
    assert KeepLegacyItems(cameras, roverCameras)(items[j]);
    Seqs.ConcatResultsContains(rovers, LegacyStep(cameras, earthDate, sol, fetch), i, ToImage(item));
  }

  /** Nothing is invented by the older revision: every output photo is the
      record of an item that a queried rover returned and whose camera is in
      that rover's intersection with the request. */
  lemma LegacyPhotoImagesSound(
    rovers: seq<Rovers.RoverType>,
    cameras: Option<set<Catalog.CameraType>>,
    earthDate: Option<string>,
    sol: Option<nat>,
    fetch: PhotoQuery -> Option<seq<PhotoItem>>,
    k: nat)
    requires LegacyPhotoImages(rovers, cameras, earthDate, sol, fetch).Success?
    requires k < |LegacyPhotoImages(rovers, cameras, earthDate, sol, fetch).value|
    ensures exists i, j ::
      && 0 <= i < |rovers|
      && RoverCameraValues(rovers[i]).Some?
      && Queried(cameras, RoverCameraValues(rovers[i]).value)
      && fetch(Query(rovers[i], earthDate, sol)).Some?
      && 0 <= j < |fetch(Query(rovers[i], earthDate, sol)).value|
      && KeepLegacyItem(cameras, RoverCameraValues(rovers[i]).value, fetch(Query(rovers[i], earthDate, sol)).value[j])
      && LegacyPhotoImages(rovers, cameras, earthDate, sol, fetch).value[k] == ToImage(fetch(Query(rovers[i], earthDate, sol)).value[j])
  {
    var step := LegacyStep(cameras, earthDate, sol, fetch);
    var out := LegacyPhotoImages(rovers, cameras, earthDate, sol, fetch).value;
    Seqs.ConcatResultsFrom(rovers, step, k);
    var i, m :| 0 <= i < |rovers| && step(rovers[i]).Success? && 0 <= m < |step(rovers[i]).value|
                && step(rovers[i]).value[m] == out[k];
    var roverCameras := RoverCameraValues(rovers[i]).value;
    assert Queried(cameras, roverCameras);
    var items := fetch(Query(rovers[i], earthDate, sol)).value;
    var keep := KeepLegacyItems(cameras, roverCameras);
    assert step(rovers[i]).value == KeptImages(items, keep);
    KeptImagesFrom(items, keep, m);
    var j :| 0 <= j < |items| && keep(items[j]) && KeptImages(items, keep)[m] == ToImage(items[j]);
    assert KeepLegacyItem(cameras, roverCameras, items[j]);
  }

  /** The older revision also follows the rover iteration order. */
  lemma LegacyPhotoImagesAppend(
    rovers1: seq<Rovers.RoverType>,
    rovers2: seq<Rovers.RoverType>,
    cameras: Option<set<Catalog.CameraType>>,
    earthDate: Option<string>,
    sol: Option<nat>,
    fetch: PhotoQuery -> Option<seq<PhotoItem>>)
    requires LegacyPhotoImages(rovers1, cameras, earthDate, sol, fetch).Success?
    requires LegacyPhotoImages(rovers2, cameras, earthDate, sol, fetch).Success?
    ensures LegacyPhotoImages(rovers1 + rovers2, cameras, earthDate, sol, fetch)
         == Success(LegacyPhotoImages(rovers1, cameras, earthDate, sol, fetch).value
                    + LegacyPhotoImages(rovers2, cameras, earthDate, sol, fetch).value)
  {
    Seqs.ConcatResultsAppend(rovers1, rovers2, LegacyStep(cameras, earthDate, sol, fetch));
  }

  /** For a single rover the older revision's output is that rover's share
      exactly. With `LegacyPhotoImagesAppend` this fixes the output for every
      rover list. */
  lemma LegacyPhotoImagesSingle(
    rover: Rovers.RoverType,
    cameras: Option<set<Catalog.CameraType>>,
    earthDate: Option<string>,
    sol: Option<nat>,
    fetch: PhotoQuery -> Option<seq<PhotoItem>>)
    ensures LegacyPhotoImages([rover], cameras, earthDate, sol, fetch) == LegacyRoverPhotos(rover, cameras, earthDate, sol, fetch)
  {
    Seqs.ConcatResultsSingle(rover, LegacyStep(cameras, earthDate, sol, fetch));
  }

  /** Spirit's catalog cameras, lower-cased. */
  lemma SpiritCameraValues()
    ensures RoverCameraValues(Rovers.Spirit) == Some(set n | n in Catalog.SpiritCameras :: Lower(n))
  {
    assert Rovers.Value(Rovers.Spirit) == "spirit";
    assert Catalog.RoverTable["spirit"].cameraNames == Catalog.SpiritCameras;
  }

  /** Asking Spirit for the Lander Vision System camera, which it does not have,
      yields no images and needs no provider call, whatever the provider would say. */
  lemma SpiritWithoutLcam(earthDate: Option<string>, sol: Option<nat>, fetch: PhotoQuery -> Option<seq<PhotoItem>>)
    ensures LegacyPhotoImages([Rovers.Spirit], Some({Catalog.LCAM}), earthDate, sol, fetch) == Success([])
  {
    SpiritCameraValues();
    var roverCameras := RoverCameraValues(Rovers.Spirit).value;
    assert "lcam" !in roverCameras by {
      forall n | n in Catalog.SpiritCameras
        ensures Lower(n) != "lcam"
      {
        assert n[0] != 'l' && n[0] != 'L';
        assert Lower(n)[0] == LowerChar(n[0]);
      }
    }
    assert Catalog.Value(Catalog.LCAM) == "lcam";
    assert Catalog.CameraValues({Catalog.LCAM}) == {"lcam"};
    assert !Queried(Some({Catalog.LCAM}), roverCameras);
    var step := LegacyStep(Some({Catalog.LCAM}), earthDate, sol, fetch);
    assert step(Rovers.Spirit) == Success([]);
    assert [Rovers.Spirit][1..] == [];
    var none: seq<MarsImage> := [];
    assert Seqs.ConcatResults([Rovers.Spirit], step) == Success(none + none);
    assert none + none == none;
    assert LegacyPhotoImages([Rovers.Spirit], Some({Catalog.LCAM}), earthDate, sol, fetch)
        == Seqs.ConcatResults([Rovers.Spirit], step);
  }

  /** Filtering the older revision's output again with the same cameras changes nothing. */
  lemma LegacyFilterIdempotent(
    rovers: seq<Rovers.RoverType>,
    cameras: Option<set<Catalog.CameraType>>,
    earthDate: Option<string>,
    sol: Option<nat>,
    fetch: PhotoQuery -> Option<seq<PhotoItem>>)
    requires LegacyPhotoImages(rovers, cameras, earthDate, sol, fetch).Success?
    ensures FilterImages(LegacyPhotoImages(rovers, cameras, earthDate, sol, fetch).value, cameras)
         == LegacyPhotoImages(rovers, cameras, earthDate, sol, fetch).value
  {
    var out := LegacyPhotoImages(rovers, cameras, earthDate, sol, fetch).value;
    Seqs.FilterKeepsAll(out, MatchingCameras(cameras));
  }

  /** The provider reports, for each queried rover, only cameras the catalog lists for it. */
  predicate ItemsWithinCatalog(
    rovers: seq<Rovers.RoverType>,
    earthDate: Option<string>,
    sol: Option<nat>,
    fetch: PhotoQuery -> Option<seq<PhotoItem>>)
  {
    forall i :: 0 <= i < |rovers| ==> RoverWithinCatalog(rovers[i], earthDate, sol, fetch)
  }

  predicate RoverWithinCatalog(
    rover: Rovers.RoverType,
    earthDate: Option<string>,
    sol: Option<nat>,
    fetch: PhotoQuery -> Option<seq<PhotoItem>>)
  {
    && RoverCameraValues(rover).Some?
    && fetch(Query(rover, earthDate, sol)).Some?
    && forall j :: 0 <= j < |fetch(Query(rover, earthDate, sol)).value| ==>
         Lower(fetch(Query(rover, earthDate, sol)).value[j].cameraName) in RoverCameraValues(rover).value
  }

  /** For one rover whose items all carry catalog cameras, both revisions keep
      the same items, and nothing at all when the older revision would skip it. */
  lemma RoverStepAgrees(cameras: Option<set<Catalog.CameraType>>, roverCameras: set<string>, items: seq<PhotoItem>)
    requires forall j :: 0 <= j < |items| ==> Lower(items[j].cameraName) in roverCameras
    ensures KeptImages(items, KeepLegacyItems(cameras, roverCameras)) == KeptImages(items, KeepItems(cameras))
    ensures !Queried(cameras, roverCameras) ==> KeptImages(items, KeepItems(cameras)) == []
  {
    forall j | 0 <= j < |items|
      ensures KeepLegacyItems(cameras, roverCameras)(items[j]) == KeepItems(cameras)(items[j])
    {
    }
    Seqs.FilterCongruent(items, KeepLegacyItems(cameras, roverCameras), KeepItems(cameras));
    if !Queried(cameras, roverCameras) {
      NoneKept(items, KeepLegacyItems(cameras, roverCameras));
    }
  }

  /** The two revisions treat a rover alike when its items carry only catalog cameras. */
  lemma RoverRevisionsAgree(
    rover: Rovers.RoverType,
    cameras: Option<set<Catalog.CameraType>>,
    earthDate: Option<string>,
    sol: Option<nat>,
    fetch: PhotoQuery -> Option<seq<PhotoItem>>)
    requires RoverWithinCatalog(rover, earthDate, sol, fetch)
    ensures LegacyRoverPhotos(rover, cameras, earthDate, sol, fetch) == RoverPhotos(rover, cameras, earthDate, sol, fetch)
  {
    RoverStepAgrees(cameras, RoverCameraValues(rover).value, fetch(Query(rover, earthDate, sol)).value);
  }

  /** When the provider reports only catalog cameras and every query succeeds,
      pre-filtering (older revision) and post-filtering (newer revision) keep
      the same photos in the same order. */
  lemma RevisionsAgree(
    rovers: seq<Rovers.RoverType>,
    cameras: Option<set<Catalog.CameraType>>,
    earthDate: Option<string>,
    sol: Option<nat>,
    fetch: PhotoQuery -> Option<seq<PhotoItem>>)
    requires ItemsWithinCatalog(rovers, earthDate, sol, fetch)
    ensures LegacyPhotoImages(rovers, cameras, earthDate, sol, fetch) == PhotoImages(rovers, cameras, earthDate, sol, fetch)
  {
    forall i | 0 <= i < |rovers|
      ensures LegacyStep(cameras, earthDate, sol, fetch)(rovers[i]) == PhotoStep(cameras, earthDate, sol, fetch)(rovers[i])
    {
      RoverRevisionsAgree(rovers[i], cameras, earthDate, sol, fetch);
    }
    Seqs.ConcatResultsCongruent(rovers, LegacyStep(cameras, earthDate, sol, fetch), PhotoStep(cameras, earthDate, sol, fetch));
  }

  /** A filter that rejects every element leaves nothing. */
  lemma {:induction false} NoneKept<T>(s: seq<T>, p: T -> bool)
    requires forall i :: 0 <= i < |s| ==> !p(s[i])
    ensures Seqs.Filter(s, p) == []
  {
    if s != [] {
      NoneKept(s[1..], p);
    }
  }
}

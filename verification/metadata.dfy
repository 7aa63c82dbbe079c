/** Rover metadata: the catalog record of each requested rover, optionally
    with its photo manifest (filtered by earth date or sol in the newer
    revision, whole in the older one), and with live status for active rovers. */
module Metadata {
  import opened Wrappers
  import Seqs
  import Rovers
  import Catalog

  /** One entry of a provider photo manifest: the photos of one sol, with the
      short codes of the cameras that took them. */
  datatype ManifestItem = ManifestItem(sol: int, earthDate: string, totalPhotos: int, cameras: seq<string>)

  /** A manifest entry with its cameras resolved to short code and full name. */
  datatype Manifest = Manifest(sol: int, earthDate: string, totalPhotos: int, cameras: seq<Catalog.Camera>)

  /** The live status the provider reports for a rover. */
  datatype RoverStatus = RoverStatus(maxDate: string, maxSol: int, totalPhotos: int)

  /** One metadata record: the rover, and its manifests when they were requested. */
  datatype RoverMetadata = RoverMetadata(rover: Catalog.Rover, manifests: Option<seq<Manifest>>)

  /** Which manifest entries are kept: an earth date (given as its ISO string)
      takes precedence, then a sol (0 included); with neither, every entry. */
  predicate ManifestSelected(earthDate: Option<string>, sol: Option<nat>, item: ManifestItem) {
    match earthDate
    case Some(d) => item.earthDate == d
    case None =>
      match sol
      case Some(s) => item.sol == s
      case None => true
  }

  function Selector(earthDate: Option<string>, sol: Option<nat>): ManifestItem -> bool {
    item => ManifestSelected(earthDate, sol, item)
  }

  /** The manifest filter of the newer revision. */
  function FilterManifest(items: seq<ManifestItem>, earthDate: Option<string>, sol: Option<nat>): (r: seq<ManifestItem>)
    ensures forall i :: 0 <= i < |r| ==> r[i] in items
    ensures earthDate.Some? ==> forall i :: 0 <= i < |r| ==> r[i].earthDate == earthDate.value
    ensures earthDate.None? && sol.Some? ==> forall i :: 0 <= i < |r| ==> r[i].sol == sol.value
    ensures earthDate.Some? ==> forall i :: 0 <= i < |items| && items[i].earthDate == earthDate.value ==> items[i] in r
    ensures earthDate.None? && sol.Some? ==> forall i :: 0 <= i < |items| && items[i].sol == sol.value ==> items[i] in r
  {
    Seqs.Filter(items, Selector(earthDate, sol))
  }

  /** The filter keeps the manifest's order. */
  lemma FilterManifestIsSubsequence(items: seq<ManifestItem>, earthDate: Option<string>, sol: Option<nat>)
    ensures Seqs.IsSubsequence(FilterManifest(items, earthDate, sol), items)
  {
    Seqs.FilterIsSubsequence(items, Selector(earthDate, sol));
  }

  /** Filtering two manifests in turn is filtering their concatenation. */
  lemma FilterManifestAppend(a: seq<ManifestItem>, b: seq<ManifestItem>, earthDate: Option<string>, sol: Option<nat>)
    ensures FilterManifest(a + b, earthDate, sol) == FilterManifest(a, earthDate, sol) + FilterManifest(b, earthDate, sol)
  {
    Seqs.FilterAppend(a, b, Selector(earthDate, sol));
  }

  /** An empty manifest keeps nothing; a one-entry manifest keeps its entry
      exactly when it is selected. With `FilterManifestAppend` this fixes the
      result, order and repeated entries included. */
  lemma FilterManifestBase(item: ManifestItem, earthDate: Option<string>, sol: Option<nat>)
    ensures FilterManifest([], earthDate, sol) == []
    ensures FilterManifest([item], earthDate, sol) == if ManifestSelected(earthDate, sol, item) then [item] else []
  {
    assert [item][1..] == [];
  }

  /** With neither an earth date nor a sol, the manifest is kept whole. */
  lemma FilterManifestKeepsAll(items: seq<ManifestItem>)
    ensures FilterManifest(items, None, None) == items
  {
    Seqs.FilterKeepsAll(items, Selector(None, None));
  }

  /** An earth date wins over a sol: the sol is then ignored. */
  lemma EarthDateWins(items: seq<ManifestItem>, date: string, sol: Option<nat>)
    ensures FilterManifest(items, Some(date), sol) == FilterManifest(items, Some(date), None)
  {
    Seqs.FilterCongruent(items, Selector(Some(date), sol), Selector(Some(date), None));
  }

  /** Resolution of a manifest entry's cameras through the camera table; a
      short code missing from the table raises. */
  function ResolveManifest(item: ManifestItem): (r: Result<Manifest, Catalog.Error>)
    ensures r.Success? <==> forall i :: 0 <= i < |item.cameras| ==> item.cameras[i] in Catalog.Cameras
    ensures r.Success? ==>
      && r.value.sol == item.sol
      && r.value.earthDate == item.earthDate
      && r.value.totalPhotos == item.totalPhotos
      && Catalog.Shorts(r.value.cameras) == item.cameras
      && forall i :: 0 <= i < |r.value.cameras| ==> r.value.cameras[i].name == Catalog.Cameras[item.cameras[i]]
    ensures r.Failure? ==> r.error.UnknownCamera? && r.error.short in item.cameras
  {
    match Catalog.ResolveCameras(Catalog.Cameras, item.cameras)
    case Failure(e) => Failure(e)
    case Success(cameras) =>
      Catalog.ResolveCamerasRoundTrip(Catalog.Cameras, item.cameras);
      Success(Manifest(item.sol, item.earthDate, item.totalPhotos, cameras))
  }

  /** Every entry resolves exactly when every short code of every entry is in the table. */
  predicate AllCamerasKnown(items: seq<ManifestItem>) {
    forall i, j :: 0 <= i < |items| && 0 <= j < |items[i].cameras| ==> items[i].cameras[j] in Catalog.Cameras
  }

  /** The manifests of a list of entries, in order. */
  function ResolveManifests(items: seq<ManifestItem>): (r: Result<seq<Manifest>, Catalog.Error>)
    ensures r.Success? <==> AllCamerasKnown(items)
    ensures r.Success? ==> |r.value| == |items|
    ensures r.Success? ==> forall i :: 0 <= i < |items| ==> ResolveManifest(items[i]) == Success(r.value[i])
  {
    if items == [] then
      Success([])
    else
      match ResolveManifest(items[0])
      case Failure(e) => Failure(e)
      case Success(m) =>
        match ResolveManifests(items[1..])
        case Failure(e) =>
          assert !AllCamerasKnown(items[1..]);
          assert !AllCamerasKnown(items) by {
            var i, j :| 0 <= i < |items[1..]| && 0 <= j < |items[1..][i].cameras| && items[1..][i].cameras[j] !in Catalog.Cameras;
            assert items[i + 1] == items[1..][i];
          }
          Failure(e)
        case Success(rest) =>
          assert AllCamerasKnown(items) by {
            forall i, j | 0 <= i < |items| && 0 <= j < |items[i].cameras|
              ensures items[i].cameras[j] in Catalog.Cameras
            {
              if i > 0 {
                assert items[i] == items[1..][i - 1];
              }
            }
          }
          Success([m] + rest)
  }

  /** The rover record with its status fields replaced by the live values. */
  function WithStatus(rover: Catalog.Rover, status: RoverStatus): Catalog.Rover {
    rover.(currentSol := Some(status.maxSol), currentDate := Some(status.maxDate), totalPhotos := Some(status.totalPhotos))
  }

  /** The catalog part of a rover record: everything but the status fields. */
  predicate SameCatalogFields(a: Catalog.Rover, b: Catalog.Rover) {
    a.name == b.name && a.launchDate == b.launchDate && a.landingDate == b.landingDate
    && a.active == b.active && a.cameras == b.cameras
  }

  /** The manifests of a rover, when requested: fetch, filter, resolve. A
      failed fetch raises. */
  function RoverManifests(
    rover: Rovers.RoverType,
    manifest: bool,
    earthDate: Option<string>,
    sol: Option<nat>,
    fetchManifest: Rovers.RoverType -> Option<seq<ManifestItem>>): Result<Option<seq<Manifest>>, Catalog.Error>
  {
    if !manifest then
      Success(None)
    else
      match fetchManifest(rover)
      case None => Failure(Catalog.ProviderFailure(Rovers.Value(rover)))
      case Some(items) =>
        match ResolveManifests(FilterManifest(items, earthDate, sol))
        case Failure(e) => Failure(e)
        case Success(ms) => Success(Some(ms))
  }

  /** The metadata record of one rover (newer revision): the catalog record,
      the manifests when requested, and live status when the rover is active. */
  function RoverMetadataOf(
    rover: Rovers.RoverType,
    manifest: bool,
    earthDate: Option<string>,
    sol: Option<nat>,
    fetchManifest: Rovers.RoverType -> Option<seq<ManifestItem>>,
    fetchStatus: Rovers.RoverType -> Option<RoverStatus>): (r: Result<RoverMetadata, Catalog.Error>)
    ensures r.Success? <==>
      && Catalog.CatalogRover(rover).Success?
      && (manifest ==> fetchManifest(rover).Some? && AllCamerasKnown(FilterManifest(fetchManifest(rover).value, earthDate, sol)))
      && (Catalog.CatalogRover(rover).value.active ==> fetchStatus(rover).Some?)
    ensures r.Success? ==>
      var base := Catalog.CatalogRover(rover).value;
      && (r.value.manifests.Some? <==> manifest)
      && SameCatalogFields(r.value.rover, base)
      && (!base.active ==> r.value.rover == base)
      && (base.active ==>
            && r.value.rover.currentSol == Some(fetchStatus(rover).value.maxSol)
            && r.value.rover.currentDate == Some(fetchStatus(rover).value.maxDate)
            && r.value.rover.totalPhotos == Some(fetchStatus(rover).value.totalPhotos))
    ensures r.Success? && manifest ==>
      var selected := FilterManifest(fetchManifest(rover).value, earthDate, sol);
      && |r.value.manifests.value| == |selected|
      && forall i :: 0 <= i < |selected| ==> ResolveManifest(selected[i]) == Success(r.value.manifests.value[i])
  {
    match Catalog.CatalogRover(rover)
    case Failure(e) => Failure(e)
    case Success(base) =>
      match RoverManifests(rover, manifest, earthDate, sol, fetchManifest)
      case Failure(e) => Failure(e)
      case Success(manifests) =>
        if base.active then
          match fetchStatus(rover)
          case None => Failure(Catalog.ProviderFailure(Rovers.Value(rover)))
          case Some(status) => Success(RoverMetadata(WithStatus(base, status), manifests))
        else
          Success(RoverMetadata(base, manifests))
  }

  /** Only active rovers have live status: a retired rover's record never
      depends on the status provider. */
  lemma RetiredRoverIgnoresStatus(
    rover: Rovers.RoverType,
    manifest: bool,
    earthDate: Option<string>,
    sol: Option<nat>,
    fetchManifest: Rovers.RoverType -> Option<seq<ManifestItem>>,
    fetchStatus1: Rovers.RoverType -> Option<RoverStatus>,
    fetchStatus2: Rovers.RoverType -> Option<RoverStatus>)
    requires rover in Rovers.InactiveRovers
    ensures RoverMetadataOf(rover, manifest, earthDate, sol, fetchManifest, fetchStatus1)
         == RoverMetadataOf(rover, manifest, earthDate, sol, fetchManifest, fetchStatus2)
  {
    Catalog.CatalogRoverDefined(rover);
  }

  function MetadataStep(
    manifest: bool,
    earthDate: Option<string>,
    sol: Option<nat>,
    fetchManifest: Rovers.RoverType -> Option<seq<ManifestItem>>,
    fetchStatus: Rovers.RoverType -> Option<RoverStatus>): Rovers.RoverType -> Result<RoverMetadata, Catalog.Error>
  {
    rover => RoverMetadataOf(rover, manifest, earthDate, sol, fetchManifest, fetchStatus)
  }

  /** `get_mars_photo_API_metadata` (newer revision): one record per rover,
      in iteration order; the first failure raises. */
  function MetadataList(
    rovers: seq<Rovers.RoverType>,
    manifest: bool,
    earthDate: Option<string>,
    sol: Option<nat>,
    fetchManifest: Rovers.RoverType -> Option<seq<ManifestItem>>,
    fetchStatus: Rovers.RoverType -> Option<RoverStatus>): (r: Result<seq<RoverMetadata>, Catalog.Error>)
    ensures r.Success? <==> forall i :: 0 <= i < |rovers| ==>
      RoverMetadataOf(rovers[i], manifest, earthDate, sol, fetchManifest, fetchStatus).Success?
    ensures r.Success? ==> |r.value| == |rovers| && forall i :: 0 <= i < |rovers| ==>
      RoverMetadataOf(rovers[i], manifest, earthDate, sol, fetchManifest, fetchStatus) == Success(r.value[i])
  {
    Seqs.MapResults(rovers, MetadataStep(manifest, earthDate, sol, fetchManifest, fetchStatus))
  }

  // The older revision.

  /** The metadata record of one rover (older revision): the rover record, the
      whole manifest when requested, and live status when the rover is active. */
  function LegacyRoverMetadata(
    rover: Rovers.RoverType,
    manifest: bool,
    fetchManifest: Rovers.RoverType -> Option<seq<ManifestItem>>,
    fetchStatus: Rovers.RoverType -> Option<RoverStatus>): (r: Result<RoverMetadata, Catalog.Error>)
    ensures r.Success? ==> (r.value.manifests.Some? <==> manifest)
    ensures r.Success? && manifest ==>
      fetchManifest(rover).Some? && |r.value.manifests.value| == |fetchManifest(rover).value|
  {
    match Catalog.CatalogRover(rover)
    case Failure(e) => Failure(e)
    case Success(base) =>
      match LegacyRoverManifests(rover, manifest, fetchManifest)
      case Failure(e) => Failure(e)
      case Success(manifests) =>
        if base.active then
          match fetchStatus(rover)
          case None => Failure(Catalog.ProviderFailure(Rovers.Value(rover)))
          case Some(status) => Success(RoverMetadata(WithStatus(base, status), manifests))
        else
          Success(RoverMetadata(base, manifests))
  }

  /** The whole manifest of a rover, when requested. */
  function LegacyRoverManifests(
    rover: Rovers.RoverType,
    manifest: bool,
    fetchManifest: Rovers.RoverType -> Option<seq<ManifestItem>>): (r: Result<Option<seq<Manifest>>, Catalog.Error>)
    ensures r.Success? ==> (r.value.Some? <==> manifest)
    ensures r.Success? && manifest ==>
      fetchManifest(rover).Some? && |r.value.value| == |fetchManifest(rover).value|
    ensures r.Success? <==> (manifest ==> fetchManifest(rover).Some? && AllCamerasKnown(fetchManifest(rover).value))
    ensures manifest && fetchManifest(rover).None? ==> r == Failure(Catalog.ProviderFailure(Rovers.Value(rover)))
    ensures r.Success? && manifest ==>
      forall i :: 0 <= i < |r.value.value| ==> ResolveManifest(fetchManifest(rover).value[i]) == Success(r.value.value[i])
  {
    if !manifest then
      Success(None)
    else
      match fetchManifest(rover)
      case None => Failure(Catalog.ProviderFailure(Rovers.Value(rover)))
      case Some(items) =>
        match ResolveManifests(items)
        case Failure(e) => Failure(e)
        case Success(ms) => Success(Some(ms))
  }

  /** The older revision is the newer one without manifest filtering. */
  lemma LegacyIsUnfiltered(
    rover: Rovers.RoverType,
    manifest: bool,
    fetchManifest: Rovers.RoverType -> Option<seq<ManifestItem>>,
    fetchStatus: Rovers.RoverType -> Option<RoverStatus>)
    ensures LegacyRoverMetadata(rover, manifest, fetchManifest, fetchStatus)
         == RoverMetadataOf(rover, manifest, None, None, fetchManifest, fetchStatus)
  {
    if fetchManifest(rover).Some? {
      FilterManifestKeepsAll(fetchManifest(rover).value);
    }
    assert LegacyRoverManifests(rover, manifest, fetchManifest) == RoverManifests(rover, manifest, None, None, fetchManifest);
  }

  /** `get_mars_photos_api_metadata` (older revision): one record per rover, in iteration order. */
  function LegacyMetadataList(
    rovers: seq<Rovers.RoverType>,
    manifest: bool,
    fetchManifest: Rovers.RoverType -> Option<seq<ManifestItem>>,
    fetchStatus: Rovers.RoverType -> Option<RoverStatus>): (r: Result<seq<RoverMetadata>, Catalog.Error>)
    ensures r.Success? ==> |r.value| == |rovers|
  {
    if rovers == [] then
      Success([])
    else
      var m :- LegacyRoverMetadata(rovers[0], manifest, fetchManifest, fetchStatus);
      var rest :- LegacyMetadataList(rovers[1..], manifest, fetchManifest, fetchStatus);
      Success([m] + rest)
  }

  /** Both revisions list the same records when the newer one is not asked to filter. */
  lemma {:induction false} LegacyListIsUnfiltered(
    rovers: seq<Rovers.RoverType>,
    manifest: bool,
    fetchManifest: Rovers.RoverType -> Option<seq<ManifestItem>>,
    fetchStatus: Rovers.RoverType -> Option<RoverStatus>)
    ensures LegacyMetadataList(rovers, manifest, fetchManifest, fetchStatus)
         == MetadataList(rovers, manifest, None, None, fetchManifest, fetchStatus)
  {
    if rovers != [] {
      LegacyIsUnfiltered(rovers[0], manifest, fetchManifest, fetchStatus);
      LegacyListIsUnfiltered(rovers[1..], manifest, fetchManifest, fetchStatus);
    }
  }
}

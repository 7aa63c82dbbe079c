/** The static reference catalog of the Mars Photo API: the camera
    enumeration, the camera table (short code to full name), the rover table,
    and the rover records built from it. */
module Catalog {
  import opened Wrappers
  import opened Text
  import Rovers

  /** What the core raises: a key missing from a catalog table (a Python
      `KeyError`) or a provider call whose failure the code does not absorb. */
  datatype Error =
    | UnknownRover(rover: string)
    | UnknownCamera(short: string)
    | ProviderFailure(resource: string)

  /** The camera enumeration: one member per camera short code. */
  datatype CameraType = FHAZ | NAVCAM | MAST | CHEMCAM | MAHLI | MARDI | RHAZ | MAST_LEFT
    | MAST_RIGHT | CHEMCAM_RMI | FHAZ_LEFT_B | FHAZ_RIGHT_B | NAV_LEFT_B | NAV_RIGHT_B | RHAZ_LEFT_B
    | RHAZ_RIGHT_B | PANCAM | MINITES | ENTRY | EDL_RUCAM | EDL_DDCAM | EDL_PUCAM1 | EDL_PUCAM2
    | NAVCAM_LEFT | NAVCAM_RIGHT | MCZ_RIGHT | MCZ_LEFT | FRONT_HAZCAM_LEFT_A | FRONT_HAZCAM_RIGHT_A
    | REAR_HAZCAM_LEFT | REAR_HAZCAM_RIGHT | EDL_RDCAM | SKYCAM | SHERLOC_WATSON | SUPERCAM_RMI
    | LCAM

  /** The member's name, which is its short code and its key in the camera table. */
  function Key(c: CameraType): string {
    match c
    case FHAZ => "FHAZ"
    case NAVCAM => "NAVCAM"
    case MAST => "MAST"
    case CHEMCAM => "CHEMCAM"
    case MAHLI => "MAHLI"
    case MARDI => "MARDI"
    case RHAZ => "RHAZ"
    case MAST_LEFT => "MAST_LEFT"
    case MAST_RIGHT => "MAST_RIGHT"
    case CHEMCAM_RMI => "CHEMCAM_RMI"
    case FHAZ_LEFT_B => "FHAZ_LEFT_B"
    case FHAZ_RIGHT_B => "FHAZ_RIGHT_B"
    case NAV_LEFT_B => "NAV_LEFT_B"
    case NAV_RIGHT_B => "NAV_RIGHT_B"
    case RHAZ_LEFT_B => "RHAZ_LEFT_B"
    case RHAZ_RIGHT_B => "RHAZ_RIGHT_B"
    case PANCAM => "PANCAM"
    case MINITES => "MINITES"
    case ENTRY => "ENTRY"
    case EDL_RUCAM => "EDL_RUCAM"
    case EDL_DDCAM => "EDL_DDCAM"
    case EDL_PUCAM1 => "EDL_PUCAM1"
    case EDL_PUCAM2 => "EDL_PUCAM2"
    case NAVCAM_LEFT => "NAVCAM_LEFT"
    case NAVCAM_RIGHT => "NAVCAM_RIGHT"
    case MCZ_RIGHT => "MCZ_RIGHT"
    case MCZ_LEFT => "MCZ_LEFT"
    case FRONT_HAZCAM_LEFT_A => "FRONT_HAZCAM_LEFT_A"
    case FRONT_HAZCAM_RIGHT_A => "FRONT_HAZCAM_RIGHT_A"
    case REAR_HAZCAM_LEFT => "REAR_HAZCAM_LEFT"
    case REAR_HAZCAM_RIGHT => "REAR_HAZCAM_RIGHT"
    case EDL_RDCAM => "EDL_RDCAM"
    case SKYCAM => "SKYCAM"
    case SHERLOC_WATSON => "SHERLOC_WATSON"
    case SUPERCAM_RMI => "SUPERCAM_RMI"
    case LCAM => "LCAM"
  }

  /** The camera table: short code to full camera name. */
  const Cameras: map<string, string> := map[
    "FHAZ" := "Front Hazard Avoidance Camera",
    "NAVCAM" := "Navigation Camera",
    "MAST" := "Mast Camera",
    "CHEMCAM" := "Chemistry and Camera Complex",
    "MAHLI" := "Mars Hand Lens Imager",
    "MARDI" := "Mars Descent Imager",
    "RHAZ" := "Rear Hazard Avoidance Camera",
    "MAST_LEFT" := "Mast Camera - Left",
    "MAST_RIGHT" := "Mast Camera - Right",
    "CHEMCAM_RMI" := "Chemistry and Camera Complex Remote Micro Imager",
    "FHAZ_LEFT_B" := "Front Hazard Avoidance Camera - Left",
    "FHAZ_RIGHT_B" := "Front Hazard Avoidance Camera - Right",
    "NAV_LEFT_B" := "Navigation Camera - Left",
    "NAV_RIGHT_B" := "Navigation Camera - Right",
    "RHAZ_LEFT_B" := "Rear Hazard Avoidance Camera - Left",
    "RHAZ_RIGHT_B" := "Rear Hazard Avoidance Camera - Right",
    "PANCAM" := "Panoramic Camera",
    "MINITES" := "Miniature Thermal Emission Spectrometer (Mini-TES)",
    "ENTRY" := "Entry, Descent, and Landing Camera",
    "EDL_RUCAM" := "Rover Up-Look Camera",
    "EDL_DDCAM" := "Descent Stage Down-Look Camera",
    "EDL_PUCAM1" := "Parachute Up-Look Camera A",
    "EDL_PUCAM2" := "Parachute Up-Look Camera B",
    "NAVCAM_LEFT" := "Navigation Camera - Left",
    "NAVCAM_RIGHT" := "Navigation Camera - Right",
    "MCZ_RIGHT" := "Mast Camera Zoom - Right",
    "MCZ_LEFT" := "Mast Camera Zoom - Left",
    "FRONT_HAZCAM_LEFT_A" := "Front Hazard Avoidance Camera - Left",
    "FRONT_HAZCAM_RIGHT_A" := "Front Hazard Avoidance Camera - Right",
    "REAR_HAZCAM_LEFT" := "Rear Hazard Avoidance Camera - Left",
    "REAR_HAZCAM_RIGHT" := "Rear Hazard Avoidance Camera - Right",
    "EDL_RDCAM" := "Rover Down-Look Camera",
    "SKYCAM" := "MEDA Skycam",
    "SHERLOC_WATSON" := "SHERLOC WATSON Camera",
    "SUPERCAM_RMI" := "SuperCam Remote Micro Imager",
    "LCAM" := "Lander Vision System Camera"
  ]

  /** The enumeration's string value: `auto()` on a string enumeration yields
      the member name in lower case. */
  function Value(c: CameraType): string {
    Lower(Key(c))
  }

  /** The string values of a set of enumeration members, which is what Python
      compares when a provider's camera code meets a set of members. */
  function CameraValues(cs: set<CameraType>): set<string> {
    set c | c in cs :: Value(c)
  }

  /** Every member of the enumeration has an entry in the camera table. */
  lemma CameraKeyInTable(c: CameraType)
    ensures Key(c) in Cameras
  {
  }

  /** A camera as the API reports it: short code and full name. */
  datatype Camera = Camera(short: string, name: string)

  function Shorts(cameras: seq<Camera>): (r: seq<string>)
    ensures |r| == |cameras|
  {
    seq(|cameras|, i requires 0 <= i < |cameras| => cameras[i].short)
  }

  /** Reading the short codes back from resolved cameras gives the codes that were resolved. */
  lemma ResolveCamerasRoundTrip(table: map<string, string>, shorts: seq<string>)
    requires ResolveCameras(table, shorts).Success?
    ensures Shorts(ResolveCameras(table, shorts).value) == shorts
  {
  }

  /** `[Camera(short=s, name=table[s]) for s in shorts]`: each short code is
      looked up in a camera table, and a code missing from it raises. */
  function ResolveCameras(table: map<string, string>, shorts: seq<string>): (r: Result<seq<Camera>, Error>)
    ensures r.Success? <==> forall i :: 0 <= i < |shorts| ==> shorts[i] in table
    ensures r.Success? ==> |r.value| == |shorts|
    ensures r.Success? ==> forall i :: 0 <= i < |shorts| ==> r.value[i] == Camera(shorts[i], table[shorts[i]])
    ensures r.Failure? ==> r.error.UnknownCamera? && r.error.short in shorts && r.error.short !in table
  {
    if shorts == [] then
      Success([])
    else if shorts[0] !in table then
      Failure(UnknownCamera(shorts[0]))
    else
      match ResolveCameras(table, shorts[1..])
      case Failure(e) => Failure(e)
      case Success(rest) => Success([Camera(shorts[0], table[shorts[0]])] + rest)
  }

  /** One catalog entry of a rover, as the reference data lists it. The source
      stores the camera names as a set; the model lists them in the source's
      order, without repetition. */
  datatype RoverData = RoverData(
    name: string,
    launchDate: string,
    landingDate: string,
    active: bool,
    cameraNames: seq<string>,
    currentSol: Option<int>,
    currentDate: Option<string>,
    totalPhotos: Option<int>)

  /** The rover table, keyed by the rover's enumeration value. */
  const RoverTable: map<string, RoverData> := map[
    "curiosity" := RoverData(
      "Curiosity", "2011-11-26", "2012-08-06", true, CuriosityCameras, None, None, None),
    "spirit" := RoverData(
      "Spirit", "2003-06-1", "2004-01-04", false, SpiritCameras,
      Some(2208), Some("2010-03-21"), Some(124550)),
    "opportunity" := RoverData(
      "Opportunity", "2003-07-07", "2004-01-25", false, OpportunityCameras,
      Some(5111), Some("2018-06-11"), Some(198439)),
    "perseverance" := RoverData(
      "Perseverance", "2020-07-30", "2021-02-18", true, PerseveranceCameras, None, None, None)
  ]

  const CuriosityCameras: seq<string> := [
    "fhaz", "navcam", "mast", "chemcam", "mahli", "mardi", "rhaz", "mast_left",
    "mast_right", "chemcam_rmi", "fhaz_left_b", "fhaz_right_b", "nav_left_b",
    "nav_right_b", "rhaz_left_b", "rhaz_right_b"]

  const SpiritCameras: seq<string> := ["fhaz", "navcam", "pancam", "minites", "entry", "rhaz"]

  const OpportunityCameras: seq<string> := ["fhaz", "navcam", "pancam", "minites", "entry", "rhaz"]

  const PerseveranceCameras: seq<string> := [
    "edl_rucam", "edl_ddcam", "edl_pucam1", "edl_pucam2", "navcam_left",
    "navcam_right", "mcz_right", "mcz_left", "front_hazcam_left_a",
    "front_hazcam_right_a", "rear_hazcam_left", "rear_hazcam_right", "edl_rdcam",
    "skycam", "sherloc_watson", "supercam_rmi", "lcam"]

  /** A rover record: the catalog entry with each camera name resolved to a
      short code and full name. The three status fields carry the static
      values of retired rovers and are refreshed per request for active ones. */
  datatype Rover = Rover(
    name: string,
    launchDate: string,
    landingDate: string,
    active: bool,
    cameras: seq<Camera>,
    currentSol: Option<int>,
    currentDate: Option<string>,
    totalPhotos: Option<int>)

  function UpperAll(names: seq<string>): (r: seq<string>)
    ensures |r| == |names|
    ensures forall i :: 0 <= i < |names| ==> r[i] == Upper(names[i])
  {
    seq(|names|, i requires 0 <= i < |names| => Upper(names[i]))
  }

  /** Construction of a rover record from its catalog entry: every camera name is
      upper-cased and looked up in the camera table; a name with no entry raises. */
  function BuildRover(data: RoverData): (r: Result<Rover, Error>)
    ensures r.Success? <==> forall i :: 0 <= i < |data.cameraNames| ==> Upper(data.cameraNames[i]) in Cameras
    ensures r.Success? ==>
      && r.value.name == data.name
      && r.value.launchDate == data.launchDate
      && r.value.landingDate == data.landingDate
      && r.value.active == data.active
      && r.value.currentSol == data.currentSol
      && r.value.currentDate == data.currentDate
      && r.value.totalPhotos == data.totalPhotos
      && |r.value.cameras| == |data.cameraNames|
      && forall i :: 0 <= i < |data.cameraNames| ==>
           r.value.cameras[i] == Camera(Upper(data.cameraNames[i]), Cameras[Upper(data.cameraNames[i])])
  {
    var cameras :- ResolveCameras(Cameras, UpperAll(data.cameraNames));
    Success(Rover(data.name, data.launchDate, data.landingDate, data.active, cameras,
                  data.currentSol, data.currentDate, data.totalPhotos))
  }

  /** The set of a rover's camera short codes. */
  function CameraShorts(rover: Rover): set<string> {
    set c | c in rover.cameras :: c.short
  }

  /** The short codes of a built rover are exactly its upper-cased camera
      names, and each of them is a key of the camera table. */
  lemma {:induction false} CameraShortsAreUpperNames(data: RoverData)
    requires BuildRover(data).Success?
    ensures CameraShorts(BuildRover(data).value) == set n | n in data.cameraNames :: Upper(n)
    ensures forall s | s in CameraShorts(BuildRover(data).value) :: s in Cameras
  {
    var rover := BuildRover(data).value;
    forall s | s in CameraShorts(rover)
      ensures s in set n | n in data.cameraNames :: Upper(n)
    {
      var c :| c in rover.cameras && c.short == s;
      var i :| 0 <= i < |rover.cameras| && rover.cameras[i] == c;
      assert data.cameraNames[i] in data.cameraNames;
    }
    forall s | s in set n | n in data.cameraNames :: Upper(n)
      ensures s in CameraShorts(rover)
    {
      var n :| n in data.cameraNames && Upper(n) == s;
      var i :| 0 <= i < |data.cameraNames| && data.cameraNames[i] == n;
      assert rover.cameras[i] in rover.cameras;
    }
  }

  /** `MARS_PHOTO_API_ROVERS[rover]`: the rover record of a concrete rover.
      The table has no entry for a group flag. */
  function CatalogRover(r: Rovers.RoverType): Result<Rover, Error> {
    var key := Rovers.Value(r);
    if key in RoverTable then BuildRover(RoverTable[key]) else Failure(UnknownRover(key))
  }

  /** Exactly the concrete rovers have records; a record is active exactly when
      its rover is in the active group, and only retired rovers carry static status. */
  lemma CatalogRoverDefined(r: Rovers.RoverType)
    ensures CatalogRover(r).Success? <==> r in Rovers.ConcreteRovers
    ensures CatalogRover(r).Success? ==> (CatalogRover(r).value.active <==> r in Rovers.ActiveRovers)
    ensures CatalogRover(r).Success? ==> (CatalogRover(r).value.currentSol.Some? <==> !CatalogRover(r).value.active)
    ensures CatalogRover(r).Failure? ==> CatalogRover(r).error == UnknownRover(Rovers.Value(r))
  {
    CatalogCamerasResolve();
    CatalogAgreesWithGroups();
  }

  /** The catalog's `active` flags agree with the rover groups, and only the
      retired rovers carry static status values. */
  lemma CatalogAgreesWithGroups()
    ensures forall r :: Rovers.Value(r) in RoverTable <==> r in Rovers.ConcreteRovers
    ensures forall r | r in Rovers.ConcreteRovers ::
      RoverTable[Rovers.Value(r)].active <==> r in Rovers.ActiveRovers
    ensures forall k | k in RoverTable ::
      && (RoverTable[k].currentSol.Some? <==> !RoverTable[k].active)
      && (RoverTable[k].currentDate.Some? <==> !RoverTable[k].active)
      && (RoverTable[k].totalPhotos.Some? <==> !RoverTable[k].active)
  {
    forall r: Rovers.RoverType
      ensures Rovers.Value(r) in RoverTable <==> r in Rovers.ConcreteRovers
    {
      match r
      case All =>
      case Active =>
      case Inactive =>
      case Curiosity =>
      case Spirit =>
      case Opportunity =>
      case Perseverance =>
    }
  }

  /** The SHERLOC WATSON camera belongs to Perseverance only. */
  lemma SherlocWatsonOnPerseveranceOnly()
    ensures Value(SHERLOC_WATSON) in PerseveranceCameras
    ensures Value(SHERLOC_WATSON) !in SpiritCameras
    ensures Value(SHERLOC_WATSON) !in OpportunityCameras
    ensures Value(SHERLOC_WATSON) !in CuriosityCameras
  {
    assert Value(SHERLOC_WATSON) == "sherloc_watson";
  }

  /** Every camera name of every catalog rover, upper-cased, is a key of the
      camera table, so building the rover records never raises. */
  lemma CatalogCamerasResolve()
    ensures forall k | k in RoverTable :: BuildRover(RoverTable[k]).Success?
  {
    CuriosityCamerasResolve0();
    CuriosityCamerasResolve6();
    CuriosityCamerasResolve9();
    CuriosityCamerasResolve11();
    CuriosityCamerasResolve13();
    CuriosityCamerasResolve15();
    SpiritCamerasResolve0();
    PerseveranceCamerasResolve0();
    PerseveranceCamerasResolve3();
    PerseveranceCamerasResolve5();
    PerseveranceCamerasResolve8();
    PerseveranceCamerasResolve9();
    PerseveranceCamerasResolve10();
    PerseveranceCamerasResolve11();
    PerseveranceCamerasResolve14();
  }

  // The lemmas below each cover a short run of one rover's camera list,
  // starting at the index in their name; the lists are split so that each
  // proof, which upper-cases every name in its run, stays small.

  lemma CuriosityCamerasResolve0()
    ensures forall i | 0 <= i < 6 :: Upper(CuriosityCameras[i]) in Cameras
  {
    assert Upper("fhaz") == "FHAZ";
    assert Upper("navcam") == "NAVCAM";
    assert Upper("mast") == "MAST";
    assert Upper("chemcam") == "CHEMCAM";
    assert Upper("mahli") == "MAHLI";
    assert Upper("mardi") == "MARDI";
  }

  lemma CuriosityCamerasResolve6()
    ensures forall i | 6 <= i < 9 :: Upper(CuriosityCameras[i]) in Cameras
  {
    assert Upper("rhaz") == "RHAZ";
    assert Upper("mast_left") == "MAST_LEFT";
    assert Upper("mast_right") == "MAST_RIGHT";
  }

  lemma CuriosityCamerasResolve9()
    ensures forall i | 9 <= i < 11 :: Upper(CuriosityCameras[i]) in Cameras
  {
    assert Upper("chemcam_rmi") == "CHEMCAM_RMI";
    assert Upper("fhaz_left_b") == "FHAZ_LEFT_B";
  }

  lemma CuriosityCamerasResolve11()
    ensures forall i | 11 <= i < 13 :: Upper(CuriosityCameras[i]) in Cameras
  {
    assert Upper("fhaz_right_b") == "FHAZ_RIGHT_B";
    assert Upper("nav_left_b") == "NAV_LEFT_B";
  }

  lemma CuriosityCamerasResolve13()
    ensures forall i | 13 <= i < 15 :: Upper(CuriosityCameras[i]) in Cameras
  {
    assert Upper("nav_right_b") == "NAV_RIGHT_B";
    assert Upper("rhaz_left_b") == "RHAZ_LEFT_B";
  }

  lemma CuriosityCamerasResolve15()
    ensures forall i | 15 <= i < 16 :: Upper(CuriosityCameras[i]) in Cameras
  {
    assert Upper("rhaz_right_b") == "RHAZ_RIGHT_B";
  }

  lemma SpiritCamerasResolve0()
    ensures forall i | 0 <= i < 6 :: Upper(SpiritCameras[i]) in Cameras
  {
    assert Upper("fhaz") == "FHAZ";
    assert Upper("navcam") == "NAVCAM";
    assert Upper("pancam") == "PANCAM";
    assert Upper("minites") == "MINITES";
    assert Upper("entry") == "ENTRY";
    assert Upper("rhaz") == "RHAZ";
  }

  lemma PerseveranceCamerasResolve0()
    ensures forall i | 0 <= i < 3 :: Upper(PerseveranceCameras[i]) in Cameras
  {
    assert Upper("edl_rucam") == "EDL_RUCAM";
    assert Upper("edl_ddcam") == "EDL_DDCAM";
    assert Upper("edl_pucam1") == "EDL_PUCAM1";
  }

  lemma PerseveranceCamerasResolve3()
    ensures forall i | 3 <= i < 5 :: Upper(PerseveranceCameras[i]) in Cameras
  {
    assert Upper("edl_pucam2") == "EDL_PUCAM2";
    assert Upper("navcam_left") == "NAVCAM_LEFT";
  }

  lemma PerseveranceCamerasResolve5()
    ensures forall i | 5 <= i < 8 :: Upper(PerseveranceCameras[i]) in Cameras
  {
    assert Upper("navcam_right") == "NAVCAM_RIGHT";
    assert Upper("mcz_right") == "MCZ_RIGHT";
    assert Upper("mcz_left") == "MCZ_LEFT";
  }

  lemma PerseveranceCamerasResolve8()
    ensures forall i | 8 <= i < 9 :: Upper(PerseveranceCameras[i]) in Cameras
  {
    assert Upper("front_hazcam_left_a") == "FRONT_HAZCAM_LEFT_A";
  }

  lemma PerseveranceCamerasResolve9()
    ensures forall i | 9 <= i < 10 :: Upper(PerseveranceCameras[i]) in Cameras
  {
    assert Upper("front_hazcam_right_a") == "FRONT_HAZCAM_RIGHT_A";
  }

  lemma PerseveranceCamerasResolve10()
    ensures forall i | 10 <= i < 11 :: Upper(PerseveranceCameras[i]) in Cameras
  {
    assert Upper("rear_hazcam_left") == "REAR_HAZCAM_LEFT";
  }

  lemma PerseveranceCamerasResolve11()
    ensures forall i | 11 <= i < 14 :: Upper(PerseveranceCameras[i]) in Cameras
  {
    assert Upper("rear_hazcam_right") == "REAR_HAZCAM_RIGHT";
    assert Upper("edl_rdcam") == "EDL_RDCAM";
    assert Upper("skycam") == "SKYCAM";
  }

  lemma PerseveranceCamerasResolve14()
    ensures forall i | 14 <= i < 17 :: Upper(PerseveranceCameras[i]) in Cameras
  {
    assert Upper("sherloc_watson") == "SHERLOC_WATSON";
    assert Upper("supercam_rmi") == "SUPERCAM_RMI";
    assert Upper("lcam") == "LCAM";
  }
}

# Space-news backend imagery and article core, in Dafny

A model of the data-normalisation core of a space-news backend. The backend
serves Earth imagery from NASA's EPIC camera, Mars rover photos and metadata
from the Mars Photo API, and aggregated space-news articles. The network calls
themselves are not modelled. The model covers what the backend does with the
answers:

- **Rovers** (`rovers.dfy`): the seven-member rover enumeration and its fixed
  groups. It includes the expansion of the group flags ALL, ACTIVE and INACTIVE
  into concrete rovers, as the imagery routes do before querying.
- **Catalog** (`catalog.dfy`): the static reference catalog. It holds the
  36-member camera enumeration, the camera table (short code to full name),
  the four rover entries, and the rover records built from them. Building a
  record upper-cases each camera name and looks it up in the camera table.
- **Epic** (`epic.dfy`): the EPIC normaliser. It chooses the latest image or
  the whole series, and builds each archive URL from fixed slices of the
  item's date string.
- **MarsPhotos** (`mars_photos.dfy`): the rover-photo normaliser, in both
  revisions of the code.
  - The newer revision queries every rover and filters the returned items by
    camera.
  - The older revision, which the routes import, first intersects the
    requested cameras with the rover's catalog cameras and skips a rover whose
    intersection is empty.
  - A lemma shows that the two revisions agree whenever the provider reports
    only catalog cameras.
- **Metadata** (`metadata.dfy`): rover metadata in both revisions. This covers
  the manifest filter (earth date first, then sol, else everything), the
  mapping of camera codes to full names, and the rule that only active rovers
  receive live status. The older revision is proved equal to the newer one
  without filtering.
- **Articles** (`articles.dfy`): the news aggregator's list logic. This covers
  the phys.org selection loop (first-seen GUID wins, the "Space Exploration"
  category is excluded, items before the cut-off are dropped) and the
  newest-first sort and `limit` truncation of every article list.
- **Supporting modules.** `wrappers.dfy` defines `Option`/`Result`. `text.dfy`
  defines ASCII case folding, slicing, substring search and `strip`
  (with Python's full whitespace set).
  `seqs.dfy` defines filtering and the two result-collecting loops the
  normalisers share.

Provider calls are function-typed parameters that return `None` for a failed
call. In the Mars code such a failure is an error outcome (`Failure`), because
the source goes on to index the empty answer and raises. In the EPIC code the
failure gives an empty result, as the source's handler does. Python sets that
the code iterates are modelled as sequences, in whatever order the iteration
takes.

## Model

| member | source | states |
|---|---|---|
| Rovers.FlagsPartitionEnumeration | backend/src/models/MarsPhotoAPIData.py:120-144 | The three flags and the four concrete rovers are disjoint and together cover all seven enumeration members. |
| Rovers.GroupsPartitionRovers | backend/src/models/MarsPhotoAPIData.py:134-144 | The active group {Curiosity, Perseverance} and the inactive group {Spirit, Opportunity} are disjoint, and their union is the set of all concrete rovers. |
| Rovers.ValueInjective | backend/src/models/MarsPhotoAPIData.py:120-128 | Two members have the same string value only if they are the same member, so catalog keys and URL segments never collide. |
| Rovers.RemoveRoverFlags | backend/src/routers/imagery.py:13-29 | The expansion never contains a flag and only holds concrete rovers. Without flags the input comes back unchanged. With ALL the result is every concrete rover. Otherwise every concrete rover of the input is kept. |
| Rovers.RemoveRoverFlagsMembership | backend/src/routers/imagery.py:16-27 | Both directions: a rover is in the expansion exactly when it is concrete and was named, or ALL was given, or the flag of its group was given. |
| Rovers.RemoveRoverFlagsWithoutAll | backend/src/routers/imagery.py:21-27 | Without ALL the result is (input minus flags), plus the active rovers if ACTIVE was given, plus the inactive rovers if INACTIVE was given. |
| Rovers.RemoveRoverFlagsIdempotent | backend/src/routers/imagery.py:13-29 | Expanding an already expanded set changes nothing. |
| Rovers.SpiritWithActive | backend/src/routers/imagery.py:22-25 | {Spirit, ACTIVE} expands to {Spirit, Curiosity, Perseverance}: a named rover survives next to a group flag. |
| Catalog.CameraKeyInTable | backend/src/models/MarsPhotoAPIData.py:147-184 | Every member of the camera enumeration is a key of the camera table. |
| Catalog.ResolveCameras | backend/src/get_imagery.py:132-133 | The lookup succeeds exactly when every short code is in the table. It then yields one camera per code, in order, with the table's full name. Otherwise the error names a code missing from the table. |
| Catalog.ResolveCamerasRoundTrip | backend/src/get_imagery.py:150-151 | Reading the short codes back from resolved cameras gives the input codes: order is kept and nothing is added or lost. |
| Catalog.BuildRover | backend/src/models/MarsPhotoAPIData.py:207-212 | A rover record builds exactly when every upper-cased camera name is in the camera table. It copies every other field of the entry (name, launch and landing dates, active flag, sol, date, photo count). It holds one camera per name, with short code equal to the upper-cased name and full name taken from the table. |
| Catalog.CameraShortsAreUpperNames | backend/src/models/MarsPhotoAPIData.py:214-217 | The set of a built rover's short codes is exactly the set of its upper-cased camera names, and every such code is a key of the camera table. |
| Catalog.CatalogCamerasResolve | backend/src/models/MarsPhotoAPIData.py:7-117 | Every rover entry of the shipped catalog builds without error, so constructing the rover records never raises. |
| Catalog.CatalogAgreesWithGroups | backend/src/models/MarsPhotoAPIData.py:7-78 | Exactly the concrete rovers have catalog entries. An entry's `active` flag is set exactly for the active group. Static sol, date and photo count are present exactly for retired rovers. |
| Catalog.CatalogRoverDefined | backend/src/models/MarsPhotoAPIData.py:220-222 | The record table has an entry exactly for each concrete rover, and a flag raises an unknown-rover error. A record is active exactly when its rover is in the active group, and it carries static status exactly when it is retired. |
| Catalog.SherlocWatsonOnPerseveranceOnly | backend/src/models/MarsPhotoAPIData.py:33-77 | SHERLOC_WATSON is among Perseverance's cameras and not among those of Spirit, Opportunity or Curiosity. |
| Epic.ApiUrl | backend/src/apis/get_imagery.py:13-16 | The provider URL always starts with the API base followed by the collection's value. Without a date it is exactly that; with a date it is that followed by `/date/` and the date. |
| Epic.DateFieldsRoundTrip | backend/src/apis/get_imagery.py:33-36 | For a date of the form YYYY-MM-DD..., the year, month and day slices rejoined with dashes give back the first ten characters. |
| Epic.ArchiveUrl | backend/src/apis/get_imagery.py:34-38 | The archive URL is the archive base, then the collection, the year, month and day fields of the item's date, the image type, and the file name with the image type as its extension, separated by slashes. |
| Epic.ArchiveUrlOfDate | backend/src/apis/get_imagery.py:33-38 | For an item dated YYYY-MM-DD..., the archive path's three date segments are the date's slices [0:4], [5:7] and [8:10], and rejoined with dashes they give back the date's first ten characters. |
| Epic.EpicImages | backend/src/apis/get_imagery.py:9-55 | There are no images exactly when the response is absent or empty. Otherwise a non-series request gives one image, built from the last item. A series gives one image per item, in response order. Every image URL lies under the collection's archive path. |
| Epic.SeriesAtLeastLatest | backend/src/apis/get_imagery.py:24-28 | A series request never yields fewer images than the single-image request for the same query. |
| Epic.FailedFetchGivesNothing | backend/src/get_imagery.py:14-27 | A failed provider call (the handler's empty list) or an empty answer gives no images, whatever the other parameters. |
| Epic.ApiUrlAsWrittenMisses | backend/src/get_imagery.py:20-23 | The provider URL as written, which interpolates the enumeration member itself, never starts with the base followed by the collection's value, so it differs from the intended URL. |
| Epic.ArchiveUrlAsWrittenMisses | backend/src/get_imagery.py:42 | The archive URL as written never starts with the archive base, the collection's value and a slash, so it differs from the intended URL. |
| MarsPhotos.ChooseEndpoint | backend/src/apis/get_imagery.py:61-64 | The latest-photos endpoint is chosen exactly when neither an earth date nor a sol is given. |
| MarsPhotos.KeptImages | backend/src/apis/get_imagery.py:76-92 | Every output record is the record of an item that passes the filter, and every passing item's record is in the output. |
| MarsPhotos.KeptImagesAppend | backend/src/apis/get_imagery.py:76-92 | Selection keeps provider order: the records kept from two item lists in turn are the records kept from their concatenation. |
| MarsPhotos.KeptImagesBase | backend/src/apis/get_imagery.py:81-92 | No items give no records, and one item gives its own record exactly when it passes. With the append lemma this fixes the output of every item list, multiplicity included. |
| MarsPhotos.KeptImagesFrom | backend/src/apis/get_imagery.py:76-92 | Each output record is the record of a passing item at some position of the input. |
| MarsPhotos.KeptByCameras | backend/src/apis/get_imagery.py:78-92 | Each record kept by the newer camera filter is the record of an input item whose lower-cased camera is requested, or of any item when no filter is in force. |
| MarsPhotos.RoverPhotos | backend/src/apis/get_imagery.py:70-92 | One rover's query succeeds exactly when the provider answers; a failure names the rover. Its photos are then the records kept from the provider's answer by the camera filter, in provider order. Every kept photo matches the requested cameras, and every item that passes the filter is kept. |
| MarsPhotos.PhotoImages | backend/src/apis/get_imagery.py:58-94 | The whole request succeeds exactly when every rover's query is answered. Every output photo's lower-cased camera code is among the requested cameras when a filter is in force. A failure names one of the rovers. |
| MarsPhotos.PhotoImagesComplete | backend/src/apis/get_imagery.py:76-82 | Any item that any queried rover returned and that passes the camera filter appears in the output. |
| MarsPhotos.PhotoImagesSound | backend/src/apis/get_imagery.py:70-92 | Nothing is invented: every output photo is the record of an item some queried rover returned that passes the camera filter. |
| MarsPhotos.PhotoImagesSingle | backend/src/apis/get_imagery.py:70-92 | For one rover the output is exactly that rover's share: its kept items in provider order, or its failure. With the append lemma this fixes the output, order and multiplicity included, for every rover list. |
| MarsPhotos.PhotoImagesAppend | backend/src/apis/get_imagery.py:69-92 | The output follows rover iteration order: querying two rover lists one after the other gives the two outputs concatenated. |
| MarsPhotos.PhotoImagesFilterIdempotent | backend/src/apis/get_imagery.py:81-82 | Filtering the output again with the same cameras returns it unchanged. |
| MarsPhotos.FilterCameras | backend/src/get_imagery.py:84-86 | A filter exists exactly when a non-empty camera set is requested. It is then exactly the intersection of the requested values with the rover's lower-cased catalog cameras. |
| MarsPhotos.LegacyRoverPhotos | backend/src/get_imagery.py:81-113 | A rover without a catalog entry raises. A rover whose intersection is empty contributes nothing and needs no query. Otherwise success requires the provider's answer, and the photos are the records, in provider order, of the items whose lower-cased camera is in the intersection (every item when no filter is in force): each photo comes from such an item and each such item is kept. Every kept photo matches the requested cameras. |
| MarsPhotos.LegacyPhotoImages | backend/src/get_imagery.py:65-115 | The request succeeds exactly when every rover has a catalog entry and every rover that is queried is answered. Every output photo matches the requested cameras. |
| MarsPhotos.LegacyPhotoImagesComplete | backend/src/get_imagery.py:96-113 | Any item a queried rover returned whose lower-cased camera is in that rover's intersection appears in the output. |
| MarsPhotos.LegacyPhotoImagesSound | backend/src/get_imagery.py:81-113 | Nothing is invented: every output photo is the record of an item returned by a queried rover with a catalog entry, whose lower-cased camera is in that rover's intersection with the request. |
| MarsPhotos.LegacyPhotoImagesAppend | backend/src/get_imagery.py:81-113 | The older revision follows rover iteration order: two rover lists in turn give the two outputs concatenated. |
| MarsPhotos.LegacyPhotoImagesSingle | backend/src/get_imagery.py:81-113 | For one rover the older revision's output is exactly that rover's share, or its failure. With the append lemma this fixes the output for every rover list. |
| MarsPhotos.LegacyIgnoresSkippedRovers | backend/src/get_imagery.py:88-93 | The provider is never consulted for a skipped rover: two fetchers that agree on the queried rovers give the same result. |
| MarsPhotos.SpiritCameraValues | backend/src/get_imagery.py:84-85 | Spirit's rover camera set is the lower-cased set of its catalog camera names. |
| MarsPhotos.SpiritWithoutLcam | backend/src/get_imagery.py:86-89 | Requesting Spirit with only the LCAM camera, which Spirit lacks, yields no photos whatever the provider would answer. |
| MarsPhotos.LegacyFilterIdempotent | backend/src/get_imagery.py:96-113 | Filtering the older revision's output again with the same cameras returns it unchanged. |
| MarsPhotos.RoverStepAgrees | backend/src/get_imagery.py:98-102 | For items whose cameras are all catalog cameras of the rover, the intersection filter and the plain camera filter keep the same items. When the intersection is empty, the plain filter keeps nothing either. |
| MarsPhotos.RoverRevisionsAgree | backend/src/get_imagery.py:84-102 | For one rover whose answer carries only catalog cameras, the older and newer revisions give the same result. |
| MarsPhotos.RevisionsAgree | backend/src/get_imagery.py:81-113 | When every rover is answered and only with catalog cameras, pre-filtering by intersection and post-filtering by camera give identical outputs. |
| Metadata.FilterManifest | backend/src/apis/get_imagery.py:113-121 | Every kept entry comes from the manifest. With an earth date, exactly the entries of that date are kept. With only a sol (0 included), exactly the entries of that sol are kept. |
| Metadata.FilterManifestIsSubsequence | backend/src/apis/get_imagery.py:114-119 | The filtered manifest is a subsequence of the manifest. |
| Metadata.FilterManifestAppend | backend/src/apis/get_imagery.py:113-121 | Filtering two manifests in turn is filtering their concatenation. |
| Metadata.FilterManifestBase | backend/src/apis/get_imagery.py:113-121 | An empty manifest keeps nothing; a one-entry manifest keeps its entry exactly when it is selected. With the append lemma this fixes the result, order and repeated entries included. |
| Metadata.FilterManifestKeepsAll | backend/src/apis/get_imagery.py:120-121 | With neither an earth date nor a sol, the manifest is kept whole. |
| Metadata.EarthDateWins | backend/src/apis/get_imagery.py:114-117 | When an earth date is given, the sol is ignored. |
| Metadata.ResolveManifest | backend/src/apis/get_imagery.py:126-131 | An entry resolves exactly when all its camera codes are in the camera table. Sol, date and photo count are copied, the codes read back unchanged, and each full name comes from the table. Otherwise the error names one of the entry's codes. |
| Metadata.ResolveManifests | backend/src/apis/get_imagery.py:123-133 | A list of entries resolves exactly when every code of every entry is known. It then gives one manifest per entry, in order. |
| Metadata.RoverMetadataOf | backend/src/apis/get_imagery.py:103-144 | A record is produced exactly when the rover has a catalog entry, the manifest (if requested) is fetched and its filtered entries resolve, and an active rover's status is fetched. Manifests are present exactly when requested, one per filtered entry. The catalog fields are unchanged. A retired rover's record is the catalog record. An active rover's status fields hold the live values. |
| Metadata.RetiredRoverIgnoresStatus | backend/src/apis/get_imagery.py:135-142 | A retired rover's metadata does not depend on the status provider at all. |
| Metadata.MetadataList | backend/src/apis/get_imagery.py:97-146 | The list succeeds exactly when every rover's record does. It then holds one record per requested rover, in iteration order. |
| Metadata.LegacyRoverMetadata | backend/src/get_imagery.py:129-167 | Manifests are attached exactly when requested, and then there is one per entry of the fetched manifest, which is not filtered. |
| Metadata.LegacyRoverManifests | backend/src/get_imagery.py:139-155 | Not requested, there is no manifest list. Requested, it succeeds exactly when the manifest is fetched and every camera code of every entry is in the camera table; a failed fetch raises for the rover. The list then holds, in order, one manifest per fetched entry, each resolved from that entry. |
| Metadata.LegacyIsUnfiltered | backend/src/get_imagery.py:140-165 | The older revision's record equals the newer revision's record with neither earth date nor sol. So it attaches the whole manifest, and only active rovers receive live status. |
| Metadata.LegacyMetadataList | backend/src/get_imagery.py:118-169 | A successful list has one record per requested rover. |
| Metadata.LegacyListIsUnfiltered | backend/src/get_imagery.py:126-167 | The older revision's list equals the newer revision's list with neither earth date nor sol. |
| Text.Contains | backend/src/get_articles.py:80 | The substring test holds exactly when the needle occurs at some position of the text. |
| Text.Strip | backend/src/get_articles.py:79 | The stripped text occurs in the original at some position, everything before and after it there is whitespace, and it neither starts nor ends with whitespace. |
| Articles.SelectFrom | backend/src/get_articles.py:72-102 | Reference selection. Every selected item comes from the feed, passes the test, and has a GUID not seen before. No GUID is selected twice. Every passing item's GUID is represented in the selection. |
| Articles.SelectFromFirstWins | backend/src/get_articles.py:75-77 | De-duplication is first-wins: each selected item is the first item of its GUID in the feed that passes. |
| Articles.SelectFromIsSubsequence | backend/src/get_articles.py:100-102 | The selection is a subsequence of the feed. |
| Articles.SelectFromAppend | backend/src/get_articles.py:72-102 | Selecting from two feeds in turn is the first feed's selection followed by the second's, with the GUIDs already taken counted as seen. |
| Articles.SelectFromBase | backend/src/get_articles.py:74-100 | An empty feed selects nothing; a one-item feed selects its item exactly when its GUID is unseen and it passes. With the append lemma this fixes the selection's order (dictionary insertion order, each GUID where its first passing item occurs) and multiplicity. |
| Articles.SelectedArticlesPass | backend/src/get_articles.py:78-99 | Every selected article is dated no earlier than the cut-off. Its stripped category does not contain "Space Exploration", and it is credited to phys.org. |
| Articles.PhysorgArticles | backend/src/get_articles.py:72-102 | The loop with its three skips returns exactly the articles of the reference selection, in order. Each is dated no earlier than the cut-off, outside the excluded category, and credited to phys.org. |
| Articles.SortDesc | backend/src/get_articles.py:109-111 | The result is in non-increasing timestamp order and is a permutation of the input. |
| Articles.Take | backend/src/get_articles.py:111 | Truncation yields a prefix of length min(limit, n), or the whole list when there is no limit. |
| Articles.TakeKeepsNewest | backend/src/get_articles.py:118-120 | Truncating a newest-first list keeps it newest first, and nothing left out is newer than anything kept. |
| Articles.NewestFirst | backend/src/get_articles.py:105-120 | The ordering `Articles.IndustryArticles` and `Articles.ScienceArticles` apply: the result is newest first, has length min(limit, n), and is drawn from the input. Without a limit it is a permutation of the input. |
| Articles.NewestFirstTopK | backend/src/get_articles.py:105-120 | The industry and science lists are top-k selections: any article left out is no newer than every article kept. |
| Articles.AllArticles | backend/src/get_articles.py:123-130 | The merged list is newest first, with length min(limit, n + m), drawn from both inputs together. Without a limit it is a permutation of their union. |
| Articles.TakeTopK | backend/src/get_articles.py:128-130 | Any article that truncation of a newest-first list leaves out is no newer than every article it keeps. |
| Articles.AllArticlesTopK | backend/src/get_articles.py:123-130 | The merged list is a top-k selection: any article of either source that is left out is no newer than every article that is kept. |

## Left out

- HTTP and caching (`request_get_json`, `request_get_json_cached`, `CachedSession`) are not modelled. Each provider call is a function parameter whose `None` stands for a failed call.
- The Spaceflight News API pagination loop and the phys.org RSS download and parsing are network I/O and are not modelled. The model starts from the article list and from the feed items, with the three phys.org feeds concatenated in the order the code chains them.
- Date parsing is not modelled. The EPIC item's epoch is an uninterpreted function, and RSS publication dates are given already converted to epoch seconds, as integers. The cut-off test compares those integers.
- EPIC position data (centroid, positions, attitude quaternions) is floating point. It is carried as reals and copied through unchanged. The older EPIC revision's `coords` payload is represented by the same position record.
- The route handlers, FastAPI validation and the rate limiter are framework glue and are not modelled. `sol` and `limit` are modelled as natural numbers, which is what the routes' `ge=0` checks admit.
- The routes call the older metadata function under a different capitalisation and with four arguments, while it takes two. The model gives the older metadata function its declared two parameters.
- The newer metadata code writes `final_date`/`final_sol` on the shared global rover object, while the record declares `current_*` fields. This is modelled as a pure update of the `current_*` status fields.
- `mars_rovers.json`, which the older revision reads at run time, is not part of this model. The static catalog stands in for it, with its camera names upper-cased to give short codes.
- A `manifest` argument of `None` is modelled as `false`, which is how the code's truthiness test treats it.
- Iteration order over Python sets (requested rovers, catalog camera names) is not modelled. Rovers are a sequence parameter, and camera names are listed in the source's textual order.
- Case folding covers ASCII only. Every camera code, rover key and category the core compares is ASCII. Whitespace stripping uses the full set of characters Python's `str.isspace()` accepts.
- Catalog.CameraKeyInTable: proves that every enumeration member has a table entry, not the converse nor that there are exactly 36 codes. A direct proof of the converse (the table's key set equals the members' keys, or a case split over the 36 keys) runs out of the solver's resources in a single proof.
- Articles.SortDesc: states order and permutation but not stability. The model inserts each article ahead of equal timestamps taken later, matching Python's stable sort, but stability is not proved.
- Metadata.LegacyRoverMetadata: its own contract states only manifest presence and count. Its complete behaviour is stated by Metadata.LegacyIsUnfiltered.
- Metadata.LegacyMetadataList: its own contract states only the record count. Its complete behaviour is stated by Metadata.LegacyListIsUnfiltered.
- Epic.EpicImages: the image timestamp is the uninterpreted epoch of the item's date. That the timestamp is a UTC reading of that date is not stated.

## Findings

| source | as written | input that shows it | evidently intended | confidence | as-written member | corrected member |
|---|---|---|---|---|---|---|
| backend/src/get_imagery.py:20-42 | In the older revision the f-strings interpolate `collection` and `image_type`, which are members of plain `Enum` classes (backend/src/models/EPICAPIData.py:27-39, the module that defines the `EPICImage` this revision imports). Such a member formats as its qualified name. The newer revision imports names that module lacks, so its enumerations are defined elsewhere, are not part of this model, and are taken to be string-valued. | collection NATURAL, no date: the provider URL is `https://epic.gsfc.nasa.gov/api/EPICAPICollectionType.NATURAL`, and the archive URL starts `.../archive/EPICAPICollectionType.NATURAL/`. | The member's value, giving `.../api/natural` and `.../archive/natural/.../png/...`. This is what the URL comments and the tests' checks against the image URL expect. | medium; not executed | Epic.ApiUrlAsWrittenMisses, Epic.ArchiveUrlAsWrittenMisses | Epic.ApiUrl, Epic.ArchiveUrl |

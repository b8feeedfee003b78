# Video exclusion toolbox, modelled in Dafny

This project models the cloud functions of the video exclusion toolbox, a
pipeline that reads Google Ads placement reports, looks the videos and
channels up on YouTube, annotates video thumbnails (objects, faces, the
ages of the people in them) and uploads videos and channels to Google Ads
placement exclusion lists. Each function is one Dafny module, and its
steps are pure functions over immutable data:

- `GenerateCropouts`, `ThumbnailsProcess`, `ThumbnailsLegacy`: probing for the best thumbnail of each tier,
  Vision annotations, crop boxes and cropout blob names;
- `AgeProcessor`, `AgeDispatcher`, `ThumbnailDispatch`: the age-evaluation fan-out and the per-video
  messages;
- `YouTubeChannel`, `YouTubeVideo`: the YouTube metadata services;
- `AdsReportVideo`, `AdsReportChannel`, `AdsAccounts`, `AdsExclusions`, `AdsExcluder`: the Google Ads
  report, account, exclusion-list and excluder services.

Shared helper modules hold what the functions share:

- `Wrappers`: `Option`, `Result`, and a raising function mapped over a list;
- `Text`: `str.replace`, `join`, `lower`, `strip`, `int()`/`str()`;
- `Dicts`: Python dictionaries as ordered key/value lists;
- `Requests`: JSON values and the JSON Schema subset the functions validate with;
- `Sheets`: reading cells of a Google Sheet range;
- `Chunking`: consecutive blocks, numpy's `array_split`, per-item blocks concatenated, and a raising list-valued function mapped and concatenated;
- `Dates`: proleptic Gregorian dates, `timedelta`, `%Y-%m-%d`;
- `VideoReport`: the new-videos query;
- `ReportQuery`: the shared GAQL query shape;
- `Exclusions`: the exclusion-list frame;
- `Thumbnails`: thumbnail URLs, tiers and annotation parsing;
- `BlobNames`: the URL sanitiser.

The first-generation function's `_cropout_from_image`
(src/youtube_thumbnails/main.py:252-286) scales the relative box by the
image size exactly as the processor's relative branch does, so both
generations crop with `ThumbnailsProcess.RelativeCrop`.

Nothing external is called. Every HTTP status, Vision or Gemini answer,
warehouse query result, Google Ads stream, sheet range, clock reading and
UUID is a parameter: a value or an oracle function.

Where the code's behaviour differs from what its comments or
documentation suggest, the model follows the code:

- In the age processor a failed evaluation aborts the whole batch (see Findings).
- In the thumbnail processor, when no thumbnail resolves, concatenating no frames raises.
- With cropping on, a thumbnail with no annotations raises `KeyError: 'label'`.
- The first-generation function announces every cropout whenever the topic setting is a non-empty
  string, `False` included.
- The account service evaluates `int(lookback_days)` only for enabled rows.
- The exclusion services evaluate `int(customer_id)` even when there are no criteria.

## Model

| member | source | states |
|---|---|---|
| GenerateCropouts.CropoutFromImage | src/youtube_thumbnails_generate_cropouts/main.py:332-376 | a bottom-right corner of (0, 0) returns the whole image whatever the top-left says; four coordinates all at most 1 are relative: the box cut out normalises back to the given coordinates; any other box is cut out as given pixels |
| GenerateCropouts.SentinelIgnoresTopLeft | src/youtube_thumbnails_generate_cropouts/main.py:364-365 | with the (0, 0) sentinel the top-left coordinates do not matter |
| GenerateCropouts.FaceBoxCroppedAtPixels | src/youtube_thumbnails_generate_cropouts/main.py:364-376 | a face box that the annotation step divided by the image size is cut back out at exactly its pixel position, unless its bottom-right corner is the origin |
| GenerateCropouts.PixelBoxUsedAsGiven | src/youtube_thumbnails_generate_cropouts/main.py:367-376 | a box with a coordinate above 1 is not scaled |
| GenerateCropouts.ThumbnailName | src/youtube_thumbnails_generate_cropouts/main.py:268-285 | the name is the label, a dash, the six-character UUID suffix, a dash and the sanitised URL; the URL part holds none of the eight replaced characters |
| GenerateCropouts.GsFilePath | src/youtube_thumbnails_generate_cropouts/main.py:235-237 | the slash-joined `gs:/` path reads `gs://bucket/video/file` |
| GenerateCropouts.FuseFilePath | src/youtube_thumbnails_generate_cropouts/main.py:238-240 | the slash-joined FUSE path reads `/gcs/bucket/video/file` |
| GenerateCropouts.BlobPath | src/youtube_thumbnails_generate_cropouts/main.py:321 | the upload path is the prefix, a slash and the image name |
| GenerateCropouts.PathsAgree | src/youtube_thumbnails_generate_cropouts/main.py:235-240 | the gs:// URI and the FUSE path both name the bucket followed by the blob path the upload uses |
| GenerateCropouts.FirstSeenShape | src/youtube_thumbnails_generate_cropouts/main.py:136-140 | the dictionary's keys have no repetition and are exactly the thumbnail URLs that occur |
| GenerateCropouts.OfThumbnailMembers | src/youtube_thumbnails_generate_cropouts/main.py:137-140 | a group holds only objects of the message with its URL, and every object with that URL |
| GenerateCropouts.GroupByThumbnail | src/youtube_thumbnails_generate_cropouts/main.py:136-140 | the transposition yields the URLs in order of first appearance, each with its objects in message order |
| GenerateCropouts.GroupsPartitionObjects | src/youtube_thumbnails_generate_cropouts/main.py:136-140 | the groups together hold as many objects as the message: each object lands in exactly one group |
| GenerateCropouts.CropRecord | src/youtube_thumbnails_generate_cropouts/main.py:223-256 | a cropout's row copies the object's video, URL, label and confidence, names the file after URL and label, and places it under the bucket and video folder |
| GenerateCropouts.CropoutsOfThumbnail | src/youtube_thumbnails_generate_cropouts/main.py:213-265 | an empty group or a thumbnail that cannot be downloaded gives no cropout; otherwise one cropout per object, in order |
| GenerateCropouts.CropoutsComeFromObjects | src/youtube_thumbnails_generate_cropouts/main.py:142-146 | every cropout row repeats the fields of some object of the message |
| GenerateCropouts.Rows | src/youtube_thumbnails_generate_cropouts/main.py:166 | the warehouse rows are the cropouts' records with the image dropped, one per cropout |
| GenerateCropouts.Uploads | src/youtube_thumbnails_generate_cropouts/main.py:152-160 | each cropout is uploaded once, in order, under `{video_id}/{file_name}` |
| GenerateCropouts.CollectCropouts | src/youtube_thumbnails_generate_cropouts/main.py:142-146 | the loop collects the cropouts of every group, group after group |
| GenerateCropouts.Run | src/youtube_thumbnails_generate_cropouts/main.py:116-170 | no objects or no cropouts means no effect at all; otherwise every upload, in order, then one insert of all rows into the cropouts table |
| GenerateCropouts.InsertComesLast | src/youtube_thumbnails_generate_cropouts/main.py:152-170 | the only insert is the last effect |
| ThumbnailsProcess.CropEnabled | src/youtube_thumbnails_process/main.py:52-55 | an unset switch leaves cropping off; it is on only for a lower-cased spelling of `true`, `1` or `t` |
| ThumbnailsProcess.LowerIdempotent | src/youtube_thumbnails_process/main.py:53-55 | lower-casing twice is lower-casing once |
| ThumbnailsProcess.CropEnabledIgnoresCase | src/youtube_thumbnails_process/main.py:53-55 | the switch reads a setting and its lower-cased form the same way |
| ThumbnailsProcess.CropEnabledExamples | src/youtube_thumbnails_process/main.py:53-55 | `TRUE`, `T` and `1` switch cropping on; `yes` does not |
| ThumbnailsProcess.TierHit | src/youtube_thumbnails_process/main.py:465-488 | a tier contributes one URL exactly when one of its names answers 200, and that URL is one of the tier's thumbnail URLs |
| ThumbnailsProcess.FoundThumbnails | src/youtube_thumbnails_process/main.py:152-157 | the found thumbnails are the tiers' hits, tier after tier, each with its downloaded image |
| ThumbnailsProcess.BestThumbnail | src/youtube_thumbnails_process/main.py:465-488 | the tier's dictionary holds the tier's hit, if any, with its image |
| ThumbnailsProcess.TierUrlsDiffer | src/youtube_thumbnails_process/main.py:59-73 | thumbnail URLs of names from two different tiers differ |
| ThumbnailsProcess.TierHitFrom | src/youtube_thumbnails_process/main.py:480-486 | a tier's hit is the URL of one of the tier's names |
| ThumbnailsProcess.TierHitsDisjoint | src/youtube_thumbnails_process/main.py:152-157 | hits of two different tiers differ |
| ThumbnailsProcess.FoundUrlsDistinct | src/youtube_thumbnails_process/main.py:152-157 | at most four thumbnails are found and no two are the same |
| ThumbnailsProcess.LookUpThumbnails | src/youtube_thumbnails_process/main.py:152-157 | the union of the four tier dictionaries loses nothing: it lists the found thumbnails tier after tier |
| ThumbnailsProcess.TierDictsUnite | src/youtube_thumbnails_process/main.py:152-157 | chained dictionary union of the four tier dictionaries equals their concatenation |
| ThumbnailsProcess.UnionOfTiers | src/youtube_thumbnails_process/main.py:152-157 | dictionaries with pairwise different keys unite into their concatenation |
| ThumbnailsProcess.ThumbnailRows | src/youtube_thumbnails_process/main.py:159-166 | a thumbnail yields one row per annotation, objects first and then faces, each carrying the video and the thumbnail URL |
| ThumbnailsProcess.ExtractedRowsBelong | src/youtube_thumbnails_process/main.py:159-168 | every extracted row names the processed video and one of the found thumbnails |
| ThumbnailsProcess.WithLabelIn | src/youtube_thumbnails_process/main.py:180-183 | the filter keeps exactly the rows whose label is listed |
| ThumbnailsProcess.OnThumbnail | src/youtube_thumbnails_process/main.py:195 | the selection keeps exactly the rows on the given thumbnail |
| ThumbnailsProcess.RelativeCrop | src/youtube_thumbnails_process/main.py:312-346 | the crop box is the relative box scaled by the image size: normalising it gives the relative box back |
| ThumbnailsProcess.FaceCroppedAtPixels | src/youtube_thumbnails_process/main.py:404-419 | a face box made relative by the annotation step is cut out at the pixel box Vision reported |
| ThumbnailsProcess.ProcessName | src/youtube_thumbnails_process/main.py:267-285 | a cropout name lies in the video's folder, ends in `.png`, and between them holds the label, the UUID suffix and the sanitised URL |
| ThumbnailsProcess.CropPairs | src/youtube_thumbnails_process/main.py:221-237 | one named crop per selected row, each cutting out that row's relative box |
| ThumbnailsProcess.CropoutDictShape | src/youtube_thumbnails_process/main.py:191-196 | the stored cropouts have distinct names, all in the folder of the video |
| ThumbnailsProcess.UploadsOf | src/youtube_thumbnails_process/main.py:198-205 | one upload per stored cropout, in dictionary order, under its name |
| ThumbnailsProcess.Run | src/youtube_thumbnails_process/main.py:119-205 | an already processed video is skipped; no thumbnail at all raises; the rows are written when there are any; with cropping on, no row at all raises, and otherwise every face and person is uploaded |
| ThumbnailsProcess.UploadsInVideoFolder | src/youtube_thumbnails_process/main.py:180-205 | every upload of a run lies in the processed video's folder and no name is uploaded twice |
| Thumbnails.ThumbnailUrlInjective | src/youtube_thumbnails_process/main.py:59 | for one video, two thumbnail URLs are equal exactly when their file names are |
| Thumbnails.TiersDisjoint | src/youtube_thumbnails_process/main.py:62-73 | no file name belongs to two of the four tiers |
| Thumbnails.ParseObject | src/youtube_thumbnails_process/main.py:422-441 | an object annotation keeps Vision's name and score and the box spanned by normalised vertices 0 and 2 |
| Thumbnails.ParseFace | src/youtube_thumbnails_process/main.py:444-462 | a face annotation is labelled `Face`, keeps the detection confidence and the pixel box of vertices 0 and 2 |
| Thumbnails.ScaleNormalise | src/youtube_thumbnails_process/main.py:404-419 | scaling a box made relative by the image size gives the pixel box back |
| Thumbnails.NormaliseScale | src/youtube_thumbnails_process/main.py:336-346 | making a scaled box relative gives the relative box back |
| Thumbnails.RelativeFaces | src/youtube_thumbnails_process/main.py:383-419 | one annotation per face, each labelled `Face` with the face's confidence and a box that scales back to the face's pixel box |
| Thumbnails.ParsedObjects | src/youtube_thumbnails_process/main.py:355-380 | one annotation per localised object, in order, with its name, score and corner box |
| Thumbnails.Annotations | src/youtube_thumbnails_process/main.py:250-264 | a thumbnail's annotations are its objects followed by its faces |
| Thumbnails.FirstOk | src/youtube_thumbnails_process/main.py:480-488 | the chosen name is the first whose URL answers 200: every earlier one failed; none is chosen only when all fail |
| Thumbnails.ProbeTier | src/youtube_thumbnails_process/main.py:465-488 | the loop requests the tier's URLs in list order, each twice (streamed, then for the status), stops at the first 200 and returns that URL; nothing after it is requested |
| Thumbnails.FirstOkIsFirst | src/youtube_thumbnails_process/main.py:480-486 | a success after a run of failures is the first success |
| Thumbnails.FirstOkNone | src/youtube_thumbnails_process/main.py:487-488 | when every URL fails the tier yields nothing |
| BlobNames.ReplaceEachPointwise | src/youtube_thumbnails_generate_cropouts/main.py:279-281 | the replacement loop puts `_` exactly where a listed character stood and keeps every other character in place |
| BlobNames.SanitiseUrl | src/youtube_thumbnails_generate_cropouts/main.py:48 | the sanitised URL is no longer than the URL and holds none of `: / . ? # & = +` |
| BlobNames.CollapseKeepsAbsence | src/youtube_thumbnails_generate_cropouts/main.py:284 | the underscore collapse never lengthens a text nor brings in a replaced character |
| BlobNames.UuidSuffix | src/youtube_thumbnails_generate_cropouts/main.py:285 | the suffix is the last six characters of the UUID text |
| BlobNames.ReplaceUnderscoresKeepsRest | src/youtube_thumbnails_generate_cropouts/main.py:282-284 | replacing a run of underscores by another changes nothing but underscores |
| BlobNames.SanitiseKeepsOtherCharacters | src/youtube_thumbnails_generate_cropouts/main.py:279-285 | underscores aside, the sanitised URL is the URL with the eight replaced characters deleted: nothing else is lost or reordered |
| BlobNames.CollapseOneRun | src/youtube_thumbnails_generate_cropouts/main.py:284 | a single run of three underscores collapses to one |
| BlobNameExamples.ReplaceEachConcat | src/youtube_thumbnails_generate_cropouts/main.py:279-281 | the replacement loop distributes over concatenation |
| BlobNameExamples.SchemeSeparatorCollapses | src/youtube_thumbnails_generate_cropouts/main.py:279-285 | the `://` of a URL becomes a single underscore in the sanitised name |
| BlobNameExamples.FiveUnderscoresBecomeTwo | src/youtube_thumbnails_generate_cropouts/main.py:284 | the collapse is one pass of each replacement: five underscores become two, not one |
| ThumbnailsLegacy.SendEnabled | src/youtube_thumbnails/main.py:55-57 | announcing is on exactly when the setting is present and non-empty |
| ThumbnailsLegacy.FalseStillSends | src/youtube_thumbnails/main.py:198 | the setting `False` still switches announcing on, because only its truth as text is tested |
| ThumbnailsLegacy.BestThumbnail | src/youtube_thumbnails/main.py:403-425 | the tier yields its first URL answering 200 with its image, and None exactly when no name answers |
| ThumbnailsLegacy.LegacyName | src/youtube_thumbnails/main.py:206-224 | a cropout name lies in the video's folder and ends in `.png` |
| ThumbnailsLegacy.SameAsProcess | src/youtube_thumbnails/main.py:206-286 | this generation names a cropout exactly as the newer processor does |
| ThumbnailsLegacy.LegacyRows | src/youtube_thumbnails/main.py:160-167 | one row per annotation, all carrying the video, the thumbnail URL and one time read for the thumbnail |
| ThumbnailsLegacy.CropEffects | src/youtube_thumbnails/main.py:178-203 | cropping makes one upload per selected row, plus one announcement per upload when announcing is on |
| ThumbnailsLegacy.CropEffectsAt | src/youtube_thumbnails/main.py:178-203 | the j-th selected row is uploaded under its name in the video folder, cut out at its box, and its public address is published right after when announcing is on |
| ThumbnailsLegacy.ProcessThumbnail | src/youtube_thumbnails/main.py:141-203 | a missing thumbnail does nothing; an abort happens only for a thumbnail without annotations (no `label` column) |
| ThumbnailsLegacy.CropSelected | src/youtube_thumbnails/main.py:178-203 | the loop over the selected rows makes the effects the reference definition lists, in order |
| ThumbnailsLegacy.AbortNeedsEmptyThumbnail | src/youtube_thumbnails/main.py:132-138 | a run aborts only at a found thumbnail that has no annotation |
| ThumbnailsLegacy.RunConcatenates | src/youtube_thumbnails/main.py:132-138 | without an abort the run's effects are each thumbnail's effects, in tier order |
| ThumbnailsLegacy.ProcessAll | src/youtube_thumbnails/main.py:132-138 | the loop processes the thumbnails in order and stops at the first exception with the effects made before it |
| ThumbnailsLegacy.Run | src/youtube_thumbnails/main.py:117-138 | the four tiers' best thumbnails are processed in tier order |
| AgeProcessor.Candidates | src/youtube_thumbnails_evaluate_age_processor/main.py:144-151 | a slot's candidate URLs are `{base}/{prefix}{suffix}.jpg` for the five qualities, best first |
| AgeProcessor.FirstUsable | src/youtube_thumbnails_evaluate_age_processor/main.py:150-159 | the chosen quality is the first whose answer is 200 with an `image/` content type: every better one was unusable; none only when all are |
| AgeProcessor.FirstUsableIsFirst | src/youtube_thumbnails_evaluate_age_processor/main.py:150-159 | a usable quality after a run of unusable ones is the one chosen |
| AgeProcessor.FirstUsableNone | src/youtube_thumbnails_evaluate_age_processor/main.py:150-168 | with no usable quality the slot chooses nothing |
| AgeProcessor.SlotHit | src/youtube_thumbnails_evaluate_age_processor/main.py:150-159 | a slot contributes at most one URL, a usable one, exactly when some quality is usable |
| AgeProcessor.SlotTried | src/youtube_thumbnails_evaluate_age_processor/main.py:150-168 | a slot requests between one and five URLs: up to and including the first usable one |
| AgeProcessor.FoundIn | src/youtube_thumbnails_evaluate_age_processor/main.py:149-159 | the slots contribute at most one URL each, every one usable |
| AgeProcessor.FoundInEmpty | src/youtube_thumbnails_evaluate_age_processor/main.py:149-172 | nothing is found exactly when no candidate of any slot is usable |
| AgeProcessor.ThumbnailUrls | src/youtube_thumbnails_evaluate_age_processor/main.py:134-174 | None, never an empty list, exactly when no candidate is usable; otherwise one to four usable URLs |
| AgeProcessor.ThumbnailUrlsBySlot | src/youtube_thumbnails_evaluate_age_processor/main.py:149-174 | the URLs are the slots' hits in the order default, 1, 2, 3 |
| AgeProcessor.SlotStep | src/youtube_thumbnails_evaluate_age_processor/main.py:149-150 | one more slot adds its hit and its requests at the end |
| AgeProcessor.ProbeSlot | src/youtube_thumbnails_evaluate_age_processor/main.py:150-168 | the inner loop requests qualities in order, breaks at the first usable one, and treats a timeout or request error as a miss |
| AgeProcessor.GetThumbnailUrls | src/youtube_thumbnails_evaluate_age_processor/main.py:134-174 | the nested loops return the slots' hits, or None when there is none, and request exactly the URLs the slots try, in order |
| AgeProcessor.TimeoutIsMiss | src/youtube_thumbnails_evaluate_age_processor/main.py:165-166 | a timeout on the best quality moves on to the next quality |
| AgeProcessor.Evaluate | src/youtube_thumbnails_evaluate_age_processor/main.py:177-251 | the evaluation is never None, always stamped; it holds the model's items exactly when the call succeeded and parsed, and a description exactly when it did not |
| AgeProcessor.NoThumbnailRow | src/youtube_thumbnails_evaluate_age_processor/main.py:295-311 | a video with no usable thumbnail gets one row with model `NONE`, no thumbnail URL and no age |
| AgeProcessor.EnrichedRows | src/youtube_thumbnails_evaluate_age_processor/main.py:329-339 | with items, one row per item carrying the video, the thumbnail, the evaluation's time, the model and the item's description and age; without items, `KeyError` |
| AgeProcessor.Writes | src/youtube_thumbnails_evaluate_age_processor/main.py:93-131 | an empty list writes nothing; otherwise exactly one insert of all the rows |
| AgeProcessor.ThumbnailsAsWritten | src/youtube_thumbnails_evaluate_age_processor/main.py:313-350 | the inner loop raises exactly when some thumbnail's evaluation fails, and never inserts an empty list |
| AgeProcessor.VideoAsWritten | src/youtube_thumbnails_evaluate_age_processor/main.py:293-350 | a video raises exactly when one of its thumbnails fails; a video without thumbnails writes its placeholder row |
| AgeProcessor.RunAsWritten | src/youtube_thumbnails_evaluate_age_processor/main.py:254-352 | the run as written aborts exactly when some video of the batch has a failed evaluation |
| AgeProcessor.FailureAbortsBatch | src/youtube_thumbnails_evaluate_age_processor/main.py:322-338 | a failed evaluation of the first video's first thumbnail ends the invocation with nothing written for the whole batch |
| AgeProcessor.ThumbnailsCorrected | src/youtube_thumbnails_evaluate_age_processor/main.py:313-350 | with failures skipped, every insert is non-empty and holds rows of this video with a thumbnail URL and the model id |
| AgeProcessor.VideoCorrected | src/youtube_thumbnails_evaluate_age_processor/main.py:293-350 | with failures skipped, every row written for a video carries that video |
| AgeProcessor.RunCorrected | src/youtube_thumbnails_evaluate_age_processor/main.py:293-352 | with failures skipped, the run never inserts an empty list |
| AgeProcessor.ThumbnailsAgree | src/youtube_thumbnails_evaluate_age_processor/main.py:313-350 | without a failed evaluation the inner loops as written and as corrected make the same inserts |
| AgeProcessor.RunsAgree | src/youtube_thumbnails_evaluate_age_processor/main.py:293-352 | without a failed evaluation the runs as written and as corrected make the same inserts and neither aborts |
| AgeProcessor.CorrectedSkipsFailures | src/youtube_thumbnails_evaluate_age_processor/main.py:322-327 | in the corrected run a first video whose evaluations all fail costs only its own rows: the rest of the batch is written |
| AgeProcessor.NoRowsFromFailures | src/youtube_thumbnails_evaluate_age_processor/main.py:322-327 | failed evaluations contribute no rows in the corrected run |
| AgeProcessor.PlaceholderThenNext | src/youtube_thumbnails_evaluate_age_processor/main.py:295-311 | a video with no usable thumbnail gets exactly its placeholder row and the run continues with the next video |
| AgeDispatcher.SettingPairs | src/youtube_thumbnails_evaluate_age_dispatcher/main.py:126 | the comprehension sees at most one pair per row |
| AgeDispatcher.Settings | src/youtube_thumbnails_evaluate_age_dispatcher/main.py:126 | the settings dictionary has no repeated key |
| AgeDispatcher.LastForPairs | src/youtube_thumbnails_evaluate_age_dispatcher/main.py:126 | the last pair for a name is cell 1 of the last row of two or more cells with that name |
| AgeDispatcher.SettingsGet | src/youtube_thumbnails_evaluate_age_dispatcher/main.py:126 | looking up a setting gives cell 1 of the last long-enough row with that name: short rows are ignored and a later row overrides an earlier one |
| AgeDispatcher.ConfigFromSheet | src/youtube_thumbnails_evaluate_age_dispatcher/main.py:85-127 | the configuration is read exactly when the instruction and prompt ranges both have a first cell; it holds those cells and the settings of the configuration range |
| AgeDispatcher.Messages | src/youtube_thumbnails_evaluate_age_dispatcher/main.py:257-266 | there are `ceil(n / 5)` messages, each carrying the instruction, the prompt and batch id `placeholder` |
| AgeDispatcher.MessageAt | src/youtube_thumbnails_evaluate_age_dispatcher/main.py:258-266 | message j carries `data[5j:5j+5]`, its part number reads back as j + 1 and its total as the number of messages |
| AgeDispatcher.VideoLists | src/youtube_thumbnails_evaluate_age_dispatcher/main.py:265 | the video lists are the messages' video lists, one per message |
| AgeDispatcher.MessagesCoverData | src/youtube_thumbnails_evaluate_age_dispatcher/main.py:257-266 | the batches together are the query result again: every video is sent once, in query order |
| AgeDispatcher.Run | src/youtube_thumbnails_evaluate_age_dispatcher/main.py:197-283 | a sheet that cannot be read or a missing gate setting raises; a gate other than `Enabled` stops the run; an empty query stops it; otherwise the `ceil(n / 5)` messages of the query result in blocks of five are published |
| AgeDispatcher.HandleRequest | src/youtube_thumbnails_evaluate_age_dispatcher/main.py:286-325 | an invalid payload gets a 400 `Failed` reply carrying the schema fault; a conforming payload whose limit does not parse, or whose run raises, crashes with that error; otherwise it gets a 200 `Success` reply carrying the run's outcome, and only then |
| Sheets.FirstCell | src/youtube_thumbnails_evaluate_age_dispatcher/main.py:104-115 | the first cell of the first row, or an error when the range is missing or empty |
| Chunking.CeilDiv | src/youtube_thumbnails_evaluate_age_dispatcher/main.py:264 | the quotient rounded up: the least q with d * q at least n |
| Chunking.ConsecutiveCount | src/youtube_thumbnails_evaluate_age_dispatcher/main.py:258 | a list cut into blocks of a fixed size gives `ceil(n / size)` blocks |
| Chunking.ConsecutiveAt | src/youtube_thumbnails_evaluate_age_dispatcher/main.py:265 | block j is `xs[size * j : size * (j + 1)]`, cut at the end of the list |
| Chunking.ConsecutiveFlatten | src/youtube_thumbnails_evaluate_age_dispatcher/main.py:258-266 | the blocks together are the list again |
| Requests.Validate | src/youtube_thumbnails_evaluate_age_dispatcher/main.py:303-311 | validation reports nothing exactly when the payload conforms to the schema, and otherwise a genuine fault of the payload |
| Requests.RequiredString | src/youtube_thumbnails_evaluate_age_dispatcher/main.py:313-316 | a conforming payload holds text under each required text property |
| Text.ParseShowRoundTrip | src/youtube_thumbnails_evaluate_age_dispatcher/main.py:263-264 | the decimal text of a natural number parses back to that number |
| ThumbnailDispatch.Publications | src/youtube_thumbnails_dispatch/main.py:172-179 | one message per new video, in the order the query returned them, message i labelled i + 1 of the number of videos |
| ThumbnailDispatch.PayloadRoundTrip | src/youtube_thumbnails_dispatch/main.py:173 | the published payload `{'video_id': id}` is accepted by the thumbnail processor's message schema and reads back as the same video id |
| ThumbnailDispatch.PublicationsDecode | src/youtube_thumbnails_dispatch/main.py:172-179 | every published message, read by the processor, validates and names exactly the i-th new video |
| ThumbnailDispatch.OnMessage | src/youtube_thumbnails_dispatch/main.py:62-90 | a message failing the date_partition schema is an error; a valid one publishes one payload per new video of that day, in order |
| ThumbnailDispatch.Run | src/youtube_thumbnails_dispatch/main.py:93-122 | nothing is published exactly when every report row of the day names an already-annotated video |
| VideoReport.NewVideoIds | src/youtube_video/main.py:101-106 | the ids of the day's report rows that are not yet in the target table, each once: a video is listed iff it is unknown and appears on that day |
| VideoReport.QualifyingListed | src/youtube_thumbnails_dispatch/main.py:102-111 | a single report row of the day with an unknown video makes the result non-empty, so the "no new videos" branch is not taken |
| YouTubeVideo.SplitToChunks | src/youtube_video/main.py:189-206 | ceil(n / 50) requests, none empty, none above fifty ids, and together the id list again in order |
| YouTubeVideo.IntOrZero | src/youtube_video/main.py:237 | an absent count is 0; a present one succeeds exactly when it parses as an integer, with that value |
| YouTubeVideo.VideoRowOf | src/youtube_video/main.py:230-247 | a row exists iff snippet, contentDetails with contentRating, and statistics are present and every count parses; absent text fields become '' and absent counts 0 |
| YouTubeVideo.DefaultsOfBareItem | src/youtube_video/main.py:230-247 | an item with every optional field absent gives empty text, zero counts and null description, tags, channel and date |
| YouTubeVideo.RowsOf | src/youtube_video/main.py:230-248 | one row per item in the answer's order; one malformed item fails the whole response |
| YouTubeVideo.ProcessResponse | src/youtube_video/main.py:209-248 | a response with totalResults 0 gives no rows whatever its items; otherwise the rows of all items, in order |
| YouTubeVideo.Run | src/youtube_video/main.py:92-186 | no YouTube request exactly when the day has no new video; otherwise the requests cover the new ids in order in chunks of at most fifty; the run fails exactly when an answer fails to convert, and otherwise writes the rows of every answer, in chunk order, each with the load time |
| YouTubeVideo.OnMessage | src/youtube_video/main.py:61-89 | an invalid message is an error; a valid one runs on its date_partition |
| YouTubeChannel.NewChannels | src/youtube_channel/main.py:113-137 | the channels to look up are exactly the report's channels that the channel table does not hold |
| YouTubeChannel.ListOf | src/youtube_channel/main.py:163 | listing the set gives each of its channels exactly once |
| YouTubeChannel.SplitToChunks | src/youtube_channel/main.py:290-307 | `ceil(n / 50)` chunks, none empty, none over fifty, together the list again |
| YouTubeChannel.CleanTopicOfUrl | src/youtube_channel/main.py:337-338 | a Wikipedia topic URL gives back its page name |
| YouTubeChannel.CleanTopics | src/youtube_channel/main.py:336-338 | the clean names are computed exactly when every topic holds the Wikipedia prefix, one per topic, in order |
| YouTubeChannel.ChannelRow | src/youtube_channel/main.py:330-348 | a row is made exactly when the channel has statistics and a snippet and its topics are clean; it keeps the id, the title and country (empty when absent) and the topics |
| YouTubeChannel.ProcessResponse | src/youtube_channel/main.py:310-349 | an answer with no results gives no rows; otherwise one row per item, in order, or the first item's error |
| YouTubeChannel.RowsOf | src/youtube_channel/main.py:330-349 | the items' rows, one per item, succeed exactly when every item's row does |
| YouTubeChannel.SanitiseTitle | src/youtube_channel/main.py:281-286 | the written title holds none of the problem characters, is no longer than the original and has no surrounding white space |
| YouTubeChannel.SanitiseTitleIdempotent | src/youtube_channel/main.py:281-286 | sanitising a sanitised title changes nothing |
| YouTubeChannel.Count | src/youtube_channel/main.py:273-280 | an absent count becomes 0; a present one is converted exactly when it reads as an integer, to that integer |
| YouTubeChannel.Sanitise | src/youtube_channel/main.py:264-287 | a row is sanitised exactly when its three counts convert; the title is sanitised and the other fields are kept, with the shared time stamp |
| YouTubeChannel.SanitiseAll | src/youtube_channel/main.py:264-287 | every row is sanitised, in order, or the table fails to convert |
| Chunking.FlatMapAll | src/youtube_channel/main.py:168-180 | the loop gathering every chunk's answer rows (here and at src/youtube_video/main.py:144-157): the lists concatenated in chunk order, and a result exactly when every answer converts |
| YouTubeChannel.Run | src/youtube_channel/main.py:105-197 | no new channel means no request; otherwise `ceil(n / 50)` requests of one to fifty channels that name every new channel exactly once; it fails exactly when an answer or the sanitising fails, writes nothing exactly when the answers hold no row, and otherwise writes the sanitised rows of the answers, stamped with the load time |
| YouTubeChannel.OnMessage | src/youtube_channel/main.py:76-102 | a message off the schema raises before any request; otherwise everything `Run` promises holds for the report the message's `blob_name` names |
| Chunking.ArraySplit | src/youtube_channel/main.py:305 | `np.array_split` into k sections gives k sections; the first `n % k` hold one item more than `n // k` |
| Chunking.ArraySplitFlatten | src/youtube_channel/main.py:305 | the sections, in order, are the list again |
| Chunking.SectionsFit | src/youtube_channel/main.py:304-305 | splitting n items into `ceil(n / size)` sections leaves none larger than size and none empty |
| Chunking.BalancedChunks | src/youtube_channel/main.py:290-307 | `ceil(n / size)` chunks, none empty or larger than size, sizes differing by at most one, together the list again |
| Text.StripIdempotent | src/youtube_channel/main.py:286 | stripping twice is stripping once |
| Text.StripEdges | src/youtube_channel/main.py:286 | a stripped text neither starts nor ends with white space |
| Text.RemoveCharsAbsent | src/youtube_channel/main.py:283-285 | deleting characters a text does not hold leaves it unchanged |
| Dates.NextDay | src/google_ads_report_video/main.py:267 | the following calendar day is a valid date one ordinal later, across month and year ends and leap days |
| Dates.PrevDay | src/google_ads_report_video/main.py:267 | the preceding calendar day is a valid date one ordinal earlier |
| Dates.Shift | src/google_ads_report_video/main.py:267 | `today - timedelta(days=k)` lands exactly k days away, and fails with an overflow exactly when that day is outside 0001-01-01 .. 9999-12-31 |
| Dates.ParseFormat | src/google_ads_report_video/main.py:264-271 | the `%Y-%m-%d` text of a date reads back as that same date |
| Dates.FormatParse | src/google_ads_report_video/main.py:264-271 | text that reads as a date is that date's `%Y-%m-%d` text, so the format is one-to-one |
| Dates.FloorSeconds | src/google_ads_report_channel/main.py:140 | the load time floored to the second: same day, a whole second, not after the clock reading and less than a second before it |
| ReportQuery.LookbackDays | src/google_ads_report_video/main.py:44-56 | a JSON integer look-back is taken as is; a JSON real is accepted only when it is a whole number of days, with the same value |
| ReportQuery.QueryDates | src/google_ads_report_video/main.py:246-271 | the second date reads back as today and the first as the day lookback_days earlier; an error exactly when that day leaves the calendar |
| ReportQuery.WindowDays | src/google_ads_report_video/main.py:207-211 | a look-back above one day selects every day from lookback_days ago through today inclusive; otherwise exactly today |
| ReportQuery.ConditionDates | src/google_ads_report_video/main.py:208-211 | the date condition text carries today's date, and for a range the start date, at fixed positions |
| ReportQuery.Conditions | src/google_ads_report_video/main.py:207-213 | the report's fixed conditions, then the date condition, then the filters when given and nothing after |
| ReportQuery.WhereAgrees | src/google_ads_report_video/main.py:207-240 | joining the structured conditions with AND gives the fixed WHERE text followed by `where_query`, so the structured query says what the text says |
| ReportQuery.BuildQuery | src/google_ads_report_video/main.py:192-243 | the query selects the given fields from the given resource under the fixed, date and filter conditions; fails exactly when the dates do |
| AdsReportVideo.VideoQuery | src/google_ads_report_video/main.py:192-243 | a detail_placement_view query restricted to YouTube video placements of video campaigns with a display name, then the date window, then the filters |
| AdsReportVideo.RecordOf | src/google_ads_report_video/main.py:143-164 | every comma of the display name becomes a space and nothing else changes, so the CSV name holds no comma; the other cells are copied in frame order |
| AdsReportVideo.Records | src/google_ads_report_video/main.py:140-164 | one record per streamed row, in stream order, all stamped with the same time |
| AdsReportVideo.BlobNameDates | src/google_ads_report_video/main.py:288-307 | no rows means no blob; otherwise the name opens with the folder and account, ends with today's date and `.csv`, and for a window above a day carries the window's first day after the account |
| AdsReportVideo.StartJob | src/google_ads_report_video/main.py:88-108 | the job runs the video query and keeps all its rows; a message naming the account and blob is sent exactly when rows were written |
| AdsReportVideo.OnMessage | src/google_ads_report_video/main.py:59-83 | an invalid message is an error; a valid one starts the job with its account, look-back and filters |
| AdsReportChannel.ChannelQuery | src/google_ads_report_channel/main.py:221-265 | a group_placement_view query restricted to YouTube channel placements of video campaigns with a display name and target URL, then the date window, then the filters |
| AdsReportChannel.KeepNew | src/google_ads_report_channel/main.py:129-132 | a row survives iff its channel is not already loaded today; no survivor is invented |
| AdsReportChannel.KeepNewAppend | src/google_ads_report_channel/main.py:129-132 | filtering keeps the rows' order |
| AdsReportChannel.KeepNewNothingLoaded | src/google_ads_report_channel/main.py:129-132 | with no channel loaded today every row is kept, as the skipped filter does |
| AdsReportChannel.KeepNewEmpty | src/google_ads_report_channel/main.py:134-136 | nothing survives exactly when every row's channel is already loaded |
| AdsReportChannel.Stamp | src/google_ads_report_channel/main.py:140 | one record per row with the account id as text reading back as the same number, the same channel, URL and metrics, and the load time floored to the second |
| AdsReportChannel.Run | src/google_ads_report_channel/main.py:91-151 | an error exactly when the dates do; otherwise the outcome `Report` gives on the rows of the channel query: no rows, no new rows, or the not-yet-loaded rows, in report order, loaded with the floored time and a message naming the account and the load day as `%Y-%m-%d` |
| AdsReportChannel.Report | src/google_ads_report_channel/main.py:113-146 | an empty report stops the run, a report whose every channel is already loaded today stops it too, and otherwise exactly the not-yet-loaded rows are loaded, in report order, stamped with the time floored to the second, and the message names the account and the load day |
| AdsReportChannel.OnMessage | src/google_ads_report_channel/main.py:62-88 | an invalid message is an error; a valid one runs with its account, look-back and filters |
| Sheets.Flag | src/google_ads_accounts/main.py:140-145 | an absent range reads as `false`; an empty present range raises; otherwise true exactly when the first cell lower-cases to `true` |
| Sheets.FlagIgnoresCase | src/google_ads_accounts/main.py:145 | `TRUE`, `True` and `true` all switch the flag on: only the lower-cased text matters |
| AdsAccounts.Conditions | src/google_ads_accounts/main.py:192-194 | one `metrics.<metric> <operator> <value>` condition per filter row, in sheet order; a row of fewer than three cells raises |
| AdsAccounts.GaqlFilters | src/google_ads_accounts/main.py:175-195 | no filter rows give the empty filter; the result exists exactly when every row has at least three cells |
| AdsAccounts.GaqlFiltersOne | src/google_ads_accounts/main.py:194 | a single filter row gives exactly its one condition |
| AdsAccounts.GaqlFiltersAppend | src/google_ads_accounts/main.py:195 | the filters of two row blocks are the first block's filter, ` AND `, then the second's: rows are ANDed in order |
| AdsAccounts.EnabledIdsMember | src/google_ads_accounts/main.py:157-158 | an account is published exactly when some sheet row enables it |
| AdsAccounts.Configs | src/google_ads_accounts/main.py:156-172 | one configuration per enabled account in sheet order, all with the same sheet, look-back, filters and flags; fails when a row is not two cells, or when an account is enabled and the look-back is not an integer |
| AdsAccounts.ConfigFromSheet | src/google_ads_accounts/main.py:98-172 | the look-back defaults to 1 and both flags to false when their ranges are absent; one configuration per enabled account |
| AdsAccounts.HandleRequest | src/google_ads_accounts/main.py:52-83 | an invalid request is answered 400 with the schema fault and publishes nothing; a valid one is answered 200 with the sheet's configurations, or the sheet's error escapes |
| Exclusions.ExclusionRows | src/google_ads_exclusions/main.py:84-159 | one row per shared criterion in stream order with the account as a number and one load time; the id is the channel of a channel criterion and the video of a video criterion; fails exactly when the account id is not an integer, even with no criteria |
| Exclusions.FileName | src/google_ads_exclusions/main.py:78 | the file name is the folder, the account id and `.csv`, nothing more |
| Exclusions.FileNameInjective | src/google_ads_exclusions/main.py:78 | two accounts never share an exclusions file |
| Exclusions.WriteResults | src/google_ads_exclusions/main.py:162-182 | a frame with rows is uploaded whole under the given name; an empty one is not written |
| AdsExclusions.Run | src/google_ads_exclusions/main.py:70-81 | the account's criteria are written to its own file, nothing written when it has none, and an error exactly when the account id is not an integer |
| AdsExclusions.OnMessage | src/google_ads_exclusions/main.py:46-67 | an invalid message is an error; a valid one runs for its account |
| AdsExcluder.IdsOfKindMember | src/google_ads_excluder/main.py:109-113 | an id is pending under a kind exactly when a query row of that kind names it |
| AdsExcluder.Partition | src/google_ads_excluder/main.py:106-118 | the videos are the `video_id` rows' ids and the channels the `channel_id` rows' ids, each in query order |
| AdsExcluder.PartitionCount | src/google_ads_excluder/main.py:109-113 | no row is listed twice; when every row is of one of the two kinds none is dropped |
| AdsExcluder.SetIds | src/google_ads_excluder/main.py:220-223 | the shared sets as a dictionary: each name once |
| AdsExcluder.SetIdsLast | src/google_ads_excluder/main.py:220-223 | a name that appears twice keeps its last id |
| AdsExcluder.SharedSetParts | src/google_ads_excluder/main.py:264 | the shared-set resource opens with the account's prefix and ends with text reading back as the set id |
| AdsExcluder.Operations | src/google_ads_excluder/main.py:263-277 | one create operation per pending video, then one per pending channel, each in order and all on the same shared set |
| AdsExcluder.Exclude | src/google_ads_excluder/main.py:59-73 | the CSV is refreshed before, and that write stays made when a missing list name raises afterwards; operations are sent and the CSV refreshed again exactly when something is pending; fails exactly when the account id is not an integer, or when something is pending and the account has no list of that name |
| AdsExcluder.TextField | src/google_ads_excluder/main.py:53-55 | a field is read only from an object holding it as text; a body that is not an object or lacks the field raises |
| AdsExcluder.HandleRequest | src/google_ads_excluder/main.py:43-73 | a missing field raises before any write; otherwise the exclusion run's promises hold for the request's account and list name, and the answer is `OK` exactly when that run did not raise |
| Text.ReplaceCharPointwise | src/google_ads_report_video/main.py:147 | replacing one character by another keeps the length and changes exactly the positions holding that character |
| Text.Lower | src/google_ads_accounts/main.py:145 | lower-casing keeps the length and maps each character on its own, upper-case ASCII letters to lower case and every other character to itself |
| Dicts.PutAllGet | src/google_ads_excluder/main.py:220-223 | after a run of dictionary assignments a key holds the value it was assigned last, or its earlier value when never assigned |
| Dicts.PutAllDistinct | src/google_ads_excluder/main.py:220-223 | assigning keys one by one never gives a dictionary with a repeated key |
| Dicts.DisjointUnion | src/youtube_thumbnails_process/main.py:191-196 | merging dictionaries with no key in common by dictionary union keeps every entry of both, the left one's first |
| Text.SplitSecondAfterPrefix | src/youtube_channel/main.py:338 | the part after the Wikipedia prefix is the topic name when the name itself holds no second prefix |

## Left out

- Pub/Sub publishing, its futures, callbacks and waiting are not modelled. Only which messages are built, and in what order, is modelled. In particular, that a publish failure in the thumbnail dispatcher is only logged is not modelled.
- BigQuery SQL text, loads, inserts and table schemas are not modelled. A query result is an input sequence, and a dedup query is a set difference over it.
- The temporary table of the channel service (sha256 naming, expiry update and its retry) is left out. It is warehouse plumbing that the channel rows do not depend on.
- HTTP, the Vision API and Gemini are oracles passed in as functions. In the age processor a timeout or request exception of a thumbnail probe is caught and modelled as a miss.
- Pixel decoding, cropping and encoding (PIL) are left out, including PIL's rounding and clamping of the crop box. The model states the box that is asked for.
- Floating point is left out: coordinates, scores and metrics are exact `real` numbers.
- The Sheets API, credentials, environment variables, logging, `datetime.now()` and `uuid4()` are left out. Their values are parameters, except that the boolean environment parse of the thumbnail processor is modelled.
- The base64 and JSON decoding of Pub/Sub events is left out. A message arrives as a decoded `Json` value.
- The age processor's entry point (`main`, its schema check and message decoding) is not modelled separately. The model starts at `run` with the batch's videos.
- The DataFrame built inside the batch loop of the channel report is treated as one batch of rows.
- The pandas and numpy glue is left out (column renames, dtype casts, CSV serialisation), beyond the row contents and `array_split` sizing.
- Text.Lower: lower-cases ASCII letters only. Python's `str.lower` also maps other cased Unicode letters; the cells it is applied to are flag words.
- Text.ParseShowRoundTrip: `ParseInt` accepts an optional sign and decimal digits only. Python's `int()` also accepts surrounding whitespace and `_` separators; that wider syntax is not modelled.
- ReportQuery.LookbackDays: a JSON number with a fraction is accepted by the schema, but the model's entry points return the error `Unmodelled` for it. The window of a fractional `timedelta` is not modelled.
- Dates.ParseFormat: years are written with four digits. Python's `strftime('%Y')` for years below 1000 is platform-dependent and is not modelled.
- Requests.Validate: reports one schema fault, in keyword order. jsonschema's choice among several faults, and its message wording, are not modelled.
- ReportQuery.WhereAgrees: the query is modelled as structure (fields, resource, conditions) whose rendering matches the functions' text up to white space. The exact multi-line layout is not modelled.
- YouTubeChannel.ListOf: a set of channel ids is listed in some order. Python's set iteration order is not modelled.
- YouTubeChannel.Sanitise: uses the default problem characters. The environment override of that list is not modelled.
- AdsReportVideo.StartJob: one `today` is used for the query and the blob name, where the code reads the clock for each. A run straddling midnight is not modelled.
- YouTubeVideo.ProcessResponse: assumes `pageInfo` is present; a response without it would raise `AttributeError` in the code.
- Thumbnails.ProbeTier: the tier probes of the thumbnail processor and of the legacy thumbnail function catch nothing, so a request exception there escapes and ends the run; the status oracle always answers, and that escape is not modelled.
- YouTubeVideo.VideoRowOf: `publishedAt` keeps its text. `pd.Timestamp` raises on text it cannot parse, and that error is not modelled.
- GenerateCropouts.CropoutsOfThumbnail: the thumbnail download catches nothing, so a request exception escapes and ends the run. The model's download answers with an image or a failed status, and that escape is not modelled.
- YouTubeChannel.ProcessResponse: assumes `pageInfo` is present; a response without it would raise `AttributeError` in the code.
- AdsExcluder.TextField: a request field that is present but not text is the error `Unmodelled` in the model, where the code would pass the value on unchecked.
- ThumbnailDispatch.Run: returns the messages to publish; their publication and its callbacks are not modelled.

## Findings

| source | as written | input that shows it | evidently intended | confidence | as-written member | corrected member |
|---|---|---|---|---|---|---|
| src/youtube_thumbnails_evaluate_age_processor/main.py:212-244 | a failed evaluation returns a dictionary holding only `datetime_updated` and `description`. It never returns `None`, so the `is None` check at line 322 never fires, and `response['items']` at line 338 raises `KeyError`. That ends the whole invocation, so the batch's remaining thumbnails and videos are never evaluated or written. | a batch whose first video has a usable thumbnail whose model call raises an API error or returns text that is not JSON | skip the failed thumbnail and carry on with the next thumbnail and video | not executed | AgeProcessor.RunAsWritten (shown by AgeProcessor.FailureAbortsBatch) | AgeProcessor.RunCorrected (AgeProcessor.CorrectedSkipsFailures, AgeProcessor.RunsAgree) |

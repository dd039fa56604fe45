# Around: post ingestion and search, modelled in Dafny

Around is a small Go web service. An authenticated user submits a geo-tagged post with a media file. The service stores the file in Cloud Storage, scores images for faces with Cloud Vision and indexes the post in Elasticsearch. Two read endpoints query that index: one by distance from a point, one by a threshold on a numeric field (the face score).

This project models the decision logic of `main.go`. It covers:

- the media classifier: the suffix as `filepath.Ext` takes it, looked up in the `mediaTypes` table;
- the `handlerPost` pipeline and the external calls it makes, in order;
- the queries that `handlerSearch` and `handlerCluster` build;
- the decoding loop of `getPostFromSearchResult`.

The external services are not modelled. Each appears as the answer it gives: the upload returns a link or fails, the vision reply is a failure or a list of face confidences, and the index write passes or fails. The model's `Ingest.HandlePost` returns the list of calls the handler makes (`Ingest.Call`) in its `calls` out-parameter, so the properties about order and early exit are stated over that list.

Files:

- `wrappers.dfy`: `Option`, `Result` and `Outcome`.
- `posts.dfy`: `Location`, `Post` and the index name `POST_INDEX`.
- `media.dfy`: `filepath.Ext` and the `mediaTypes` lookup.
- `queries.dfy`: the radius string and the two query values.
- `decode.dfy`: `getPostFromSearchResult` and its specification `Decoded`.
- `vision.dfy`: how `annotate` turns a detection reply into a score.
- `ingest.dfy`: `handlerPost`.
- `gateway.dfy`: `handlerSearch` and `handlerCluster`.

Facts about the code that the model keeps:

- An absent or invalid token is answered 401 by the JWT middleware, which is left out. A verified token whose claims lack a string `username` makes `username.(string)` (main.go:106) panic before any call. The model gives `Panic` with no calls.
- The attachment is mandatory. Without a readable "image" file the handler answers 400 and calls nothing (main.go:115-120).
- Latitude and longitude are parsed with their errors discarded (main.go:102-103, 181-182). The model takes the parsed values as given.

## Model

| member | source | states |
|---|---|---|
| Media.ExtScan | main.go:122 | Scanning down from index `i`, the result is either empty, with every '.' at or below `i` followed by a '/' at or below `i`, or the suffix of the path that starts at the last '.' before any '/', with no '.' or '/' after it |
| Media.Ext | main.go:122 | The suffix is the extension of the path: empty exactly when the final path element has no '.', otherwise the path's suffix from the last '.' of that element |
| Media.ExtensionUnique | main.go:122 | Only one suffix meets the extension characterisation, so the characterisation fully determines `Ext` |
| Media.MediaKind | main.go:123-127 | The lookup gives "image" exactly for .jpeg/.jpg/.gif/.png, "video" exactly for .mov/.mp4/.avi/.flv/.wmv, the table's entry for every key, and "unknown" exactly for a suffix outside the table |
| Media.Classify | main.go:33-43 | The media type of a file name is always "image", "video" or "unknown"; it is "image" or "video" exactly when the file's extension is in the corresponding group |
| Media.ClassifyExamples | main.go:122-127 | The lookup is case-sensitive (".JPG" is "unknown"). A name with no suffix, or one ending in a bare '.', is "unknown". Only the last suffix counts ("clip.jpg.mp4" is video). A '.' in a directory name does not count |
| Queries.Radius | main.go:186-191 | The radius always ends in "km". It is "200km" when the range parameter is empty. Otherwise, removing the "km" gives back the parameter |
| Queries.RadiusInjective | main.go:186-191 | Two range parameters give the same radius only if they are equal, or one is empty and the other is "200" |
| Queries.SearchQuery | main.go:195-198 | The search query is a geo-distance query on "location", centred on the given lat/lon, with radius "200km" for an empty range parameter and the parameter followed by "km" otherwise |
| Queries.ClusterQuery | main.go:327-328 | The cluster query is a range query on the caller's term, with lower bound 0.9 for every term |
| Decode.DecodedAppend | main.go:241-251 | Decoding distributes over concatenation of hit lists, so the filter keeps the hits' order |
| Decode.DecodedCounts | main.go:241-251 | Each post occurs in the result exactly as many times as a hit decoded to it |
| Decode.DecodedMembership | main.go:241-251 | A post is in the result if and only if some hit decoded to it |
| Decode.DecodedPosition | main.go:241-251 | A decoded hit at index `i` sits in the result at the position equal to the number of posts decoded from the hits before `i` |
| Decode.DecodedAllPosts | main.go:241-251 | When every hit decodes, the result has one post per hit, equal to it, index by index |
| Decode.GetPostFromSearchResult | main.go:241-251 | The loop that appends each decoded hit returns exactly `Decoded(hits)`: the decoded hits, in order, with the others dropped |
| Vision.Annotate | vision.go:11-34 | A failed reply is an error. A reply with no face gives score 0 and is not an error. Otherwise the score is the first face's confidence |
| Ingest.HandlePost | main.go:80-164 | A missing username claim panics; a missing attachment answers 400; neither makes any call. Calls follow the order upload, annotation, index write, each at most once, and the upload is stored under `id`. The handler stops at the first failed call and answers with that call's error. Annotation happens exactly when the upload succeeded and the file is an image, and it reads `gs://lusha-bucket/<id>`. The index write happens exactly when the upload and any annotation succeeded. The written post is stored under `id` in index "post", with the token's user, the form's message and location, the upload's link, the classified type, and the vision score for images or 0 for other types. The answer is success exactly when the index write happened and passed |
| Gateway.HandleSearch | main.go:167-219 | The search reads index "post" with the geo-distance query built from lat, lon and range. A failed read answers 500. Otherwise the answer is the decoded hits in order |
| Gateway.HandleCluster | main.go:317-344 | The cluster search reads index "post" with the range query on the term at 0.9. A failed read answers 500. Otherwise the answer is the decoded hits in order |

## Left out

- HTTP and authentication plumbing is not modelled: `main()` routing, the JWT middleware, the `OPTIONS` short-circuit and the CORS headers.
- The bodies of `saveToGCS`, `saveToES` and `readFromES` are not modelled, because they are Cloud Storage and Elasticsearch SDK calls. Each becomes the answer the service gives. This also drops the write-then-ACL sequence inside the upload and its window in which the object is not yet public.
- The Vision client is not modelled; its reply is an input to `Vision.Annotate`.
- `strconv.ParseFloat` is not modelled. Lat/lon arrive already parsed as `real` values, which cannot be ±Inf (from an out-of-range parse) or NaN (`ParseFloat("NaN", 64)` succeeds); those inputs are not modelled.
- Floats are modelled as `real` and are only copied, never computed with. The narrowing of the float32 face score is not modelled.
- The matching semantics of the geo-distance and range queries are not modelled: they run inside Elasticsearch, which this code does not implement.
- How a hit is decoded is not modelled: unmarshalling inside `SearchResult.Each` appears as a decoded-or-not value per hit.
- `json.Marshal` is not modelled. In particular, Go renders an empty (nil) result as `null`, not `[]`.
- `uuid.New()` is not modelled; the fresh id is a parameter of `Ingest.HandlePost`.
- Logging is not modelled.
- Media.Ext: only the Unix separator '/' is modelled. Go strings are byte sequences and the model's are character sequences; the two give the same result here, because '.' and '/' are single bytes in UTF-8.

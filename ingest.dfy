/** `handlerPost`: turn an authenticated multipart submission into an indexed post. */
module Ingest {
  import opened Wrappers
  import opened Posts
  import Media
  import Vision

  const BucketName: string := "lusha-bucket"

  /** The "image" form file: its client-side file name and its bytes. */
  datatype Attachment = Attachment(fileName: string, data: seq<bv8>)

  /** What `handlerPost` reads from the request: the token's "username" claim if it is a
      string, the "message" field, the parsed "lat" and "lon" fields, and the "image" file. */
  datatype PostRequest = PostRequest(
    username: Option<string>,
    message: string,
    lat: real,
    lon: real,
    image: Option<Attachment>)

  /** The answers the external services give to this request if they are asked. */
  datatype Services = Services(
    upload: Result<string>,
    vision: Vision.Reply,
    index: Outcome)

  /** An external call the handler makes, with its arguments. */
  datatype Call =
    | SaveToGCS(objectName: string, data: seq<bv8>)
    | Annotate(uri: string)
    | SaveToES(post: Post, index: string, id: string)

  datatype Response =
    | Success
    | HttpError(code: int, message: string)
    | Panic

  /** The object the vision service reads: `gs://<bucket>/<id>`. */
  function ImageUri(id: string): string
  {
    "gs://" + BucketName + "/" + id
  }

  /** The position of a call in the pipeline: upload, then annotation, then the index write. */
  function Stage(c: Call): nat
  {
    match c
    case SaveToGCS(_, _) => 0
    case Annotate(_) => 1
    case SaveToES(_, _, _) => 2
  }

  /** The external call answered without error. */
  predicate Succeeded(c: Call, svc: Services)
  {
    match c
    case SaveToGCS(_, _) => svc.upload.Ok?
    case Annotate(_) => Vision.Annotate(svc.vision).Ok?
    case SaveToES(_, _, _) => svc.index.Pass?
  }

  /** The error response for a failed call. */
  function FailureResponse(c: Call): Response
  {
    match c
    case SaveToGCS(_, _) => HttpError(500, "Failed to save image to GCS")
    case Annotate(_) => HttpError(500, "Failed to annotate image")
    case SaveToES(_, _, _) => HttpError(500, "Failed to save post to Elasticsearch")
  }

  ghost predicate Called(calls: seq<Call>, stage: nat)
  {
    exists c :: c in calls && Stage(c) == stage
  }

  /** The handler, with `id` the fresh `uuid.New()` and `svc` the services' answers.
      `calls` lists the external calls it makes, in order. */
  method HandlePost(req: PostRequest, id: string, svc: Services) returns (resp: Response, calls: seq<Call>)
    // a missing or non-string claim panics, and nothing is called
    ensures resp == Panic <==> req.username.None?
    ensures req.username.None? ==> calls == []
    // no readable attachment: 400, and nothing is called
    ensures resp == HttpError(400, "Image is not available") <==> req.username.Some? && req.image.None?
    ensures calls == [] <==> req.username.None? || req.image.None?
    // calls follow the pipeline order, each at most once, starting with the upload under `id`
    ensures forall i, j :: 0 <= i < j < |calls| ==> Stage(calls[i]) < Stage(calls[j])
    ensures calls != [] ==> req.image.Some? && calls[0] == SaveToGCS(id, req.image.value.data)
    // the handler stops at the first failing call, answering with that call's error
    ensures forall i :: 0 <= i < |calls| - 1 ==> Succeeded(calls[i], svc)
    ensures calls != [] && resp != Success ==>
              !Succeeded(calls[|calls| - 1], svc) && resp == FailureResponse(calls[|calls| - 1])
    ensures resp == Success ==> calls != [] && Succeeded(calls[|calls| - 1], svc) && calls[|calls| - 1].SaveToES?
    // annotation happens exactly for an uploaded image, on the object named `id`
    ensures Called(calls, 1) <==>
              req.username.Some? && req.image.Some? && svc.upload.Ok? &&
              Media.Classify(req.image.value.fileName) == "image"
    ensures forall c :: c in calls && c.Annotate? ==> c.uri == ImageUri(id)
    // the index write happens exactly when the upload and any annotation succeeded
    ensures Called(calls, 2) <==>
              req.username.Some? && req.image.Some? && svc.upload.Ok? &&
              (Media.Classify(req.image.value.fileName) == "image" ==> Vision.Annotate(svc.vision).Ok?)
    // the indexed post
    ensures forall c :: c in calls && c.SaveToES? ==>
              && req.username.Some? && req.image.Some? && svc.upload.Ok?
              && c.index == PostIndex && c.id == id
              && c.post.user == req.username.value
              && c.post.message == req.message
              && c.post.location == Location(req.lat, req.lon)
              && c.post.url == svc.upload.value
              && c.post.mediaType == Media.Classify(req.image.value.fileName)
              && (c.post.mediaType == "image" ==> Vision.Annotate(svc.vision) == Ok(c.post.face))
              && (c.post.mediaType != "image" ==> c.post.face == 0.0)
    ensures resp == Success <==> Called(calls, 2) && svc.index.Pass?
  {
    calls := [];
    if req.username.None? {
      resp := Panic;
      return;
    }
    var p := Post(req.username.value, req.message, Location(req.lat, req.lon), "", "", 0.0);

    if req.image.None? {
      resp := HttpError(400, "Image is not available");
      return;
    }
    var file := req.image.value;

    var suffix := Media.Ext(file.fileName);
    p := p.(mediaType := Media.MediaKind(suffix));

    var upload := SaveToGCS(id, file.data);
    calls := calls + [upload];
    if svc.upload.Err? {
      resp := FailureResponse(upload);
      return;
    }
    p := p.(url := svc.upload.value);

    if p.mediaType == "image" {
      var annotate := Annotate(ImageUri(id));
      calls := calls + [annotate];
      var score := Vision.Annotate(svc.vision);
      if score.Err? {
        resp := FailureResponse(annotate);
        return;
      }
      p := p.(face := score.value);
    }

    var save := SaveToES(p, PostIndex, id);
    calls := calls + [save];
    if svc.index.Fail? {
      resp := FailureResponse(save);
      return;
    }
    resp := Success;
  }
}

/** `handlerSearch` and `handlerCluster`: build a query, read the "post" index, decode the hits. */
module Gateway {
  import opened Wrappers
  import opened Posts
  import opened Queries
  import Decode

  /** The read `readFromES(query, index)` the handler issues. */
  datatype Read = Read(query: Query, index: string)

  /** The posts written back as JSON, or an error status. */
  datatype SearchResponse =
    | Found(posts: seq<Post>)
    | HttpError(code: int, message: string)

  /** `handlerSearch` with the parsed "lat" and "lon" and the raw "range" parameter;
      `reply` is the index's answer, each hit already decoded or not. */
  method HandleSearch(lat: real, lon: real, rangeParam: string, reply: Result<seq<Decode.Hit>>)
    returns (read: Read, resp: SearchResponse)
    ensures read == Read(SearchQuery(lat, lon, rangeParam), PostIndex)
    ensures reply.Err? ==> resp == HttpError(500, "Failed to read post from Elasticsearch")
    ensures reply.Ok? ==> resp == Found(Decode.Decoded(reply.value))
  {
    var query := SearchQuery(lat, lon, rangeParam);
    read := Read(query, PostIndex);
    if reply.Err? {
      resp := HttpError(500, "Failed to read post from Elasticsearch");
      return;
    }
    var posts := Decode.GetPostFromSearchResult(reply.value);
    resp := Found(posts);
  }

  /** `handlerCluster` with the raw "term" parameter. */
  method HandleCluster(term: string, reply: Result<seq<Decode.Hit>>)
    returns (read: Read, resp: SearchResponse)
    ensures read == Read(ClusterQuery(term), PostIndex)
    ensures reply.Err? ==> resp == HttpError(500, "Failed to read from Elasticsearch")
    ensures reply.Ok? ==> resp == Found(Decode.Decoded(reply.value))
  {
    var query := ClusterQuery(term);
    read := Read(query, PostIndex);
    if reply.Err? {
      resp := HttpError(500, "Failed to read from Elasticsearch");
      return;
    }
    var posts := Decode.GetPostFromSearchResult(reply.value);
    resp := Found(posts);
  }
}

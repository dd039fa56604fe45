/** The document the service indexes: Go's `Location` and `Post` structs. */
module Posts {

  /** The Elasticsearch index that holds the posts, `POST_INDEX`. */
  const PostIndex: string := "post"

  /** Coordinates parsed from the request; the model only copies them. */
  datatype Location = Location(lat: real, lon: real)

  /** One indexed post. `mediaType` is the struct's `Type` field (JSON key "type"). */
  datatype Post = Post(
    user: string,
    message: string,
    location: Location,
    url: string,
    mediaType: string,
    face: real)
}

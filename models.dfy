/** The server's stored records and the shapes of handler input and output. */
module Models {
  import opened Common
  import opened ObjectIds

  /** A stored post. A request body without `likes` decodes to a `nil`
      slice, which the driver stores as `null` (`None`); an empty list is
      `Some([])`. */
  datatype Post = Post(
    id: ObjectId,
    userId: string,
    title: string,
    content: string,
    createdAt: int,
    likes: Option<seq<string>>)

  /** A stored comment. */
  datatype Comment = Comment(
    id: ObjectId,
    postId: ObjectId,
    content: string,
    createdAt: int,
    userId: string)

  /** A JSON request body after decoding: the decoded value, or the decoder's error text. */
  datatype Body<T> = Parsed(value: T) | Unparsable(error: string)

  /** What a handler writes: a 200 response with a body, or `http.Error` with a status and text. */
  datatype Response<T> = Ok(body: T) | Error(status: int, message: string)

  const StatusBadRequest := 400
  const StatusNotFound := 404
  const StatusInternalServerError := 500
}

/** The protocol-buffer records shared by the Go and Python services
    (services/proto): database rows, view objects and generic responses.
    Only the fields the modelled code reads or writes are kept. */
module Proto {
  import opened Wrappers

  /** `general.ResultType`. `OK` is taken to be the enum's zero value: a
      zero-valued response is read as success (services/search/bleve/search.go:180
      together with services/article/new_article_servicer.py:34). */
  datatype ResultType = OK | ERROR | ERROR_400 | ERROR_401

  /** `google.protobuf.Timestamp`. */
  datatype Timestamp = Timestamp(seconds: int, nanos: int)

  /** The range `ptypes` accepts: 0001-01-01T00:00:00Z up to (not including)
      10000-01-01T00:00:00Z, with nanoseconds in [0, 1e9). */
  const MinValidSeconds: int := -62135596800
  const MaxValidSeconds: int := 253402300800

  predicate ValidTimestamp(t: Timestamp) {
    MinValidSeconds <= t.seconds < MaxValidSeconds && 0 <= t.nanos < 1_000_000_000
  }

  /** `database.UsersEntry`. `private` is a `BoolValue` wrapper: `None` is nil. */
  datatype UsersEntry = UsersEntry(
    handle: string,
    host: string,
    hostIsNull: bool,
    globalId: int,
    bio: string,
    displayName: string,
    isFollowed: bool,
    private: Option<bool>,
    customCss: string,
    rss: string)

  /** `private.value` in Python / `Private != nil && Private.Value` in Go. */
  predicate IsPrivate(u: UsersEntry) { u.private == Some(true) }

  /** `database.PostsEntry`. A nil `creation_datetime` is `None`. */
  datatype PostsEntry = PostsEntry(
    globalId: int,
    authorId: int,
    title: string,
    body: string,
    mdBody: string,
    creationDatetime: Option<Timestamp>,
    tags: string,
    summary: string,
    likesCount: int,
    sharesCount: int,
    isLiked: bool,
    isFollowed: bool,
    isShared: bool,
    apId: string)

  /** `database.SharesEntry`: the shared post's columns plus the share's own. */
  datatype SharesEntry = SharesEntry(post: PostsEntry, sharerId: int, announceDatetime: Option<Timestamp>)

  /** The `Match` part of a users FIND request (zero value = not filtered on). */
  datatype UsersMatch = UsersMatch(handle: string, host: string, hostIsNull: bool, globalId: int)

  datatype UsersResponse = UsersResponse(resultType: ResultType, error: string, results: seq<UsersEntry>)

  /** The posts FIND requests the Go services issue. */
  datatype PostsQuery = AllPosts | PostsByAuthor(authorId: int)

  datatype PostsResponse = PostsResponse(resultType: ResultType, error: string, results: seq<PostsEntry>)

  /** A gRPC call either fails at transport level (`Err(message)`) or returns a response. */
  type Rpc<T> = Result<T, string>

  /** The `Users` and `Posts` methods of the database service, as oracles. */
  type UsersGetter = UsersMatch -> Rpc<UsersResponse>
  type PostsGetter = PostsQuery -> Rpc<PostsResponse>

  /** `general.GeneralResponse`. */
  datatype GeneralResponse = GeneralResponse(resultType: ResultType, error: string)

  const DefaultResponse: GeneralResponse := GeneralResponse(OK, "")

  function ErrorResponse(t: ResultType, msg: string): GeneralResponse {
    GeneralResponse(t, msg)
  }
}

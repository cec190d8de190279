/** services/article/new_article_servicer.py: a new article is stored, indexed
    for search, handed to the post recommender when there is one, and, when
    written here, announced with a Create activity. */
module NewArticle {
  import opened Wrappers
  import opened Strings
  import opened Proto

  /** `article_pb2.NewArticle`. */
  datatype NewArticleRequest = NewArticleRequest(
    authorId: int, title: string, body: string, creationDatetime: Option<Timestamp>,
    apId: string, tags: seq<string>, summary: string, foreign: bool)

  /** The posts INSERT response: its result and the new row's `global_id`. */
  datatype InsertResponse = InsertResponse(resultType: ResultType, error: string, globalId: int)

  /** `create_pb2.ArticleDetails`. */
  datatype ArticleDetails = ArticleDetails(authorId: int, title: string, body: string, mdBody: string,
                                           creationDatetime: Option<Timestamp>, globalId: int, summary: string)

  /** What `send_insert_request` reports as its status: a result type, or, when
      the author is unknown, the `PostsResponse.error` field descriptor, which
      equals no result type. */
  datatype InsertStatus = Status(t: ResultType) | NoAuthor

  datatype ArticleEnv = ArticleEnv(
    /** `get_user_from_db(global_id=...)`. */
    getUser: int -> Option<UsersEntry>,
    /** `md_to_html(md, text)`. */
    mdToHtml: string -> string,
    /** `convert_to_tags_string(tags)`. */
    tagsString: seq<string> -> string,
    /** The posts INSERT request. */
    insert: PostsEntry -> InsertResponse,
    /** The search service's `Index`. */
    index: PostsEntry -> GeneralResponse,
    /** The post recommender's `AddPost`, absent when not configured. */
    hasRecommender: bool,
    /** The create service's `SendCreate`. */
    sendCreate: ArticleDetails -> ResultType)

  datatype Effect =
    | Insert(entry: PostsEntry)
    | Index(entry: PostsEntry)
    | AddPost(entry: PostsEntry)
    | SendCreate(details: ArticleDetails)

  /** `index`: whether the search service reported OK. */
  function IndexSucceeded(env: ArticleEnv, pe: PostsEntry): (ok: bool)
    ensures ok <==> env.index(pe).resultType == OK
  {
    env.index(pe).resultType == OK
  }

  /** The entry inserted for a request by `author`: the html rendering as
      `body`, the markdown as `md_body`, the tags as one string, and every
      field the request does not set at its zero value. */
  function InsertEntry(env: ArticleEnv, req: NewArticleRequest, author: UsersEntry): (pe: PostsEntry)
    ensures pe.authorId == author.globalId && pe.title == req.title && pe.summary == req.summary
    ensures pe.body == env.mdToHtml(req.body) && pe.mdBody == req.body && pe.tags == env.tagsString(req.tags)
    ensures pe.creationDatetime == req.creationDatetime && pe.apId == req.apId && pe.globalId == 0
  {
    PostsEntry(0, author.globalId, req.title, env.mdToHtml(req.body), req.body, req.creationDatetime,
               env.tagsString(req.tags), req.summary, 0, 0, false, false, false, req.apId)
  }

  /** `send_insert_request` as a value: the status, the new id and the effects. */
  function InsertResult(env: ArticleEnv, req: NewArticleRequest): (InsertStatus, Option<int>, seq<Effect>) {
    match env.getUser(req.authorId)
    case None => (NoAuthor, None, [])
    case Some(author) =>
      var pe := InsertEntry(env, req, author);
      var postsResp := env.insert(pe);
      var stored := pe.(globalId := postsResp.globalId);
      (Status(postsResp.resultType), Some(postsResp.globalId),
       [Insert(pe), Index(stored)] + (if env.hasRecommender then [AddPost(stored)] else []))
  }

  /** `send_insert_request`: the entry's `global_id` is set in place from the
      insert's response, whatever its result, before it is indexed. */
  method SendInsertRequest(env: ArticleEnv, req: NewArticleRequest)
    returns (status: InsertStatus, globalId: Option<int>, effects: seq<Effect>)
    ensures status == InsertResult(env, req).0
    ensures globalId == InsertResult(env, req).1
    ensures effects == InsertResult(env, req).2
  {
    var author := env.getUser(req.authorId);
    if author.None? {
      return NoAuthor, None, [];
    }
    var pe := InsertEntry(env, req, author.value);
    effects := [Insert(pe)];
    var postsResp := env.insert(pe);
    pe := pe.(globalId := postsResp.globalId);
    effects := effects + [Index(pe)];
    var indexed := IndexSucceeded(env, pe);
    if env.hasRecommender {
      effects := effects + [AddPost(pe)];
    }
    status := Status(postsResp.resultType);
    globalId := Some(postsResp.globalId);
  }

  /** The create activity's details. */
  function CreateDetails(env: ArticleEnv, req: NewArticleRequest, globalId: int): ArticleDetails {
    ArticleDetails(req.authorId, req.title, env.mdToHtml(req.body), req.body, req.creationDatetime, globalId, req.summary)
  }

  /** `article_pb2.NewArticleResponse`, filled in by `CreateNewArticle`. */
  class NewArticleResponse {
    var resultType: ResultType
    var globalId: string

    constructor()
      ensures resultType == OK && globalId == ""
    {
      resultType := OK;
      globalId := "";
    }
  }

  /** `CreateNewArticle` as a value: the result type, the id string and the
      effects. */
  function CreateResult(env: ArticleEnv, req: NewArticleRequest): (ResultType, string, seq<Effect>) {
    var (status, id, effects) := InsertResult(env, req);
    if status == Status(OK) then
      (OK, FormatInt(id.value), effects + (if !req.foreign then [SendCreate(CreateDetails(env, req, id.value))] else []))
    else (ERROR, "", effects)
  }

  /** `CreateNewArticle`. A failed create activity is only logged. */
  method CreateNewArticle(env: ArticleEnv, req: NewArticleRequest) returns (resp: NewArticleResponse, effects: seq<Effect>)
    ensures fresh(resp)
    ensures resp.resultType == CreateResult(env, req).0
    ensures resp.globalId == CreateResult(env, req).1
    ensures effects == CreateResult(env, req).2
  {
    var success, globalId;
    success, globalId, effects := SendInsertRequest(env, req);
    resp := new NewArticleResponse();
    if success == Status(OK) {
      resp.resultType := OK;
      resp.globalId := FormatInt(globalId.value);
      if !req.foreign {
        var details := CreateDetails(env, req, globalId.value);
        effects := effects + [SendCreate(details)];
        var createSuccess := env.sendCreate(details);
      }
    } else {
      resp.resultType := ERROR;
    }
  }

  /** An unknown author fails the request and nothing is stored, indexed or
      sent. */
  lemma UnknownAuthor(env: ArticleEnv, req: NewArticleRequest)
    requires env.getUser(req.authorId).None?
    ensures CreateResult(env, req) == (ERROR, "", [])
  {
  }

  /** With a known author, the article is stored and then indexed under the id
      the insert returned, even when the insert reported an error; the
      recommender hears of it exactly when configured. */
  lemma StoredThenIndexed(env: ArticleEnv, req: NewArticleRequest)
    requires env.getUser(req.authorId).Some?
    ensures var pe := InsertEntry(env, req, env.getUser(req.authorId).value);
      var id := env.insert(pe).globalId;
      var effects := CreateResult(env, req).2;
      && |effects| >= 2
      && effects[0] == Insert(pe)
      && effects[1] == Index(pe.(globalId := id))
      && (AddPost(pe.(globalId := id)) in effects <==> env.hasRecommender)
  {
  }

  /** The request succeeds exactly when the insert did; then the answer carries
      the new id in decimal, and a create activity is sent exactly for articles
      written here. */
  lemma CreateOutcome(env: ArticleEnv, req: NewArticleRequest)
    ensures var (t, id, effects) := CreateResult(env, req);
      && (t == OK <==>
            && env.getUser(req.authorId).Some?
            && env.insert(InsertEntry(env, req, env.getUser(req.authorId).value)).resultType == OK)
      && (t != OK ==> t == ERROR && id == "" && forall e :: e in effects ==> !e.SendCreate?)
      && (t == OK ==>
            var newId := env.insert(InsertEntry(env, req, env.getUser(req.authorId).value)).globalId;
            && id == FormatInt(newId)
            && ((exists e :: e in effects && e.SendCreate?) <==> !req.foreign))
  {
    var (t, id, effects) := CreateResult(env, req);
    if t == OK && !req.foreign {
      assert effects[|effects| - 1] in effects;
    }
  }
}

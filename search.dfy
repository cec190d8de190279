/** services/search/bleve/search.go: the search service keeps a text index and,
    beside it, a map `idToDoc` from post id to the indexed view object. The text
    engine itself is abstract: it is the set of ids whose decimal text it has
    indexed so far, and a search returns whatever hit list the engine gives. */
module Search {
  import opened Wrappers
  import opened Strings
  import opened Proto
  import Util

  const MaxResults: nat := 50
  const DuplicateMessage: string := "document already exists with that id"
  const ConvertMessage: string := "util.ConvertDBToFeed: couldn't convert PostsEntry to Post type: bad results"

  /** The docs a hit list resolves to: hits whose id parses as a 64-bit integer
      present in `docs`, in hit order. */
  function Resolve(hits: seq<string>, docs: map<int, Util.Post>): (r: seq<Util.Post>)
    ensures |r| <= |hits|
    ensures forall k :: 0 <= k < |r| ==> r[k] in docs.Values
  {
    if hits == [] then []
    else
      var h := hits[|hits| - 1];
      var id := ParseInt(h);
      Resolve(hits[..|hits| - 1], docs) +
        (if id.Some? && id.value in docs then [docs[id.value]] else [])
  }

  /** `docs` extended, post by post, with the posts of `feed`. */
  function AddAll(docs: map<int, Util.Post>, feed: seq<Util.Post>): map<int, Util.Post> {
    if feed == [] then docs
    else
      var p := feed[|feed| - 1];
      AddAll(docs, feed[..|feed| - 1])[p.globalId := p]
  }

  /** Adding the posts of `feed` one by one never meets an id already present. */
  predicate FreshIds(docs: map<int, Util.Post>, feed: seq<Util.Post>) {
    feed == [] ||
    (FreshIds(docs, feed[..|feed| - 1]) && feed[|feed| - 1].globalId !in AddAll(docs, feed[..|feed| - 1]))
  }

  /** The ids of `feed`. */
  function Ids(feed: seq<Util.Post>): set<int> {
    if feed == [] then {} else Ids(feed[..|feed| - 1]) + {feed[|feed| - 1].globalId}
  }

  /** The keys `AddAll` adds are the ids of the feed. */
  lemma {:induction false} AddAllKeys(docs: map<int, Util.Post>, feed: seq<Util.Post>, id: int)
    ensures id in AddAll(docs, feed) <==> id in docs || exists k :: 0 <= k < |feed| && feed[k].globalId == id
  {
    if feed != [] {
      var front := feed[..|feed| - 1];
      AddAllKeys(docs, front, id);
      if exists k :: 0 <= k < |feed| && feed[k].globalId == id {
        var k :| 0 <= k < |feed| && feed[k].globalId == id;
        if k < |front| {
          assert front[k] == feed[k];
        }
      }
    }
  }

  /** `FreshIds` as a plain statement: the ids are pairwise distinct and new. */
  lemma {:induction false} FreshIdsMeaning(docs: map<int, Util.Post>, feed: seq<Util.Post>)
    ensures FreshIds(docs, feed) <==>
      (forall k :: 0 <= k < |feed| ==> feed[k].globalId !in docs) &&
      (forall j, k :: 0 <= j < k < |feed| ==> feed[j].globalId != feed[k].globalId)
  {
    if feed != [] {
      var front, last := feed[..|feed| - 1], feed[|feed| - 1];
      FreshIdsMeaning(docs, front);
      AddAllKeys(docs, front, last.globalId);
      if FreshIds(docs, feed) {
        forall j, k | 0 <= j < k < |feed|
          ensures feed[j].globalId != feed[k].globalId
        {
          if k < |front| {
            assert front[j] == feed[j] && front[k] == feed[k];
          } else {
            assert front[j] == feed[j];
          }
        }
      }
      if (forall k :: 0 <= k < |feed| ==> feed[k].globalId !in docs) &&
         (forall j, k :: 0 <= j < k < |feed| ==> feed[j].globalId != feed[k].globalId) {
        forall j, k | 0 <= j < k < |front|
          ensures front[j].globalId != front[k].globalId
        {
          assert front[j] == feed[j] && front[k] == feed[k];
        }
        forall k | 0 <= k < |front|
          ensures front[k].globalId != last.globalId
        {
          assert front[k] == feed[k];
        }
      }
    }
  }

  /** A list whose prefix is not fresh is not fresh. */
  lemma {:induction false} FreshIdsPrefix(docs: map<int, Util.Post>, feed: seq<Util.Post>, i: int)
    requires 0 <= i <= |feed| && FreshIds(docs, feed)
    ensures FreshIds(docs, feed[..i])
    decreases |feed| - i
  {
    if i < |feed| {
      var front := feed[..|feed| - 1];
      assert front[..i] == feed[..i];
      FreshIdsPrefix(docs, front, i);
    } else {
      assert feed[..i] == feed;
    }
  }

  /** Adding the next post of the feed, when its id is new, extends the state
      the loop of `initIndex` keeps. */
  lemma AddNext(docs: map<int, Util.Post>, feed: seq<Util.Post>, i: int,
                m: map<int, Util.Post>, ind0: set<int>, ind: set<int>)
    requires 0 <= i < |feed| && FreshIds(docs, feed[..i])
    requires m == AddAll(docs, feed[..i]) && ind == ind0 + Ids(feed[..i])
    requires feed[i].globalId !in m
    ensures FreshIds(docs, feed[..i + 1])
    ensures m[feed[i].globalId := feed[i]] == AddAll(docs, feed[..i + 1])
    ensures ind + {feed[i].globalId} == ind0 + Ids(feed[..i + 1])
  {
    assert feed[..i + 1][..i] == feed[..i];
  }

  /** A post whose id is already stored makes the whole feed not fresh. */
  lemma DuplicateNext(docs: map<int, Util.Post>, feed: seq<Util.Post>, i: int)
    requires 0 <= i < |feed| && feed[i].globalId in AddAll(docs, feed[..i])
    ensures !FreshIds(docs, feed)
  {
    assert feed[..i + 1][..i] == feed[..i];
    if FreshIds(docs, feed) {
      FreshIdsPrefix(docs, feed, i + 1);
    }
  }

  class Server {
    /** The ids the text engine holds a document for; each was given to it as
        its decimal text, `FormatInt(id)`. */
    var indexed: set<int>
    var idToDoc: map<int, Util.Post>

    /** Every doc is stored under its own id, and that id has been indexed
        under its decimal text. */
    predicate Valid()
      reads this
    {
      forall k :: k in idToDoc ==> idToDoc[k].globalId == k && k in indexed
    }

    constructor()
      ensures Valid() && idToDoc == map[] && indexed == {}
    {
      indexed := {};
      idToDoc := map[];
    }

    /** `addToIndex`: `engineError` is what the engine's `Index` call answers. */
    method AddToIndex(b: Util.Post, engineError: Option<string>) returns (err: Option<string>)
      requires Valid()
      modifies this
      ensures Valid()
      ensures b.globalId in old(idToDoc) ==> err == Some(DuplicateMessage)
      ensures b.globalId !in old(idToDoc) && engineError.Some? ==> err == engineError
      ensures err.Some? ==> idToDoc == old(idToDoc) && indexed == old(indexed)
      ensures err.None? <==> b.globalId !in old(idToDoc) && engineError.None?
      ensures err.None? ==>
        idToDoc == old(idToDoc)[b.globalId := b] && indexed == old(indexed) + {b.globalId}
    {
      if b.globalId in idToDoc {
        return Some(DuplicateMessage);
      }
      if engineError.Some? {
        return engineError;
      }
      indexed := indexed + {b.globalId};
      idToDoc := idToDoc[b.globalId := b];
      return None;
    }

    /** `initIndex`: fetches every post, converts them and adds each to the index;
        a failed fetch or a failed addition is fatal (the process exits). */
    method InitIndex(posts: PostsGetter, db: UsersGetter, clock: Util.Clock,
                     engineError: Util.Post -> Option<string>) returns (fatal: bool)
      requires Valid()
      modifies this
      ensures Valid()
      ensures posts(AllPosts).Err? ==> fatal && unchanged(this)
      ensures posts(AllPosts).Ok? ==>
        var rows := posts(AllPosts).value.results;
        var feed := Util.FeedPosts(rows[..Util.Min(|rows|, Util.MaxItemsReturned)], db, clock);
        (!fatal <==> FreshIds(old(idToDoc), feed) &&
                     forall k :: 0 <= k < |feed| ==> engineError(feed[k]).None?) &&
        (!fatal ==> idToDoc == AddAll(old(idToDoc), feed) && indexed == old(indexed) + Ids(feed))
    {
      var res := posts(AllPosts);
      if res.Err? {
        return true;
      }
      var results := Util.ConvertDBToFeed(res.value.results, db, clock);
      fatal := AddEach(results, engineError);
    }

    /** The loop of `initIndex`: adds the posts one by one, stopping at the first
        failure. */
    method AddEach(feed: seq<Util.Post>, engineError: Util.Post -> Option<string>) returns (failed: bool)
      requires Valid()
      modifies this
      ensures Valid()
      ensures !failed <==> FreshIds(old(idToDoc), feed) &&
                           forall k :: 0 <= k < |feed| ==> engineError(feed[k]).None?
      ensures !failed ==> idToDoc == AddAll(old(idToDoc), feed) && indexed == old(indexed) + Ids(feed)
    {
      ghost var docs0, indexed0 := idToDoc, indexed;
      var i := 0;
      while i < |feed|
        invariant 0 <= i <= |feed|
        invariant Valid()
        invariant FreshIds(docs0, feed[..i])
        invariant forall k :: 0 <= k < i ==> engineError(feed[k]).None?
        invariant idToDoc == AddAll(docs0, feed[..i])
        invariant indexed == indexed0 + Ids(feed[..i])
      {
        var blog := feed[i];
        ghost var m, ind := idToDoc, indexed;
        var err := AddToIndex(blog, engineError(blog));
        if err.Some? {
          if engineError(blog).None? {
            DuplicateNext(docs0, feed, i);
          }
          return true;
        }
        AddNext(docs0, feed, i, m, indexed0, ind);
        i := i + 1;
      }
      assert feed[..|feed|] == feed;
      return false;
    }
    /** `Search`: `hits` is the engine's answer to a request of size 50 (at most
        50 ids), or its error. */
    method Search(hits: Result<seq<string>, string>) returns (r: Result<seq<Util.Post>, string>)
      requires hits.Ok? ==> |hits.value| <= MaxResults
      ensures hits.Err? ==> r == Err(hits.error)
      ensures hits.Ok? ==> r == Ok(Resolve(hits.value, idToDoc))
      ensures r.Ok? ==> |r.value| <= MaxResults
    {
      if hits.Err? {
        return Err(hits.error);
      }
      var results: seq<Util.Post> := [];
      var i := 0;
      while i < |hits.value|
        invariant 0 <= i <= |hits.value|
        invariant results == Resolve(hits.value[..i], idToDoc)
      {
        var hit := hits.value[i];
        assert hits.value[..i + 1][..i] == hits.value[..i];
        i := i + 1;
        var id := ParseInt(hit);
        if id.None? {
          continue;
        }
        if id.value !in idToDoc {
          continue;
        }
        results := results + [idToDoc[id.value]];
      }
      assert hits.value[..|hits.value|] == hits.value;
      return Ok(results);
    }

    /** `Index`: converts the one row; anything but exactly one view is a Go
        error, a failed addition an `ERROR` response, success the zero response. */
    method Index(post: PostsEntry, db: UsersGetter, clock: Util.Clock, engineError: Option<string>)
      returns (r: Result<GeneralResponse, string>)
      requires Valid()
      modifies this
      ensures Valid()
      ensures var p := Util.FeedPosts([post], db, clock);
        (|p| != 1 ==> r == Err(ConvertMessage) && idToDoc == old(idToDoc) && indexed == old(indexed)) &&
        (|p| == 1 && (p[0].globalId in old(idToDoc) || engineError.Some?) ==>
          r.Ok? && r.value.resultType == ERROR &&
          r.value.error == (if p[0].globalId in old(idToDoc) then DuplicateMessage else engineError.value) &&
          idToDoc == old(idToDoc) && indexed == old(indexed)) &&
        (|p| == 1 && p[0].globalId !in old(idToDoc) && engineError.None? ==>
          r == Ok(DefaultResponse) && idToDoc == old(idToDoc)[p[0].globalId := p[0]] &&
          indexed == old(indexed) + {p[0].globalId})
    {
      var p := Util.ConvertDBToFeed([post], db, clock);
      assert [post][..Util.Min(1, Util.MaxItemsReturned)] == [post];
      if |p| != 1 {
        return Err(ConvertMessage);
      }
      var err := AddToIndex(p[0], engineError);
      if err.Some? {
        return Ok(GeneralResponse(ERROR, err.value));
      }
      return Ok(DefaultResponse);
    }
  }

  /** The one-row conversion yields a view exactly when the author resolves. */
  lemma IndexConverts(post: PostsEntry, db: UsersGetter, clock: Util.Clock)
    ensures |Util.FeedPosts([post], db, clock)| == 1 <==> Util.AuthorById(post.authorId, db).Ok?
  {
    assert [post][..0] == [];
  }

  /** Hits outside `docs` never contribute: resolving is unaffected by them. */
  lemma {:induction false} ResolveSkipsUnknown(hits: seq<string>, docs: map<int, Util.Post>, h: string)
    requires ParseInt(h).None? || ParseInt(h).value !in docs
    ensures Resolve(hits + [h], docs) == Resolve(hits, docs)
  {
    assert (hits + [h])[..|hits|] == hits;
  }

  /** Hits that parse to the ids of stored docs (as the decimal ids the index
      is given do, by `Strings.ParseFormatInt`) come back as exactly those docs,
      in order. */
  lemma {:induction false} ResolveIndexed(hits: seq<string>, ids: seq<int>, docs: map<int, Util.Post>)
    requires |hits| == |ids|
    requires forall k :: 0 <= k < |ids| ==> ParseInt(hits[k]) == Some(ids[k]) && ids[k] in docs
    ensures |Resolve(hits, docs)| == |ids|
    ensures forall k :: 0 <= k < |ids| ==> Resolve(hits, docs)[k] == docs[ids[k]]
  {
    if ids != [] {
      var n := |ids| - 1;
      var front, frontIds := hits[..n], ids[..n];
      assert forall k :: 0 <= k < n ==> front[k] == hits[k] && frontIds[k] == ids[k];
      ResolveIndexed(front, frontIds, docs);
      ResolveLast(hits, docs, ids[n]);
      var r := Resolve(hits, docs);
      forall k | 0 <= k < |ids|
        ensures r[k] == docs[ids[k]]
      {
        if k < n {
          assert r[k] == Resolve(front, docs)[k];
        }
      }
    }
  }

  /** The last hit, when it names a stored doc, adds that doc at the end. */
  lemma ResolveLast(hits: seq<string>, docs: map<int, Util.Post>, id: int)
    requires hits != [] && ParseInt(hits[|hits| - 1]) == Some(id) && id in docs
    ensures Resolve(hits, docs) == Resolve(hits[..|hits| - 1], docs) + [docs[id]]
  {
  }

  /** In a valid server, every doc a search returns was indexed under its id. */
  lemma ResolveReturnsIndexed(s: Server, hits: seq<string>, k: int)
    requires s.Valid()
    requires 0 <= k < |Resolve(hits, s.idToDoc)|
    ensures var p := Resolve(hits, s.idToDoc)[k];
      p.globalId in s.idToDoc && s.idToDoc[p.globalId] == p && p.globalId in s.indexed
  {
    var p := Resolve(hits, s.idToDoc)[k];
    assert p in s.idToDoc.Values;
    var key :| key in s.idToDoc && s.idToDoc[key] == p;
  }
}

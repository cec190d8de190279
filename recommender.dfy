/** services/recommend_posts/cosine_recommender.py: the bookkeeping of the
    TF-IDF post recommender. Tag-frequency counters and per-user tag models are
    built from the posts' tags and the users' likes, and a top-n selection ranks
    the posts a user has not liked. The floating-point similarity itself is an
    abstract `score` function returning an ordered value (an `int` here). */
module Recommender {
  import opened Wrappers
  import opened Strings
  import opened Proto
  import Util

  // ------------------------------------------------------------ counters

  /** A `defaultdict(int)` read: a missing key counts 0. */
  function Get(m: map<string, int>, t: string): int {
    if t in m then m[t] else 0
  }

  /** `m[t] += 1` on a `defaultdict(int)`. */
  function Inc(m: map<string, int>, t: string): (r: map<string, int>)
    ensures Get(r, t) == Get(m, t) + 1
  {
    m[t := Get(m, t) + 1]
  }

  /** The counter after `m[t] += 1` for each `t` of `tags`, in order. */
  function AddCounts(m: map<string, int>, tags: seq<string>): map<string, int> {
    if tags == [] then m else Inc(AddCounts(m, tags[..|tags| - 1]), tags[|tags| - 1])
  }

  /** One more tag counted. */
  lemma AddCountsNext(m: map<string, int>, tags: seq<string>, j: int)
    requires 0 <= j < |tags|
    ensures AddCounts(m, tags[..j + 1]) == Inc(AddCounts(m, tags[..j]), tags[j])
  {
    assert tags[..j + 1][..j] == tags[..j];
  }

  /** The number of occurrences of `t` in `tags`. */
  function Occ(tags: seq<string>, t: string): nat {
    if tags == [] then 0
    else Occ(tags[..|tags| - 1], t) + (if tags[|tags| - 1] == t then 1 else 0)
  }

  /** Every key of a frequency counter has been incremented at least once. */
  predicate Positive(m: map<string, int>) {
    forall t :: t in m ==> m[t] >= 1
  }

  /** Each tag's count grows by its number of occurrences, and only the tags
      seen gain a key. */
  lemma {:induction false} AddCountsOcc(m: map<string, int>, tags: seq<string>, t: string)
    ensures Get(AddCounts(m, tags), t) == Get(m, t) + Occ(tags, t)
    ensures t in AddCounts(m, tags) <==> t in m || t in tags
  {
    if tags != [] {
      var front := tags[..|tags| - 1];
      AddCountsOcc(m, front, t);
      assert t in tags <==> t in front || t == tags[|tags| - 1] by {
        assert tags == front + [tags[|tags| - 1]];
      }
    }
  }

  /** Counting two lists in turn is counting their concatenation. */
  lemma {:induction false} AddCountsAppend(m: map<string, int>, a: seq<string>, b: seq<string>)
    ensures AddCounts(m, a + b) == AddCounts(AddCounts(m, a), b)
  {
    if b == [] {
      assert a + b == a;
    } else {
      var front := b[..|b| - 1];
      AddCountsAppend(m, a, front);
      assert (a + b)[..|a + b| - 1] == a + front;
    }
  }

  /** Counts never decrease. */
  lemma AddCountsGrows(m: map<string, int>, tags: seq<string>, t: string)
    ensures Get(AddCounts(m, tags), t) >= Get(m, t)
  {
    AddCountsOcc(m, tags, t);
  }

  /** A counter that only ever increments keeps every key at one or more, so the
      inverse-frequency quotient `N / tag_freq[key]` never divides by zero. */
  lemma {:induction false} AddCountsPositive(m: map<string, int>, tags: seq<string>)
    requires Positive(m)
    ensures Positive(AddCounts(m, tags))
  {
    if tags != [] {
      AddCountsPositive(m, tags[..|tags| - 1]);
    }
  }

  // ---------------------------------------------------------- like lists

  /** Python `int(x)` on a piece of a like list: an optional sign then one or
      more decimal digits, of any size; anything else raises `ValueError`. */
  function PyInt(s: string): (r: Option<int>)
    ensures r.Some? ==> s != []
  {
    if s == [] then None
    else
      var body := if s[0] == '-' || s[0] == '+' then s[1..] else s;
      if body == [] || !AllDigits(body) then None
      else if s[0] == '-' then Some(-(ParseDigits(body) as int))
      else Some(ParseDigits(body))
  }

  /** The comprehension of `_clean_likes` over the comma-separated pieces: empty
      pieces are dropped, the others parsed in order; one bad piece raises. */
  function ParseLikes(pieces: seq<string>): (r: Option<seq<int>>)
    ensures r.Some? ==> |r.value| <= |pieces|
  {
    if pieces == [] then Some([])
    else
      var last := pieces[|pieces| - 1];
      match ParseLikes(pieces[..|pieces| - 1])
      case None => None
      case Some(front) =>
        if last == "" then Some(front)
        else match PyInt(last)
          case None => None
          case Some(v) => Some(front + [v])
  }

  /** `_clean_likes`: `None` when Python raises `ValueError`. */
  function CleanLikes(likes: string): Option<seq<int>> {
    ParseLikes(Split(likes, ','))
  }

  /** The text `GROUP_CONCAT` produces for a list of post ids. */
  function FormatLikes(ids: seq<int>): (r: seq<string>)
    requires forall i :: 0 <= i < |ids| ==> ids[i] >= 0
    ensures |r| == |ids|
    ensures forall i :: 0 <= i < |ids| ==> r[i] == FormatNat(ids[i])
  {
    if ids == [] then [] else FormatLikes(ids[..|ids| - 1]) + [FormatNat(ids[|ids| - 1])]
  }

  lemma PyIntFormat(n: nat)
    ensures PyInt(FormatNat(n)) == Some(n)
  {
    var s := FormatNat(n);
    assert IsDigit(s[0]);
    ParseFormatNat(n);
  }

  lemma {:induction false} ParseLikesFormat(ids: seq<int>)
    requires forall i :: 0 <= i < |ids| ==> ids[i] >= 0
    ensures ParseLikes(FormatLikes(ids)) == Some(ids)
  {
    if ids != [] {
      var front := ids[..|ids| - 1];
      ParseLikesFormat(front);
      var ps := FormatLikes(ids);
      assert ps[..|ps| - 1] == FormatLikes(front);
      PyIntFormat(ids[|ids| - 1]);
      assert front + [ids[|ids| - 1]] == ids;
    }
  }

  /** A comma-joined list of post ids is parsed back to the same ids. */
  lemma CleanLikesJoin(ids: seq<int>)
    requires forall i :: 0 <= i < |ids| ==> ids[i] >= 0
    ensures CleanLikes(Join(FormatLikes(ids), ",")) == Some(ids)
  {
    if ids == [] {
      assert Split("", ',') == [""];
      assert [""][..0] == [];
    } else {
      var ps := FormatLikes(ids);
      forall i | 0 <= i < |ps|
        ensures ',' !in ps[i]
      {
        assert AllDigits(ps[i]);
      }
      Util.SplitJoin(ps, ',');
      ParseLikesFormat(ids);
    }
  }

  /** A piece that is neither empty nor an integer makes the whole list raise. */
  lemma {:induction false} ParseLikesFails(pieces: seq<string>, i: int)
    requires 0 <= i < |pieces| && pieces[i] != "" && PyInt(pieces[i]).None?
    ensures ParseLikes(pieces) == None
  {
    var front := pieces[..|pieces| - 1];
    if i < |pieces| - 1 {
      assert front[i] == pieces[i];
      ParseLikesFails(front, i);
    }
  }

  // ------------------------------------------------------ top-n selection

  /** A `(sim, p_k)` tuple of `get_recommendations`. */
  datatype Scored = Scored(score: int, id: int)

  /** Python's tuple order, strict: `b < a`. */
  predicate Above(a: Scored, b: Scored) {
    a.score > b.score || (a.score == b.score && a.id > b.id)
  }

  /** `sorted(sims, reverse=True)` order. */
  predicate SortedDesc(s: seq<Scored>) {
    forall i, j :: 0 <= i < j < |s| ==> Above(s[i], s[j])
  }

  /** Places `x` in a descending list. */
  function InsertDesc(x: Scored, s: seq<Scored>): (r: seq<Scored>)
    ensures |r| == |s| + 1
  {
    if s == [] then [x]
    else if Above(x, s[0]) then [x] + s
    else [s[0]] + InsertDesc(x, s[1..])
  }

  lemma {:induction false} InsertDescSorted(x: Scored, s: seq<Scored>)
    requires SortedDesc(s)
    requires forall i :: 0 <= i < |s| ==> s[i].id != x.id
    ensures SortedDesc(InsertDesc(x, s))
    ensures forall y :: y in InsertDesc(x, s) <==> y in s || y == x
  {
    if s != [] && !Above(x, s[0]) {
      var t := s[1..];
      InsertDescSorted(x, t);
      var r := InsertDesc(x, t);
      forall j | 0 <= j < |r|
        ensures Above(s[0], r[j])
      {
        assert r[j] in r;
        if r[j] != x {
          var k :| 0 <= k < |t| && t[k] == r[j];
          assert s[k + 1] == r[j];
        }
      }
      forall y
        ensures y in [s[0]] + r <==> y in s || y == x
      {
        assert s == [s[0]] + t;
      }
    }
  }

  /** The heap of `get_recommendations`, kept as a descending list: `heappush`
      while it holds fewer than `n` tuples, `heappushpop` afterwards (the new
      tuple replaces the smallest one when it is larger). */
  function HeapStep(sims: seq<Scored>, x: Scored, n: int): seq<Scored> {
    if |sims| < n then InsertDesc(x, sims)
    else if |sims| > 0 && Above(x, sims[|sims| - 1]) then InsertDesc(x, sims[..|sims| - 1])
    else sims
  }

  function Cap(n: int): nat { if n < 0 then 0 else n }

  /** `sims` holds the `n` largest of the tuples `cands`, in descending order. */
  predicate IsTopN(sims: seq<Scored>, cands: seq<Scored>, n: int) {
    && SortedDesc(sims)
    && |sims| <= Cap(n)
    && (forall i :: 0 <= i < |sims| ==> sims[i] in cands)
    && (|sims| < n ==> forall c :: c in cands ==> c in sims)
    && (forall c :: c in cands && c !in sims ==> forall i :: 0 <= i < |sims| ==> Above(sims[i], c))
  }

  /** One heap step over a tuple with a new post id keeps the `n` largest. */
  lemma HeapStepTopN(sims: seq<Scored>, cands: seq<Scored>, x: Scored, n: int)
    requires IsTopN(sims, cands, n)
    requires forall i :: 0 <= i < |cands| ==> cands[i].id != x.id
    ensures IsTopN(HeapStep(sims, x, n), cands + [x], n)
  {
    var all := cands + [x];
    assert forall c :: c in all <==> c in cands || c == x;
    forall i | 0 <= i < |sims|
      ensures sims[i].id != x.id
    {
      assert sims[i] in cands;
    }
    if |sims| < n {
      InsertDescSorted(x, sims);
      var r := InsertDesc(x, sims);
      forall i | 0 <= i < |r|
        ensures r[i] in all
      {
        assert r[i] in r;
      }
    } else if |sims| > 0 && Above(x, sims[|sims| - 1]) {
      var init := sims[..|sims| - 1];
      var last := sims[|sims| - 1];
      InsertDescSorted(x, init);
      var r := InsertDesc(x, init);
      forall i | 0 <= i < |r|
        ensures r[i] in all
      {
        assert r[i] in r;
      }
      forall c | c in all && c !in r
        ensures forall i :: 0 <= i < |r| ==> Above(r[i], c)
      {
        forall i | 0 <= i < |r|
          ensures Above(r[i], c)
        {
          assert r[i] in r;
          if c == last {
            if r[i] != x {
              var k :| 0 <= k < |init| && init[k] == r[i];
              assert sims[k] == r[i];
            }
          } else {
            assert c !in sims;
            assert Above(last, c);
            if r[i] != x {
              var k :| 0 <= k < |init| && init[k] == r[i];
              assert sims[k] == r[i];
            }
          }
        }
      }
    } else if |sims| > 0 {
      var last := sims[|sims| - 1];
      assert Above(last, x);
      forall i | 0 <= i < |sims|
        ensures Above(sims[i], x)
      {
        if i < |sims| - 1 {
          assert Above(sims[i], last);
        }
      }
    }
  }

  /** `get_recommendations`'s contract on its result: the `n` (at most) largest
      `(score, id)` tuples of the eligible posts, largest first. A post is
      eligible when the user has not liked it, its id is not 0 and the user
      did not write it. */
  predicate Eligible(posts: map<int, PostInfo>, likes: seq<int>, userId: int, pk: int) {
    pk in posts && pk !in likes && pk != 0 && posts[pk].authorId != userId
  }

  function ScoreOf(posts: map<int, PostInfo>, um: map<string, int>,
                   score: (map<string, int>, seq<string>) -> int, pk: int): Scored
    requires pk in posts
  {
    Scored(score(um, posts[pk].tags), pk)
  }

  ghost predicate Recommended(ranked: seq<Scored>, posts: map<int, PostInfo>, likes: seq<int>, userId: int,
                        um: map<string, int>, score: (map<string, int>, seq<string>) -> int, n: int)
  {
    && SortedDesc(ranked)
    && |ranked| <= Cap(n)
    && (forall i :: 0 <= i < |ranked| ==>
          Eligible(posts, likes, userId, ranked[i].id) && ranked[i] == ScoreOf(posts, um, score, ranked[i].id))
    && (|ranked| < n ==> forall pk :: Eligible(posts, likes, userId, pk) ==> ScoreOf(posts, um, score, pk) in ranked)
    && (forall pk :: Eligible(posts, likes, userId, pk) && ScoreOf(posts, um, score, pk) !in ranked ==>
          forall i :: 0 <= i < |ranked| ==> Above(ranked[i], ScoreOf(posts, um, score, pk)))
  }

  /** The top `n` of the tuples of every eligible post is a recommendation. */
  lemma TopNRecommended(sims: seq<Scored>, considered: seq<Scored>, posts: map<int, PostInfo>, likes: seq<int>,
                        userId: int, um: map<string, int>, score: (map<string, int>, seq<string>) -> int, n: int)
    requires IsTopN(sims, considered, n)
    requires forall i :: 0 <= i < |considered| ==>
      Eligible(posts, likes, userId, considered[i].id) && considered[i] == ScoreOf(posts, um, score, considered[i].id)
    requires forall pk :: Eligible(posts, likes, userId, pk) ==> ScoreOf(posts, um, score, pk) in considered
    ensures Recommended(sims, posts, likes, userId, um, score, n)
  {
    forall i | 0 <= i < |sims|
      ensures Eligible(posts, likes, userId, sims[i].id) && sims[i] == ScoreOf(posts, um, score, sims[i].id)
    {
      var k :| 0 <= k < |considered| && considered[k] == sims[i];
    }
  }

  /** The head of a descending list is above every other element. */
  lemma HeadAboveRest(s: seq<Scored>)
    requires SortedDesc(s) && s != []
    ensures forall x :: x in s && x != s[0] ==> Above(s[0], x)
  {
    forall x | x in s && x != s[0]
      ensures Above(s[0], x)
    {
      var k :| 0 <= k < |s| && s[k] == x;
    }
  }

  /** Two descending lists with the same elements are the same list. */
  lemma {:induction false} SortedDescUnique(a: seq<Scored>, b: seq<Scored>)
    requires SortedDesc(a) && SortedDesc(b)
    requires forall x :: x in a <==> x in b
    ensures a == b
  {
    assert |a| > 0 ==> a[0] in b;
    assert |b| > 0 ==> b[0] in a;
    if a != [] {
      assert a[0] in a;
      assert b != [];
      assert b[0] in b;
      HeadAboveRest(a);
      HeadAboveRest(b);
      assert a[0] == b[0];
      forall x
        ensures x in a[1..] <==> x in b[1..]
      {
        if x in a[1..] {
          var k :| 1 <= k < |a| && a[k] == x;
          assert Above(a[0], x);
          assert x in b;
        }
        if x in b[1..] {
          var k :| 1 <= k < |b| && b[k] == x;
          assert Above(b[0], x);
          assert x in a;
        }
      }
      SortedDescUnique(a[1..], b[1..]);
      assert a == [a[0]] + a[1..] && b == [b[0]] + b[1..];
    }
  }

  /** A descending list whose elements all lie in another descending list that
      has one more element besides is strictly shorter. */
  lemma {:induction false} SortedDescShorter(a: seq<Scored>, b: seq<Scored>, x: Scored)
    requires SortedDesc(a) && SortedDesc(b)
    requires forall y :: y in a ==> y in b
    requires x in b && x !in a
    ensures |a| < |b|
  {
    if a != [] {
      assert a[0] in a;
      var k :| 0 <= k < |b| && b[k] == a[0];
      var rest := b[..k] + b[k + 1..];
      SortedDescRemove(b, k);
      forall y | y in a[1..]
        ensures y in rest
      {
        var m :| 1 <= m < |a| && a[m] == y;
        assert Above(a[0], y) && y in a;
      }
      assert x != a[0];
      assert x !in a[1..];
      SortedDescShorter(a[1..], rest, x);
    }
  }

  /** Removing one element of a descending list leaves a descending list of
      the other elements. */
  lemma SortedDescRemove(b: seq<Scored>, k: int)
    requires SortedDesc(b) && 0 <= k < |b|
    ensures SortedDesc(b[..k] + b[k + 1..])
    ensures forall y :: y in b && y != b[k] ==> y in b[..k] + b[k + 1..]
  {
    var rest := b[..k] + b[k + 1..];
    forall i, j | 0 <= i < j < |rest|
      ensures Above(rest[i], rest[j])
    {
      var i' := if i < k then i else i + 1;
      var j' := if j < k then j else j + 1;
      assert rest[i] == b[i'] && rest[j] == b[j'];
    }
    forall y | y in b && y != b[k]
      ensures y in rest
    {
      var l :| 0 <= l < |b| && b[l] == y;
      if l < k {
        assert rest[l] == y;
      } else {
        assert rest[l - 1] == y;
      }
    }
  }

  /** The recommendation does not depend on the order in which the posts dict
      is visited: two lists meeting its contract are equal. */
  lemma RecommendedUnique(r1: seq<Scored>, r2: seq<Scored>, posts: map<int, PostInfo>, likes: seq<int>,
                          userId: int, um: map<string, int>, score: (map<string, int>, seq<string>) -> int, n: int)
    requires Recommended(r1, posts, likes, userId, um, score, n)
    requires Recommended(r2, posts, likes, userId, um, score, n)
    ensures r1 == r2
  {
    forall x | x in r1
      ensures x in r2
    {
      InRecommended(x, r1, r2, posts, likes, userId, um, score, n);
    }
    forall x | x in r2
      ensures x in r1
    {
      InRecommended(x, r2, r1, posts, likes, userId, um, score, n);
    }
    SortedDescUnique(r1, r2);
  }

  lemma InRecommended(x: Scored, r1: seq<Scored>, r2: seq<Scored>, posts: map<int, PostInfo>, likes: seq<int>,
                      userId: int, um: map<string, int>, score: (map<string, int>, seq<string>) -> int, n: int)
    requires Recommended(r1, posts, likes, userId, um, score, n)
    requires Recommended(r2, posts, likes, userId, um, score, n)
    requires x in r1
    ensures x in r2
  {
    if x !in r2 {
      var i :| 0 <= i < |r1| && r1[i] == x;
      assert Eligible(posts, likes, userId, x.id) && x == ScoreOf(posts, um, score, x.id);
      forall y | y in r2
        ensures y in r1
      {
        var j :| 0 <= j < |r2| && r2[j] == y;
        assert Above(y, x);
      }
      SortedDescShorter(r2, r1, x);
    }
  }

  /** What `get_article` fetched for each ranked post, in rank order. */
  function Articles(ranked: seq<Scored>, getArticle: int -> Option<PostsEntry>): (r: seq<Option<PostsEntry>>)
    ensures |r| == |ranked| && forall i :: 0 <= i < |ranked| ==> r[i] == getArticle(ranked[i].id)
  {
    if ranked == [] then []
    else Articles(ranked[..|ranked| - 1], getArticle) + [getArticle(ranked[|ranked| - 1].id)]
  }

  /** The similarity loop of `get_recommendations` over the keys of `posts`,
      visited in an order the model leaves open, with its `n`-tuple heap. */
  method SelectTop(posts: map<int, PostInfo>, likes: seq<int>, userId: int, um: map<string, int>,
                   score: (map<string, int>, seq<string>) -> int, n: int) returns (sims: seq<Scored>)
    ensures Recommended(sims, posts, likes, userId, um, score, n)
  {
    var remaining := posts.Keys;
    sims := [];
    ghost var considered: seq<Scored> := [];
    while remaining != {}
      invariant remaining <= posts.Keys
      invariant IsTopN(sims, considered, n)
      invariant forall i :: 0 <= i < |considered| ==>
        considered[i].id !in remaining && Eligible(posts, likes, userId, considered[i].id) &&
        considered[i] == ScoreOf(posts, um, score, considered[i].id)
      invariant forall pk :: Eligible(posts, likes, userId, pk) && pk !in remaining ==>
        ScoreOf(posts, um, score, pk) in considered
      decreases |remaining|
    {
      NonEmptyHasKey(remaining);
      var pk :| pk in remaining;
      remaining := remaining - {pk};
      if pk in likes || pk == 0 || posts[pk].authorId == userId {
        continue;
      }
      var x := Scored(score(um, posts[pk].tags), pk);
      HeapStepTopN(sims, considered, x, n);
      sims := HeapStep(sims, x, n);
      considered := considered + [x];
    }
    TopNRecommended(sims, considered, posts, likes, userId, um, score, n);
  }

  /** The `get_article` loop of `get_recommendations`. */
  method FetchArticles(ranked: seq<Scored>, getArticle: int -> Option<PostsEntry>) returns (entries: seq<Option<PostsEntry>>)
    ensures entries == Articles(ranked, getArticle)
  {
    entries := [];
    for i := 0 to |ranked|
      invariant entries == Articles(ranked[..i], getArticle)
    {
      assert ranked[..i + 1][..i] == ranked[..i];
      entries := entries + [getArticle(ranked[i].id)];
    }
    assert ranked[..|ranked|] == ranked;
  }

  // ---------------------------------------------------- posts and users

  /** An entry of `self.posts`. */
  datatype PostInfo = PostInfo(authorId: int, tags: seq<string>)

  /** The entry a `defaultdict` lookup of a missing post id inserts. */
  const Dummy: PostInfo := PostInfo(0, [])

  /** A row of the database's `AllUserLikes`: the likes as a comma-joined list. */
  datatype UserLikes = UserLikes(globalId: int, likes: string, hostIsNull: bool)

  /** The `posts` dict `_clean_post_entries` builds: later rows overwrite
      earlier ones with the same id. */
  function PostsOf(pes: seq<PostsEntry>, splitTags: string -> seq<string>): map<int, PostInfo> {
    if pes == [] then map[]
    else
      var last := pes[|pes| - 1];
      PostsOf(pes[..|pes| - 1], splitTags)[last.globalId := PostInfo(last.authorId, splitTags(last.tags))]
  }

  /** Every tag of every row, in order. */
  function AllTags(pes: seq<PostsEntry>, splitTags: string -> seq<string>): seq<string> {
    if pes == [] then [] else AllTags(pes[..|pes| - 1], splitTags) + splitTags(pes[|pes| - 1].tags)
  }

  /** One more row: its post and its tags. */
  lemma PostsOfNext(pes: seq<PostsEntry>, splitTags: string -> seq<string>, i: int)
    requires 0 <= i < |pes|
    ensures PostsOf(pes[..i + 1], splitTags) ==
      PostsOf(pes[..i], splitTags)[pes[i].globalId := PostInfo(pes[i].authorId, splitTags(pes[i].tags))]
    ensures AllTags(pes[..i + 1], splitTags) == AllTags(pes[..i], splitTags) + splitTags(pes[i].tags)
  {
    assert pes[..i + 1][..i] == pes[..i];
  }

  /** The posts dict has one key per row id, holding the author and tags of the
      last row with that id. */
  lemma {:induction false} PostsOfLatest(pes: seq<PostsEntry>, splitTags: string -> seq<string>, i: int)
    requires 0 <= i < |pes|
    requires forall j :: i < j < |pes| ==> pes[j].globalId != pes[i].globalId
    ensures pes[i].globalId in PostsOf(pes, splitTags)
    ensures PostsOf(pes, splitTags)[pes[i].globalId] == PostInfo(pes[i].authorId, splitTags(pes[i].tags))
  {
    if i < |pes| - 1 {
      var front := pes[..|pes| - 1];
      assert front[i] == pes[i];
      PostsOfLatest(front, splitTags, i);
    }
  }

  lemma {:induction false} PostsOfKeys(pes: seq<PostsEntry>, splitTags: string -> seq<string>, gid: int)
    ensures gid in PostsOf(pes, splitTags) <==> exists i :: 0 <= i < |pes| && pes[i].globalId == gid
  {
    if pes != [] {
      var front := pes[..|pes| - 1];
      PostsOfKeys(front, splitTags, gid);
      if gid in PostsOf(front, splitTags) {
        var i :| 0 <= i < |front| && front[i].globalId == gid;
        assert pes[i].globalId == gid;
      }
      if exists i :: 0 <= i < |pes| && pes[i].globalId == gid {
        var i :| 0 <= i < |pes| && pes[i].globalId == gid;
        if i < |front| {
          assert front[i].globalId == gid;
        }
      }
    }
  }

  /** The `users` dict `_clean_user_entries` builds, or `None` when a like list
      raises. The likes are parsed before the host test, so a foreign user's bad
      list raises too. */
  function UsersOf(ues: seq<UserLikes>): Option<map<int, seq<int>>> {
    if ues == [] then Some(map[])
    else
      var last := ues[|ues| - 1];
      match UsersOf(ues[..|ues| - 1])
      case None => None
      case Some(m) =>
        match CleanLikes(last.likes)
        case None => None
        case Some(likes) => if !last.hostIsNull then Some(m) else Some(m[last.globalId := likes])
  }

  /** Only local users are kept, each with the likes of its last row. */
  lemma {:induction false} UsersOfLocal(ues: seq<UserLikes>, id: int)
    requires UsersOf(ues).Some?
    ensures id in UsersOf(ues).value <==> exists i :: 0 <= i < |ues| && ues[i].globalId == id && ues[i].hostIsNull
  {
    if ues != [] {
      var front, last := ues[..|ues| - 1], ues[|ues| - 1];
      assert UsersOf(front).Some? && CleanLikes(last.likes).Some?;
      var m := UsersOf(front).value;
      var r := UsersOf(ues).value;
      assert r == if last.hostIsNull then m[last.globalId := CleanLikes(last.likes).value] else m;
      UsersOfLocal(front, id);
      assert forall i :: 0 <= i < |front| ==> front[i] == ues[i];
      if id in r {
        if !(last.hostIsNull && last.globalId == id) {
          var i :| 0 <= i < |front| && front[i].globalId == id && front[i].hostIsNull;
          assert ues[i].globalId == id && ues[i].hostIsNull;
        } else {
          assert ues[|ues| - 1].globalId == id && ues[|ues| - 1].hostIsNull;
        }
      }
      if exists i :: 0 <= i < |ues| && ues[i].globalId == id && ues[i].hostIsNull {
        var i :| 0 <= i < |ues| && ues[i].globalId == id && ues[i].hostIsNull;
        if i < |front| {
          assert front[i].globalId == id && front[i].hostIsNull;
        }
      }
    }
  }

  /** A like list that does not parse, local or foreign, makes the whole load raise. */
  lemma {:induction false} UsersOfFails(ues: seq<UserLikes>, i: int)
    requires 0 <= i < |ues| && CleanLikes(ues[i].likes).None?
    ensures UsersOf(ues) == None
  {
    var front := ues[..|ues| - 1];
    if i < |ues| - 1 {
      assert front[i] == ues[i];
      UsersOfFails(front, i);
    }
  }

  /** A `defaultdict` read of a user's likes: a missing user has none. */
  function LikesOf(users: map<int, seq<int>>, u: int): seq<int> {
    if u in users then users[u] else []
  }

  /** A read of `self.posts[post_id]["tags"]`: a missing post has no tags. */
  function PostTags(posts: map<int, PostInfo>, pid: int): seq<string> {
    if pid in posts then posts[pid].tags else []
  }

  /** The tags of the liked posts, one list after the other, in like order. */
  function LikedTags(likes: seq<int>, posts: map<int, PostInfo>): seq<string> {
    if likes == [] then [] else LikedTags(likes[..|likes| - 1], posts) + PostTags(posts, likes[|likes| - 1])
  }

  /** `q` is `p` with some dummy posts added. */
  predicate DummyExtension(p: map<int, PostInfo>, q: map<int, PostInfo>) {
    && (forall k :: k in p ==> k in q && q[k] == p[k])
    && (forall k :: k in q && k !in p ==> q[k] == Dummy)
  }

  lemma DummyExtensionTrans(p: map<int, PostInfo>, q: map<int, PostInfo>, r: map<int, PostInfo>)
    requires DummyExtension(p, q) && DummyExtension(q, r)
    ensures DummyExtension(p, r)
  {
  }

  /** Dummy posts have no tags, so adding them changes no liked tags. */
  lemma {:induction false} LikedTagsDummy(likes: seq<int>, p: map<int, PostInfo>, q: map<int, PostInfo>)
    requires DummyExtension(p, q)
    ensures LikedTags(likes, q) == LikedTags(likes, p)
  {
    if likes != [] {
      LikedTagsDummy(likes[..|likes| - 1], p, q);
    }
  }

  /** A user's model, read through `defaultdict`: a missing user has an empty one. */
  function ModelOf(models: map<int, map<string, int>>, u: int): map<string, int> {
    if u in models then models[u] else map[]
  }

  /** `user_models[u][t] += 1` for each `t` of `tags`. The entry for `u` only
      comes into being with the first tag. */
  function WithModel(models: map<int, map<string, int>>, u: int, tags: seq<string>): map<int, map<string, int>> {
    if tags == [] then models else models[u := AddCounts(ModelOf(models, u), tags)]
  }

  lemma WithModelAppend(models: map<int, map<string, int>>, u: int, a: seq<string>, b: seq<string>)
    ensures WithModel(WithModel(models, u, a), u, b) == WithModel(models, u, a + b)
  {
    if a == [] {
      assert a + b == b;
    } else if b == [] {
      assert a + b == a;
    } else {
      AddCountsAppend(ModelOf(models, u), a, b);
    }
  }

  /** `_create_user_models`'s contract: a user has a model exactly when the
      posts it liked carry at least one tag, and the model counts each tag's
      occurrences across those posts. */
  predicate ModelsFor(models: map<int, map<string, int>>, users: map<int, seq<int>>, posts: map<int, PostInfo>) {
    && (forall u :: u in models ==> u in users)
    && (forall u :: u in users ==>
          (u in models <==> LikedTags(users[u], posts) != []) &&
          (u in models ==> models[u] == AddCounts(map[], LikedTags(users[u], posts))))
  }

  /** `ModelsFor`, for the users of `order` visited so far. */
  ghost predicate ModelsSoFar(order: seq<int>, users: map<int, seq<int>>, models: map<int, map<string, int>>,
                              posts: map<int, PostInfo>) {
    && (forall u :: u in models ==> u in order)
    && (forall u :: u in order ==>
          && u in users
          && (u in models <==> LikedTags(users[u], posts) != [])
          && (u in models ==> models[u] == AddCounts(map[], LikedTags(users[u], posts))))
  }

  lemma ModelsSoFarStep(order: seq<int>, users: map<int, seq<int>>, models: map<int, map<string, int>>,
                        posts: map<int, PostInfo>, u: int)
    requires ModelsSoFar(order, users, models, posts)
    requires u in users && u !in order
    ensures ModelsSoFar(order + [u], users, WithModel(models, u, LikedTags(users[u], posts)), posts)
  {
    assert u !in models;
    forall v ensures v in order + [u] <==> v in order || v == u {
    }
  }

  /** Visiting one more user of `remaining` keeps `order` the distinct users
      visited so far, and adds that user's liked tags to `FlatLiked`. */
  lemma VisitStep(order: seq<int>, users: map<int, seq<int>>, remaining: set<int>, u: int,
                  posts: map<int, PostInfo>)
    requires remaining <= users.Keys && u in remaining
    requires forall v :: v in order <==> v in users && v !in remaining
    requires forall i :: 0 <= i < |order| ==> order[i] in users
    requires forall i, j :: 0 <= i < j < |order| ==> order[i] != order[j]
    ensures remaining - {u} <= users.Keys
    ensures forall v :: v in order + [u] <==> v in users && v !in remaining - {u}
    ensures forall i :: 0 <= i < |order + [u]| ==> (order + [u])[i] in users
    ensures forall i, j :: 0 <= i < j < |order + [u]| ==> (order + [u])[i] != (order + [u])[j]
    ensures FlatLiked(order + [u], users, posts) == FlatLiked(order, users, posts) + LikedTags(users[u], posts)
  {
    var o := order + [u];
    assert o[..|o| - 1] == order;
    forall v
      ensures v in o <==> v in order || v == u
    {
    }
  }

  /** Every post liked by a user of `order` has an entry. */
  ghost predicate LikesPresent(order: seq<int>, users: map<int, seq<int>>, posts: map<int, PostInfo>) {
    forall u, k :: u in order && u in users && k in users[u] ==> k in posts
  }

  lemma LikesPresentStep(order: seq<int>, users: map<int, seq<int>>, p: map<int, PostInfo>, q: map<int, PostInfo>, u: int)
    requires LikesPresent(order, users, p) && DummyExtension(p, q)
    requires u in users && forall k :: k in users[u] ==> k in q
    ensures LikesPresent(order + [u], users, q)
  {
    forall v ensures v in order + [u] <==> v in order || v == u {
    }
  }

  /** `order` visits every user of `users` exactly once. */
  ghost predicate VisitOrder(order: seq<int>, users: map<int, seq<int>>) {
    && (forall i :: 0 <= i < |order| ==> order[i] in users)
    && (forall u :: u in users ==> u in order)
    && (forall i, j :: 0 <= i < j < |order| ==> order[i] != order[j])
  }

  /** The liked tags of the users of `order`, one user after the other. */
  function FlatLiked(order: seq<int>, users: map<int, seq<int>>, posts: map<int, PostInfo>): seq<string>
    requires forall i :: 0 <= i < |order| ==> order[i] in users
  {
    if order == [] then []
    else FlatLiked(order[..|order| - 1], users, posts) + LikedTags(users[order[|order| - 1]], posts)
  }

  /** The count of `t` summed over the models of the users of `order`. */
  function SumCounts(order: seq<int>, models: map<int, map<string, int>>, t: string): int {
    if order == [] then 0 else SumCounts(order[..|order| - 1], models, t) + Get(ModelOf(models, order[|order| - 1]), t)
  }

  lemma {:induction false} OccAppend(a: seq<string>, b: seq<string>, t: string)
    ensures Occ(a + b, t) == Occ(a, t) + Occ(b, t)
  {
    if b == [] {
      assert a + b == a;
    } else {
      OccAppend(a, b[..|b| - 1], t);
      assert (a + b)[..|a + b| - 1] == a + b[..|b| - 1];
    }
  }

  /** `user_tag_freq[t]` gains the sum over users of their model's count of `t`. */
  lemma {:induction false} FlatLikedSum(order: seq<int>, users: map<int, seq<int>>, posts: map<int, PostInfo>,
                                        models: map<int, map<string, int>>, t: string)
    requires forall i :: 0 <= i < |order| ==> order[i] in users
    requires ModelsFor(models, users, posts)
    ensures Occ(FlatLiked(order, users, posts), t) == SumCounts(order, models, t)
  {
    if order != [] {
      var front := order[..|order| - 1];
      var u := order[|order| - 1];
      FlatLikedSum(front, users, posts, models, t);
      OccAppend(FlatLiked(front, users, posts), LikedTags(users[u], posts), t);
      AddCountsOcc(map[], LikedTags(users[u], posts), t);
    }
  }

  // ------------------------------------------------------------ the class

  /** A dict that is not empty has a key to visit next. */
  lemma NonEmptyHasKey(keys: set<int>)
    requires keys != {}
    ensures exists k :: k in keys
  {
    if forall k :: k !in keys {
      assert false;
    }
  }

  /** `CosineRecommender`. `splitTags` is `RecommendersUtil.split_tags`. The
      inverse-frequency tables and the similarity are floating point and are
      not kept. */
  class CosineRecommender {
    const splitTags: string -> seq<string>
    var postTagFreq: map<string, int>
    var userTagFreq: map<string, int>
    var posts: map<int, PostInfo>
    var users: map<int, seq<int>>
    var userModels: map<int, map<string, int>>

    /** Both frequency counters hold only keys they have counted, so
        `_calculate_based_itf` never divides by zero. */
    predicate Valid()
      reads this
    {
      Positive(postTagFreq) && Positive(userTagFreq)
    }

    /** The empty recommender; `Init` loads it. */
    constructor(splitTags: string -> seq<string>)
      ensures this.splitTags == splitTags && Valid()
      ensures postTagFreq == map[] && userTagFreq == map[] && posts == map[] && users == map[] && userModels == map[]
    {
      this.splitTags := splitTags;
      postTagFreq := map[];
      userTagFreq := map[];
      posts := map[];
      users := map[];
      userModels := map[];
    }

    /** The body of `__init__` over the rows the database returned. `raised`
        means a like list did not parse, and Python's constructor raises. */
    method Init(postRows: seq<PostsEntry>, userRows: seq<UserLikes>) returns (raised: bool)
      modifies this
      ensures Valid()
      ensures postTagFreq == AddCounts(map[], AllTags(postRows, splitTags))
      ensures raised <==> UsersOf(userRows).None?
      ensures !raised ==>
        && users == UsersOf(userRows).value
        && ModelsFor(userModels, users, PostsOf(postRows, splitTags))
        && DummyExtension(PostsOf(postRows, splitTags), posts)
        && (forall u, k :: u in users && k in users[u] ==> k in posts)
        && exists order :: VisitOrder(order, users) &&
             userTagFreq == AddCounts(map[], FlatLiked(order, users, PostsOf(postRows, splitTags)))
    {
      postTagFreq := map[];
      userTagFreq := map[];
      users := map[];
      userModels := map[];
      posts := map[];
      posts := CleanPostEntries(postRows);
      AddCountsPositive(map[], AllTags(postRows, splitTags));
      var us := CleanUserEntries(userRows);
      if us.None? {
        return true;
      }
      users := us.value;
      ghost var order;
      userModels, order := CreateUserModels(users);
      AddCountsPositive(map[], FlatLiked(order, users, PostsOf(postRows, splitTags)));
      assert VisitOrder(order, users);
      raised := false;
    }

    /** `_clean_post_entries`: counts every tag in `post_tag_freq` and returns
        the posts dict. */
    method CleanPostEntries(pes: seq<PostsEntry>) returns (result: map<int, PostInfo>)
      modifies this`postTagFreq
      ensures result == PostsOf(pes, splitTags)
      ensures postTagFreq == AddCounts(old(postTagFreq), AllTags(pes, splitTags))
    {
      result := map[];
      for i := 0 to |pes|
        invariant result == PostsOf(pes[..i], splitTags)
        invariant postTagFreq == AddCounts(old(postTagFreq), AllTags(pes[..i], splitTags))
      {
        PostsOfNext(pes, splitTags, i);
        var pe := pes[i];
        var tags := splitTags(pe.tags);
        CountPostTags(tags);
        AddCountsAppend(old(postTagFreq), AllTags(pes[..i], splitTags), tags);
        result := result[pe.globalId := PostInfo(pe.authorId, tags)];
      }
      assert pes[..|pes|] == pes;
    }

    /** The inner loop of `_clean_post_entries`: `post_tag_freq[tag] += 1` for
        each tag of one post. */
    method CountPostTags(tags: seq<string>)
      modifies this`postTagFreq
      ensures postTagFreq == AddCounts(old(postTagFreq), tags)
    {
      for j := 0 to |tags|
        invariant postTagFreq == AddCounts(old(postTagFreq), tags[..j])
      {
        AddCountsNext(old(postTagFreq), tags, j);
        postTagFreq := Inc(postTagFreq, tags[j]);
      }
      assert tags[..|tags|] == tags;
    }

    /** `_clean_user_entries`: the local users and their parsed likes; `None`
        when a like list raises. */
    method CleanUserEntries(ues: seq<UserLikes>) returns (result: Option<map<int, seq<int>>>)
      ensures result == UsersOf(ues)
    {
      var users: map<int, seq<int>> := map[];
      for i := 0 to |ues|
        invariant UsersOf(ues[..i]) == Some(users)
      {
        assert ues[..i + 1][..i] == ues[..i];
        var ue := ues[i];
        var likes := CleanLikes(ue.likes);
        if likes.None? {
          UsersOfFails(ues, i);
          return None;
        }
        if !ue.hostIsNull {
          continue;
        }
        users := users[ue.globalId := likes.value];
      }
      assert ues[..|ues|] == ues;
      return Some(users);
    }

    /** One liked post of `_create_user_models`: the `defaultdict` read of
        `self.posts[post_id]` inserts a dummy post for an unknown id, then each
        tag is counted for the user and in `user_tag_freq`. */
    method AddLikedPost(u: int, pid: int, models: map<int, map<string, int>>) returns (r: map<int, map<string, int>>)
      modifies this`posts, this`userTagFreq
      ensures posts == if pid in old(posts) then old(posts) else old(posts)[pid := Dummy]
      ensures userTagFreq == AddCounts(old(userTagFreq), PostTags(old(posts), pid))
      ensures r == WithModel(models, u, PostTags(old(posts), pid))
    {
      if pid !in posts {
        posts := posts[pid := Dummy];
      }
      var tags := posts[pid].tags;
      ghost var m0 := ModelOf(models, u);
      var um := ModelOf(models, u);
      // `user_tag_freq` is counted in a local copy and written back once: nothing
      // reads it in between.
      var freq := userTagFreq;
      r := models;
      for j := 0 to |tags|
        invariant freq == AddCounts(old(userTagFreq), tags[..j])
        invariant um == AddCounts(m0, tags[..j])
        invariant r == if j == 0 then models else models[u := um]
        modifies {}
      {
        AddCountsNext(old(userTagFreq), tags, j);
        AddCountsNext(m0, tags, j);
        freq := Inc(freq, tags[j]);
        um := Inc(um, tags[j]);
        r := r[u := um];
      }
      assert tags[..|tags|] == tags;
      userTagFreq := freq;
    }

    /** The likes of one user in `_create_user_models`. */
    method AddUserLikes(u: int, likes: seq<int>, models: map<int, map<string, int>>) returns (r: map<int, map<string, int>>)
      modifies this`posts, this`userTagFreq
      ensures r == WithModel(models, u, LikedTags(likes, old(posts)))
      ensures userTagFreq == AddCounts(old(userTagFreq), LikedTags(likes, old(posts)))
      ensures DummyExtension(old(posts), posts)
      ensures forall k :: k in likes ==> k in posts
      ensures forall k :: k in posts && k !in old(posts) ==> k in likes
    {
      r := models;
      for j := 0 to |likes|
        invariant r == WithModel(models, u, LikedTags(likes[..j], old(posts)))
        invariant userTagFreq == AddCounts(old(userTagFreq), LikedTags(likes[..j], old(posts)))
        invariant DummyExtension(old(posts), posts)
        invariant forall k :: k in likes[..j] ==> k in posts
        invariant forall k :: k in posts && k !in old(posts) ==> k in likes[..j]
      {
        assert likes[..j + 1][..j] == likes[..j];
        ghost var p0 := posts;
        ghost var done := LikedTags(likes[..j], old(posts));
        ghost var step := PostTags(old(posts), likes[j]);
        assert PostTags(p0, likes[j]) == step;
        r := AddLikedPost(u, likes[j], r);
        WithModelAppend(models, u, done, step);
        AddCountsAppend(old(userTagFreq), done, step);
        assert forall k :: k in likes[..j + 1] <==> k in likes[..j] || k == likes[j];
      }
      assert likes[..|likes|] == likes;
    }

    /** `_create_user_models`. The users are visited in the dict's order,
        returned as `order`; the models do not depend on it. */
    method CreateUserModels(us: map<int, seq<int>>) returns (models: map<int, map<string, int>>, ghost order: seq<int>)
      modifies this`posts, this`userTagFreq
      ensures ModelsFor(models, us, old(posts))
      ensures forall u :: u in order <==> u in us
      ensures forall i :: 0 <= i < |order| ==> order[i] in us
      ensures forall i, j :: 0 <= i < j < |order| ==> order[i] != order[j]
      ensures userTagFreq == AddCounts(old(userTagFreq), FlatLiked(order, us, old(posts)))
      ensures DummyExtension(old(posts), posts)
      ensures forall u, k :: u in us && k in us[u] ==> k in posts
    {
      models := map[];
      order := [];
      var remaining := us.Keys;
      while remaining != {}
        invariant remaining <= us.Keys
        invariant forall u :: u in order <==> u in us && u !in remaining
        invariant forall i :: 0 <= i < |order| ==> order[i] in us
        invariant forall i, j :: 0 <= i < j < |order| ==> order[i] != order[j]
        invariant ModelsSoFar(order, us, models, old(posts))
        invariant userTagFreq == AddCounts(old(userTagFreq), FlatLiked(order, us, old(posts)))
        invariant DummyExtension(old(posts), posts)
        invariant LikesPresent(order, us, posts)
        decreases |remaining|
      {
        NonEmptyHasKey(remaining);
        var u :| u in remaining;
        VisitStep(order, us, remaining, u, old(posts));
        remaining := remaining - {u};
        ghost var p0 := posts;
        LikedTagsDummy(us[u], old(posts), p0);
        ModelsSoFarStep(order, us, models, old(posts), u);
        models := AddUserLikes(u, us[u], models);
        DummyExtensionTrans(old(posts), p0, posts);
        LikesPresentStep(order, us, p0, posts, u);
        AddCountsAppend(old(userTagFreq), FlatLiked(order, us, old(posts)), LikedTags(us[u], old(posts)));
        order := order + [u];
      }
    }

    /** `get_recommendations(user_id, n)`. `score` stands for the TF-IDF cosine
        similarity of a user model and a post's tags, and `getArticle` for
        `get_article`. Reading `self.user_models[user_id]` inserts an empty
        model, and reading `self.users[user_id]` (done once there is a post to
        visit) inserts an empty like list. `ranked` is the logged `(score, id)`
        list. */
    method GetRecommendations(userId: int, n: int, score: (map<string, int>, seq<string>) -> int,
                              getArticle: int -> Option<PostsEntry>)
      returns (entries: seq<Option<PostsEntry>>, ranked: seq<Scored>)
      modifies this`userModels, this`users
      ensures userModels == old(userModels)[userId := ModelOf(old(userModels), userId)]
      ensures ModelOf(old(userModels), userId) == map[] ==> entries == [] && ranked == [] && users == old(users)
      ensures ModelOf(old(userModels), userId) != map[] ==>
        && users == (if posts == map[] then old(users) else old(users)[userId := LikesOf(old(users), userId)])
        && Recommended(ranked, posts, LikesOf(old(users), userId), userId, ModelOf(old(userModels), userId), score, n)
        && entries == Articles(ranked, getArticle)
    {
      var um := ModelOf(userModels, userId);
      userModels := userModels[userId := um];
      if um == map[] {
        return [], [];
      }
      var likes := LikesOf(users, userId);
      if posts != map[] {
        users := users[userId := likes];
      }
      ranked := SelectTop(posts, likes, userId, um, score, n);
      entries := FetchArticles(ranked, getArticle);
    }

    /** `update_model(user_id, article_id)`. `raised` means `get_article` found
        nothing and reading its tags raises. */
    method UpdateModel(userId: int, articleId: int, getArticle: int -> Option<PostsEntry>) returns (raised: bool)
      requires Valid()
      modifies this`users, this`userModels, this`userTagFreq
      ensures Valid()
      ensures articleId in LikesOf(old(users), userId) ==>
        !raised && users == old(users) && userModels == old(userModels) && userTagFreq == old(userTagFreq)
      ensures articleId !in LikesOf(old(users), userId) ==>
        && (raised <==> getArticle(articleId).None?)
        && (raised ==>
              users == old(users)[userId := LikesOf(old(users), userId)] &&
              userModels == old(userModels) && userTagFreq == old(userTagFreq))
        && (!raised ==>
              var tags := splitTags(getArticle(articleId).value.tags);
              && users == old(users)[userId := LikesOf(old(users), userId) + [articleId]]
              && userTagFreq == AddCounts(old(userTagFreq), tags)
              && userModels == WithModel(old(userModels), userId, tags))
    {
      var likes := LikesOf(users, userId);
      if userId !in users {
        users := users[userId := likes];
      }
      if articleId in likes {
        return false;
      }
      var art := getArticle(articleId);
      if art.None? {
        return true;
      }
      var tags := splitTags(art.value.tags);
      users := users[userId := likes + [articleId]];
      CountUserTags(userId, tags);
      AddCountsPositive(old(userTagFreq), tags);
      raised := false;
    }

    /** The tag loop of `update_model`. */
    method CountUserTags(userId: int, tags: seq<string>)
      modifies this`userModels, this`userTagFreq
      ensures userTagFreq == AddCounts(old(userTagFreq), tags)
      ensures userModels == WithModel(old(userModels), userId, tags)
    {
      var um := ModelOf(userModels, userId);
      for j := 0 to |tags|
        invariant userTagFreq == AddCounts(old(userTagFreq), tags[..j])
        invariant um == AddCounts(ModelOf(old(userModels), userId), tags[..j])
        invariant userModels == if j == 0 then old(userModels) else old(userModels)[userId := um]
      {
        assert tags[..j + 1][..j] == tags[..j];
        userTagFreq := Inc(userTagFreq, tags[j]);
        um := Inc(um, tags[j]);
        userModels := userModels[userId := um];
      }
      assert tags[..|tags|] == tags;

    }

    /** `add_post(post_entry)`: a new or edited post replaces its entry, and its
        tags are counted again. */
    method AddPost(entry: PostsEntry)
      requires Valid()
      modifies this`posts, this`postTagFreq
      ensures Valid()
      ensures posts == old(posts)[entry.globalId := PostInfo(entry.authorId, splitTags(entry.tags))]
      ensures postTagFreq == AddCounts(old(postTagFreq), splitTags(entry.tags))
      ensures forall t :: Get(postTagFreq, t) >= Get(old(postTagFreq), t)
    {
      var tags := splitTags(entry.tags);
      posts := posts[entry.globalId := PostInfo(entry.authorId, tags)];
      ghost var posts1 := posts;
      for j := 0 to |tags|
        invariant posts == posts1
        invariant postTagFreq == AddCounts(old(postTagFreq), tags[..j])
      {
        assert tags[..j + 1][..j] == tags[..j];
        postTagFreq := Inc(postTagFreq, tags[j]);
      }
      assert tags[..|tags|] == tags;
      AddCountsPositive(old(postTagFreq), tags);
      forall t
        ensures Get(postTagFreq, t) >= Get(old(postTagFreq), t)
      {
        AddCountsGrows(old(postTagFreq), tags, t);
      }
    }
  }
}

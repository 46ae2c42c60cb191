/**
 * The mixed celebrity feed (`getMixedCelebrityFeed` in
 * controller/post.js): the requester's followed posts from the last fifteen
 * minutes, then at most fifty other celebrity posts. The two database
 * queries are written out as filters over the post collection, listed in
 * the order the queries sort it (newest first).
 */
module Feed {
  import opened Common
  import opened Users
  import opened Posts

  /** Fifteen minutes in milliseconds. */
  const RecentWindow: int := 15 * 60 * 1000

  /** The `.limit(50)` on the second query. */
  const OthersLimit: nat := 50

  /** No two posts share an id. */
  predicate UniqueIds(ps: seq<Post>)
  {
    forall i, j :: 0 <= i < j < |ps| ==> ps[i].id != ps[j].id
  }

  /** Sorted by `-createdAt`. */
  predicate NewestFirst(ps: seq<Post>)
  {
    forall i, j :: 0 <= i < j < |ps| ==> ps[i].createdAt >= ps[j].createdAt
  }

  /** The posts a query condition selects, in collection order. */
  function Filter(ps: seq<Post>, keep: Post -> bool): (r: seq<Post>)
    ensures forall p :: p in r <==> p in ps && keep(p)
    ensures |r| <= |ps|
  {
    if ps == [] then []
    else
      assert ps == [ps[0]] + ps[1..];
      (if keep(ps[0]) then [ps[0]] else []) + Filter(ps[1..], keep)
  }

  /** Selecting from posts with distinct ids gives posts with distinct ids. */
  lemma {:induction false} FilterUniqueIds(ps: seq<Post>, keep: Post -> bool)
    requires UniqueIds(ps)
    ensures UniqueIds(Filter(ps, keep))
  {
    if ps != [] {
      var rest := Filter(ps[1..], keep);
      FilterUniqueIds(ps[1..], keep);
      if keep(ps[0]) {
        forall q | q in rest ensures q.id != ps[0].id {
          var k :| 0 <= k < |ps[1..]| && ps[1..][k] == q;
          assert ps[k + 1] == q;
        }
        assert Filter(ps, keep) == [ps[0]] + rest;
      }
    }
  }

  /** Selecting from a newest-first list keeps it newest first. */
  lemma {:induction false} FilterNewestFirst(ps: seq<Post>, keep: Post -> bool)
    requires NewestFirst(ps)
    ensures NewestFirst(Filter(ps, keep))
  {
    if ps != [] {
      var rest := Filter(ps[1..], keep);
      FilterNewestFirst(ps[1..], keep);
      if keep(ps[0]) {
        forall q | q in rest ensures ps[0].createdAt >= q.createdAt {
          var k :| 0 <= k < |ps[1..]| && ps[1..][k] == q;
          assert ps[k + 1] == q;
        }
        assert Filter(ps, keep) == [ps[0]] + rest;
      }
    }
  }

  /** A limited newest-first list is newest first. */
  lemma LimitNewestFirst(ps: seq<Post>, n: nat)
    requires NewestFirst(ps)
    ensures NewestFirst(Limit(ps, n))
  {
    var r := Limit(ps, n);
    forall i, j | 0 <= i < j < |r| ensures r[i].createdAt >= r[j].createdAt {
      assert r[i] == ps[i] && r[j] == ps[j];
    }
  }

  /** `posts.map(post => post._id)`. */
  function Ids(ps: seq<Post>): (r: seq<PostId>)
    ensures |r| == |ps|
    ensures forall k :: 0 <= k < |ps| ==> r[k] == ps[k].id
  {
    if ps == [] then [] else [ps[0].id] + Ids(ps[1..])
  }

  /** `.limit(n)`: the first `n` posts, or all of them when there are fewer. */
  function Limit(ps: seq<Post>, n: nat): (r: seq<Post>)
    ensures |r| == if |ps| <= n then |ps| else n
    ensures r == ps[..|r|]
  {
    if |ps| <= n then ps else ps[..n]
  }

  /**
   * The first query: posts by a followed user created at or after `since`.
   */
  function FollowedRecent(ps: seq<Post>, following: seq<UserId>, since: int): (r: seq<Post>)
    ensures forall p :: p in r <==> p in ps && p.owner in following && p.createdAt >= since
  {
    Filter(ps, (p: Post) => p.owner in following && p.createdAt >= since)
  }

  /**
   * The second query before its limit: posts by any celebrity whose id is
   * not among `excluded`.
   */
  function OtherCelebrityPosts(ps: seq<Post>, users: map<UserId, User>, excluded: seq<PostId>): (r: seq<Post>)
    ensures forall p :: p in r <==> p in ps && IsCelebrity(users, p.owner) && p.id !in excluded
  {
    Filter(ps, (p: Post) => IsCelebrity(users, p.owner) && p.id !in excluded)
  }

  datatype FeedReply = FeedReply(status: Status, posts: seq<Post>)

  /**
   * `getMixedCelebrityFeed` for `userId` at time `now`: 404 when the
   * requester's document is missing; otherwise 200 with the recent followed
   * posts first, then up to fifty celebrity posts not among them.
   */
  function MixedFeed(users: map<UserId, User>, userId: UserId, ps: seq<Post>, now: int): (r: FeedReply)
    ensures userId !in users ==> r == FeedReply(NotFound, [])
    ensures userId in users ==>
      var recent := FollowedRecent(ps, users[userId].following, now - RecentWindow);
      var others := OtherCelebrityPosts(ps, users, Ids(recent));
      && r.status == Ok
      && |r.posts| == |recent| + (if |others| <= OthersLimit then |others| else OthersLimit)
      && r.posts[..|recent|] == recent
      && r.posts[|recent|..] == Limit(others, OthersLimit)
      && forall k :: |recent| <= k < |r.posts| ==>
           r.posts[k] in ps && IsCelebrity(users, r.posts[k].owner) && r.posts[k].id !in Ids(recent)
  {
    if userId !in users then FeedReply(NotFound, [])
    else
      var recent := FollowedRecent(ps, users[userId].following, now - RecentWindow);
      var others := Limit(OtherCelebrityPosts(ps, users, Ids(recent)), OthersLimit);
      assert forall q :: q in others ==> q in OtherCelebrityPosts(ps, users, Ids(recent));
      FeedReply(Ok, recent + others)
  }

  /** A post id is in `Ids(ps)` exactly when some post in `ps` has it. */
  lemma IdsMember(ps: seq<Post>, p: Post)
    requires p in ps
    ensures p.id in Ids(ps)
  {
    var k :| 0 <= k < |ps| && ps[k] == p;
    assert Ids(ps)[k] == p.id;
  }

  /** Over a collection with distinct post ids, the mixed feed never lists a post twice. */
  lemma MixedFeedUniqueIds(users: map<UserId, User>, userId: UserId, ps: seq<Post>, now: int)
    requires UniqueIds(ps)
    ensures UniqueIds(MixedFeed(users, userId, ps, now).posts)
  {
    if userId in users {
      var following := users[userId].following;
      var since := now - RecentWindow;
      var recent := FollowedRecent(ps, following, since);
      var candidates := OtherCelebrityPosts(ps, users, Ids(recent));
      var others := Limit(candidates, OthersLimit);
      FilterUniqueIds(ps, (p: Post) => p.owner in following && p.createdAt >= since);
      FilterUniqueIds(ps, (p: Post) => IsCelebrity(users, p.owner) && p.id !in Ids(recent));
      var feed := recent + others;
      assert MixedFeed(users, userId, ps, now).posts == feed;
      forall i, j | 0 <= i < j < |feed| ensures feed[i].id != feed[j].id {
        if j < |recent| {
          assert feed[i] == recent[i] && feed[j] == recent[j];
        } else if i >= |recent| {
          assert feed[i] == candidates[i - |recent|] && feed[j] == candidates[j - |recent|];
        } else {
          assert feed[i] == recent[i];
          IdsMember(recent, recent[i]);
          assert feed[j] in candidates;
        }
      }
    }
  }

  /**
   * Over a collection listed newest first, both parts of the mixed feed are
   * newest first (the feed as a whole need not be).
   */
  lemma MixedFeedPartsNewestFirst(users: map<UserId, User>, userId: UserId, ps: seq<Post>, now: int)
    requires NewestFirst(ps) && userId in users
    ensures var feed := MixedFeed(users, userId, ps, now).posts;
      var n := |FollowedRecent(ps, users[userId].following, now - RecentWindow)|;
      NewestFirst(feed[..n]) && NewestFirst(feed[n..])
  {
    var following := users[userId].following;
    var since := now - RecentWindow;
    var recent := FollowedRecent(ps, following, since);
    var candidates := OtherCelebrityPosts(ps, users, Ids(recent));
    FilterNewestFirst(ps, (p: Post) => p.owner in following && p.createdAt >= since);
    FilterNewestFirst(ps, (p: Post) => IsCelebrity(users, p.owner) && p.id !in Ids(recent));
    LimitNewestFirst(candidates, OthersLimit);
    var feed := MixedFeed(users, userId, ps, now).posts;
    assert feed[..|recent|] == recent;
    assert feed[|recent|..] == Limit(candidates, OthersLimit);
  }
}

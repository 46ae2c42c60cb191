/**
 * The follow graph kept on user documents (controller/user.js): each user
 * lists whom they follow and who follows them, and only users with the
 * celebrity role can be followed.
 */
module Users {
  import opened Common
  import opened Lists

  datatype Role = Public | Celebrity

  /** A user document, with the two adjacency lists of the follow graph. */
  datatype User = User(
    id: UserId,
    name: string,
    email: string,
    role: Role,
    following: seq<UserId>,
    followers: seq<UserId>)

  /** `!targetUser || targetUser.role !== 'celebrity'` is false. */
  predicate IsCelebrity(users: map<UserId, User>, u: UserId)
  {
    u in users && users[u].role == Celebrity
  }

  /**
   * `User.find({ _id: { $ne: requester } })` over the collection in its
   * stored order: every document except the requester's, each as often as
   * it is stored, in order.
   */
  function AllUsersExcept(docs: seq<User>, requester: UserId): (r: seq<User>)
    ensures forall d :: d in r <==> d in docs && d.id != requester
    ensures forall d: User :: d.id != requester ==> multiset(r)[d] == multiset(docs)[d]
    ensures |r| <= |docs|
    ensures (forall d :: d in docs ==> d.id != requester) ==> r == docs
  {
    if docs == [] then []
    else
      assert docs == [docs[0]] + docs[1..];
      (if docs[0].id == requester then [] else [docs[0]]) + AllUsersExcept(docs[1..], requester)
  }

  /**
   * The edge `current -> target` added: `target` pushed onto the end of
   * `current`'s following list and `current` onto the end of `target`'s
   * followers list; every other document and field is as it was.
   */
  function AddEdge(users: map<UserId, User>, current: UserId, target: UserId): (r: map<UserId, User>)
    requires current in users && target in users && current != target
    ensures r.Keys == users.Keys
    ensures r[current] == users[current].(following := users[current].following + [target])
    ensures r[target] == users[target].(followers := users[target].followers + [current])
    ensures forall u :: u in users && u != current && u != target ==> r[u] == users[u]
  {
    var c := users[current];
    var t := users[target];
    users[current := c.(following := c.following + [target])][target := t.(followers := t.followers + [current])]
  }

  /**
   * The edge `current -> target` removed: every occurrence of `target`
   * filtered out of `current`'s following list and every occurrence of
   * `current` out of `target`'s followers list, the rest kept in order.
   */
  function RemoveEdge(users: map<UserId, User>, current: UserId, target: UserId): (r: map<UserId, User>)
    requires current in users && target in users && current != target
    ensures r.Keys == users.Keys
    ensures r[current] == users[current].(following := Without(users[current].following, target))
    ensures r[target] == users[target].(followers := Without(users[target].followers, current))
    ensures target !in r[current].following && current !in r[target].followers
    ensures forall u :: u in users && u != current && u != target ==> r[u] == users[u]
  {
    var c := users[current];
    var t := users[target];
    users[current := c.(following := Without(c.following, target))][target := t.(followers := Without(t.followers, current))]
  }

  /** Following a celebrity one did not follow and then unfollowing restores both lists exactly. */
  lemma FollowThenUnfollow(users: map<UserId, User>, current: UserId, target: UserId)
    requires current in users && target in users && current != target
    requires target !in users[current].following && current !in users[target].followers
    ensures RemoveEdge(AddEdge(users, current, target), current, target) == users
  {
    var added := AddEdge(users, current, target);
    var r := RemoveEdge(added, current, target);
    WithoutAppendedAbsent(users[current].following, target);
    WithoutAppendedAbsent(users[target].followers, current);
    assert r[current] == users[current];
    assert r[target] == users[target];
  }

  /** Unfollowing where there is no edge in either list changes nothing. */
  lemma UnfollowWithoutEdge(users: map<UserId, User>, current: UserId, target: UserId)
    requires current in users && target in users && current != target
    requires target !in users[current].following && current !in users[target].followers
    ensures RemoveEdge(users, current, target) == users
  {
    var r := RemoveEdge(users, current, target);
    WithoutAbsent(users[current].following, target);
    WithoutAbsent(users[target].followers, current);
    assert r[current] == users[current];
    assert r[target] == users[target];
  }

  /** Unfollowing twice is unfollowing once. */
  lemma UnfollowIdempotent(users: map<UserId, User>, current: UserId, target: UserId)
    requires current in users && target in users && current != target
    ensures RemoveEdge(RemoveEdge(users, current, target), current, target) == RemoveEdge(users, current, target)
  {
    var once := RemoveEdge(users, current, target);
    UnfollowWithoutEdge(once, current, target);
  }

  /** A first follow adds exactly one occurrence of each id to the two lists. */
  lemma FollowAddsOnce(users: map<UserId, User>, current: UserId, target: UserId)
    requires current in users && target in users && current != target
    requires target !in users[current].following
    ensures var r := AddEdge(users, current, target);
      && multiset(r[current].following)[target] == 1
      && multiset(r[target].followers)[current] == multiset(users[target].followers)[current] + 1
      && r[current].following[..|users[current].following|] == users[current].following
      && r[target].followers[..|users[target].followers|] == users[target].followers
  {
    var r := AddEdge(users, current, target);
    assert multiset(r[current].following) == multiset(users[current].following) + multiset{target};
    assert multiset(r[target].followers) == multiset(users[target].followers) + multiset{current};
  }

  /** The user collection; the handlers edit the documents they load from it. */
  class UserStore {
    var users: map<UserId, User>

    constructor (initial: map<UserId, User>)
      ensures users == initial
    {
      users := initial;
    }

    /**
     * `followUser`: 400 for a self-follow or a target that is missing or not
     * a celebrity; 500 when the requester's own document is missing (reading
     * its following list throws); otherwise 200, and the edge is added only
     * if `current` did not already list `target`.
     */
    method FollowUser(currentUserId: UserId, targetUserId: UserId) returns (status: Status)
      modifies this
      ensures status == BadRequest <==> currentUserId == targetUserId || !IsCelebrity(old(users), targetUserId)
      ensures status == ServerError <==>
        currentUserId != targetUserId && IsCelebrity(old(users), targetUserId) && currentUserId !in old(users)
      ensures status == Ok || status == BadRequest || status == ServerError
      ensures status == Ok && targetUserId !in old(users)[currentUserId].following ==>
        users == AddEdge(old(users), currentUserId, targetUserId)
      ensures status == Ok && targetUserId in old(users)[currentUserId].following ==> users == old(users)
      ensures status != Ok ==> users == old(users)
    {
      if currentUserId == targetUserId {
        return BadRequest;
      }
      if targetUserId !in users || users[targetUserId].role != Celebrity {
        return BadRequest;
      }
      if currentUserId !in users {
        return ServerError;
      }
      var currentUser := users[currentUserId];
      var targetUser := users[targetUserId];
      if targetUserId !in currentUser.following {
        currentUser := currentUser.(following := currentUser.following + [targetUserId]);
        targetUser := targetUser.(followers := targetUser.followers + [currentUserId]);
        users := users[currentUserId := currentUser];
        users := users[targetUserId := targetUser];
      }
      status := Ok;
    }

    /**
     * `unfollowUser`: the same 400 and 500 cases as `followUser`;
     * otherwise 200, with `target` filtered out of `current`'s following
     * list and `current` out of `target`'s followers list.
     */
    method UnfollowUser(currentUserId: UserId, targetUserId: UserId) returns (status: Status)
      modifies this
      ensures status == BadRequest <==> currentUserId == targetUserId || !IsCelebrity(old(users), targetUserId)
      ensures status == ServerError <==>
        currentUserId != targetUserId && IsCelebrity(old(users), targetUserId) && currentUserId !in old(users)
      ensures status == Ok || status == BadRequest || status == ServerError
      ensures status == Ok ==> users == RemoveEdge(old(users), currentUserId, targetUserId)
      ensures status != Ok ==> users == old(users)
    {
      if currentUserId == targetUserId {
        return BadRequest;
      }
      if targetUserId !in users || users[targetUserId].role != Celebrity {
        return BadRequest;
      }
      if currentUserId !in users {
        return ServerError;
      }
      var currentUser := users[currentUserId];
      var targetUser := users[targetUserId];
      currentUser := currentUser.(following := Without(currentUser.following, targetUserId));
      targetUser := targetUser.(followers := Without(targetUser.followers, currentUserId));
      users := users[currentUserId := currentUser];
      users := users[targetUserId := targetUser];
      status := Ok;
    }
  }
}

/**
 * Post documents and the handlers that change them in place
 * (controller/post.js): like toggling, adding and deleting comments,
 * caption/image updates and deletion, each behind its lookup and
 * ownership checks.
 */
module Posts {
  import opened Common
  import opened Lists
  import opened Text

  type PostId = string
  type CommentId = string

  /** An embedded comment; `createdAt` is in milliseconds. */
  datatype Comment = Comment(id: CommentId, user: UserId, text: string, createdAt: int)

  /** A post document; `owner` is its `celebrityId`, `createdAt` in milliseconds. */
  datatype Post = Post(
    id: PostId,
    owner: UserId,
    caption: Option<string>,
    image: Option<string>,
    likes: seq<UserId>,
    comments: seq<Comment>,
    createdAt: int)

  /**
   * The like list after a toggle by `u`: `u`'s membership flips, the
   * multiplicity of every other id is unchanged, a new like goes at the
   * end, and an unlike filters `u` out, keeping the other likes in order.
   */
  function ToggledLikes(likes: seq<UserId>, u: UserId): (r: seq<UserId>)
    ensures (u in r) == (u !in likes)
    ensures forall v :: v != u ==> multiset(r)[v] == multiset(likes)[v]
    ensures u !in likes ==> r == likes + [u]
    ensures u in likes ==> r == Without(likes, u)
  {
    if u in likes then Without(likes, u) else likes + [u]
  }

  /** Liking and then unliking a post one had not liked restores its like list. */
  lemma ToggleTwice(likes: seq<UserId>, u: UserId)
    requires u !in likes
    ensures ToggledLikes(ToggledLikes(likes, u), u) == likes
  {
    WithoutAppendedAbsent(likes, u);
  }

  /**
   * The first position whose element satisfies `p` (`findIndex`, or the
   * position `find` stops at), if any.
   */
  function FindIndex<T>(s: seq<T>, p: T -> bool): (r: Option<nat>)
    ensures r.Some? ==> r.value < |s| && p(s[r.value])
    ensures r.Some? ==> forall k :: 0 <= k < r.value ==> !p(s[k])
    ensures r.None? ==> forall k :: 0 <= k < |s| ==> !p(s[k])
  {
    if s == [] then None
    else if p(s[0]) then Some(0)
    else
      match FindIndex(s[1..], p)
      case None => None
      case Some(i) => Some(i + 1)
  }

  /** Searching a list with one more element at the end. */
  lemma {:induction false} FindIndexAppend<T>(s: seq<T>, x: T, p: T -> bool)
    ensures FindIndex(s + [x], p)
         == if FindIndex(s, p).Some? then FindIndex(s, p) else if p(x) then Some(|s|) else None
  {
    if s == [] {
      assert s + [x] == [x];
      assert [x][1..] == [];
    } else {
      assert (s + [x])[0] == s[0];
      assert (s + [x])[1..] == s[1..] + [x];
      FindIndexAppend(s[1..], x, p);
    }
  }

  /** `post.comments.findIndex(c => c._id.toString() === id)`. */
  function CommentIndex(comments: seq<Comment>, id: CommentId): (r: Option<nat>)
  {
    FindIndex(comments, (c: Comment) => c.id == id)
  }

  /**
   * `post.comments.find(c => c.text === text && c.user._id.toString() === user)`:
   * the first comment by `user` with exactly that text.
   */
  function FirstMatching(comments: seq<Comment>, user: UserId, text: string): (r: Option<Comment>)
    ensures r.Some? ==> r.value in comments && r.value.user == user && r.value.text == text
    ensures r.Some? ==>
      exists i :: 0 <= i < |comments| && comments[i] == r.value
        && (forall k :: 0 <= k < i ==> !(comments[k].user == user && comments[k].text == text))
    ensures r.None? ==> forall c :: c in comments ==> !(c.user == user && c.text == text)
  {
    match FindIndex(comments, (c: Comment) => c.user == user && c.text == text)
    case Some(i) => Some(comments[i])
    case None => None
  }

  /**
   * After a comment is appended, the lookup by its author and text always
   * finds one, but it is the new comment only if no earlier comment by the
   * same author has the same text.
   */
  lemma FoundAfterAppend(comments: seq<Comment>, c: Comment)
    ensures FirstMatching(comments + [c], c.user, c.text)
         == if FirstMatching(comments, c.user, c.text).Some? then FirstMatching(comments, c.user, c.text) else Some(c)
  {
    var p := (d: Comment) => d.user == c.user && d.text == c.text;
    FindIndexAppend(comments, c, p);
    var before := FindIndex(comments, p);
    if before.Some? {
      assert (comments + [c])[before.value] == comments[before.value];
    }
  }

  /**
   * `comments.splice(i, 1)`: the element at `i` is removed, the others keep
   * their order.
   */
  function RemoveAt(comments: seq<Comment>, i: nat): (r: seq<Comment>)
    requires i < |comments|
    ensures |r| == |comments| - 1
    ensures forall k :: 0 <= k < i ==> r[k] == comments[k]
    ensures forall k :: i <= k < |r| ==> r[k] == comments[k + 1]
    ensures multiset(r) + multiset{comments[i]} == multiset(comments)
  {
    assert comments == comments[..i] + [comments[i]] + comments[i + 1..];
    comments[..i] + comments[i + 1..]
  }

  /**
   * A comment whose id no earlier comment has can be deleted right after
   * it was added, and the deletion restores the comment list.
   */
  lemma AddThenDeleteComment(comments: seq<Comment>, c: Comment)
    requires CommentIndex(comments, c.id).None?
    ensures CommentIndex(comments + [c], c.id) == Some(|comments|)
    ensures RemoveAt(comments + [c], |comments|) == comments
  {
    FindIndexAppend(comments, c, (d: Comment) => d.id == c.id);
    assert (comments + [c])[..|comments|] == comments;
  }

  /**
   * `caption || post.caption`: a missing or empty caption keeps the old one,
   * any other string replaces it.
   */
  function NewCaption(current: Option<string>, given: Option<string>): (r: Option<string>)
    ensures given.Some? && given.value != "" ==> r == given
    ensures given.None? || given.value == "" ==> r == current
  {
    if given.Some? && given.value != "" then given else current
  }

  /** The post collection; the handlers edit the documents they load from it. */
  class PostStore {
    var posts: map<PostId, Post>

    constructor (initial: map<PostId, Post>)
      ensures posts == initial
    {
      posts := initial;
    }

    /**
     * `toggleLikePost`: 404 for a missing post; otherwise 200 with the like
     * list toggled for `userId`. `hadLiked` selects the reply message.
     */
    method ToggleLike(postId: PostId, userId: UserId) returns (status: Status, hadLiked: bool)
      modifies this
      ensures postId !in old(posts) ==> status == NotFound && posts == old(posts)
      ensures postId in old(posts) ==>
        && status == Ok
        && hadLiked == (userId in old(posts)[postId].likes)
        && posts == old(posts)[postId := old(posts)[postId].(likes := ToggledLikes(old(posts)[postId].likes, userId))]
    {
      if postId !in posts {
        return NotFound, false;
      }
      var post := posts[postId];
      hadLiked := userId in post.likes;
      if hadLiked {
        post := post.(likes := Without(post.likes, userId));
      } else {
        post := post.(likes := post.likes + [userId]);
      }
      posts := posts[postId := post];
      status := Ok;
    }

    /**
     * `addComment`: 400 when the text is missing or only white space
     * (checked before the lookup), 404 for a missing post, otherwise 201
     * with one comment holding the trimmed text appended. The comment
     * returned is the first one by `userId` with that text. `commentId` and
     * `now` stand for the generated id and the clock.
     */
    method AddComment(postId: PostId, userId: UserId, text: Option<string>, commentId: CommentId, now: int)
      returns (status: Status, returned: Option<Comment>)
      modifies this
      ensures status == BadRequest <==> text.None? || Blank(text.value)
      ensures status == NotFound <==> text.Some? && !Blank(text.value) && postId !in old(posts)
      ensures status == BadRequest || status == NotFound || status == Created
      ensures status != Created ==> posts == old(posts) && returned == None
      ensures status == Created ==>
        && posts == old(posts)[postId := old(posts)[postId].(comments :=
             old(posts)[postId].comments + [Comment(commentId, userId, Trim(text.value), now)])]
        && returned == FirstMatching(posts[postId].comments, userId, Trim(text.value))
    {
      if text.None? || Trim(text.value) == "" {
        return BadRequest, None;
      }
      if postId !in posts {
        return NotFound, None;
      }
      var post := posts[postId];
      var newComment := Comment(commentId, userId, Trim(text.value), now);
      post := post.(comments := post.comments + [newComment]);
      posts := posts[postId := post];
      returned := FirstMatching(post.comments, userId, newComment.text);
      status := Created;
    }

    /**
     * `deleteComment`: 404 for a missing post or comment, 403 unless the
     * requester wrote the comment or owns the post, otherwise 200 with the
     * first comment carrying `commentId` spliced out.
     */
    method DeleteComment(postId: PostId, commentId: CommentId, userId: UserId) returns (status: Status)
      modifies this
      ensures postId !in old(posts) ==> status == NotFound
      ensures postId in old(posts) && CommentIndex(old(posts)[postId].comments, commentId).None? ==> status == NotFound
      ensures postId in old(posts) && CommentIndex(old(posts)[postId].comments, commentId).Some? ==>
        var post := old(posts)[postId];
        var i := CommentIndex(post.comments, commentId).value;
        && (status == Forbidden <==> post.comments[i].user != userId && post.owner != userId)
        && (status != Forbidden ==> status == Ok && posts == old(posts)[postId := post.(comments := RemoveAt(post.comments, i))])
      ensures status != Ok ==> posts == old(posts)
    {
      if postId !in posts {
        return NotFound;
      }
      var post := posts[postId];
      var commentIndex := CommentIndex(post.comments, commentId);
      if commentIndex.None? {
        return NotFound;
      }
      var comment := post.comments[commentIndex.value];
      if comment.user != userId && post.owner != userId {
        return Forbidden;
      }
      post := post.(comments := RemoveAt(post.comments, commentIndex.value));
      posts := posts[postId := post];
      status := Ok;
    }

    /**
     * `updatePost`: 404 for a missing post, 403 unless the requester owns
     * it, otherwise 200 with the caption rule applied and the image replaced
     * only when a file was uploaded.
     */
    method UpdatePost(postId: PostId, userId: UserId, caption: Option<string>, file: Option<string>)
      returns (status: Status)
      modifies this
      ensures postId !in old(posts) ==> status == NotFound
      ensures postId in old(posts) && old(posts)[postId].owner != userId ==> status == Forbidden
      ensures status != Ok ==> posts == old(posts)
      ensures postId in old(posts) && old(posts)[postId].owner == userId ==>
        var post := old(posts)[postId];
        && status == Ok
        && posts == old(posts)[postId := post.(
             caption := NewCaption(post.caption, caption),
             image := if file.Some? then file else post.image)]
    {
      if postId !in posts {
        return NotFound;
      }
      var post := posts[postId];
      if post.owner != userId {
        return Forbidden;
      }
      post := post.(caption := NewCaption(post.caption, caption));
      if file.Some? {
        post := post.(image := file);
      }
      posts := posts[postId := post];
      status := Ok;
    }

    /** `deletePost`: 404 for a missing post, 403 unless the requester owns it, otherwise 200 and the post is gone. */
    method DeletePost(postId: PostId, userId: UserId) returns (status: Status)
      modifies this
      ensures postId !in old(posts) ==> status == NotFound
      ensures postId in old(posts) && old(posts)[postId].owner != userId ==> status == Forbidden
      ensures status != Ok ==> posts == old(posts)
      ensures postId in old(posts) && old(posts)[postId].owner == userId ==> status == Ok && posts == old(posts) - {postId}
    {
      if postId !in posts {
        return NotFound;
      }
      if posts[postId].owner != userId {
        return Forbidden;
      }
      posts := posts - {postId};
      status := Ok;
    }
  }
}

/** The social store (`useSocialStore`): posts ("tweets"), newest first, each with the
    list of users who liked it, and a list of follow edges. Every mutator replaces one
    or both lists; the queries are filters and projections over them. */
module Social {
  import opened Common

  /** A snapshot of the author taken when the post was written, not a live reference. */
  datatype Author = Author(id: string, name: string)

  datatype Tweet = Tweet(
    id: string,
    content: string,
    author: Author,
    likes: seq<string>,
    timestamp: int,
    isPrivate: bool)

  /** `followerId` follows `followingId`. Nothing stops the same edge appearing twice. */
  datatype Follow = Follow(followerId: string, followingId: string)

  /** Each identifier appears at most once. */
  ghost predicate NoDuplicates(s: seq<string>)
  {
    forall x :: multiset(s)[x] <= 1
  }

  /** The `likes` of one post after `toggleLike(_, userId)`: every occurrence of `userId`
      removed if it was there, otherwise `userId` appended. */
  function ToggledLikes(likes: seq<string>, userId: string): (r: seq<string>)
    ensures userId in likes ==> userId !in r && IsSubsequence(r, likes) &&
                                forall x :: x != userId ==> multiset(r)[x] == multiset(likes)[x]
    ensures userId !in likes ==> r == likes + [userId]
  {
    if userId in likes then
      var r := Filter(x => x != userId, likes);
      FilterMembership(x => x != userId, likes, userId);
      r
    else likes + [userId]
  }

  /** Liking and then unliking gives back exactly the likes one started from. */
  lemma {:induction false} ToggleLikeTwice(likes: seq<string>, userId: string)
    requires userId !in likes
    ensures ToggledLikes(ToggledLikes(likes, userId), userId) == likes
  {
    var notU := x => x != userId;
    FilterAppend(notU, likes, [userId]);
    FilterKeepsAll(notU, likes);
    FilterSingleton(notU, userId);
    assert Filter(notU, likes + [userId]) == likes;
  }

  /** Unliking and then liking again keeps the same likers, but the user moves to the end
      of the list. */
  lemma {:induction false} ToggleLikeTwiceFromLiked(likes: seq<string>, userId: string)
    requires NoDuplicates(likes) && userId in likes
    ensures var r := ToggledLikes(ToggledLikes(likes, userId), userId);
            multiset(r) == multiset(likes) && |r| == |likes| && r[|r| - 1] == userId
  {
    var once := ToggledLikes(likes, userId);
    var r := ToggledLikes(once, userId);
    assert r == once + [userId];
    forall x ensures multiset(r)[x] == multiset(likes)[x] {
      assert multiset(r)[x] == multiset(once)[x] + multiset([userId])[x];
      if x == userId {
        assert multiset(once)[x] == 0;
        assert multiset(likes)[x] >= 1;
      }
    }
    assert multiset(r) == multiset(likes);
    assert |multiset(r)| == |r|;
  }

  /** A likes list without repeats keeps none after a toggle. */
  lemma ToggleLikeKeepsNoDuplicates(likes: seq<string>, userId: string)
    requires NoDuplicates(likes)
    ensures NoDuplicates(ToggledLikes(likes, userId))
  {
    var r := ToggledLikes(likes, userId);
    if userId in likes {
      forall x ensures multiset(r)[x] <= 1 {
        if x == userId {
          assert multiset(r)[x] == 0;
        }
      }
    } else {
      forall x ensures multiset(r)[x] <= 1 {
        assert multiset(r)[x] == multiset(likes)[x] + multiset([userId])[x];
        if x == userId {
          assert multiset(likes)[x] == 0;
        }
      }
    }
  }

  /** `tweets.map(...)` of `toggleLike`: only the post(s) with identifier `tweetId` change,
      and only in their likes. */
  function ToggleLikeIn(tweets: seq<Tweet>, tweetId: string, userId: string): (r: seq<Tweet>)
    ensures |r| == |tweets|
    ensures forall i :: 0 <= i < |r| && tweets[i].id == tweetId ==>
              r[i] == tweets[i].(likes := ToggledLikes(tweets[i].likes, userId))
    ensures forall i :: 0 <= i < |r| && tweets[i].id != tweetId ==> r[i] == tweets[i]
  {
    seq(|tweets|, i requires 0 <= i < |tweets| =>
      if tweets[i].id == tweetId
      then tweets[i].(likes := ToggledLikes(tweets[i].likes, userId))
      else tweets[i])
  }

  /** `tweets.filter(tweet => tweet.id !== id)` of `deleteTweet`. */
  function WithoutTweet(tweets: seq<Tweet>, id: string): (r: seq<Tweet>)
    ensures IsSubsequence(r, tweets)
    ensures forall t :: t in r <==> t in tweets && t.id != id
    ensures forall t :: t in r ==> multiset(r)[t] == multiset(tweets)[t]
  {
    var r := Filter((t: Tweet) => t.id != id, tweets);
    forall t ensures t in r <==> t in tweets && t.id != id {
      FilterMembership((t: Tweet) => t.id != id, tweets, t);
    }
    r
  }

  /** The filter of `unfollowUser`: every copy of the edge goes, nothing else does. */
  function WithoutEdge(follows: seq<Follow>, followerId: string, followingId: string): (r: seq<Follow>)
    ensures IsSubsequence(r, follows)
    ensures Follow(followerId, followingId) !in r
    ensures forall f :: f != Follow(followerId, followingId) ==> multiset(r)[f] == multiset(follows)[f]
  {
    var r := Filter(f => f != Follow(followerId, followingId), follows);
    FilterMembership(f => f != Follow(followerId, followingId), follows, Follow(followerId, followingId));
    r
  }

  /** The follow edges that touch neither end at `userId`. */
  predicate Untouched(f: Follow, userId: string)
  {
    f.followerId != userId && f.followingId != userId
  }

  /** The tweet filter of `deleteUserContent`. */
  function WithoutAuthor(tweets: seq<Tweet>, userId: string): (r: seq<Tweet>)
    ensures IsSubsequence(r, tweets)
    ensures forall t :: t in r <==> t in tweets && t.author.id != userId
    ensures forall t :: t in r ==> multiset(r)[t] == multiset(tweets)[t]
  {
    var r := Filter((t: Tweet) => t.author.id != userId, tweets);
    forall t ensures t in r <==> t in tweets && t.author.id != userId {
      FilterMembership((t: Tweet) => t.author.id != userId, tweets, t);
    }
    r
  }

  /** The follow filter of `deleteUserContent`. */
  function WithoutEdgesOf(follows: seq<Follow>, userId: string): (r: seq<Follow>)
    ensures IsSubsequence(r, follows)
    ensures forall f :: f in r <==> f in follows && Untouched(f, userId)
    ensures forall f :: f in r ==> multiset(r)[f] == multiset(follows)[f]
  {
    var r := Filter(f => Untouched(f, userId), follows);
    forall f ensures f in r <==> f in follows && Untouched(f, userId) {
      FilterMembership(f => Untouched(f, userId), follows, f);
    }
    r
  }

  /** `getFollowers(userId)`: the follower of every edge that points at `userId`, once
      per edge (a duplicated edge gives a duplicated follower). The contract states these
      multiplicities; the order, which is edge order, is not stated. */
  function Followers(follows: seq<Follow>, userId: string): (r: seq<string>)
    ensures forall x :: multiset(r)[x] == multiset(follows)[Follow(x, userId)]
  {
    if follows == [] then []
    else
      assert follows == [follows[0]] + follows[1..];
      (if follows[0].followingId == userId then [follows[0].followerId] else [])
        + Followers(follows[1..], userId)
  }

  /** `getFollowing(userId)`: the target of every edge that starts at `userId`, once per
      edge. As for followers, the multiplicities are stated and the order is not. */
  function Following(follows: seq<Follow>, userId: string): (r: seq<string>)
    ensures forall x :: multiset(r)[x] == multiset(follows)[Follow(userId, x)]
  {
    if follows == [] then []
    else
      assert follows == [follows[0]] + follows[1..];
      (if follows[0].followerId == userId then [follows[0].followingId] else [])
        + Following(follows[1..], userId)
  }

  /** Whether a viewer (absent when nobody is signed in) may see a post:
      public posts to all, private posts to their author only. */
  predicate VisibleTo(t: Tweet, viewer: Option<string>)
  {
    !t.isPrivate || viewer == Some(t.author.id)
  }

  class SocialStore {
    var tweets: seq<Tweet>
    var follows: seq<Follow>

    constructor ()
      ensures tweets == [] && follows == []
    {
      tweets := [];
      follows := [];
    }

    /** `addTweet`: the new post goes in front, with no likes yet. */
    method AddTweet(content: string, authorId: string, authorName: string, isPrivate: bool,
                    freshId: string, now: int)
      modifies this
      ensures tweets == [Tweet(freshId, content, Author(authorId, authorName), [], now, isPrivate)]
                        + old(tweets)
      ensures follows == old(follows)
    {
      tweets := [Tweet(freshId, content, Author(authorId, authorName), [], now, isPrivate)] + tweets;
    }

    /** `deleteTweet(id)`: no check of who asks. */
    method DeleteTweet(id: string)
      modifies this
      ensures tweets == WithoutTweet(old(tweets), id)
      ensures follows == old(follows)
    {
      tweets := WithoutTweet(tweets, id);
    }

    /** `toggleLike(tweetId, userId)`. */
    method ToggleLike(tweetId: string, userId: string)
      modifies this
      ensures tweets == ToggleLikeIn(old(tweets), tweetId, userId)
      ensures follows == old(follows)
    {
      tweets := ToggleLikeIn(tweets, tweetId, userId);
    }

    /** `followUser`: always appends, even an edge that is already there. */
    method FollowUser(followerId: string, followingId: string)
      modifies this
      ensures follows == old(follows) + [Follow(followerId, followingId)]
      ensures tweets == old(tweets)
    {
      follows := follows + [Follow(followerId, followingId)];
    }

    /** `unfollowUser`. */
    method UnfollowUser(followerId: string, followingId: string)
      modifies this
      ensures follows == WithoutEdge(old(follows), followerId, followingId)
      ensures tweets == old(tweets)
    {
      follows := WithoutEdge(follows, followerId, followingId);
    }

    /** `deleteUserContent(userId)`: the user's posts and every edge at either end go;
        the posts that stay are untouched, likes by `userId` included. */
    method DeleteUserContent(userId: string)
      modifies this
      ensures tweets == WithoutAuthor(old(tweets), userId)
      ensures follows == WithoutEdgesOf(old(follows), userId)
    {
      tweets := WithoutAuthor(tweets, userId);
      follows := WithoutEdgesOf(follows, userId);
    }

    function GetFollowers(userId: string): (r: seq<string>)
      reads this
      ensures forall x :: multiset(r)[x] == multiset(follows)[Follow(x, userId)]
      ensures forall x :: x in r <==> Follow(x, userId) in follows
    {
      var r := Followers(follows, userId);
      assert forall x :: x in r <==> multiset(r)[x] > 0;
      r
    }

    function GetFollowing(userId: string): (r: seq<string>)
      reads this
      ensures forall x :: multiset(r)[x] == multiset(follows)[Follow(userId, x)]
      ensures forall x :: x in r <==> Follow(userId, x) in follows
    {
      var r := Following(follows, userId);
      assert forall x :: x in r <==> multiset(r)[x] > 0;
      r
    }

    /** `getLikedTweets(userId)`: the posts whose likes hold `userId`, in feed order. */
    function GetLikedTweets(userId: string): (r: seq<Tweet>)
      reads this
      ensures IsSubsequence(r, tweets)
      ensures forall t :: t in r <==> t in tweets && userId in t.likes
      ensures forall t :: t in r ==> multiset(r)[t] == multiset(tweets)[t]
    {
      var r := Filter((t: Tweet) => userId in t.likes, tweets);
      forall t ensures t in r <==> t in tweets && userId in t.likes {
        FilterMembership((t: Tweet) => userId in t.likes, tweets, t);
      }
      r
    }

    /** `getVisibleTweets(currentUserId)`: the posts the viewer may see, in feed order. */
    function GetVisibleTweets(viewer: Option<string>): (r: seq<Tweet>)
      reads this
      ensures IsSubsequence(r, tweets)
      ensures forall t :: t in r <==> t in tweets && (!t.isPrivate || viewer == Some(t.author.id))
      ensures viewer.None? ==> forall t :: t in r ==> !t.isPrivate
      ensures forall t :: t in r ==> multiset(r)[t] == multiset(tweets)[t]
    {
      var r := Filter((t: Tweet) => VisibleTo(t, viewer), tweets);
      forall t ensures t in r <==> t in tweets && VisibleTo(t, viewer) {
        FilterMembership((t: Tweet) => VisibleTo(t, viewer), tweets, t);
      }
      r
    }
  }

  /** Unfollowing after a follow removes the new edge and every earlier copy of it,
      and leaves all other edges in place and in order. */
  lemma {:induction false} FollowThenUnfollow(follows: seq<Follow>, a: string, b: string)
    ensures WithoutEdge(follows + [Follow(a, b)], a, b) == WithoutEdge(follows, a, b)
  {
    var keep := f => f != Follow(a, b);
    FilterAppend(keep, follows, [Follow(a, b)]);
    FilterSingleton(keep, Follow(a, b));
  }

  /** Following twice counts twice: duplicates are not merged. */
  lemma FollowTwiceCountsTwice(follows: seq<Follow>, a: string, b: string)
    ensures multiset(Followers(follows + [Follow(a, b)] + [Follow(a, b)], b))[a]
            == multiset(Followers(follows, b))[a] + 2
  {
    var more := follows + [Follow(a, b)] + [Follow(a, b)];
    assert multiset(more) == multiset(follows) + multiset{Follow(a, b), Follow(a, b)};
  }
}

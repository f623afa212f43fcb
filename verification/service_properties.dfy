/** Properties relating several `ChannelService` operations to each other
    and worked examples of the merge and ranking rules. */
module ServiceProperties {
  import opened Wrappers
  import opened LocalDateTimes
  import opened Channels
  import opened Ranking
  import opened ChannelService

  /** An update payload that only carries comments. */
  function CommentPatch(id: string, cs: seq<Comment>): Channel {
    Channel(id, None, None, None, None, Some(cs))
  }

  // ---------------------------------------------------------------------
  // Store operations

  /** A created channel is what a later read returns. */
  lemma GetAfterCreate(store: Store, c: Channel)
    ensures GetChannel(CreateChannel(store, c).store, c.id) == Some(c)
  {
  }

  /** Creating a fresh channel and deleting it again leaves the store as
      it was. */
  lemma CreateThenDeleteRestores(store: Store, c: Channel)
    requires c.id !in store
    ensures DeleteChannel(CreateChannel(store, c).store, c.id).store == store
  {
    var s := DeleteChannel(CreateChannel(store, c).store, c.id).store;
    assert s.Keys == store.Keys;
  }

  /** Deleting twice is deleting once, and both report success. */
  lemma DeleteIsIdempotent(store: Store, id: string)
    ensures DeleteChannel(DeleteChannel(store, id).store, id) == DeleteChannel(store, id)
    ensures GetChannel(DeleteChannel(store, id).store, id).None?
  {
  }

  // ---------------------------------------------------------------------
  // Update

  /** After a successful update, reading the channel returns what the
      update returned. */
  lemma GetAfterUpdate(store: Store, patch: Channel)
    requires WellKeyed(store)
    requires UpdateChannel(store, patch).Success?
    ensures GetChannel(UpdateChannel(store, patch).value.store, patch.id)
      == Some(UpdateChannel(store, patch).value.value)
  {
  }

  /** A patch without comments clears the stored list, so the channel has
      no hot comments afterwards. */
  lemma UpdateWithoutCommentsClearsHot(store: Store, patch: Channel)
    requires WellKeyed(store)
    requires patch.id in store
    requires patch.comments.None?
    ensures UpdateChannel(store, patch).Success?
    ensures HotComments(UpdateChannel(store, patch).value.store, patch.id) == []
  {
    var r := UpdateChannel(store, patch);
    assert r.value.store[patch.id].comments.None?;
  }

  /** Two comment-carrying updates append both payloads in order, and the
      later patch wins on every other field it sets. */
  lemma UpdateTwiceAppendsBoth(store: Store, p: Channel, q: Channel)
    requires WellKeyed(store)
    requires p.id in store && q.id == p.id
    requires store[p.id].comments.Some?
    requires p.comments.Some? && q.comments.Some?
    ensures UpdateChannel(store, p).Success?
    ensures UpdateChannel(UpdateChannel(store, p).value.store, q).Success?
    ensures
      var final := UpdateChannel(UpdateChannel(store, p).value.store, q).value.value;
      && final.comments
         == Some(store[p.id].comments.value + p.comments.value + q.comments.value)
      && final.title == Patched(q.title, Patched(p.title, store[p.id].title))
  {
    var first := UpdateChannel(store, p).value;
    assert first.store[p.id] == first.value;
    var second := UpdateChannel(first.store, q);
    assert second.Success?;
    assert second.value.value.comments
      == Some(first.value.comments.value + q.comments.value);
  }

  /** The merge example: stored `{title: "A", comments: [c1]}` patched
      with `{title: "B", comments: [c2]}` becomes
      `{title: "B", comments: [c1, c2]}`. */
  lemma UpdateExample(c1: Comment, c2: Comment)
    ensures
      var stored := Channel("ch", Some("A"), None, None, None, Some([c1]));
      var patch := Channel("ch", Some("B"), None, None, None, Some([c2]));
      UpdateChannel(map["ch" := stored], patch)
        == Success(Saved(
             map["ch" := Channel("ch", Some("B"), None, None, None, Some([c1, c2]))],
             Channel("ch", Some("B"), None, None, None, Some([c1, c2]))))
  {
    var stored := Channel("ch", Some("A"), None, None, None, Some([c1]));
    assert [c1] + [c2] == [c1, c2];
    assert map["ch" := stored]["ch" := stored.(title := Some("B"), comments := Some([c1, c2]))]
      == map["ch" := Channel("ch", Some("B"), None, None, None, Some([c1, c2]))];
  }

  // ---------------------------------------------------------------------
  // Comment append

  /** On a channel with a comment list, adding a comment has the same
      effect as an update whose payload carries just that comment. */
  lemma AddCommentIsCommentPatch(store: Store, id: string, c: Comment)
    requires id in store && store[id].comments.Some?
    ensures UpdateChannel(store, CommentPatch(id, [c])).Success?
    ensures AddComment(store, id, c).value
      == Some(UpdateChannel(store, CommentPatch(id, [c])).value.value)
    ensures AddComment(store, id, c).store
      == UpdateChannel(store, CommentPatch(id, [c])).value.store
  {
  }

  /** On a channel whose comment list is null the two differ: the append
      starts a new list, the update dereferences null. */
  lemma AddCommentOnNullListDiffersFromUpdate(store: Store, id: string, c: Comment)
    requires id in store && store[id].comments.None?
    ensures AddComment(store, id, c).value.value.comments == Some([c])
    ensures UpdateChannel(store, CommentPatch(id, [c])) == Failure(NullPointer(100))
  {
    assert [] + [c] == [c];
  }

  /** A comment rated above every stored one heads the hot list after it
      is added. */
  lemma AddedTopCommentLeadsHot(store: Store, id: string, c: Comment)
    requires WellKeyed(store)
    requires id in store
    requires forall i :: 0 <= i < |CommentsOrEmpty(store[id])| ==>
      CommentsOrEmpty(store[id])[i].star < c.star
    ensures HotComments(AddComment(store, id, c).store, id)[0] == c
  {
    var s := CommentsOrEmpty(store[id]);
    var after := AddComment(store, id, c).store;
    assert after[id].comments == Some(s + [c]);
    TopRatedLeads(s, c);
  }

  // ---------------------------------------------------------------------
  // Ranking

  /** Ratings `[2, 5, 5, 1, 4]` rank as `[5, 5, 4]`, the two five-star
      comments in their input order. */
  lemma HotRankExample(a: Comment, b: Comment, c: Comment, d: Comment, e: Comment)
    requires a.star == 2 && b.star == 5 && c.star == 5 && d.star == 1 && e.star == 4
    ensures HotRank([a, b, c, d, e]) == [b, c, e]
  {
    ExampleStableOrder(a, b, c, d, e);
    HotRankOfStableOrder([a, b, c, d, e], [b, c, e, a, d]);
  }

  /** `[b, c, e, a, d]` keeps, rating by rating, the order of
      `[a, b, c, d, e]`. */
  lemma ExampleStableOrder(a: Comment, b: Comment, c: Comment, d: Comment, e: Comment)
    requires a.star == 2 && b.star == 5 && c.star == 5 && d.star == 1 && e.star == 4
    ensures SameOrderPerRating([b, c, e, a, d], [a, b, c, d, e])
  {
    var s := [a, b, c, d, e];
    var t := [b, c, e, a, d];
    forall k ensures WithStar(t, k) == WithStar(s, k) {
      assert [b] + [c, e, a, d] == t;
      assert [c] + [e, a, d] == [c, e, a, d];
      assert [e] + [a, d] == [e, a, d];
      assert [a] + [d] == [a, d];
      assert [d] + [] == [d];
      assert [a] + [b, c, d, e] == s;
      assert [b] + [c, d, e] == [b, c, d, e];
      assert [c] + [d, e] == [c, d, e];
      assert [d] + [e] == [d, e];
      assert [e] + [] == [e];
      WithStarCons(d, [], k);
      WithStarCons(a, [d], k);
      WithStarCons(e, [a, d], k);
      WithStarCons(c, [e, a, d], k);
      WithStarCons(b, [c, e, a, d], k);
      WithStarCons(e, [], k);
      WithStarCons(d, [e], k);
      WithStarCons(c, [d, e], k);
      WithStarCons(b, [c, d, e], k);
      WithStarCons(a, [b, c, d, e], k);
    }
  }

  // ---------------------------------------------------------------------
  // Start-of-day boundary

  /** A valid instant is at or after the boundary exactly when its
      calendar date is not earlier than `now`'s. */
  lemma BoundaryIff(now: DateTime, t: DateTime)
    requires Valid(now) && Valid(t)
    ensures !Before(t, LatestCommentsBoundary(now)) <==> !DateBefore(t, now)
  {
  }

  /** The boundary of the boundary is the boundary. */
  lemma BoundaryIsIdempotent(now: DateTime)
    requires Valid(now)
    ensures LatestCommentsBoundary(LatestCommentsBoundary(now)) == LatestCommentsBoundary(now)
  {
  }
}

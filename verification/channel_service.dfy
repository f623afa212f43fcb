/** The decision logic of `ChannelService`: store lookups, the null-driven
    merge of `updateChannel`, comment append, hot-comment ranking and the
    start-of-day boundary of the "commented today" query. The store is a
    value passed in and returned; every save is a map update keyed by the
    saved channel's id. */
module ChannelService {
  import opened Wrappers
  import opened LocalDateTimes
  import opened Channels
  import opened Ranking

  /** One nullable field of a partial update: a non-null patch value
      replaces the stored one, a null one keeps it. */
  predicate Overrides<T(==)>(patch: Option<T>, stored: Option<T>, merged: Option<T>) {
    if patch.Some? then merged == patch else merged == stored
  }

  /** What `updateChannel` promises of a successful merge of `patch` into
      `saved`, field by field. */
  predicate MergedFrom(saved: Channel, patch: Channel, merged: Channel) {
    && merged.id == saved.id
    && Overrides(patch.title, saved.title, merged.title)
    && Overrides(patch.quality, saved.quality, merged.quality)
    && Overrides(patch.url, saved.url, merged.url)
    && Overrides(patch.cover, saved.cover, merged.cover)
    // a non-null comment list is appended, a null one clears the stored list
    && (patch.comments.Some? ==>
          saved.comments.Some?
          && merged.comments == Some(saved.comments.value + patch.comments.value))
    && (patch.comments.None? ==> merged.comments.None?)
  }

  function Patched<T>(patch: Option<T>, stored: Option<T>): Option<T> {
    if patch.Some? then patch else stored
  }

  /** `getChannel`: an absent record reads as null. */
  function GetChannel(store: Store, id: string): (r: Option<Channel>)
    ensures r.Some? <==> id in store
    ensures r.Some? ==> r.value == store[id]
  {
    if id in store then Some(store[id]) else None
  }

  /** `deleteChannel`: removes the record, if any, and reports success
      either way. */
  function DeleteChannel(store: Store, id: string): (r: Saved<bool>)
    ensures r.value
    ensures id !in r.store
    ensures r.store.Keys == store.Keys - {id}
    ensures forall k :: k in r.store ==> r.store[k] == store[k]
    ensures WellKeyed(store) ==> WellKeyed(r.store)
  {
    Saved(store - {id}, true)
  }

  /** `createChannel`: saves `c` under its id, replacing any record already
      there, and returns it. */
  function CreateChannel(store: Store, c: Channel): (r: Saved<Channel>)
    ensures r.value == c
    ensures r.store.Keys == store.Keys + {c.id}
    ensures r.store[c.id] == c
    ensures forall k :: k in store && k != c.id ==> r.store[k] == store[k]
    ensures WellKeyed(store) ==> WellKeyed(r.store)
  {
    Saved(store[c.id := c], c)
  }

  /** The body of the "record found" branch of `updateChannel`, with the
      `cover` step that follows it. `addAll` on a null stored comment list
      throws. */
  function Merge(saved: Channel, patch: Channel): (r: Result<Channel, Fault>)
    ensures r.Failure? <==> patch.comments.Some? && saved.comments.None?
    ensures r.Failure? ==> r.error == NullPointer(100)
    ensures r.Success? ==> MergedFrom(saved, patch, r.value)
  {
    if patch.comments.Some? && saved.comments.None? then Failure(NullPointer(100))
    else
      var comments := if patch.comments.Some?
        then Some(saved.comments.value + patch.comments.value)
        else None;
      Success(Channel(
        saved.id,
        Patched(patch.title, saved.title),
        Patched(patch.quality, saved.quality),
        Patched(patch.url, saved.url),
        Patched(patch.cover, saved.cover),
        comments))
  }

  /** `updateChannel`: looks the patch's id up, merges, saves the merged
      channel and returns it. On a missing id `saved` stays null and is
      dereferenced at the `cover` step when the patch has a cover,
      otherwise when it is logged; nothing is saved on any failure. */
  function UpdateChannel(store: Store, patch: Channel): (r: Result<Saved<Channel>, Fault>)
    ensures r.Success? <==>
      patch.id in store && (patch.comments.None? || store[patch.id].comments.Some?)
    ensures patch.id !in store && patch.cover.Some? ==> r == Failure(NullPointer(106))
    ensures patch.id !in store && patch.cover.None? ==> r == Failure(NullPointer(108))
    ensures patch.id in store && r.Failure? ==> r.error == NullPointer(100)
    ensures r.Success? ==>
      && MergedFrom(store[patch.id], patch, r.value.value)
      && r.value.store == store[r.value.value.id := r.value.value]
    ensures r.Success? && WellKeyed(store) ==>
      r.value.value.id == patch.id && WellKeyed(r.value.store)
  {
    match GetChannel(store, patch.id)
    case None =>
      Failure(NullPointer(if patch.cover.Some? then 106 else 108))
    case Some(saved) =>
      match Merge(saved, patch)
      case Failure(e) => Failure(e)
      case Success(merged) => Success(Saved(store[merged.id := merged], merged))
  }

  /** `addComment`: appends one comment to an existing channel, starting a
      new list when the stored one is null, saves and returns the channel;
      a missing id returns null and saves nothing. */
  function AddComment(store: Store, id: string, c: Comment): (r: Saved<Option<Channel>>)
    ensures id !in store ==> r.store == store && r.value.None?
    ensures id in store ==>
      && r.value.Some?
      && r.value.value.comments == Some(CommentsOrEmpty(store[id]) + [c])
      && r.value.value.(comments := store[id].comments) == store[id]
      && r.store == store[r.value.value.id := r.value.value]
    ensures WellKeyed(store) ==> WellKeyed(r.store)
  {
    match GetChannel(store, id)
    case None => Saved(store, None)
    case Some(saved) =>
      var updated := saved.(comments := Some(CommentsOrEmpty(saved) + [c]));
      Saved(store[updated.id := updated], Some(updated))
  }

  /** `hotComments`: the channel's comments ranked by `HotRank`, or an
      empty list when the channel or its comment list is absent. */
  function HotComments(store: Store, id: string): (r: seq<Comment>)
    ensures id !in store || store[id].comments.None? ==> r == []
    ensures id in store && store[id].comments.Some? ==>
      r == HotRank(store[id].comments.value)
    ensures |r| == Min(HotLimit, |CommentsOf(store, id)|)
    ensures multiset(r) <= multiset(CommentsOf(store, id))
    ensures SortedByStarDesc(r)
    ensures Dominates(r, multiset(CommentsOf(store, id)) - multiset(r))
  {
    match GetChannel(store, id)
    case Some(saved) =>
      if saved.comments.Some? then HotRank(saved.comments.value) else []
    case None => []
  }

  /** The comments of channel `id`, with an absent channel or a null list
      read as empty. */
  function CommentsOf(store: Store, id: string): seq<Comment> {
    if id in store then CommentsOrEmpty(store[id]) else []
  }

  /** The boundary `getLatestCommentsChannel` hands to the store query:
      midnight at the start of `now`'s calendar day, that is, the earliest
      instant of that day. */
  function LatestCommentsBoundary(now: DateTime): (r: DateTime)
    requires Valid(now)
    ensures Valid(r)
    ensures SameDate(r, now)
    ensures !Before(now, r)
    ensures forall t :: Valid(t) && SameDate(t, now) ==> !Before(t, r)
  {
    Of(now.year, now.month, now.day, 0, 0).value
  }
}

/** The `Channel` aggregate, its owned `Comment`s and the channel store. */
module Channels {
  import opened Wrappers
  import opened LocalDateTimes

  /** A rated, timestamped comment owned by one channel. */
  datatype Comment = Comment(text: string, star: int, dt: DateTime)

  /** A channel record. Every field but `id` may be null in the source; a
      channel used as an update payload has the same shape, with `None`
      meaning "leave this field alone" (or, for `comments`, "clear"). */
  datatype Channel = Channel(
    id: string,
    title: Option<string>,
    quality: Option<string>,
    url: Option<string>,
    cover: Option<string>,
    comments: Option<seq<Comment>>)

  /** The document store, keyed by channel id. */
  type Store = map<string, Channel>

  /** Every stored channel sits under its own id, as `save` keys a document
      by the entity's id. */
  predicate WellKeyed(store: Store) {
    forall id :: id in store ==> store[id].id == id
  }

  /** The stored comments, with a null list read as empty. */
  function CommentsOrEmpty(c: Channel): seq<Comment> {
    if c.comments.Some? then c.comments.value else []
  }

  /** A runtime failure of the service: a `NullPointerException` raised
      at the given line of `ChannelService.java`. */
  datatype Fault = NullPointer(line: nat)

  /** The store after a call, together with what the call returned. */
  datatype Saved<+T> = Saved(store: Store, value: T)
}

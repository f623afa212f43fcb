# ChannelService in Dafny

A value model of the decision logic of `ChannelService` in the channel
catalogue service. The service keeps "channel" records (stream metadata
with an owned list of rated, timestamped comments) in a document store.
This project models:

- the store as a `map<string, Channel>` that each operation takes and
  returns (`Channels.Store`). Every save is a map update keyed by the saved
  entity's own id;
- `getChannel`, `deleteChannel` and `createChannel`, the thin store
  operations;
- `updateChannel`, a null-driven partial merge. `title`, `quality`, `url`
  and `cover` are replaced only when the payload value is non-null. A
  non-null `comments` payload is appended to the stored list, and a null
  one clears the stored list. The failures are the ones the code has:
  a missing id dereferences null at line 106 (payload has a cover) or at
  line 108 (it does not), and appending to a null stored list dereferences
  null at line 100. Nothing is saved on a failure;
- `addComment`, which appends one comment at the end, starting a new list
  when the stored one is null. A missing id returns null and saves nothing;
- `hotComments`, which does a stable sort by descending `star` and keeps at
  most 3. An absent channel or a null comment list gives an empty list;
- the start-of-day boundary `getLatestCommentsChannel` computes from "now".

Nullable fields are `Wrappers.Option`. Thrown exceptions are
`Wrappers.Result` failures carrying the source line of the null
dereference (`Channels.Fault`). `LocalDateTime` is a record of year, month,
day, hour, minute, second and nanosecond with ISO validity
(`LocalDateTimes`).

The ranking has two definitions that are proved to agree. The operational
one is an insertion sort (`Ranking.StableSortByStarDesc`). The independent
one says a list is sorted by descending rating and, for every rating, keeps
the input order of the comments with that rating. `Ranking.StableOrderUnique`
shows that at most one list meets the second description, and
`Ranking.StableSortCharacterization` shows that the sort produces it.

The model follows the code where a cleaner design would differ. A missing
id does not give a "not found" error. The `cover` step runs outside the
existence check and dereferences null, and the model reproduces that. Ties
in rating are not left unspecified either: `List.sort` is stable, so the
model keeps tied comments in input order.

## Model

| member | source | states |
|---|---|---|
| ChannelService.GetChannel | src/main/java/cn/edu/scujcc/service/ChannelService.java:44-55 | A read returns the stored channel when the id is present and null exactly when it is absent. |
| ChannelService.DeleteChannel | src/main/java/cn/edu/scujcc/service/ChannelService.java:70-75 | Delete always reports true. Afterwards the id is absent, every other record is unchanged, and the key/id invariant is kept. |
| ChannelService.CreateChannel | src/main/java/cn/edu/scujcc/service/ChannelService.java:77-80 | Create saves the channel under its id, overwriting any old record, leaves other records alone, and returns the channel. |
| ChannelService.Merge | src/main/java/cn/edu/scujcc/service/ChannelService.java:89-107 | The found-record merge fails, at line 100, exactly when the payload has comments and the stored list is null. Otherwise each nullable field is replaced iff the payload value is non-null. Comments become stored ++ payload when the payload list is non-null and null when it is null. The id is kept. |
| ChannelService.UpdateChannel | src/main/java/cn/edu/scujcc/service/ChannelService.java:87-110 | Update succeeds iff the id is stored and the comment rule does not hit a null list. A missing id fails at line 106 with a cover and at line 108 without one. Success saves and returns the merged channel, and the key/id invariant is kept. |
| ChannelService.AddComment | src/main/java/cn/edu/scujcc/service/ChannelService.java:128-139 | On a stored id the comments become old ++ [c], with a null list read as empty. Every other field is unchanged, and the channel is saved and returned. On a missing id it returns null and the store is unchanged. |
| ChannelService.HotComments | src/main/java/cn/edu/scujcc/service/ChannelService.java:146-171 | The result is empty when the channel or its list is absent. Otherwise it is the ranking of the stored comments. Its length is min(3, n), it is sorted by descending star, it is a sub-multiset of the comments, and it outranks every comment it leaves out. |
| ChannelService.LatestCommentsBoundary | src/main/java/cn/edu/scujcc/service/ChannelService.java:117-121 | The boundary is a valid date-time on now's calendar date, not after now, and not after any valid instant of that date. It is the first instant of the day. |
| Ranking.Insert | src/main/java/cn/edu/scujcc/service/ChannelService.java:152-163 | Insertion adds exactly one copy of the comment to the list, as a multiset. |
| Ranking.StableSortByStarDesc | src/main/java/cn/edu/scujcc/service/ChannelService.java:152-163 | The sort is a permutation of the comments, of the same length, ordered by non-increasing star as the descending comparator asks. |
| Ranking.InsertSorted | src/main/java/cn/edu/scujcc/service/ChannelService.java:152-163 | Inserting into a list sorted by descending star keeps it sorted. |
| Ranking.SortIsStable | src/main/java/cn/edu/scujcc/service/ChannelService.java:152-163 | For every rating, the sorted list keeps the input order of the comments with that rating, as `List.sort` is stable. |
| Ranking.StableOrderUnique | src/main/java/cn/edu/scujcc/service/ChannelService.java:152-163 | Two descending-sorted lists that agree on every per-rating subsequence are equal, so sortedness and stability fix the order. |
| Ranking.StableSortCharacterization | src/main/java/cn/edu/scujcc/service/ChannelService.java:152-163 | A list is the sort's output iff it is sorted by descending star and keeps the input order within each rating. |
| Ranking.HotRank | src/main/java/cn/edu/scujcc/service/ChannelService.java:152-168 | The top list has length min(3, n), is sorted descending, and is a prefix of the stable sort and a sub-multiset of the input. Every kept comment has at least the stars of every comment left out. |
| Ranking.PrefixDominates | src/main/java/cn/edu/scujcc/service/ChannelService.java:164-168 | Cutting a sorted list after n entries keeps a sorted prefix, and that prefix outranks exactly the multiset of what was cut off. |
| Ranking.HotRankKeepsEarliestTies | src/main/java/cn/edu/scujcc/service/ChannelService.java:152-168 | Among comments with equal stars, the ranking keeps the earliest ones in input order. |
| Ranking.HotRankOfStableOrder | src/main/java/cn/edu/scujcc/service/ChannelService.java:152-168 | Take any list sorted descending that keeps the per-rating input order. Its first min(3, n) entries are the hot comments. |
| Ranking.TopRatedLeads | src/main/java/cn/edu/scujcc/service/ChannelService.java:152-168 | A comment rated strictly above every other comment of the list heads the ranking. |
| ServiceProperties.GetAfterCreate | src/main/java/cn/edu/scujcc/service/ChannelService.java:44-55 | After create, reading the id returns the created channel. |
| ServiceProperties.CreateThenDeleteRestores | src/main/java/cn/edu/scujcc/service/ChannelService.java:70-80 | Creating a fresh id and deleting it restores the original store. |
| ServiceProperties.DeleteIsIdempotent | src/main/java/cn/edu/scujcc/service/ChannelService.java:70-75 | Deleting twice equals deleting once, and the id then reads as null. |
| ServiceProperties.GetAfterUpdate | src/main/java/cn/edu/scujcc/service/ChannelService.java:87-110 | After a successful update, reading the id returns the channel update returned. |
| ServiceProperties.UpdateWithoutCommentsClearsHot | src/main/java/cn/edu/scujcc/service/ChannelService.java:99-103 | A payload with null comments on a stored id succeeds, clears the list, and leaves the channel with no hot comments. |
| ServiceProperties.UpdateTwiceAppendsBoth | src/main/java/cn/edu/scujcc/service/ChannelService.java:87-110 | Two comment-carrying updates give stored ++ first ++ second, and the later non-null title wins. |
| ServiceProperties.UpdateExample | src/main/java/cn/edu/scujcc/service/ChannelService.java:87-110 | Stored {title A, comments [c1]} patched with {title B, comments [c2]} is saved and returned as {title B, comments [c1, c2]}. |
| ServiceProperties.AddCommentIsCommentPatch | src/main/java/cn/edu/scujcc/service/ChannelService.java:99-100 | On a channel with a comment list, adding a comment equals an update whose payload carries only that comment, in both store and result. |
| ServiceProperties.AddCommentOnNullListDiffersFromUpdate | src/main/java/cn/edu/scujcc/service/ChannelService.java:128-136 | On a null comment list, adding a comment starts the list [c]. The equivalent update fails at line 100. |
| ServiceProperties.AddedTopCommentLeadsHot | src/main/java/cn/edu/scujcc/service/ChannelService.java:128-171 | A comment rated above every stored one is first among the hot comments once added. |
| ServiceProperties.HotRankExample | src/main/java/cn/edu/scujcc/service/ChannelService.java:152-168 | Stars [2, 5, 5, 1, 4] rank as [5, 5, 4], with the two 5-star comments in input order. |
| ServiceProperties.BoundaryIff | src/main/java/cn/edu/scujcc/service/ChannelService.java:118-120 | A valid instant is at or after the boundary iff its calendar date is not before now's. |
| ServiceProperties.BoundaryIsIdempotent | src/main/java/cn/edu/scujcc/service/ChannelService.java:118-119 | Taking the boundary of the boundary changes nothing. |

## Left out

- Read-through caching (`@Cacheable` on `getAllChannels` and `getChannel`) is framework state with no stated invalidation, so reads go straight to the store map.
- Logging is left out. The one place it matters is the null dereference of `saved` when it is logged on a missing id, which is modelled as the line-108 failure.
- `getAllChannels`, `searchByTitle` and `searchByQuality` are left out. They pass straight through to store queries whose implementations are not part of this model.
- The `findByCommentsDtAfter` filter is left out because its query is derived by the store. Only the boundary passed to it is modelled.
- The system clock is not modelled. "Now" is a parameter, and any value `LocalDateTime.now()` can return is assumed valid.
- Java aliasing is not modelled. In the source, the sort reorders the stored (and possibly cached) list in place, the returned top-3 is a view of it, and `getChannel` may hand back a cached object that is mutated before save. The model ranks a copy and returns values.
- `ChannelService.AddComment`: the body of `Channel.addComment` is not part of this model. The model assumes it starts a new list when the stored one is null and then appends, as in the commented-out lines 132-135.
- Concurrency is not modelled. The lost updates that two interleaved load-modify-save calls can cause are outside a sequential model.
- `star` is a plain `int`. If its Java type is a boxed `Integer`, the `==` at line 155 compares references, and two equal ratings outside the small-integer cache would make the comparator inconsistent. That is not modelled.
- Ids are non-null strings. A null id passed to `findById`, and ids the store generates on `createChannel`, are store behaviour and are not modelled.
- Store failures (a failing `save` or `deleteById`) are not modelled: saves and deletes are total map updates. `deleteById` on an absent id is taken to be a no-op.
- `Comment` has only the fields the core reads: `text`, `star` and `dt`.

# messageDelete: a verified model of the deletion logger

This project models the `messageDelete` event handler of a chat-platform
logging bot. When a message is deleted in a guild channel that is not ignored,
the handler:

1. looks the message up in the write-behind batch, then in the database;
2. deletes the stored copy;
3. resolves the author;
4. after a settle delay, reads the audit log and decides who deleted the message;
5. sends a webhook notification.

The notification carries:

- the author block (label and icon);
- a description naming the channel;
- the content cut into fields of at most 1000 units;
- the creation date, the ids, and the "Deleted by" field;
- one embed per stored attachment piece, the first piece going on the main embed and each later piece on an embed of its own.

Everything the handler asks of the outside world is a parameter of the model:

- the batch and database answers and the ignore test;
- the resolved user and member;
- the fetched audit entries, with None standing for a fetch that threw;
- the clock (`now`, in milliseconds);
- the base64url decoder (`decode`).

The calls the handler makes on the stores and the sender come back as a trace.

Modules:

- `Wrappers`: `Option`.
- `Entities`: the records the handler reads (user, member, channel, stored message, audit entry).
- `Text`: the `replace`/`split` operations and decimal rendering, with their round trips.
- `Chunking`: `chunkify` as a counted loop, proved equal to a recursive reference chunking whose shape and reconstruction are proved.
- `Attribution`: the `find` over audit entries, including the path where the callback throws, and the strict 10-second freshness gate.
- `Notification`: the author label, the field list, the attachment embeds, and the assembly methods. Each method is proved against a declarative description (`FieldsLaidOut`, `AttachmentsLaidOut`, `IsNotification`).
- `Handler`: the skip, lookup, delete and send skeleton.

Details of the code that the model keeps:

- The stored-copy deletion is awaited in line, before the audit-log read and the assembly of the notification.
- The freshness and settle constants are literals (10000 ms, 7000 ms).
- A malformed attachment piece is not dropped. It is decoded like any other (base64url decoding ignores invalid characters).
- The audit fetch asks for one entry, but the search is modelled over any number of entries.

One consequence of the code as written, proved in `Notification.AllBackticksLeavesNoContentField`:
content longer than 1000 units that consists only of backticks strips to the
empty string and produces no content field at all.

## Model

| member | source | states |
|---|---|---|
| `Chunking.ChunksShape` | src/bot/events/messageDelete.js:136-144 | chunking yields ceil(\|s\|/1000) pieces, all of length 1000 but the last, which has 1 to 1000 units; concatenated in order they give back `s`; the empty string yields no piece |
| `Chunking.ChunkAt` | src/bot/events/messageDelete.js:140 | piece k starts inside the string and is the slice from 1000k to 1000(k+1), cut at the end of the string |
| `Chunking.Chunkify` | src/bot/events/messageDelete.js:136-144 | the counted loop of `substring` calls, with JavaScript's bound clamping, returns exactly the reference chunking |
| `Text.ReplaceAll` | src/bot/events/messageDelete.js:86 | a global character replacement keeps the length and changes exactly the occurrences of the replaced character |
| `Text.ReplaceWithItselfIsIdentity` | src/bot/events/messageDelete.js:86 | replacing `"` by `"` leaves the content unchanged |
| `Text.RemoveAll` | src/bot/events/messageDelete.js:86 | removing backticks leaves no backtick and shortens the text by exactly the number of backticks |
| `Text.RemoveAllAppend` | src/bot/events/messageDelete.js:86 | removal works piecewise over concatenation, so the kept characters stay in order |
| `Text.RemoveAllKeepsOthers` | src/bot/events/messageDelete.js:86 | every other character keeps its number of occurrences |
| `Text.RemoveAllAbsent` | src/bot/events/messageDelete.js:86 | content without backticks is left unchanged |
| `Text.Split` | src/bot/events/messageDelete.js:122 | splitting on `\|` gives one more piece than there are separators, none containing the separator |
| `Text.JoinSplit` | src/bot/events/messageDelete.js:122 | joining the pieces with `\|` gives back the attachment string |
| `Text.SplitJoin` | src/bot/events/messageDelete.js:122 | splitting a join of separator-free pieces gives back the pieces, in order |
| `Text.NatToDecimal` | src/bot/events/messageDelete.js:103 | the rendered seconds are a non-empty run of decimal digits without a leading zero |
| `Text.NatToDecimalRoundTrip` | src/bot/events/messageDelete.js:103 | the rendered numeral denotes the rounded seconds |
| `Attribution.FindEntry` | src/bot/events/messageDelete.js:47-50 | `find` stops at the first entry that matches (action 72, same channel, target is the author) or whose channel is dereferenced while missing; every earlier entry passes; no stop means every entry passes |
| `Attribution.Deleter` | src/bot/events/messageDelete.js:47-66 | a deleter is returned only when there is a first match strictly younger than 10000 ms, and it is that entry's acting user |
| `Attribution.FirstMatchDecides` | src/bot/events/messageDelete.js:52-60 | when the first entry the search stops at matches, its age alone decides: younger than 10000 ms gives its user, otherwise nothing |
| `Attribution.ThrowLeavesUnattributed` | src/bot/events/messageDelete.js:47-66 | a deletion entry without a channel, reached before any match, raises an exception and leaves no deleter |
| `Attribution.NoMatchLeavesUnattributed` | src/bot/events/messageDelete.js:44-66 | a failed fetch, or entries none of which match, leave no deleter |
| `Attribution.FreshnessBoundary` | src/bot/events/messageDelete.js:53-55 | an age of 9999 ms attributes, an age of 10000 ms or more does not |
| `Attribution.MismatchLeavesUnattributed` | src/bot/events/messageDelete.js:49 | an entry for another channel or another author never attributes, whatever its age |
| `Notification.AuthorName` | src/bot/events/messageDelete.js:73 | a resolved label is longer than the username and ends in `)` exactly when there is a non-empty nickname, in a space otherwise |
| `Notification.AuthorNameShape` | src/bot/events/messageDelete.js:73-74 | a resolved label is exactly the username, then `#discriminator` unless it is "0", then one space, then `(nick)` only with a non-empty nickname: its length is the sum of those parts and each part sits at its position; the avatar is the icon; an unresolved one is `Unknown User <@id>` with the red-cross icon |
| `Notification.AuthorIcon` | src/bot/events/messageDelete.js:74 | the icon is the user's avatar, or the red-cross image for an unresolved user |
| `Notification.Description` | src/bot/events/messageDelete.js:76 | the description mentions the channel by id and then gives its name in parentheses, with nothing else around them |
| `Notification.DateValue` | src/bot/events/messageDelete.js:103 | the date is a `<t:…:F>` mention whose middle, for non-negative seconds, is a decimal numeral denoting the rounded seconds |
| `Notification.IdValue` | src/bot/events/messageDelete.js:106 | the id block is an `ini` code block giving the author id on the `User` line and the message id on the `Message` line |
| `Chunking.Substring` | src/bot/events/messageDelete.js:140 | `substring` clamps both bounds to the string and swaps them when reversed: for non-negative bounds the result is the slice between them, cut at the end of the string |
| `Notification.RoundedSeconds` | src/bot/events/messageDelete.js:103 | the date's seconds are the integer nearest to ts/1000, halves rounded up |
| `Notification.ContentChunksCases` | src/bot/events/messageDelete.js:83-92 | null or empty content gives the single placeholder; content up to 1000 units is one verbatim chunk; longer content gives chunks of the backtick-free content that reconstruct it, each of 1 to 1000 units |
| `Notification.SelectChunks` | src/bot/events/messageDelete.js:83-92 | the push-based selection yields exactly those chunks |
| `Notification.PushFields` | src/bot/events/messageDelete.js:94-119 | the field list is one field per chunk ("Content" first, then "Continued"), then "Date" with the rounded seconds, "ID", and one "Deleted by" |
| `Notification.FieldOrder` | src/bot/events/messageDelete.js:94-119 | content fields are exactly the first ones, "Date" comes right after them, and the last field is the only "Deleted by" |
| `Notification.DeletedByNamesDeleter` | src/bot/events/messageDelete.js:109-119 | "Deleted by" mentions the attributed deleter when there is one, otherwise the author |
| `Notification.AttachImages` | src/bot/events/messageDelete.js:121-130 | with k attachment pieces there are max(1, k) embeds; the first keeps its content and gets the first decoded piece; each later one holds only the next decoded piece and the url, in order |
| `Notification.Assemble` | src/bot/events/messageDelete.js:68-130 | the sent event has the guild id and event name, the author block, description, colour, field list and attachment embeds above, and no image when there is no attachment |
| `Notification.SelfDeletionScenario` | src/bot/events/messageDelete.js:83-119 | a "hello" message with no deleter gives one embed, a "Content" field "hello" and "Deleted by" `<@u1>` |
| `Notification.TwoAttachmentsScenario` | src/bot/events/messageDelete.js:121-130 | two `\|`-separated pieces give two embeds carrying their decoded references in order |
| `Notification.AllBackticksLeavesNoContentField` | src/bot/events/messageDelete.js:85-86 | long content made only of backticks leaves just "Date", "ID" and "Deleted by" |
| `Handler.Handle` | src/bot/events/messageDelete.js:10-133 | no guild or an ignored channel makes no call; the batch is asked first and the database only on a batch miss; a miss in both stops there; a hit deletes the stored copy, then sends the event assembled from the found message with the attributed deleter |
| `Handler.TraceDeletesThenSends` | src/bot/events/messageDelete.js:17-23 | on a hit the stored copy is deleted exactly once and the event sent exactly once, deletion first; on a miss neither happens; the database is asked exactly when the batch missed |
| `Handler.AttributedScenario` | src/bot/events/messageDelete.js:52-113 | a matching entry 3000 ms old with a known acting user makes "Deleted by" mention that user |

## Left out

- Webhook delivery, the Postgres read and delete, the message batcher and the guild-settings cache population are I/O. They appear as parameters and as trace entries. A failure of any of them, which would reject the handler's promise, is not modelled.
- Member resolution (the user cache, the REST member fetch and the in-place update of the member cache) is taken as its result: an optional user and an optional member.
- The audit-log request and the REST fetch are not recorded in the trace. Only the store and delivery calls are.
- The 7-second settle delay is timing only. `Date.now()` is the parameter `now`.
- Console logging has no effect on the outcome and is not modelled.
- Base64url decoding followed by UTF-8 decoding is the parameter `decode`. Only its per-piece, in-order application is modelled.
- Notification.RoundedSeconds: models `Math.round(ts / 1000)` in exact integer arithmetic. Floating-point rounding of timestamps beyond 2^53 is not captured.
- Text.NatToDecimal: renders the plain decimal numeral. JavaScript's exponent notation for numbers of 10^21 and more is not captured.
- Content outside the Basic Multilingual Plane: each `char` of the model stands for one UTF-16 code unit, which is exact only for characters up to U+FFFF. A character above U+FFFF counts once here but twice in JavaScript's `length`, so for such content the 1000-unit threshold, the chunk count and the chunk boundaries differ from the code's, and a surrogate pair split at a chunk boundary is not represented.
- Embeds made for later attachments are modelled as a separate variant without author, description, fields or colour. The model does not distinguish a missing key from an absent value.

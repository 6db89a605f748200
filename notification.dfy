/**
 * The notification the handler assembles for the webhook sender: the author
 * block, the description, the ordered field list of the first embed, and the
 * embeds that carry the stored attachment pieces.
 */
module Notification {
  import opened Wrappers
  import opened Entities
  import opened Text
  import opened Chunking

  const Placeholder: string := "<no message content>"
  const UnknownUserIcon: string := "https://logger.bot/staticfiles/red-x.png"
  const EmbedColor: int := 8530669
  const AttachmentPageUrl: string := "https://example.com"
  const EventName: string := "messageDelete"

  datatype Field = Field(name: string, value: string)
  datatype Author = Author(name: string, iconURL: string)

  /**
   * An embed: the first one is a full panel; an embed created for a later
   * attachment holds only its image and its url.
   */
  datatype Embed =
    | Panel(author: Author, description: string, fields: seq<Field>, color: int,
            image: Option<string>, url: Option<string>)
    | MediaOnly(image: Option<string>, url: Option<string>)

  /** The payload handed to the webhook sender. */
  datatype Event = Event(guildID: string, eventName: string, embeds: seq<Embed>)

  /** `member && member.nick`: a member with a non-empty nickname. */
  predicate HasNick(member: Option<Member>)
  {
    member.Some? && member.value.nick.Some? && member.value.nick.value != ""
  }

  /**
   * The author label. A resolved user is shown as the username, then
   * `#discriminator` unless the discriminator is the retired value "0", then a
   * space, then the parenthesised nickname if there is one (so a trailing space
   * when there is none). An unresolved user is shown by mention.
   */
  function AuthorName(user: Option<User>, member: Option<Member>, authorId: string): (r: string)
    ensures user.Some? ==> |r| > |user.value.username|
    ensures user.Some? && !HasNick(member) ==> r[|r| - 1] == ' '
    ensures user.Some? && HasNick(member) ==> r[|r| - 1] == ')'
  {
    match user
    case None => "Unknown User <@" + authorId + ">"
    case Some(u) =>
      u.username
      + (if u.discriminator == "0" then "" else "#" + u.discriminator)
      + " "
      + (if HasNick(member) then "(" + member.value.nick.value + ")" else "")
  }

  /** The width of the `#discriminator` part: none for the retired discriminator "0". */
  function DiscriminatorWidth(discriminator: string): nat
  {
    if discriminator == "0" then 0 else 1 + |discriminator|
  }

  /**
   * How the author label reads: the username first; after it a space when the
   * discriminator is "0", else '#' and the discriminator; at the end a space
   * when there is no nickname, else " (nick)". Unresolved: a mention, and the
   * red-cross icon in place of the avatar.
   */
  lemma AuthorNameShape(user: Option<User>, member: Option<Member>, authorId: string)
    ensures AuthorIcon(user) == if user.Some? then user.value.avatarURL else UnknownUserIcon
    ensures var r := AuthorName(user, member, authorId);
      && (user.None? ==> r == "Unknown User <@" + authorId + ">")
      && (user.Some? ==>
            && |r| == |user.value.username| + DiscriminatorWidth(user.value.discriminator) + 1
                      + (if HasNick(member) then |member.value.nick.value| + 2 else 0)
            && r[..|user.value.username|] == user.value.username
            && r[|user.value.username| + DiscriminatorWidth(user.value.discriminator)] == ' ')
      && (user.Some? && user.value.discriminator == "0" ==> r[|user.value.username|] == ' ')
      && (user.Some? && user.value.discriminator != "0" ==>
            |r| > |user.value.username| + |user.value.discriminator| + 1
            && r[|user.value.username|] == '#'
            && r[|user.value.username| + 1 .. |user.value.username| + 1 + |user.value.discriminator|]
               == user.value.discriminator)
      && (user.Some? && !HasNick(member) ==> r[|r| - 1] == ' ')
      && (user.Some? && HasNick(member) ==>
            |r| >= |member.value.nick.value| + 3
            && r[|r| - |member.value.nick.value| - 3 ..] == " (" + member.value.nick.value + ")")
  {
  }

  /** The author icon: the user's avatar, or the fixed red cross for an unresolved user. */
  function AuthorIcon(user: Option<User>): (r: string)
    ensures user.Some? ==> r == user.value.avatarURL
    ensures user.None? ==> r == UnknownUserIcon
  {
    match user
    case None => UnknownUserIcon
    case Some(u) => u.avatarURL
  }

  /** The description mentions the channel by id and then names it in parentheses. */
  function Description(channel: Channel): (r: string)
    ensures var head := "Message deleted in <#";
      && |r| == |head| + |channel.id| + 3 + |channel.name| + 1
      && r[..|head|] == head
      && r[|head| .. |head| + |channel.id|] == channel.id
      && r[|head| + |channel.id| .. |head| + |channel.id| + 3] == "> ("
      && r[|r| - |channel.name| - 1 ..] == channel.name + ")"
  {
    "Message deleted in <#" + channel.id + "> (" + channel.name + ")"
  }

  /**
   * `Math.round(ts / 1000)`, the creation time in whole seconds: the integer
   * nearest to ts/1000, halves rounded up.
   */
  function RoundedSeconds(ts: int): (r: int)
    ensures 1000 * r - 500 <= ts < 1000 * r + 500
  {
    (ts + 500) / 1000
  }

  /** The value of the "Date" field, a timestamp mention in full-date format. */
  function DateValue(ts: int): (r: string)
    ensures |r| >= 7 && r[..3] == "<t:" && r[|r| - 3..] == ":F>"
    ensures ts >= -500 ==> IsDigits(r[3..|r| - 3]) && DecimalValue(r[3..|r| - 3]) == RoundedSeconds(ts)
  {
    var seconds := RoundedSeconds(ts);
    var r := "<t:" + IntToDecimal(seconds) + ":F>";
    assert r[3..|r| - 3] == IntToDecimal(seconds);
    if seconds >= 0 then NatToDecimalRoundTrip(seconds); r else r
  }

  /** The value of the "ID" field, an `ini` code block naming the author and the message. */
  function IdValue(m: CachedMessage): (r: string)
    ensures var head := "```ini\nUser = ";
      && |r| == |head| + |m.authorId| + 11 + |m.id| + 3
      && r[..|head|] == head
      && r[|head| .. |head| + |m.authorId|] == m.authorId
      && r[|head| + |m.authorId| .. |head| + |m.authorId| + 11] == "\nMessage = "
      && r[|r| - |m.id| - 3 ..] == m.id + "```"
  {
    "```ini\nUser = " + m.authorId + "\nMessage = " + m.id + "```"
  }

  /** The value of the "Deleted by" field: the attributed deleter, else the author. */
  function DeletedByValue(deleter: Option<User>, authorId: string): string
  {
    "<@" + (match deleter case Some(u) => u.id case None => authorId) + ">"
  }

  function ContentLabel(i: nat): string
  {
    if i == 0 then "Content" else "Continued"
  }

  /**
   * The content chunks: a placeholder for null or empty content, the content
   * itself up to 1000 units, otherwise the chunks of the content after the
   * (identity) quote replacement and the removal of every backtick.
   */
  function ContentChunks(content: Option<string>): seq<string>
  {
    match content
    case None => [Placeholder]
    case Some(c) =>
      if c == "" then [Placeholder]
      else if |c| > ChunkSize then Chunks(RemoveAll(ReplaceAll(c, '"', '"'), '`'))
      else [c]
  }

  /** The attachment pieces: none when the field is null or empty, else its '|'-separated pieces. */
  function AttachmentPieces(attachmentB64: Option<string>): seq<string>
  {
    match attachmentB64
    case None => []
    case Some(a) => if a == "" then [] else Split(a, '|')
  }

  /** Content selection: the three cases and, for long content, reconstruction without backticks. */
  lemma ContentChunksCases(content: Option<string>)
    ensures content.None? || content.value == "" ==> ContentChunks(content) == [Placeholder]
    ensures content.Some? && 0 < |content.value| <= ChunkSize ==> ContentChunks(content) == [content.value]
    ensures content.Some? && |content.value| > ChunkSize ==>
      var stripped := RemoveAll(content.value, '`');
      && Flatten(ContentChunks(content)) == stripped
      && '`' !in Flatten(ContentChunks(content))
      && |ContentChunks(content)| == ChunkCount(|stripped|)
      && (forall k :: 0 <= k < |ContentChunks(content)| - 1 ==> |ContentChunks(content)[k]| == ChunkSize)
      && (forall k :: 0 <= k < |ContentChunks(content)| ==> 1 <= |ContentChunks(content)[k]| <= ChunkSize)
  {
    if content.Some? && |content.value| > ChunkSize {
      var c := content.value;
      ReplaceWithItselfIsIdentity(c, '"');
      var stripped := RemoveAll(c, '`');
      ChunksShape(stripped);
      forall k | 0 <= k < |Chunks(stripped)|
        ensures 1 <= |Chunks(stripped)[k]| <= ChunkSize
      {
        ChunkAt(stripped, k);
      }
    }
  }

  /**
   * The field list of the first embed: one field per chunk, "Content" then
   * "Continued", followed by "Date", "ID" and a single "Deleted by".
   */
  ghost predicate FieldsLaidOut(fields: seq<Field>, chunks: seq<string>, m: CachedMessage, deleter: Option<User>)
  {
    && |fields| == |chunks| + 3
    && (forall i :: 0 <= i < |chunks| ==> fields[i] == Field(ContentLabel(i), chunks[i]))
    && fields[|chunks|] == Field("Date", DateValue(m.ts))
    && fields[|chunks| + 1] == Field("ID", IdValue(m))
    && fields[|chunks| + 2] == Field("Deleted by", DeletedByValue(deleter, m.authorId))
  }

  /**
   * The embeds after the attachment pieces are written in: one per piece (at
   * least one); the first carries the first decoded piece, every later one
   * only the next decoded piece, in order.
   */
  ghost predicate AttachmentsLaidOut(embeds: seq<Embed>, pieces: seq<string>, decode: string -> string)
  {
    && |embeds| == (if |pieces| == 0 then 1 else |pieces|)
    && (|pieces| > 0 ==> embeds[0].image == Some(decode(pieces[0])) && embeds[0].url == Some(AttachmentPageUrl))
    && (forall i :: 1 <= i < |embeds| ==> embeds[i] == MediaOnly(Some(decode(pieces[i])), Some(AttachmentPageUrl)))
  }

  /**
   * What the handler sends for message `m`: the first embed keeps the author
   * block, description, colour and field list, and has no image unless there
   * are attachment pieces; the attachments are laid out as above.
   */
  ghost predicate IsNotification(ev: Event, channel: Channel, guildId: string, m: CachedMessage,
                                 user: Option<User>, member: Option<Member>, deleter: Option<User>,
                                 decode: string -> string)
  {
    var pieces := AttachmentPieces(m.attachmentB64);
    && ev.guildID == guildId
    && ev.eventName == EventName
    && AttachmentsLaidOut(ev.embeds, pieces, decode)
    && ev.embeds[0].Panel?
    && ev.embeds[0].author == Author(AuthorName(user, member, m.authorId), AuthorIcon(user))
    && ev.embeds[0].description == Description(channel)
    && ev.embeds[0].color == EmbedColor
    && FieldsLaidOut(ev.embeds[0].fields, ContentChunks(m.content), m, deleter)
    && (|pieces| == 0 ==> ev.embeds[0].image.None? && ev.embeds[0].url.None?)
  }

  /** `{...embed, image, url}`: the embed with its image and url overwritten. */
  function WithImage(e: Embed, image: string): Embed
  {
    match e
    case Panel(_, _, _, _, _, _) => e.(image := Some(image), url := Some(AttachmentPageUrl))
    case MediaOnly(_, _) => MediaOnly(Some(image), Some(AttachmentPageUrl))
  }

  /** Selecting `messageChunks`: a placeholder, the content verbatim, or the chunks of the cleaned content. */
  method SelectChunks(content: Option<string>) returns (messageChunks: seq<string>)
    ensures messageChunks == ContentChunks(content)
  {
    messageChunks := [];
    if content.Some? && content.value != "" {
      if |content.value| > ChunkSize {
        messageChunks := Chunkify(RemoveAll(ReplaceAll(content.value, '"', '"'), '`'));
      } else {
        messageChunks := messageChunks + [content.value];
      }
    } else {
      messageChunks := messageChunks + [Placeholder];
    }
  }

  /** Pushing the fields of the first embed: the chunks, then "Date", "ID" and "Deleted by". */
  method PushFields(messageChunks: seq<string>, cachedMessage: CachedMessage, deleterUser: Option<User>)
    returns (fields: seq<Field>)
    ensures FieldsLaidOut(fields, messageChunks, cachedMessage, deleterUser)
  {
    fields := [];
    for i := 0 to |messageChunks|
      invariant |fields| == i
      invariant forall k :: 0 <= k < i ==> fields[k] == Field(ContentLabel(k), messageChunks[k])
    {
      fields := fields + [Field(if i == 0 then "Content" else "Continued", messageChunks[i])];
    }
    fields := fields + [Field("Date", DateValue(cachedMessage.ts)), Field("ID", IdValue(cachedMessage))];
    if deleterUser.Some? {
      fields := fields + [Field("Deleted by", "<@" + deleterUser.value.id + ">")];
    } else {
      fields := fields + [Field("Deleted by", "<@" + cachedMessage.authorId + ">")];
    }
  }

  /**
   * Writing each attachment piece into the embed at its own index: index 0 is
   * overwritten, later indices are appended, as assigning one past the end of
   * a JavaScript array does.
   */
  method AttachImages(first: Embed, attachmentB64: Option<string>, decode: string -> string)
    returns (embeds: seq<Embed>)
    ensures AttachmentsLaidOut(embeds, AttachmentPieces(attachmentB64), decode)
    ensures embeds[0] == if AttachmentPieces(attachmentB64) == [] then first
                         else WithImage(first, decode(AttachmentPieces(attachmentB64)[0]))
  {
    embeds := [first];
    if attachmentB64.Some? && attachmentB64.value != "" {
      var urls := Split(attachmentB64.value, '|');
      for indx := 0 to |urls|
        invariant |embeds| == if indx == 0 then 1 else indx
        invariant embeds[0] == if indx == 0 then first else WithImage(first, decode(urls[0]))
        invariant forall k :: 1 <= k < indx ==> embeds[k] == MediaOnly(Some(decode(urls[k])), Some(AttachmentPageUrl))
      {
        var image := decode(urls[indx]);
        if indx < |embeds| {
          embeds := embeds[indx := WithImage(embeds[indx], image)];
        } else {
          embeds := embeds + [MediaOnly(Some(image), Some(AttachmentPageUrl))];
        }
      }
    }
  }

  /** The assembly part of the handler, from the resolved inputs to the event handed to the sender. */
  method Assemble(channel: Channel, guildId: string, cachedMessage: CachedMessage,
                  cachedUser: Option<User>, member: Option<Member>, deleterUser: Option<User>,
                  decode: string -> string)
    returns (ev: Event)
    ensures IsNotification(ev, channel, guildId, cachedMessage, cachedUser, member, deleterUser, decode)
  {
    var author := Author(AuthorName(cachedUser, member, cachedMessage.authorId), AuthorIcon(cachedUser));
    var messageChunks := SelectChunks(cachedMessage.content);
    var fields := PushFields(messageChunks, cachedMessage, deleterUser);
    var first := Panel(author, Description(channel), fields, EmbedColor, None, None);
    var embeds := AttachImages(first, cachedMessage.attachmentB64, decode);
    ev := Event(guildId, EventName, embeds);
  }

  /**
   * Field order: the content fields come first, "Date" sits right after them,
   * and exactly one field, the last, is named "Deleted by".
   */
  lemma FieldOrder(fields: seq<Field>, chunks: seq<string>, m: CachedMessage, deleter: Option<User>)
    requires FieldsLaidOut(fields, chunks, m, deleter)
    ensures forall i :: 0 <= i < |fields| ==> (fields[i].name == "Deleted by" <==> i == |fields| - 1)
    ensures forall i :: 0 <= i < |fields| ==> (fields[i].name == "Date" <==> i == |chunks|)
    ensures forall i :: 0 <= i < |fields| ==>
      (fields[i].name == "Content" || fields[i].name == "Continued" <==> i < |chunks|)
    ensures forall i, j :: (0 <= i < |fields| && 0 <= j < |fields| && fields[i].name == "Content" && fields[j].name == "Date") ==> i < j
  {
  }

  /** The "Deleted by" field names the attributed deleter when there is one, else the author. */
  lemma DeletedByNamesDeleter(fields: seq<Field>, chunks: seq<string>, m: CachedMessage, deleter: Option<User>)
    requires FieldsLaidOut(fields, chunks, m, deleter)
    ensures deleter.Some? ==> fields[|fields| - 1] == Field("Deleted by", "<@" + deleter.value.id + ">")
    ensures deleter.None? ==> fields[|fields| - 1] == Field("Deleted by", "<@" + m.authorId + ">")
  {
  }

  /**
   * The scenario of a short message by `u1` found in the cache with no
   * attachment and no attributed deleter: one embed, the content verbatim in a
   * "Content" field, and the author presumed as deleter.
   */
  lemma SelfDeletionScenario(ev: Event, channel: Channel, guildId: string, m: CachedMessage,
                             user: Option<User>, member: Option<Member>, decode: string -> string)
    requires m.content == Some("hello") && m.authorId == "u1" && m.attachmentB64.None?
    requires IsNotification(ev, channel, guildId, m, user, member, None, decode)
    ensures |ev.embeds| == 1 && |ev.embeds[0].fields| == 4
    ensures ev.embeds[0].fields[0] == Field("Content", "hello")
    ensures ev.embeds[0].fields[3] == Field("Deleted by", "<@u1>")
    ensures ev.embeds[0].image.None?
  {
  }

  /**
   * Two attachment pieces separated by '|' give two embeds, each with one
   * decoded reference, in order; the second carries nothing else.
   */
  lemma TwoAttachmentsScenario(ev: Event, channel: Channel, guildId: string, m: CachedMessage,
                               user: Option<User>, member: Option<Member>, deleter: Option<User>,
                               decode: string -> string, a: string, b: string)
    requires '|' !in a && '|' !in b
    requires m.attachmentB64 == Some(a + "|" + b)
    requires IsNotification(ev, channel, guildId, m, user, member, deleter, decode)
    ensures |ev.embeds| == 2
    ensures ev.embeds[0].Panel? && ev.embeds[0].image == Some(decode(a))
    ensures ev.embeds[1] == MediaOnly(Some(decode(b)), Some(AttachmentPageUrl))
  {
    SplitJoin([a, b], '|');
    assert Join([a, b], '|') == a + "|" + b;
    assert AttachmentPieces(m.attachmentB64) == [a, b];
  }

  /**
   * Long content made only of backticks strips to nothing and yields no
   * content field at all: the field list is just "Date", "ID", "Deleted by".
   */
  lemma AllBackticksLeavesNoContentField(fields: seq<Field>, m: CachedMessage, deleter: Option<User>)
    requires m.content.Some? && |m.content.value| > ChunkSize
    requires forall i :: 0 <= i < |m.content.value| ==> m.content.value[i] == '`'
    requires FieldsLaidOut(fields, ContentChunks(m.content), m, deleter)
    ensures |fields| == 3 && fields[0].name == "Date"
  {
    var c := m.content.value;
    ContentChunksCases(m.content);
    AllOneChar(c, '`');
  }

  lemma {:induction false} AllOneChar(s: string, c: char)
    requires forall i :: 0 <= i < |s| ==> s[i] == c
    ensures RemoveAll(s, c) == []
  {
    if s != [] {
      AllOneChar(s[1..], c);
    }
  }
}

/**
 * The records the message-delete handler receives from the chat platform
 * and from its message stores, reduced to the fields the handler reads.
 */
module Entities {
  import opened Wrappers

  /** A platform user as the handler sees it (cached or fetched over REST). */
  datatype User = User(id: string, username: string, discriminator: string, avatarURL: string)

  /** A guild member; only the optional nickname is read. */
  datatype Member = Member(nick: Option<string>)

  /** The channel of the deletion event; `guildId` is absent outside a guild. */
  datatype Channel = Channel(id: string, name: string, guildId: Option<string>)

  /** The platform's deletion event: the id of the deleted message and its channel. */
  datatype DeletedMessage = DeletedMessage(id: string, channel: Channel)

  /**
   * The last stored snapshot of a message, from the write-behind batch or the
   * database. `content` and `attachmentB64` are nullable; `attachmentB64`
   * holds base64url pieces separated by '|'. `ts` is the creation time in ms.
   */
  datatype CachedMessage = CachedMessage(
    id: string,
    authorId: string,
    content: Option<string>,
    ts: int,
    attachmentB64: Option<string>)

  /**
   * One audit-log entry. `channelId` is None when the entry carries no channel
   * object; `user` is None when the acting user is not in the client's cache.
   */
  datatype AuditEntry = AuditEntry(
    id: string,
    actionType: int,
    channelId: Option<string>,
    targetId: string,
    createdAt: int,
    user: Option<User>)
}

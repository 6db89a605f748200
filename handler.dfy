/**
 * The `messageDelete` handler as a sequence of decisions around its external
 * calls. What each collaborator would answer is a parameter; the calls the
 * handler makes on the stores and the sender are returned as a trace.
 */
module Handler {
  import opened Wrappers
  import opened Entities
  import opened Attribution
  import opened Notification

  /** The store and delivery calls the handler makes, in order. */
  datatype Call =
    | GetFromBatch(messageId: string)
    | GetFromDatabase(messageId: string)
    | DeleteFromDatabase(messageId: string)
    | Send(event: Event)

  /** The message the two lookups yield: the batch's copy first, the database's otherwise. */
  function Lookup(batched: Option<CachedMessage>, stored: Option<CachedMessage>): Option<CachedMessage>
  {
    if batched.Some? then batched else stored
  }

  /** The lookup calls: the batch, then the database only when the batch missed. */
  function LookupCalls(messageId: string, batched: Option<CachedMessage>): seq<Call>
  {
    [GetFromBatch(messageId)] + (if batched.None? then [GetFromDatabase(messageId)] else [])
  }

  /**
   * The store and delivery calls of a handled event: the lookups; then, on a
   * hit, one deletion of the stored message followed by one send.
   */
  ghost predicate StoreCalls(calls: seq<Call>, messageId: string,
                             batched: Option<CachedMessage>, stored: Option<CachedMessage>)
  {
    var lookups := LookupCalls(messageId, batched);
    if Lookup(batched, stored).None? then calls == lookups
    else
      && |calls| == |lookups| + 2
      && calls[..|lookups|] == lookups
      && calls[|lookups|] == DeleteFromDatabase(messageId)
      && calls[|lookups| + 1].Send?
  }

  /**
   * One deletion event. `isChannelIgnored` is the guild settings' ignore test,
   * `batched` and `stored` what the batch and the database hold for the
   * message id, `cachedUser` and `member` the author as resolved from the
   * client caches or over REST, `auditLog` the fetched entries (None when the
   * fetch threw), `now` the clock after the settle delay, and `decode` the
   * base64url-to-text decoder.
   */
  method Handle(message: DeletedMessage, isChannelIgnored: string -> bool,
                batched: Option<CachedMessage>, stored: Option<CachedMessage>,
                cachedUser: Option<User>, member: Option<Member>,
                auditLog: Option<seq<AuditEntry>>, now: int, decode: string -> string)
    returns (calls: seq<Call>)
    ensures message.channel.guildId.None? ==> calls == []
    ensures message.channel.guildId.Some? && isChannelIgnored(message.channel.id) ==> calls == []
    ensures message.channel.guildId.Some? && !isChannelIgnored(message.channel.id) ==>
      && StoreCalls(calls, message.id, batched, stored)
      && var found := Lookup(batched, stored);
         found.Some? ==>
           IsNotification(calls[|calls| - 1].event, message.channel, message.channel.guildId.value,
                          found.value, cachedUser, member,
                          Deleter(auditLog, message.channel.id, found.value.authorId, now), decode)
  {
    calls := [];
    if message.channel.guildId.None? {
      return;
    }
    var guildId := message.channel.guildId.value;
    if isChannelIgnored(message.channel.id) {
      return;
    }

    calls := calls + [GetFromBatch(message.id)];
    var cachedMessage := batched;
    if cachedMessage.None? {
      calls := calls + [GetFromDatabase(message.id)];
      cachedMessage := stored;
    }
    if cachedMessage.None? {
      return;
    }

    calls := calls + [DeleteFromDatabase(message.id)];
    var deleterUser := Deleter(auditLog, message.channel.id, cachedMessage.value.authorId, now);
    var messageDeleteEvent := Assemble(message.channel, guildId, cachedMessage.value,
                                       cachedUser, member, deleterUser, decode);
    calls := calls + [Send(messageDeleteEvent)];
  }

  /** The number of deletions from the database a trace records. */
  function DeleteCount(calls: seq<Call>): nat
  {
    if calls == [] then 0 else (if calls[0].DeleteFromDatabase? then 1 else 0) + DeleteCount(calls[1..])
  }

  /** The number of sends a trace records. */
  function SendCount(calls: seq<Call>): nat
  {
    if calls == [] then 0 else (if calls[0].Send? then 1 else 0) + SendCount(calls[1..])
  }

  lemma {:induction false} CountsAppend(a: seq<Call>, b: seq<Call>)
    ensures DeleteCount(a + b) == DeleteCount(a) + DeleteCount(b)
    ensures SendCount(a + b) == SendCount(a) + SendCount(b)
  {
    if a == [] {
      assert a + b == b;
    } else {
      assert (a + b)[1..] == a[1..] + b;
      CountsAppend(a[1..], b);
    }
  }

  /**
   * On a hit the trace deletes the stored message exactly once and sends
   * exactly once, the deletion first; on a miss it does neither, and the
   * database is asked only after the batch missed.
   */
  lemma {:induction false} TraceDeletesThenSends(messageId: string, batched: Option<CachedMessage>,
                                                stored: Option<CachedMessage>, calls: seq<Call>)
    requires StoreCalls(calls, messageId, batched, stored)
    ensures calls[0] == GetFromBatch(messageId)
    ensures (GetFromDatabase(messageId) in calls) <==> batched.None?
    ensures Lookup(batched, stored).None? ==> DeleteCount(calls) == 0 && SendCount(calls) == 0
    ensures Lookup(batched, stored).Some? ==>
      && DeleteCount(calls) == 1 && SendCount(calls) == 1
      && calls[|calls| - 2] == DeleteFromDatabase(messageId) && calls[|calls| - 1].Send?
  {
    var lookups := LookupCalls(messageId, batched);
    assert DeleteCount([GetFromBatch(messageId)]) == 0 && SendCount([GetFromBatch(messageId)]) == 0;
    assert DeleteCount([GetFromDatabase(messageId)]) == 0 && SendCount([GetFromDatabase(messageId)]) == 0;
    CountsAppend([GetFromBatch(messageId)], if batched.None? then [GetFromDatabase(messageId)] else []);
    if Lookup(batched, stored).Some? {
      var tail := calls[|lookups|..];
      assert calls == lookups + tail;
      assert tail == [DeleteFromDatabase(messageId), calls[|lookups| + 1]];
      assert tail[1..] == [calls[|lookups| + 1]];
      assert tail[1..][1..] == [];
      assert DeleteCount(tail[1..]) == 0 && SendCount(tail[1..]) == 1;
      assert DeleteCount(tail) == 1 && SendCount(tail) == 1;
      CountsAppend(lookups, tail);
    }
  }

  /**
   * The attributed scenario: a matching audit entry 3000 ms old whose acting
   * user is known makes the "Deleted by" field name that user, not the author.
   */
  lemma AttributedScenario(ev: Event, channel: Channel, guildId: string, m: CachedMessage,
                           cachedUser: Option<User>, member: Option<Member>, decode: string -> string,
                           e: AuditEntry, deleter: User, now: int)
    requires Matches(e, channel.id, m.authorId) && e.user == Some(deleter) && now - e.createdAt == 3000
    requires IsNotification(ev, channel, guildId, m, cachedUser, member,
                            Deleter(Some([e]), channel.id, m.authorId, now), decode)
    ensures ev.embeds[0].fields[|ev.embeds[0].fields| - 1] == Field("Deleted by", "<@" + deleter.id + ">")
  {
  }
}

/**
 * Who deleted the message: the audit-log search of the handler and its
 * freshness gate. The fetched entries arrive as a parameter (None when the
 * fetch itself threw), and the wall clock as the integer `now`.
 */
module Attribution {
  import opened Wrappers
  import opened Entities

  /** The audit-log action type of a message deletion. */
  const MessageDeleteAction: int := 72

  /** An entry is only believed when it is younger than this many milliseconds. */
  const FreshnessWindowMs: int := 10000

  /** The `find` callback returns true: a deletion in this channel of this author's message. */
  predicate Matches(e: AuditEntry, channelId: string, authorId: string)
  {
    e.actionType == MessageDeleteAction && e.channelId == Some(channelId) && e.targetId == authorId
  }

  /** The `find` callback throws: a deletion entry without a channel object is dereferenced. */
  predicate Throws(e: AuditEntry)
  {
    e.actionType == MessageDeleteAction && e.channelId.None?
  }

  /** The `find` callback returns false and the search moves on. */
  predicate Passes(e: AuditEntry, channelId: string, authorId: string)
  {
    !Matches(e, channelId, authorId) && !Throws(e)
  }

  /** Entry `i` is the first the callback stops at, it matches, and it is younger than the window. */
  predicate FreshFirstMatch(entries: seq<AuditEntry>, i: int, channelId: string, authorId: string, now: int)
  {
    && 0 <= i < |entries|
    && Matches(entries[i], channelId, authorId)
    && (forall j :: 0 <= j < i ==> Passes(entries[j], channelId, authorId))
    && now - entries[i].createdAt < FreshnessWindowMs
  }

  /** The outcome of `entries.find(...)`: the index found, no entry, or the index where it threw. */
  datatype Search = Found(index: nat) | NotFound | Threw(index: nat)

  function Shift(r: Search): Search
  {
    match r
    case Found(i) => Found(i + 1)
    case NotFound => NotFound
    case Threw(i) => Threw(i + 1)
  }

  /**
   * `Array.prototype.find` with the handler's callback, evaluated with
   * JavaScript's short-circuit `&&`: the channel is only dereferenced once the
   * action type has matched. The search stops at the first entry that matches
   * or throws.
   */
  function FindEntry(entries: seq<AuditEntry>, channelId: string, authorId: string): (r: Search)
    ensures r.Found? ==> r.index < |entries| && Matches(entries[r.index], channelId, authorId)
    ensures r.Threw? ==> r.index < |entries| && Throws(entries[r.index])
    ensures !r.NotFound? ==> forall j :: 0 <= j < r.index ==> Passes(entries[j], channelId, authorId)
    ensures r.NotFound? ==> forall j :: 0 <= j < |entries| ==> Passes(entries[j], channelId, authorId)
  {
    if entries == [] then NotFound
    else
      var e := entries[0];
      if e.actionType != MessageDeleteAction then Shift(FindEntry(entries[1..], channelId, authorId))
      else if e.channelId.None? then Threw(0)
      else if e.channelId.value == channelId && e.targetId == authorId then Found(0)
      else Shift(FindEntry(entries[1..], channelId, authorId))
  }

  /**
   * The attributed deleter: the acting user of the first matching entry when
   * that entry is strictly younger than the freshness window; nothing when the
   * fetch failed, the callback threw, nothing matched, or the entry is stale.
   */
  function Deleter(auditLog: Option<seq<AuditEntry>>, channelId: string, authorId: string, now: int): (r: Option<User>)
    ensures r.Some? ==> auditLog.Some?
    ensures r.Some? ==> exists i :: FreshFirstMatch(auditLog.value, i, channelId, authorId, now) && auditLog.value[i].user == r
  {
    match auditLog
    case None => None
    case Some(entries) =>
      match FindEntry(entries, channelId, authorId)
      case Found(i) =>
        if now - entries[i].createdAt < FreshnessWindowMs then entries[i].user else None
      case _ => None
  }

  /**
   * When entry `i` is the first one the callback does not pass over and it
   * matches, the deleter is decided by its age alone.
   */
  lemma FirstMatchDecides(entries: seq<AuditEntry>, channelId: string, authorId: string, now: int, i: nat)
    requires i < |entries| && Matches(entries[i], channelId, authorId)
    requires forall j :: 0 <= j < i ==> Passes(entries[j], channelId, authorId)
    ensures Deleter(Some(entries), channelId, authorId, now)
         == if now - entries[i].createdAt < FreshnessWindowMs then entries[i].user else None
  {
  }

  /** A deletion entry without a channel reached before any match leaves the message unattributed. */
  lemma ThrowLeavesUnattributed(entries: seq<AuditEntry>, channelId: string, authorId: string, now: int, i: nat)
    requires i < |entries| && Throws(entries[i])
    requires forall j :: 0 <= j < i ==> Passes(entries[j], channelId, authorId)
    ensures Deleter(Some(entries), channelId, authorId, now) == None
  {
  }

  /** No matching entry, or a failed fetch, leaves the message unattributed. */
  lemma NoMatchLeavesUnattributed(auditLog: Option<seq<AuditEntry>>, channelId: string, authorId: string, now: int)
    requires auditLog.Some? ==> forall j :: 0 <= j < |auditLog.value| ==> !Matches(auditLog.value[j], channelId, authorId)
    ensures Deleter(auditLog, channelId, authorId, now) == None
  {
  }

  /**
   * The strict freshness threshold on the single entry the handler requests:
   * an age of 9999 ms attributes, an age of 10000 ms or more does not.
   */
  lemma FreshnessBoundary(e: AuditEntry, channelId: string, authorId: string, now: int)
    requires Matches(e, channelId, authorId)
    ensures now - e.createdAt == FreshnessWindowMs - 1 ==> Deleter(Some([e]), channelId, authorId, now) == e.user
    ensures now - e.createdAt >= FreshnessWindowMs ==> Deleter(Some([e]), channelId, authorId, now) == None
  {
  }

  /** A matching entry for another channel or another author never attributes, whatever its age. */
  lemma MismatchLeavesUnattributed(e: AuditEntry, channelId: string, authorId: string, now: int)
    requires e.channelId != Some(channelId) || e.targetId != authorId
    ensures Deleter(Some([e]), channelId, authorId, now) == None
  {
  }
}

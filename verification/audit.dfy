/** The audit log of admin actions: newest entry first, capped at the most
    recent 1000, mirrored to browser storage after every change. */
module Audit {
  import opened Wrappers
  import opened Types
  import opened Seqs

  const MAX_AUDITS: nat := 1000

  /** What a caller of `addAudit` supplies: everything but the id, the
      timestamp, the user and the role. */
  datatype AuditInput = AuditInput(
    action: AuditAction,
    target: AuditTarget,
    targetId: TargetId,
    before: Option<string>,
    after: Option<string>,
    note: Option<string>)

  /** The stamped entry: the generated id and timestamp, the signed-in user's
      name and role (absent when nobody is signed in), then the caller's fields. */
  function Stamped(input: AuditInput, id: string, timestamp: string, user: Option<User>): (e: AuditEntry)
    ensures e.id == id && e.timestamp == timestamp
    ensures e.user == (if user.Some? then Some(user.value.username) else None)
    ensures e.role == (if user.Some? then Some(user.value.role) else None)
    ensures AuditInput(e.action, e.target, e.targetId, e.before, e.after, e.note) == input
  {
    AuditEntry(id, timestamp,
      if user.Some? then Some(user.value.username) else None,
      if user.Some? then Some(user.value.role) else None,
      input.action, input.target, input.targetId, input.before, input.after, input.note)
  }

  /** `[entry, ...log].slice(0, 1000)`. */
  function Prepended(log: seq<AuditEntry>, entry: AuditEntry): seq<AuditEntry>
  {
    Take([entry] + log, MAX_AUDITS)
  }

  /** The new entry comes first, the log never exceeds 1000 entries, and what
      follows the new entry is the newest part of the old log. */
  lemma PrependedShape(log: seq<AuditEntry>, entry: AuditEntry)
    ensures var r := Prepended(log, entry);
      && r[0] == entry
      && |r| == (if |log| < MAX_AUDITS then |log| + 1 else MAX_AUDITS)
      && r[1..] == log[..|r| - 1]
  {
    var r := Prepended(log, entry);
    assert ([entry] + log)[1..] == log;
  }

  /** However many entries are added, a log that started within the cap
      stays within it, and the last entry added is first. */
  lemma {:induction false} LogStaysCapped(log: seq<AuditEntry>, entries: seq<AuditEntry>)
    requires |log| <= MAX_AUDITS
    ensures |Fold(log, entries)| <= MAX_AUDITS
    ensures entries != [] ==> Fold(log, entries)[0] == entries[|entries| - 1]
    decreases |entries|
  {
    if entries != [] {
      LogStaysCapped(log, entries[..|entries| - 1]);
      PrependedShape(Fold(log, entries[..|entries| - 1]), entries[|entries| - 1]);
    }
  }

  /** The log after adding `entries` one after the other. */
  function Fold(log: seq<AuditEntry>, entries: seq<AuditEntry>): seq<AuditEntry>
    decreases |entries|
  {
    if entries == [] then log
    else Prepended(Fold(log, entries[..|entries| - 1]), entries[|entries| - 1])
  }

  /** The audit context's state and its stored copy (`katuuAudit`). */
  class AuditLog {
    var audits: seq<AuditEntry>
    var stored: Option<seq<AuditEntry>>

    /** The provider starts empty and then loads the stored log, if any. */
    constructor (stored: Option<seq<AuditEntry>>)
      ensures audits == stored.GetOr([]) && this.stored == Some(audits)
    {
      audits := stored.GetOr([]);
      this.stored := Some(audits);
    }

    /** `addAudit`: the stamped entry goes first and the oldest entries beyond
        1000 are dropped; the stored copy follows. */
    method AddAudit(input: AuditInput, id: string, timestamp: string, user: Option<User>)
      modifies this
      ensures audits == Prepended(old(audits), Stamped(input, id, timestamp, user))
      ensures stored == Some(audits)
    {
      var newEntry := Stamped(input, id, timestamp, user);
      audits := Take([newEntry] + audits, MAX_AUDITS);
      stored := Some(audits);
    }

    /** `clearAudits`. */
    method ClearAudits()
      modifies this
      ensures audits == [] && stored == Some([])
    {
      audits := [];
      stored := Some([]);
    }
  }
}

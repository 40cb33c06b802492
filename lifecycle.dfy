/**
 * The policy-draft lifecycle as pure transitions over the two tables it
 * touches, the draft table and the history log: a draft is created pending,
 * and a pending draft is either applied (after the cluster accepts its
 * manifest) or rejected. Every transition writes its history entries in a
 * fixed order.
 */
module Lifecycle {
  import opened Wrappers
  import opened Js
  import opened OrderedMaps
  import opened Types
  import opened Store

  /** `NotFoundException`, `BadRequestException`, or whatever `applyManifest` threw. */
  datatype PolicyError = NotFound(message: string) | BadRequest(message: string) | ApplyError(message: string)

  /** What `k8sService.applyManifest` does with a draft's manifest: accept it under an id, or throw. */
  datatype ApplyOutcome = ManifestApplied(manifestId: string) | ApplyFailed(reason: string)

  /** The uuid and the clock reading that one history entry draws. */
  datatype Stamp = Stamp(id: string, timestamp: string)

  /** The draft table and the history log. */
  datatype PolicyState = PolicyState(drafts: OrderedMap<string, PolicyDraft>, history: seq<PolicyHistory>)

  /** The result of a successful approve or reject: the new tables and the updated draft. */
  datatype Transition = Transition(state: PolicyState, draft: PolicyDraft)

  function HistoryEntry(policyId: string, action: HistoryAction, userId: string, details: string, stamp: Stamp)
    : PolicyHistory
  {
    PolicyHistory(stamp.id, policyId, action, stamp.timestamp, userId, details)
  }

  /** `addHistory`: one entry appended at the end of the log. */
  function Record(s: PolicyState, policyId: string, action: HistoryAction, userId: string, details: string,
                  stamp: Stamp): (r: PolicyState)
    ensures r.drafts == s.drafts
    ensures |r.history| == |s.history| + 1 && r.history[..|s.history|] == s.history
    ensures r.history[|s.history|].policyId == policyId && r.history[|s.history|].action == action
  {
    PolicyState(s.drafts, s.history + [HistoryEntry(policyId, action, userId, details, stamp)])
  }

  /** A draft as `createDraft` and `generatePolicyFromAnomaly` build it: pending, with no decision recorded. */
  function PendingDraft(id: string, createdAt: string, createdBy: string, service: string, namespace: string,
                        yaml: string, reason: string, anomalyId: Option<string>): (d: PolicyDraft)
    ensures d.id == id && d.createdAt == createdAt && d.createdBy == createdBy && d.service == service && d.namespace == namespace
    ensures d.yaml == yaml && d.reason == reason && d.anomalyId == anomalyId
    ensures d.status == Pending
    ensures d.appliedAt.None? && d.approvedBy.None? && d.rejectedBy.None? && d.rejectionReason.None?
  {
    PolicyDraft(id, createdAt, createdBy, service, namespace, yaml, Pending, reason, None, None, None, None, anomalyId)
  }

  /**
   * `store.addPolicyDraft(draft)` followed by the `created` history entry:
   * the draft is stored under its id and gets exactly one `created` entry;
   * nothing else changes.
   */
  function Create(s: PolicyState, d: PolicyDraft, details: string, stamp: Stamp): (r: PolicyState)
    requires s.drafts.Valid()
    ensures r.drafts.Valid()
    ensures r.drafts.entries == s.drafts.entries[d.id := d]
    ensures d.id in s.drafts.entries ==> r.drafts.keys == s.drafts.keys
    ensures d.id !in s.drafts.entries ==> r.drafts.keys == s.drafts.keys + [d.id]
    ensures r.history == s.history + [HistoryEntry(d.id, CreatedAction, d.createdBy, details, stamp)]
  {
    Record(PolicyState(s.drafts.Set(d.id, d), s.history), d.id, CreatedAction, d.createdBy, details, stamp)
  }

  function NotFoundMessage(id: string): string { "Policy draft " + id + " not found" }

  function AlreadyMessage(status: PolicyStatus): string { "Policy draft is already " + StatusName(status) }

  /** The two checks `approveDraft` and `rejectDraft` start with. */
  function Guard(s: PolicyState, id: string): (r: Result<PolicyDraft, PolicyError>)
    ensures r.Success? <==> id in s.drafts.entries && s.drafts.entries[id].status == Pending
    ensures r.Success? ==> r.value == s.drafts.entries[id]
    ensures id !in s.drafts.entries ==> r == Failure(NotFound(NotFoundMessage(id)))
    ensures id in s.drafts.entries && s.drafts.entries[id].status != Pending ==>
              r == Failure(BadRequest(AlreadyMessage(s.drafts.entries[id].status)))
  {
    if id !in s.drafts.entries then Failure(NotFound(NotFoundMessage(id)))
    else if s.drafts.entries[id].status != Pending then Failure(BadRequest(AlreadyMessage(s.drafts.entries[id].status)))
    else Success(s.drafts.entries[id])
  }

  function ApprovalPatch(userId: string, appliedAt: string): DraftPatch {
    DraftPatch(Some(Applied), Some(appliedAt), Some(userId), None, None)
  }

  function RejectionPatch(userId: string, reason: string): DraftPatch {
    DraftPatch(Some(Rejected), None, None, Some(userId), Some(reason))
  }

  /**
   * `approveDraft`: the guards, then the cluster call; only when it succeeds
   * is the draft marked applied, by that user, at that time, with the table's
   * key order kept, and are `approved` then `applied` logged for it.
   */
  function Approve(s: PolicyState, id: string, userId: string, appliedAt: string, outcome: ApplyOutcome,
                   approvedStamp: Stamp, appliedStamp: Stamp): (r: Result<Transition, PolicyError>)
    requires s.drafts.Valid()
    ensures id !in s.drafts.entries ==> r == Failure(NotFound(NotFoundMessage(id)))
    ensures id in s.drafts.entries && s.drafts.entries[id].status != Pending ==>
              r == Failure(BadRequest(AlreadyMessage(s.drafts.entries[id].status)))
    ensures Guard(s, id).Success? && outcome.ApplyFailed? ==> r == Failure(ApplyError(outcome.reason))
    ensures r.Success? <==> Guard(s, id).Success? && outcome.ManifestApplied?
    ensures r.Success? ==>
      var old_ := s.drafts.entries[id];
      && old_.status == Pending
      && r.value.draft == old_.(status := Applied, approvedBy := Some(userId), appliedAt := Some(appliedAt))
      && r.value.state.drafts.Valid()
      && r.value.state.drafts.keys == s.drafts.keys
      && r.value.state.drafts.entries == s.drafts.entries[id := r.value.draft]
      && r.value.state.history
         == s.history + [HistoryEntry(id, ApprovedAction, userId, "Policy approved", approvedStamp),
                         HistoryEntry(id, AppliedAction, userId, "Applied to cluster: " + outcome.manifestId,
                                      appliedStamp)]
  {
    var g := Guard(s, id);
    if g.Failure? then Failure(g.error)
    else if outcome.ApplyFailed? then Failure(ApplyError(outcome.reason))
    else
      var d := MergeDraft(g.value, ApprovalPatch(userId, appliedAt));
      var updated := PolicyState(s.drafts.Set(id, d), s.history);
      var approved := Record(updated, id, ApprovedAction, userId, "Policy approved", approvedStamp);
      Success(Transition(Record(approved, id, AppliedAction, userId, "Applied to cluster: " + outcome.manifestId,
                                appliedStamp), d))
  }

  /**
   * `rejectDraft`: the guards, then the draft is marked rejected, with who
   * and why, the table's key order kept, and one `rejected` entry logged.
   */
  function Reject(s: PolicyState, id: string, userId: string, reason: string, stamp: Stamp)
    : (r: Result<Transition, PolicyError>)
    requires s.drafts.Valid()
    ensures id !in s.drafts.entries ==> r == Failure(NotFound(NotFoundMessage(id)))
    ensures id in s.drafts.entries && s.drafts.entries[id].status != Pending ==>
              r == Failure(BadRequest(AlreadyMessage(s.drafts.entries[id].status)))
    ensures r.Success? <==> Guard(s, id).Success?
    ensures r.Success? ==>
      var old_ := s.drafts.entries[id];
      && old_.status == Pending
      && r.value.draft == old_.(status := Rejected, rejectedBy := Some(userId), rejectionReason := Some(reason))
      && r.value.state.drafts.Valid()
      && r.value.state.drafts.keys == s.drafts.keys
      && r.value.state.drafts.entries == s.drafts.entries[id := r.value.draft]
      && r.value.state.history == s.history + [HistoryEntry(id, RejectedAction, userId, reason, stamp)]
  {
    var g := Guard(s, id);
    if g.Failure? then Failure(g.error)
    else
      var d := MergeDraft(g.value, RejectionPatch(userId, reason));
      Success(Transition(Record(PolicyState(s.drafts.Set(id, d), s.history), id, RejectedAction, userId, reason, stamp), d))
  }

  // ---- the audit trail ----

  /** The actions of a run of history entries. */
  function Actions(hs: seq<PolicyHistory>): (r: seq<HistoryAction>)
    ensures |r| == |hs| && forall i :: 0 <= i < |hs| ==> r[i] == hs[i].action
  {
    seq(|hs|, i requires 0 <= i < |hs| => hs[i].action)
  }

  /** The actions logged for one policy, in the order they were logged. */
  function Trail(history: seq<PolicyHistory>, policyId: string): seq<HistoryAction> {
    Actions(HistoryOf(history, policyId))
  }

  /** The trail each status implies. */
  function ExpectedTrail(status: PolicyStatus): seq<HistoryAction> {
    match status
    case Pending => [CreatedAction]
    case Approved => [CreatedAction, ApprovedAction]
    case Applied => [CreatedAction, ApprovedAction, AppliedAction]
    case Rejected => [CreatedAction, RejectedAction]
  }

  /**
   * The history agrees with the drafts: every entry belongs to a stored
   * draft, and each draft's trail is the one its status implies.
   */
  ghost predicate AuditConsistent(s: PolicyState) {
    s.drafts.Valid() && HistoryKnown(s) && TrailsMatch(s)
  }

  /** Every history entry is about a stored draft. */
  ghost predicate HistoryKnown(s: PolicyState) {
    forall i :: 0 <= i < |s.history| ==> s.history[i].policyId in s.drafts.entries
  }

  /** Each stored draft's trail is the one its status implies. */
  ghost predicate TrailsMatch(s: PolicyState) {
    forall id :: id in s.drafts.entries ==> Trail(s.history, id) == ExpectedTrail(s.drafts.entries[id].status)
  }

  /** Logging an entry about a stored draft keeps every entry about a stored draft. */
  lemma RecordKeepsKnown(s: PolicyState, policyId: string, action: HistoryAction, userId: string, details: string,
                         stamp: Stamp)
    requires HistoryKnown(s) && policyId in s.drafts.entries
    ensures HistoryKnown(Record(s, policyId, action, userId, details, stamp))
  {
    var r := Record(s, policyId, action, userId, details, stamp);
    forall i | 0 <= i < |r.history| ensures r.history[i].policyId in r.drafts.entries {
      if i < |s.history| {
        assert r.history[i] == s.history[i];
      }
    }
  }

  /** Storing a draft under an id forgets no stored id. */
  lemma SetKeepsKnown(s: PolicyState, id: string, d: PolicyDraft)
    requires s.drafts.Valid() && HistoryKnown(s)
    ensures HistoryKnown(PolicyState(s.drafts.Set(id, d), s.history))
  {
  }

  lemma ActionsAppend(a: seq<PolicyHistory>, b: seq<PolicyHistory>)
    ensures Actions(a + b) == Actions(a) + Actions(b)
  {
  }

  /** Logging one entry extends exactly the trail of its own policy. */
  lemma RecordTrail(s: PolicyState, policyId: string, action: HistoryAction, userId: string, details: string,
                    stamp: Stamp, x: string)
    ensures Trail(Record(s, policyId, action, userId, details, stamp).history, x)
         == Trail(s.history, x) + (if x == policyId then [action] else [])
  {
    var e := HistoryEntry(policyId, action, userId, details, stamp);
    HistoryOfAppend(s.history, e, x);
    ActionsAppend(HistoryOf(s.history, x), if e.policyId == x then [e] else []);
  }

  /** A policy nothing was logged for has an empty trail. */
  lemma NoEntriesNoTrail(history: seq<PolicyHistory>, x: string)
    requires forall i :: 0 <= i < |history| ==> history[i].policyId != x
    ensures Trail(history, x) == []
  {
    var h := HistoryOf(history, x);
    if h != [] {
      assert h[0] in h;
    }
  }

  /** The empty tables are consistent. */
  lemma EmptyAuditConsistent()
    ensures AuditConsistent(PolicyState(Empty(), []))
  {
  }

  /** Creating a pending draft under a fresh id keeps the history consistent. */
  lemma CreatePreservesAudit(s: PolicyState, d: PolicyDraft, details: string, stamp: Stamp)
    requires AuditConsistent(s)
    requires d.id !in s.drafts.entries && d.status == Pending
    ensures AuditConsistent(Create(s, d, details, stamp))
  {
    var mid := PolicyState(s.drafts.Set(d.id, d), s.history);
    var r := Create(s, d, details, stamp);
    SetKeepsKnown(s, d.id, d);
    RecordKeepsKnown(mid, d.id, CreatedAction, d.createdBy, details, stamp);
    forall x | x in r.drafts.entries
      ensures Trail(r.history, x) == ExpectedTrail(r.drafts.entries[x].status)
    {
      CreatedTrail(s, d, details, stamp, x);
    }
  }

  /** `CreatePreservesAudit`, as an implication a caller can use unconditionally. */
  lemma CreateKeepsAudit(s: PolicyState, d: PolicyDraft, details: string, stamp: Stamp)
    ensures AuditConsistent(s) && d.id !in s.drafts.entries && d.status == Pending ==>
              AuditConsistent(Create(s, d, details, stamp))
  {
    if AuditConsistent(s) && d.id !in s.drafts.entries && d.status == Pending {
      CreatePreservesAudit(s, d, details, stamp);
    }
  }

  /** `ApprovePreservesAudit`, as an implication a caller can use unconditionally. */
  lemma ApproveKeepsAudit(s: PolicyState, id: string, userId: string, appliedAt: string, outcome: ApplyOutcome,
                          approvedStamp: Stamp, appliedStamp: Stamp)
    requires s.drafts.Valid()
    ensures var t := Approve(s, id, userId, appliedAt, outcome, approvedStamp, appliedStamp);
      AuditConsistent(s) && t.Success? ==> AuditConsistent(t.value.state)
  {
    if AuditConsistent(s) && Approve(s, id, userId, appliedAt, outcome, approvedStamp, appliedStamp).Success? {
      ApprovePreservesAudit(s, id, userId, appliedAt, outcome, approvedStamp, appliedStamp);
    }
  }

  /** `RejectPreservesAudit`, as an implication a caller can use unconditionally. */
  lemma RejectKeepsAudit(s: PolicyState, id: string, userId: string, reason: string, stamp: Stamp)
    requires s.drafts.Valid()
    ensures var t := Reject(s, id, userId, reason, stamp);
      AuditConsistent(s) && t.Success? ==> AuditConsistent(t.value.state)
  {
    if AuditConsistent(s) && Reject(s, id, userId, reason, stamp).Success? {
      RejectPreservesAudit(s, id, userId, reason, stamp);
    }
  }

  /** After creation, the new draft's trail is `[created]` and every other trail is unchanged. */
  lemma CreatedTrail(s: PolicyState, d: PolicyDraft, details: string, stamp: Stamp, x: string)
    requires AuditConsistent(s)
    requires d.id !in s.drafts.entries && d.status == Pending
    requires x in s.drafts.entries || x == d.id
    ensures Trail(Create(s, d, details, stamp).history, x) == ExpectedTrail(s.drafts.Set(d.id, d).entries[x].status)
  {
    var mid := PolicyState(s.drafts.Set(d.id, d), s.history);
    RecordTrail(mid, d.id, CreatedAction, d.createdBy, details, stamp, x);
    if x == d.id {
      NoEntriesNoTrail(s.history, d.id);
    }
  }

  /** Logging two entries for the same policy extends its trail by both actions, in order. */
  lemma RecordTwiceTrail(s: PolicyState, policyId: string, a1: HistoryAction, a2: HistoryAction, userId: string,
                         d1: string, d2: string, st1: Stamp, st2: Stamp, x: string)
    ensures Trail(Record(Record(s, policyId, a1, userId, d1, st1), policyId, a2, userId, d2, st2).history, x)
         == Trail(s.history, x) + (if x == policyId then [a1, a2] else [])
  {
    var mid := Record(s, policyId, a1, userId, d1, st1);
    RecordTrail(s, policyId, a1, userId, d1, st1, x);
    RecordTrail(mid, policyId, a2, userId, d2, st2, x);
  }

  /**
   * Replacing a pending draft by one whose status's trail is the pending
   * trail followed by `a1` and `a2`, and logging those two actions for it,
   * keeps the history consistent.
   */
  lemma DecideTwiceKeepsAudit(s: PolicyState, id: string, d: PolicyDraft, a1: HistoryAction, a2: HistoryAction,
                              userId: string, d1: string, d2: string, st1: Stamp, st2: Stamp)
    requires AuditConsistent(s)
    requires id in s.drafts.entries && s.drafts.entries[id].status == Pending
    requires ExpectedTrail(d.status) == [CreatedAction, a1, a2]
    ensures AuditConsistent(Record(Record(PolicyState(s.drafts.Set(id, d), s.history), id, a1, userId, d1, st1),
                                   id, a2, userId, d2, st2))
  {
    var updated := PolicyState(s.drafts.Set(id, d), s.history);
    var mid := Record(updated, id, a1, userId, d1, st1);
    var r := Record(mid, id, a2, userId, d2, st2);
    SetKeepsKnown(s, id, d);
    RecordKeepsKnown(updated, id, a1, userId, d1, st1);
    RecordKeepsKnown(mid, id, a2, userId, d2, st2);
    forall x | x in r.drafts.entries
      ensures Trail(r.history, x) == ExpectedTrail(r.drafts.entries[x].status)
    {
      DecidedTwiceTrail(s, id, d, a1, a2, userId, d1, d2, st1, st2, x);
    }
  }

  /** After two decisions, the decided draft's trail matches its new status; other trails are unchanged. */
  lemma DecidedTwiceTrail(s: PolicyState, id: string, d: PolicyDraft, a1: HistoryAction, a2: HistoryAction,
                          userId: string, d1: string, d2: string, st1: Stamp, st2: Stamp, x: string)
    requires AuditConsistent(s)
    requires id in s.drafts.entries && s.drafts.entries[id].status == Pending
    requires ExpectedTrail(d.status) == [CreatedAction, a1, a2]
    requires x in s.drafts.entries
    ensures Trail(Record(Record(PolicyState(s.drafts.Set(id, d), s.history), id, a1, userId, d1, st1),
                         id, a2, userId, d2, st2).history, x)
         == ExpectedTrail(s.drafts.Set(id, d).entries[x].status)
  {
    var updated := PolicyState(s.drafts.Set(id, d), s.history);
    RecordTwiceTrail(updated, id, a1, a2, userId, d1, d2, st1, st2, x);
    if x == id {
      assert updated.drafts.entries[x] == d;
      PendingTrailThen(s.history, id, a1, a2);
    } else {
      assert updated.drafts.entries[x] == s.drafts.entries[x];
    }
  }

  lemma PendingTrailThen(history: seq<PolicyHistory>, id: string, a1: HistoryAction, a2: HistoryAction)
    requires Trail(history, id) == ExpectedTrail(Pending)
    ensures Trail(history, id) + [a1, a2] == [CreatedAction, a1, a2]
  {
  }

  /** A successful approval keeps the history consistent. */
  lemma ApprovePreservesAudit(s: PolicyState, id: string, userId: string, appliedAt: string, outcome: ApplyOutcome,
                              approvedStamp: Stamp, appliedStamp: Stamp)
    requires AuditConsistent(s)
    requires Approve(s, id, userId, appliedAt, outcome, approvedStamp, appliedStamp).Success?
    ensures AuditConsistent(Approve(s, id, userId, appliedAt, outcome, approvedStamp, appliedStamp).value.state)
  {
    var d := MergeDraft(s.drafts.entries[id], ApprovalPatch(userId, appliedAt));
    DecideTwiceKeepsAudit(s, id, d, ApprovedAction, AppliedAction, userId, "Policy approved",
                          "Applied to cluster: " + outcome.manifestId, approvedStamp, appliedStamp);
  }

  /** A successful rejection keeps the history consistent. */
  lemma RejectPreservesAudit(s: PolicyState, id: string, userId: string, reason: string, stamp: Stamp)
    requires AuditConsistent(s)
    requires Reject(s, id, userId, reason, stamp).Success?
    ensures AuditConsistent(Reject(s, id, userId, reason, stamp).value.state)
  {
    var d := MergeDraft(s.drafts.entries[id], RejectionPatch(userId, reason));
    var updated := PolicyState(s.drafts.Set(id, d), s.history);
    var r := Record(updated, id, RejectedAction, userId, reason, stamp);
    assert Reject(s, id, userId, reason, stamp).value.state == r;
    SetKeepsKnown(s, id, d);
    RecordKeepsKnown(updated, id, RejectedAction, userId, reason, stamp);
    forall x | x in r.drafts.entries
      ensures Trail(r.history, x) == ExpectedTrail(r.drafts.entries[x].status)
    {
      RejectedTrail(s, id, d, userId, reason, stamp, x);
    }
  }

  /** After a rejection, the rejected draft's trail is `[created, rejected]`; other trails are unchanged. */
  lemma RejectedTrail(s: PolicyState, id: string, d: PolicyDraft, userId: string, reason: string, stamp: Stamp,
                      x: string)
    requires AuditConsistent(s)
    requires id in s.drafts.entries && s.drafts.entries[id].status == Pending && d.status == Rejected
    requires x in s.drafts.entries
    ensures Trail(Record(PolicyState(s.drafts.Set(id, d), s.history), id, RejectedAction, userId, reason, stamp).history, x)
         == ExpectedTrail(s.drafts.Set(id, d).entries[x].status)
  {
    var updated := PolicyState(s.drafts.Set(id, d), s.history);
    RecordTrail(updated, id, RejectedAction, userId, reason, stamp, x);
    if x == id {
      assert Trail(s.history, id) == [CreatedAction];
    }
  }

  // ---- decided drafts are final ----

  predicate Decided(d: PolicyDraft) { d.status == Applied || d.status == Rejected }

  /** Approving or rejecting a decided draft fails with the bad-request error naming its status. */
  lemma DecidedDraftsRefused(s: PolicyState, id: string, userId: string, appliedAt: string, reason: string,
                             outcome: ApplyOutcome, st1: Stamp, st2: Stamp)
    requires s.drafts.Valid()
    requires id in s.drafts.entries && Decided(s.drafts.entries[id])
    ensures Approve(s, id, userId, appliedAt, outcome, st1, st2) == Failure(BadRequest(AlreadyMessage(s.drafts.entries[id].status)))
    ensures Reject(s, id, userId, reason, st1) == Failure(BadRequest(AlreadyMessage(s.drafts.entries[id].status)))
  {
  }

  /** No transition changes a decided draft (creation draws a fresh id). */
  lemma DecidedDraftsFinal(s: PolicyState, x: string, d: PolicyDraft, details: string, id: string, userId: string,
                           appliedAt: string, reason: string, outcome: ApplyOutcome, st1: Stamp, st2: Stamp)
    requires s.drafts.Valid()
    requires x in s.drafts.entries && Decided(s.drafts.entries[x])
    requires d.id !in s.drafts.entries
    ensures Create(s, d, details, st1).drafts.entries[x] == s.drafts.entries[x]
    ensures var r := Approve(s, id, userId, appliedAt, outcome, st1, st2);
      r.Success? ==> r.value.state.drafts.entries[x] == s.drafts.entries[x]
    ensures var r := Reject(s, id, userId, reason, st1);
      r.Success? ==> r.value.state.drafts.entries[x] == s.drafts.entries[x]
  {
  }

  /** Pending is the only status a transition leaves, and it only goes to applied or rejected. */
  lemma StatusMoves(s: PolicyState, id: string, userId: string, appliedAt: string, reason: string,
                    outcome: ApplyOutcome, st1: Stamp, st2: Stamp)
    requires s.drafts.Valid()
    ensures var r := Approve(s, id, userId, appliedAt, outcome, st1, st2);
      r.Success? ==> s.drafts.entries[id].status == Pending && r.value.draft.status == Applied
    ensures var r := Reject(s, id, userId, reason, st1);
      r.Success? ==> s.drafts.entries[id].status == Pending && r.value.draft.status == Rejected
  {
  }

  /** The bad-request message names the status as the source spells it. */
  lemma ErrorMessages()
    ensures AlreadyMessage(Applied) == "Policy draft is already applied"
    ensures AlreadyMessage(Rejected) == "Policy draft is already rejected"
  {
  }
}

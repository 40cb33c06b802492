/**
 * `PolicyService`: turns anomalies and manual requests into pending policy
 * drafts, and approves or rejects them, writing the store's draft table and
 * history log step by step. Every change it makes is the corresponding pure
 * transition of the lifecycle.
 */
module PolicyServices {
  import opened Wrappers
  import opened Js
  import opened Types
  import opened Events
  import opened OrderedMaps
  import opened Store
  import opened Yaml
  import opened Istio
  import opened PolicyRules
  import opened Lifecycle

  /** The namespace drafts generated from anomalies are placed in. */
  const DefaultNamespace := "default"

  /**
   * What creating one draft draws from the environment: the draft's uuid,
   * `Date.now()` for the manifest name, the ISO time stamped into the
   * manifest, the ISO creation time of the draft, and the `created` entry's
   * uuid and time.
   */
  datatype DraftDraws = DraftDraws(draftId: string, nameMillis: nat, generatedAt: string, createdAt: string,
                                   created: Stamp)

  /** The description annotation of a generated policy. */
  function GeneratedDescription(a: Anomaly): string {
    "Generated from anomaly: " + TypeName(a.kind)
  }

  /** The reason recorded on a generated draft. */
  function GeneratedReason(a: Anomaly): string {
    "Auto-generated from " + TypeName(a.kind) + " anomaly: " + a.details
  }

  /**
   * The draft `generatePolicyFromAnomaly` stores for `a`: pending in namespace
   * `default`, linked to the anomaly, and citing its type and details; the
   * policy it holds is given by GeneratedDraftPolicy.
   */
  function GeneratedDraft(a: Anomaly, userId: string, draws: DraftDraws): (d: PolicyDraft)
    ensures d.status == Pending && d.id == draws.draftId && d.createdAt == draws.createdAt && d.createdBy == userId
    ensures d.service == a.service && d.namespace == "default" && d.anomalyId == Some(a.id)
    ensures d.reason == "Auto-generated from " + TypeName(a.kind) + " anomaly: " + a.details
  {
    PendingDraft(draws.draftId, draws.createdAt, userId, a.service, DefaultNamespace,
                 BuildAuthorizationPolicy(a.service, DefaultNamespace, GenerateRules(a), Some(GeneratedDescription(a)),
                                          draws.nameMillis, draws.generatedAt),
                 GeneratedReason(a), Some(a.id))
  }

  /**
   * The draft `createDraft` stores: pending, with the requested service,
   * namespace and reason, no anomaly link, and the policy built from the
   * given rules; the reason doubles as the policy's description.
   */
  function ManualDraft(service: string, namespace: string, rules: seq<AuthorizationRule>, reason: string,
                       userId: string, draws: DraftDraws): (d: PolicyDraft)
    ensures d.status == Pending && d.id == draws.draftId && d.createdAt == draws.createdAt && d.createdBy == userId
    ensures d.service == service && d.namespace == namespace && d.reason == reason && d.anomalyId.None?
    ensures d.yaml == BuildAuthorizationPolicy(service, namespace, rules, Some(reason), draws.nameMillis, draws.generatedAt)
  {
    PendingDraft(draws.draftId, draws.createdAt, userId, service, namespace,
                 BuildAuthorizationPolicy(service, namespace, rules, Some(reason), draws.nameMillis, draws.generatedAt),
                 reason, None)
  }

  class PolicyService {
    const store: InMemoryStore
    var emitter: EventSink?

    constructor (store: InMemoryStore)
      ensures this.store == store && emitter == null
    {
      this.store := store;
      emitter := null;
    }

    method SetEventEmitter(emitter: EventSink?)
      modifies this`emitter
      ensures this.emitter == emitter
    {
      this.emitter := emitter;
    }

    /** The part of the store this service works on. */
    function State(): PolicyState
      reads store
    {
      PolicyState(store.policyDrafts, store.policyHistory)
    }

    /** The manifest text, emitted by the `convertToYAML` loop. */
    method BuildPolicyText(serviceName: string, namespace: string, rules: seq<AuthorizationRule>,
                           description: Option<string>, millis: nat, isoNow: string) returns (yaml: string)
      ensures yaml == BuildAuthorizationPolicy(serviceName, namespace, rules, description, millis, isoNow)
    {
      AuthorizationPolicyRenderable(serviceName, namespace, rules, description, millis, isoNow);
      yaml := ConvertToYaml(AuthorizationPolicyManifest(serviceName, namespace, rules, description, millis, isoNow), 0);
    }

    /** `addHistory`: append one entry to the log. */
    method AddHistory(policyId: string, action: HistoryAction, userId: string, details: string, stamp: Stamp)
      modifies store`policyHistory
      ensures State() == Record(old(State()), policyId, action, userId, details, stamp)
    {
      store.AddPolicyHistory(HistoryEntry(policyId, action, userId, details, stamp));
    }

    /** `store.addPolicyDraft(draft)` and the `created` entry, as both ways of creating a draft end. */
    method StoreDraft(draft: PolicyDraft, details: string, stamp: Stamp)
      requires store.Valid()
      modifies store`policyDrafts, store`policyHistory
      ensures store.Valid()
      ensures State() == Create(old(State()), draft, details, stamp)
      ensures AuditConsistent(old(State())) && draft.id !in old(store.policyDrafts.entries) && draft.status == Pending ==>
                AuditConsistent(State())
    {
      ghost var before := State();
      store.AddPolicyDraft(draft);
      assert State() == PolicyState(before.drafts.Set(draft.id, draft), before.history);
      AddHistory(draft.id, CreatedAction, draft.createdBy, details, stamp);
      assert State() == Create(before, draft, details, stamp);
      CreateKeepsAudit(before, draft, details, stamp);
    }

    /**
     * `generatePolicyFromAnomaly`: the rules for the anomaly, the policy text,
     * a pending draft in the default namespace, one `created` entry, then the
     * `policy.draft` event.
     */
    method GeneratePolicyFromAnomaly(anomaly: Anomaly, userId: string, draws: DraftDraws) returns (draft: PolicyDraft)
      requires store.Valid()
      modifies store`policyDrafts, store`policyHistory, emitter
      ensures store.Valid()
      ensures draft == GeneratedDraft(anomaly, userId, draws)
      ensures State() == Create(old(State()), draft, "Policy draft created from anomaly", draws.created)
      ensures AuditConsistent(old(State())) && draws.draftId !in old(store.policyDrafts.entries) ==>
                AuditConsistent(State())
      ensures emitter != null ==> emitter.published == old(emitter.published) + [PolicyDraftCreated(draft)]
    {
      draft := DraftFromAnomaly(anomaly, userId, draws);
      StoreAndAnnounce(draft, "Policy draft created from anomaly", draws.created);
    }

    /** Store a new draft with its `created` entry, then announce it as `policy.draft`. */
    method StoreAndAnnounce(draft: PolicyDraft, details: string, stamp: Stamp)
      requires store.Valid()
      modifies store`policyDrafts, store`policyHistory, emitter
      ensures store.Valid()
      ensures State() == Create(old(State()), draft, details, stamp)
      ensures AuditConsistent(old(State())) && draft.id !in old(store.policyDrafts.entries) && draft.status == Pending ==>
                AuditConsistent(State())
      ensures emitter != null ==> emitter.published == old(emitter.published) + [PolicyDraftCreated(draft)]
    {
      StoreDraft(draft, details, stamp);
      if emitter != null {
        emitter.Emit(PolicyDraftCreated(draft));
      }
    }

    /** The pending draft `generatePolicyFromAnomaly` builds, before it is stored. */
    method DraftFromAnomaly(anomaly: Anomaly, userId: string, draws: DraftDraws) returns (draft: PolicyDraft)
      ensures draft == GeneratedDraft(anomaly, userId, draws)
    {
      var rules := GenerateRules(anomaly);
      var yaml := BuildPolicyText(anomaly.service, DefaultNamespace, rules, Some(GeneratedDescription(anomaly)),
                                  draws.nameMillis, draws.generatedAt);
      draft := PendingDraft(draws.draftId, draws.createdAt, userId, anomaly.service, DefaultNamespace, yaml,
                            GeneratedReason(anomaly), Some(anomaly.id));
    }

    /** `createDraft`: a pending draft from explicit rules and one `created` entry; no event. */
    method CreateDraft(service: string, namespace: string, rules: seq<AuthorizationRule>, reason: string,
                       userId: string, draws: DraftDraws) returns (draft: PolicyDraft)
      requires store.Valid()
      modifies store`policyDrafts, store`policyHistory
      ensures store.Valid()
      ensures draft == ManualDraft(service, namespace, rules, reason, userId, draws)
      ensures State() == Create(old(State()), draft, "Manual policy draft created", draws.created)
      ensures AuditConsistent(old(State())) && draws.draftId !in old(store.policyDrafts.entries) ==>
                AuditConsistent(State())
    {
      var yaml := BuildPolicyText(service, namespace, rules, Some(reason), draws.nameMillis, draws.generatedAt);
      draft := PendingDraft(draws.draftId, draws.createdAt, userId, service, namespace, yaml, reason, None);
      StoreDraft(draft, "Manual policy draft created", draws.created);
    }

    /**
     * `approveDraft`: refuse an unknown or already decided draft; hand the
     * manifest to the cluster (`outcome`); only then mark the draft applied,
     * log `approved` and `applied`, and announce `policy.applied`.
     */
    method ApproveDraft(draftId: string, userId: string, appliedAt: string, outcome: ApplyOutcome,
                        approvedStamp: Stamp, appliedStamp: Stamp) returns (r: Result<PolicyDraft, PolicyError>)
      requires store.Valid()
      modifies store`policyDrafts, store`policyHistory, emitter
      ensures store.Valid()
      ensures var t := Approve(old(State()), draftId, userId, appliedAt, outcome, approvedStamp, appliedStamp);
        && (t.Failure? ==> r == Failure(t.error) && State() == old(State()))
        && (t.Success? ==> r == Success(t.value.draft) && State() == t.value.state)
      ensures AuditConsistent(old(State())) ==> AuditConsistent(State())
      ensures emitter != null ==>
        emitter.published == old(emitter.published) + (if r.Success? then [PolicyAppliedEvent(r.value)] else [])
    {
      var found := store.GetPolicyDraft(draftId);
      if found.None? {
        return Failure(NotFound(NotFoundMessage(draftId)));
      }
      if found.value.status != Pending {
        return Failure(BadRequest(AlreadyMessage(found.value.status)));
      }
      if outcome.ApplyFailed? {
        return Failure(ApplyError(outcome.reason));
      }
      var updated := MarkApplied(draftId, userId, appliedAt, outcome.manifestId, approvedStamp, appliedStamp);
      if emitter != null {
        emitter.Emit(PolicyAppliedEvent(updated));
      }
      r := Success(updated);
    }

    /** The part of `approveDraft` after the cluster accepted the manifest under `manifestId`. */
    method MarkApplied(draftId: string, userId: string, appliedAt: string, manifestId: string,
                       approvedStamp: Stamp, appliedStamp: Stamp) returns (updated: PolicyDraft)
      requires store.Valid() && Guard(State(), draftId).Success?
      modifies store`policyDrafts, store`policyHistory
      ensures store.Valid()
      ensures var t := Approve(old(State()), draftId, userId, appliedAt, ManifestApplied(manifestId),
                              approvedStamp, appliedStamp);
        t.Success? && State() == t.value.state && updated == t.value.draft
      ensures AuditConsistent(old(State())) ==> AuditConsistent(State())
    {
      ghost var before := State();
      ghost var d := MergeDraft(before.drafts.entries[draftId], ApprovalPatch(userId, appliedAt));
      store.UpdatePolicyDraft(draftId, ApprovalPatch(userId, appliedAt));
      ghost var marked := PolicyState(before.drafts.Set(draftId, d), before.history);
      assert State() == marked;
      AddHistory(draftId, ApprovedAction, userId, "Policy approved", approvedStamp);
      ghost var approved := Record(marked, draftId, ApprovedAction, userId, "Policy approved", approvedStamp);
      assert State() == approved;
      AddHistory(draftId, AppliedAction, userId, "Applied to cluster: " + manifestId, appliedStamp);
      updated := store.GetPolicyDraft(draftId).value;
      ApproveKeepsAudit(before, draftId, userId, appliedAt, ManifestApplied(manifestId), approvedStamp, appliedStamp);
    }

    /** `rejectDraft`: the same refusals; then mark the draft rejected and log `rejected` with the reason. */
    method RejectDraft(draftId: string, userId: string, reason: string, stamp: Stamp)
      returns (r: Result<PolicyDraft, PolicyError>)
      requires store.Valid()
      modifies store`policyDrafts, store`policyHistory
      ensures store.Valid()
      ensures var t := Reject(old(State()), draftId, userId, reason, stamp);
        && (t.Failure? ==> r == Failure(t.error) && State() == old(State()))
        && (t.Success? ==> r == Success(t.value.draft) && State() == t.value.state)
      ensures AuditConsistent(old(State())) ==> AuditConsistent(State())
    {
      var found := store.GetPolicyDraft(draftId);
      if found.None? {
        return Failure(NotFound(NotFoundMessage(draftId)));
      }
      if found.value.status != Pending {
        return Failure(BadRequest(AlreadyMessage(found.value.status)));
      }
      var updated := MarkRejected(draftId, userId, reason, stamp);
      r := Success(updated);
    }

    /** The part of `rejectDraft` after the guards: mark the draft rejected and log the reason. */
    method MarkRejected(draftId: string, userId: string, reason: string, stamp: Stamp) returns (updated: PolicyDraft)
      requires store.Valid() && Guard(State(), draftId).Success?
      modifies store`policyDrafts, store`policyHistory
      ensures store.Valid()
      ensures var t := Reject(old(State()), draftId, userId, reason, stamp);
        t.Success? && State() == t.value.state && updated == t.value.draft
      ensures AuditConsistent(old(State())) ==> AuditConsistent(State())
    {
      ghost var before := State();
      ghost var d := MergeDraft(before.drafts.entries[draftId], RejectionPatch(userId, reason));
      store.UpdatePolicyDraft(draftId, RejectionPatch(userId, reason));
      assert State() == PolicyState(before.drafts.Set(draftId, d), before.history);
      AddHistory(draftId, RejectedAction, userId, reason, stamp);
      updated := store.GetPolicyDraft(draftId).value;
      RejectKeepsAudit(before, draftId, userId, reason, stamp);
    }

    // ---- readers ----

    /** Every stored draft, in insertion order. */
    function GetAllDrafts(): (r: seq<PolicyDraft>)
      reads store
      requires store.Valid()
      ensures |r| == |store.policyDrafts.keys|
      ensures forall i :: 0 <= i < |r| ==> r[i] == store.policyDrafts.entries[store.policyDrafts.keys[i]]
    {
      store.GetAllPolicyDrafts()
    }

    /** The drafts still awaiting a decision. */
    function GetPendingDrafts(): (r: seq<PolicyDraft>)
      reads store
      requires store.Valid()
      ensures forall d :: multiset(r)[d] == if d.status == Pending then multiset(store.policyDrafts.Values())[d] else 0
    {
      store.GetPendingDrafts()
    }

    /** The drafts that were applied to the cluster. */
    function GetActivePolicies(): (r: seq<PolicyDraft>)
      reads store
      requires store.Valid()
      ensures forall d :: multiset(r)[d] == if d.status == Applied then multiset(store.policyDrafts.Values())[d] else 0
    {
      store.GetActivePolicies()
    }

    /** The draft stored under `id`, if any. */
    function GetDraft(id: string): (r: Option<PolicyDraft>)
      reads store
      requires store.Valid()
      ensures r.Some? <==> id in store.policyDrafts.entries
      ensures r.Some? ==> r.value == store.policyDrafts.entries[id]
    {
      store.GetPolicyDraft(id)
    }

    /** One policy's trail in log order, or the whole log most recent first. */
    function GetHistory(policyId: Option<string> := None): (r: seq<PolicyHistory>)
      reads store
      ensures Truthy(policyId) ==> r == HistoryOf(store.policyHistory, policyId.value)
      ensures Truthy(policyId) ==> forall e :: e in r <==> e in store.policyHistory && e.policyId == policyId.value
      ensures !Truthy(policyId) ==> |r| == |store.policyHistory|
      ensures !Truthy(policyId) ==>
                forall i :: 0 <= i < |r| ==> r[i] == store.policyHistory[|store.policyHistory| - 1 - i]
      ensures !Truthy(policyId) ==> forall e :: e in r <==> e in store.policyHistory
    {
      var r := store.GetPolicyHistory(policyId);
      if Truthy(policyId) then r
      else
        ReversedMembers(store.policyHistory, r);
        r
    }
  }

  /** A reversed log holds the same entries. */
  lemma ReversedMembers(s: seq<PolicyHistory>, r: seq<PolicyHistory>)
    requires |r| == |s| && forall i :: 0 <= i < |r| ==> r[i] == s[|s| - 1 - i]
    ensures forall e :: e in r <==> e in s
  {
    forall e | e in s ensures e in r {
      var i :| 0 <= i < |s| && s[i] == e;
      assert r[|s| - 1 - i] == e;
    }
  }

  // ---- what the service's steps amount to ----

  /** A generated draft holds the policy built from the anomaly's rules, described by the anomaly's type. */
  lemma GeneratedDraftPolicy(a: Anomaly, userId: string, draws: DraftDraws)
    ensures GeneratedDraft(a, userId, draws).yaml
         == BuildAuthorizationPolicy(a.service, "default", GenerateRules(a),
                                     Some("Generated from anomaly: " + TypeName(a.kind)), draws.nameMillis, draws.generatedAt)
  {
  }

  /**
   * The description annotation of a generated policy is the generated
   * description, never the fallback, because it is never empty.
   */
  lemma GeneratedDescriptionUsed(a: Anomaly)
    ensures Description(a.service, Some(GeneratedDescription(a))) == "Generated from anomaly: " + TypeName(a.kind)
  {
  }

  /**
   * A manual draft with an empty reason gets the fallback description
   * `Authorization policy for <service>`.
   */
  lemma EmptyReasonFallsBack(service: string)
    ensures Description(service, Some("")) == "Authorization policy for " + service
  {
  }
}

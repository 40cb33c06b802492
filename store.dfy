/**
 * The in-memory store shared by every service: a telemetry log window capped
 * at 1000 records, the service, anomaly, policy-draft, applied-manifest, user
 * and session tables, and the append-only policy history.
 */
module Store {
  import opened Wrappers
  import opened Js
  import opened OrderedMaps
  import opened Types

  /** The capacity of the telemetry log window. */
  const MaxLogs: nat := 1000

  function AnomalyTime(a: Anomaly): int { a.timestamp }

  /** A number used as a condition: `limit ? ... : ...` (non-zero). */
  predicate LimitGiven(limit: Option<int>) { limit.Some? && limit.value != 0 }

  datatype Stats = Stats(
    logs: nat, services: nat, anomalies: nat, policyDrafts: nat,
    policyHistory: nat, appliedManifests: nat, users: nat, sessions: nat)

  class InMemoryStore {
    var logs: OrderedMap<string, ParsedRequest>
    var services: OrderedMap<string, ServiceInfo>
    var anomalies: OrderedMap<string, Anomaly>
    var policyDrafts: OrderedMap<string, PolicyDraft>
    var policyHistory: seq<PolicyHistory>
    var appliedManifests: OrderedMap<string, AppliedManifest>
    var users: OrderedMap<string, User>
    var sessions: OrderedMap<string, string>

    ghost predicate Valid()
      reads this
    {
      && logs.Valid() && |logs.keys| <= MaxLogs
      && services.Valid()
      && anomalies.Valid()
      && policyDrafts.Valid()
      && appliedManifests.Valid()
      && users.Valid()
      && sessions.Valid()
    }

    constructor ()
      ensures Valid()
      ensures logs.keys == [] && services.keys == [] && anomalies.keys == []
      ensures policyDrafts.keys == [] && policyHistory == [] && appliedManifests.keys == []
      ensures users.keys == [] && sessions.keys == []
    {
      logs, services, anomalies, policyDrafts := Empty(), Empty(), Empty(), Empty();
      policyHistory := [];
      appliedManifests, users, sessions := Empty(), Empty(), Empty();
    }

    // ---- telemetry ----

    /**
     * Store a record under its id; when the window then holds more than 1000
     * records, the earliest-inserted one is evicted.
     */
    method AddLog(log: ParsedRequest)
      requires Valid()
      modifies this`logs
      ensures Valid()
      ensures logs == old(logs).SetBounded(log.id, log, MaxLogs)
      ensures log.id in old(logs.entries) ==>
                logs.keys == old(logs.keys) && logs.entries == old(logs.entries)[log.id := log]
      ensures log.id !in old(logs.entries) && old(|logs.keys|) < MaxLogs ==>
                logs.keys == old(logs.keys) + [log.id] && logs.entries == old(logs.entries)[log.id := log]
      ensures log.id !in old(logs.entries) && old(|logs.keys|) == MaxLogs ==>
                && logs.keys == old(logs.keys)[1..] + [log.id]
                && logs.entries == old(logs.entries)[log.id := log] - {old(logs.keys)[0]}
      ensures logs.Get(log.id) == Some(log)
    {
      SetBoundedEffect(logs, log.id, log, MaxLogs);
      SetBoundedGet(logs, log.id, log, MaxLogs);
      logs := logs.Set(log.id, log);
      if logs.Size() > MaxLogs {
        var firstKey := logs.keys[0];
        logs := logs.Delete(firstKey);
      }
    }

    /** The stored records in insertion order, restricted to `service` when one is given. */
    function MatchingLogs(service: Option<string>): (r: seq<ParsedRequest>)
      reads this
      requires Valid()
    {
      if Truthy(service) then Filter(logs.Values(), (l: ParsedRequest) => l.service == service.value)
      else logs.Values()
    }

    /** The store's `getLogs`: see `NewestFirst`. */
    function GetLogs(limit: int := 100, service: Option<string> := None): (r: seq<ParsedRequest>)
      reads this
      requires Valid()
      ensures r == NewestFirst(MatchingLogs(service), limit)
      ensures Truthy(service) ==> forall l :: l in r ==> l.service == service.value
    {
      NewestFirst(MatchingLogs(service), limit)
    }

    /** `logs.get(id)` */
    function GetLog(id: string): (r: Option<ParsedRequest>)
      reads this
      requires Valid()
      ensures r.Some? <==> id in logs.keys
      ensures r.Some? ==> r.value == logs.entries[id]
    {
      logs.Get(id)
    }

    // ---- services ----

    method SetService(service: ServiceInfo)
      requires Valid()
      modifies this`services
      ensures Valid()
      ensures services == old(services).Set(service.name, service)
    {
      services := services.Set(service.name, service);
    }

    function GetService(name: string): (r: Option<ServiceInfo>)
      reads this
      requires Valid()
      ensures r.Some? <==> name in services.keys
      ensures r.Some? ==> r.value == services.entries[name]
    {
      services.Get(name)
    }

    function GetAllServices(): (r: seq<ServiceInfo>)
      reads this
      requires Valid()
      ensures |r| == |services.keys|
      ensures forall i :: 0 <= i < |r| ==> r[i] == services.entries[services.keys[i]]
    {
      services.Values()
    }

    /** Overwrite the given fields of a known service; an unknown name changes nothing. */
    method UpdateServiceMetrics(name: string, metrics: ServicePatch)
      requires Valid()
      modifies this`services
      ensures Valid()
      ensures name !in old(services.entries) ==> services == old(services)
      ensures name in old(services.entries) ==>
                && services.keys == old(services.keys)
                && services.entries == old(services.entries)[name := MergeService(old(services.entries[name]), metrics)]
    {
      var service := services.Get(name);
      if service.Some? {
        services := services.Set(name, MergeService(service.value, metrics));
      }
    }

    // ---- anomalies ----

    method AddAnomaly(anomaly: Anomaly)
      requires Valid()
      modifies this`anomalies
      ensures Valid()
      ensures anomalies == old(anomalies).Set(anomaly.id, anomaly)
    {
      anomalies := anomalies.Set(anomaly.id, anomaly);
    }

    function GetAnomaly(id: string): (r: Option<Anomaly>)
      reads this
      requires Valid()
      ensures r.Some? <==> id in anomalies.keys
      ensures r.Some? ==> r.value == anomalies.entries[id]
    {
      anomalies.Get(id)
    }

    /** The store's `getAllAnomalies`: see `NewestAnomalies`. */
    function GetAllAnomalies(limit: Option<int> := None): (r: seq<Anomaly>)
      reads this
      requires Valid()
      ensures r == NewestAnomalies(anomalies.Values(), limit)
    {
      NewestAnomalies(anomalies.Values(), limit)
    }

    function GetAnomaliesByService(service: string): (r: seq<Anomaly>)
      reads this
      requires Valid()
      ensures forall a :: multiset(r)[a] == if a.service == service then multiset(anomalies.Values())[a] else 0
    {
      var r := Filter(anomalies.Values(), (a: Anomaly) => a.service == service);
      forall a ensures multiset(r)[a] == if a.service == service then multiset(anomalies.Values())[a] else 0 {
        FilterCount(anomalies.Values(), (a: Anomaly) => a.service == service, a);
      }
      r
    }

    // ---- policy drafts ----

    method AddPolicyDraft(draft: PolicyDraft)
      requires Valid()
      modifies this`policyDrafts
      ensures Valid()
      ensures policyDrafts == old(policyDrafts).Set(draft.id, draft)
    {
      policyDrafts := policyDrafts.Set(draft.id, draft);
    }

    function GetPolicyDraft(id: string): (r: Option<PolicyDraft>)
      reads this
      requires Valid()
      ensures r.Some? <==> id in policyDrafts.keys
      ensures r.Some? ==> r.value == policyDrafts.entries[id]
    {
      policyDrafts.Get(id)
    }

    function GetAllPolicyDrafts(): (r: seq<PolicyDraft>)
      reads this
      requires Valid()
      ensures |r| == |policyDrafts.keys|
      ensures forall i :: 0 <= i < |r| ==> r[i] == policyDrafts.entries[policyDrafts.keys[i]]
    {
      policyDrafts.Values()
    }

    /** Exactly the drafts whose status is pending, each as often as it is stored. */
    function GetPendingDrafts(): (r: seq<PolicyDraft>)
      reads this
      requires Valid()
      ensures forall d :: multiset(r)[d] == if d.status == Pending then multiset(policyDrafts.Values())[d] else 0
    {
      var r := Filter(policyDrafts.Values(), (d: PolicyDraft) => d.status == Pending);
      forall d ensures multiset(r)[d] == if d.status == Pending then multiset(policyDrafts.Values())[d] else 0 {
        FilterCount(policyDrafts.Values(), (d: PolicyDraft) => d.status == Pending, d);
      }
      r
    }

    /** Exactly the drafts whose status is applied. */
    function GetActivePolicies(): (r: seq<PolicyDraft>)
      reads this
      requires Valid()
      ensures forall d :: multiset(r)[d] == if d.status == Applied then multiset(policyDrafts.Values())[d] else 0
    {
      var r := Filter(policyDrafts.Values(), (d: PolicyDraft) => d.status == Applied);
      forall d ensures multiset(r)[d] == if d.status == Applied then multiset(policyDrafts.Values())[d] else 0 {
        FilterCount(policyDrafts.Values(), (d: PolicyDraft) => d.status == Applied, d);
      }
      r
    }

    /** Overwrite the given fields of a known draft; an unknown id changes nothing. */
    method UpdatePolicyDraft(id: string, updates: DraftPatch)
      requires Valid()
      modifies this`policyDrafts
      ensures Valid()
      ensures id !in old(policyDrafts.entries) ==> policyDrafts == old(policyDrafts)
      ensures id in old(policyDrafts.entries) ==>
                && policyDrafts.keys == old(policyDrafts.keys)
                && policyDrafts.entries == old(policyDrafts.entries)[id := MergeDraft(old(policyDrafts.entries[id]), updates)]
    {
      var draft := policyDrafts.Get(id);
      if draft.Some? {
        policyDrafts := policyDrafts.Set(id, MergeDraft(draft.value, updates));
      }
    }

    // ---- policy history ----

    /** The history only grows at its end. */
    method AddPolicyHistory(history: PolicyHistory)
      modifies this`policyHistory
      ensures policyHistory == old(policyHistory) + [history]
    {
      policyHistory := policyHistory + [history];
    }

    /**
     * With a policy id: that policy's entries in append order. Without one:
     * the whole history, most recent first.
     */
    function GetPolicyHistory(policyId: Option<string> := None): (r: seq<PolicyHistory>)
      reads this
      ensures Truthy(policyId) ==> r == HistoryOf(policyHistory, policyId.value)
      ensures !Truthy(policyId) ==>
                (|r| == |policyHistory| && forall i :: 0 <= i < |r| ==> r[i] == policyHistory[|policyHistory| - 1 - i])
    {
      if Truthy(policyId) then HistoryOf(policyHistory, policyId.value) else Reverse(policyHistory)
    }

    // ---- applied manifests ----

    method AddAppliedManifest(manifest: AppliedManifest)
      requires Valid()
      modifies this`appliedManifests
      ensures Valid()
      ensures appliedManifests == old(appliedManifests).Set(manifest.id, manifest)
    {
      appliedManifests := appliedManifests.Set(manifest.id, manifest);
    }

    function GetAppliedManifest(id: string): (r: Option<AppliedManifest>)
      reads this
      requires Valid()
      ensures r.Some? <==> id in appliedManifests.keys
      ensures r.Some? ==> r.value == appliedManifests.entries[id]
    {
      appliedManifests.Get(id)
    }

    /** Exactly the manifests still active. */
    function GetAllAppliedManifests(): (r: seq<AppliedManifest>)
      reads this
      requires Valid()
      ensures forall m :: multiset(r)[m] == if m.status == Active then multiset(appliedManifests.Values())[m] else 0
    {
      var r := Filter(appliedManifests.Values(), (m: AppliedManifest) => m.status == Active);
      forall m ensures multiset(r)[m] == if m.status == Active then multiset(appliedManifests.Values())[m] else 0 {
        FilterCount(appliedManifests.Values(), (m: AppliedManifest) => m.status == Active, m);
      }
      r
    }

    // ---- users ----

    method AddUser(user: User)
      requires Valid()
      modifies this`users
      ensures Valid()
      ensures users == old(users).Set(user.id, user)
    {
      users := users.Set(user.id, user);
    }

    function GetUser(id: string): (r: Option<User>)
      reads this
      requires Valid()
      ensures r.Some? <==> id in users.keys
      ensures r.Some? ==> r.value == users.entries[id]
    {
      users.Get(id)
    }

    /** The earliest-inserted user with that username, if any. */
    function GetUserByUsername(username: string): (r: Option<User>)
      reads this
      requires Valid()
      ensures r.None? <==> forall i :: 0 <= i < |users.keys| ==> users.entries[users.keys[i]].username != username
      ensures r.Some? ==> r.value.username == username && exists i ::
                && 0 <= i < |users.keys| && r.value == users.entries[users.keys[i]]
                && forall j :: 0 <= j < i ==> users.entries[users.keys[j]].username != username
    {
      var all := users.Values();
      match FindIndex(all, (u: User) => u.username == username)
      case None => None
      case Some(i) => Some(all[i])
    }

    function GetAllUsers(): (r: seq<User>)
      reads this
      requires Valid()
      ensures |r| == |users.keys|
      ensures forall i :: 0 <= i < |r| ==> r[i] == users.entries[users.keys[i]]
    {
      users.Values()
    }

    // ---- sessions ----

    method AddSession(token: string, userId: string)
      requires Valid()
      modifies this`sessions
      ensures Valid()
      ensures sessions == old(sessions).Set(token, userId)
    {
      sessions := sessions.Set(token, userId);
    }

    function GetSession(token: string): (r: Option<string>)
      reads this
      requires Valid()
      ensures r.Some? <==> token in sessions.keys
      ensures r.Some? ==> r.value == sessions.entries[token]
    {
      sessions.Get(token)
    }

    method RemoveSession(token: string)
      requires Valid()
      modifies this`sessions
      ensures Valid()
      ensures sessions == old(sessions).Delete(token)
      ensures token !in sessions.entries
      ensures forall t :: t in old(sessions.entries) && t != token ==>
                t in sessions.entries && sessions.entries[t] == old(sessions.entries[t])
    {
      sessions := sessions.Delete(token);
    }

    // ---- utility ----

    method Clear()
      modifies this
      ensures Valid()
      ensures logs.keys == [] && services.keys == [] && anomalies.keys == []
      ensures policyDrafts.keys == [] && policyHistory == [] && appliedManifests.keys == []
      ensures users.keys == [] && sessions.keys == []
    {
      logs, services, anomalies, policyDrafts := Empty(), Empty(), Empty(), Empty();
      policyHistory := [];
      appliedManifests, users, sessions := Empty(), Empty(), Empty();
    }

    /** The size of every table; the log count never exceeds the window's capacity. */
    function GetStats(): (r: Stats)
      reads this
      requires Valid()
      ensures r.logs <= MaxLogs
      ensures r == Stats(|logs.keys|, |services.keys|, |anomalies.keys|, |policyDrafts.keys|, |policyHistory|,
                         |appliedManifests.keys|, |users.keys|, |sessions.keys|)
    {
      Stats(logs.Size(), services.Size(), anomalies.Size(), policyDrafts.Size(),
            |policyHistory|, appliedManifests.Size(), users.Size(), sessions.Size())
    }
  }

  /**
   * `all.slice(-limit).reverse()`: for a positive limit the `limit` most
   * recently inserted records, newest first.
   */
  function NewestFirst<T>(all: seq<T>, limit: int): (r: seq<T>)
    ensures limit > 0 ==> |r| == Min(limit, |all|)
    ensures limit == 0 ==> |r| == |all|
    ensures limit < 0 ==> |r| == |all| - Min(-limit, |all|)
    ensures forall i :: 0 <= i < |r| ==> r[i] == all[|all| - 1 - i]
    ensures forall x :: x in r ==> x in all
  {
    NewestFirstOrder(all, limit);
    Reverse(Last(all, limit))
  }

  /** The reversed window lists `all` from its end, so it holds only elements of `all`. */
  lemma NewestFirstOrder<T>(all: seq<T>, limit: int)
    ensures var r := Reverse(Last(all, limit));
      && (forall i :: 0 <= i < |r| ==> r[i] == all[|all| - 1 - i])
      && (forall x :: x in r ==> x in all)
  {
    var t := Last(all, limit);
    assert t == all[|all| - |t|..];
    var r := Reverse(t);
    forall i | 0 <= i < |r| ensures r[i] == all[|all| - 1 - i] {
      assert r[i] == t[|t| - 1 - i];
    }
    forall x | x in r ensures x in all {
      var i :| 0 <= i < |r| && r[i] == x;
      assert r[i] == all[|all| - 1 - i];
    }
  }

  /**
   * Anomalies sorted newest first; a non-zero `limit` keeps `slice(0, limit)`
   * of that order, so the result is a prefix of the sorted table and nothing
   * left out is newer than anything returned.
   */
  function NewestAnomalies(all: seq<Anomaly>, limit: Option<int>): (r: seq<Anomaly>)
    ensures SortedDesc(r, AnomalyTime)
    ensures multiset(r) <= multiset(all)
    ensures !LimitGiven(limit) ==> multiset(r) == multiset(all)
    ensures LimitGiven(limit) && limit.value > 0 ==> |r| == Min(limit.value, |all|)
    ensures LimitGiven(limit) && limit.value < 0 ==> |r| == |all| - Min(-limit.value, |all|)
    ensures forall a, b :: a in r && b in multiset(all) - multiset(r) ==> a.timestamp >= b.timestamp
  {
    var sorted := SortDesc(all, AnomalyTime);
    var r := if LimitGiven(limit) then Slice(sorted, 0, limit.value) else sorted;
    SliceFromStart(sorted, if LimitGiven(limit) then limit.value else 0);
    assert r == sorted[..|r|];
    SortedPrefix(sorted, AnomalyTime, |r|);
    r
  }

  /** The entries of one policy, in append order. */
  function HistoryOf(history: seq<PolicyHistory>, policyId: string): seq<PolicyHistory> {
    Filter(history, (h: PolicyHistory) => h.policyId == policyId)
  }

  /** Appending an entry extends exactly its own policy's view, at the end. */
  lemma HistoryOfAppend(history: seq<PolicyHistory>, entry: PolicyHistory, policyId: string)
    ensures HistoryOf(history + [entry], policyId) ==
              HistoryOf(history, policyId) + (if entry.policyId == policyId then [entry] else [])
  {
    FilterAppend(history, [entry], (h: PolicyHistory) => h.policyId == policyId);
  }
}

/**
 * Grouping of telemetry records: the `reduce` into a plain object used by
 * `groupByService`, and the same bucketing into a `Map` used for source IPs.
 */
module Grouping {
  import opened Wrappers
  import opened Js
  import opened OrderedMaps
  import opened Types

  /**
   * The properties every plain object inherits from `Object.prototype`.
   * Under such a key `acc[key]` is already truthy (a function, or the
   * prototype itself for `__proto__`) and has no `push` method.
   */
  const PrototypeNames: set<string> := {
    "constructor", "__defineGetter__", "__defineSetter__", "hasOwnProperty",
    "__lookupGetter__", "__lookupSetter__", "isPrototypeOf", "propertyIsEnumerable",
    "toString", "valueOf", "__proto__", "toLocaleString"
  }

  /** The error `groupByService` throws on such a key. */
  const PushError := "TypeError: acc[log.service].push is not a function"

  type Buckets = OrderedMap<string, seq<ParsedRequest>>

  /** One entry of `Object.entries(groups)`. */
  datatype Group = Group(key: string, logs: seq<ParsedRequest>)

  function Service(l: ParsedRequest): string { l.service }
  function SourceIp(l: ParsedRequest): string { l.sourceIp }

  /**
   * The buckets after pushing every record of `s`, in order, onto the list
   * under its key: keys in order of first appearance.
   */
  function Bucketed(s: seq<ParsedRequest>, key: ParsedRequest -> string): (r: Buckets)
    ensures r.Valid()
    decreases |s|
  {
    if s == [] then Empty()
    else
      var m := Bucketed(s[..|s| - 1], key);
      var l := s[|s| - 1];
      m.Set(key(l), m.Get(key(l)).GetOr([]) + [l])
  }

  /** The records of `s` under key `k`, in their original order. */
  function Matching(s: seq<ParsedRequest>, key: ParsedRequest -> string, k: string): seq<ParsedRequest> {
    Filter(s, (l: ParsedRequest) => key(l) == k)
  }

  /**
   * Bucketing partitions the records: a key has a bucket exactly when some
   * record carries it, and its bucket holds exactly those records, in order.
   */
  lemma {:induction false} BucketedPartition(s: seq<ParsedRequest>, key: ParsedRequest -> string)
    ensures forall k :: k in Bucketed(s, key).entries <==> exists l :: l in s && key(l) == k
    ensures forall k :: k in Bucketed(s, key).entries ==> Bucketed(s, key).entries[k] == Matching(s, key, k)
    ensures forall k :: k in Bucketed(s, key).entries ==> Bucketed(s, key).entries[k] != []
    decreases |s|
  {
    if s != [] {
      var init, l := s[..|s| - 1], s[|s| - 1];
      assert s == init + [l];
      BucketedPartition(init, key);
      PartitionStep(init, l, key);
    }
  }

  /** Pushing one more record keeps the partition. */
  lemma PartitionStep(init: seq<ParsedRequest>, l: ParsedRequest, key: ParsedRequest -> string)
    requires forall k :: k in Bucketed(init, key).entries <==> exists x :: x in init && key(x) == k
    requires forall k :: k in Bucketed(init, key).entries ==> Bucketed(init, key).entries[k] == Matching(init, key, k)
    requires forall k :: k in Bucketed(init, key).entries ==> Bucketed(init, key).entries[k] != []
    ensures forall k :: k in Bucketed(init + [l], key).entries <==> exists x :: x in init + [l] && key(x) == k
    ensures forall k :: k in Bucketed(init + [l], key).entries ==> Bucketed(init + [l], key).entries[k] == Matching(init + [l], key, k)
    ensures forall k :: k in Bucketed(init + [l], key).entries ==> Bucketed(init + [l], key).entries[k] != []
  {
    BucketedSnoc(init, l, key);
    StepKeys(init, l, key);
    forall k | k in Bucketed(init + [l], key).entries
      ensures Bucketed(init + [l], key).entries[k] == Matching(init + [l], key, k)
    {
      StepContents(init, l, key, k);
    }
    StepNonEmpty(init, l, key);
  }

  lemma StepNonEmpty(init: seq<ParsedRequest>, l: ParsedRequest, key: ParsedRequest -> string)
    requires forall k :: k in Bucketed(init, key).entries ==> Bucketed(init, key).entries[k] != []
    requires var m := Bucketed(init, key);
             Bucketed(init + [l], key).entries == m.entries[key(l) := m.Get(key(l)).GetOr([]) + [l]]
    ensures forall k :: k in Bucketed(init + [l], key).entries ==> Bucketed(init + [l], key).entries[k] != []
  {
  }

  /** The buckets after one more record, as a map. */
  lemma BucketedSnoc(init: seq<ParsedRequest>, l: ParsedRequest, key: ParsedRequest -> string)
    ensures var m := Bucketed(init, key);
            Bucketed(init + [l], key).entries == m.entries[key(l) := m.Get(key(l)).GetOr([]) + [l]]
  {
    assert (init + [l])[..|init + [l]| - 1] == init;
  }

  lemma StepKeys(init: seq<ParsedRequest>, l: ParsedRequest, key: ParsedRequest -> string)
    requires forall k :: k in Bucketed(init, key).entries <==> exists x :: x in init && key(x) == k
    requires var m := Bucketed(init, key);
             Bucketed(init + [l], key).entries == m.entries[key(l) := m.Get(key(l)).GetOr([]) + [l]]
    ensures forall k :: k in Bucketed(init + [l], key).entries <==> exists x :: x in init + [l] && key(x) == k
  {
    forall k ensures k in Bucketed(init + [l], key).entries <==> exists x :: x in init + [l] && key(x) == k {
      if exists x :: x in init + [l] && key(x) == k {
        var x :| x in init + [l] && key(x) == k;
        assert x in init || x == l;
      }
      if key(l) == k {
        assert l in init + [l];
      }
      if exists x :: x in init && key(x) == k {
        var x :| x in init && key(x) == k;
        assert x in init + [l];
      }
    }
  }

  lemma StepContents(init: seq<ParsedRequest>, l: ParsedRequest, key: ParsedRequest -> string, k: string)
    requires forall k :: k in Bucketed(init, key).entries <==> exists x :: x in init && key(x) == k
    requires forall k :: k in Bucketed(init, key).entries ==> Bucketed(init, key).entries[k] == Matching(init, key, k)
    requires var m := Bucketed(init, key);
             Bucketed(init + [l], key).entries == m.entries[key(l) := m.Get(key(l)).GetOr([]) + [l]]
    requires k in Bucketed(init + [l], key).entries
    ensures Bucketed(init + [l], key).entries[k] == Matching(init + [l], key, k)
  {
    var m := Bucketed(init, key);
    FilterAppend(init, [l], (x: ParsedRequest) => key(x) == k);
    assert Matching(init + [l], key, k) == Matching(init, key, k) + (if key(l) == k then [l] else []);
    if key(l) == k && k !in m.entries {
      FilterNone(init, (x: ParsedRequest) => key(x) == k);
    }
  }

  /** A key that names an array index (a canonical integer below 2^32 - 1). */
  predicate IsArrayIndex(k: string) {
    && |k| >= 1
    && (forall i :: 0 <= i < |k| ==> IsDigit(k[i]))
    && (k[0] == '0' ==> |k| == 1)
    && DecimalValue(k) < 0xFFFF_FFFF
  }

  function IndexValue(k: string): int {
    if IsArrayIndex(k) then -(DecimalValue(k) as int) else 0
  }

  /** A property key that is not an array index. */
  predicate IsNamedKey(k: string) { !IsArrayIndex(k) }

  /**
   * The order of `Object.entries` on a plain object: array-index keys first,
   * in ascending numeric order, then the other keys in insertion order.
   */
  function PropertyOrder(keys: seq<string>): (r: seq<string>)
    ensures multiset(r) == multiset(keys)
    ensures var n := |Filter(keys, IsArrayIndex)|;
      && n <= |r|
      && (forall i :: 0 <= i < n ==> IsArrayIndex(r[i]))
      && (forall i, j :: 0 <= i < j < n ==> DecimalValue(r[i]) <= DecimalValue(r[j]))
      && r[n..] == Filter(keys, IsNamedKey)
  {
    var indices := Filter(keys, IsArrayIndex);
    var names := Filter(keys, IsNamedKey);
    FilterCountSplit(keys, IsArrayIndex, IsNamedKey);
    var sorted := SortDesc(indices, IndexValue);
    SortedIndices(indices, sorted);
    assert (sorted + names)[|indices|..] == names;
    sorted + names
  }

  /** Every key of a permutation of the array-index keys is an array index. */
  lemma SortedIndices(indices: seq<string>, sorted: seq<string>)
    requires forall k :: k in indices ==> IsArrayIndex(k)
    requires multiset(sorted) == multiset(indices)
    ensures |sorted| == |indices|
    ensures forall i :: 0 <= i < |sorted| ==> IsArrayIndex(sorted[i])
  {
    assert |sorted| == |multiset(sorted)| == |multiset(indices)| == |indices|;
    forall i | 0 <= i < |sorted| ensures IsArrayIndex(sorted[i]) {
      assert sorted[i] in multiset(indices);
    }
  }

  /** Filtering by a predicate and by its negation splits a sequence's elements. */
  lemma {:induction false} FilterCountSplit<T>(s: seq<T>, p: T -> bool, q: T -> bool)
    requires forall x :: q(x) == !p(x)
    ensures multiset(Filter(s, p)) + multiset(Filter(s, q)) == multiset(s)
  {
    if s != [] {
      FilterCountSplit(s[1..], p, q);
      var x := s[0];
      assert s == [x] + s[1..];
      assert multiset(s) == multiset{x} + multiset(s[1..]);
      if p(x) {
        assert Filter(s, p) == [x] + Filter(s[1..], p);
        assert Filter(s, q) == Filter(s[1..], q);
      } else {
        assert Filter(s, p) == Filter(s[1..], p);
        assert Filter(s, q) == [x] + Filter(s[1..], q);
      }
    }
  }

  /** A permutation of a map's keys names only stored entries. */
  lemma OrderedKeysStored(m: Buckets, order: seq<string>)
    requires m.Valid() && multiset(order) == multiset(m.keys)
    ensures forall i :: 0 <= i < |order| ==> order[i] in m.entries
  {
    forall i | 0 <= i < |order| ensures order[i] in m.entries {
      assert order[i] in multiset(m.keys);
    }
  }

  /** `Object.entries` of the grouped object. */
  function Entries(m: Buckets): seq<Group>
    requires m.Valid()
  {
    var order := PropertyOrder(m.keys);
    OrderedKeysStored(m, order);
    seq(|order|, i requires 0 <= i < |order| => Group(order[i], m.entries[order[i]]))
  }

  /** Whether grouping `logs` by service reaches a service named after an inherited property. */
  predicate HitsPrototype(logs: seq<ParsedRequest>) {
    exists i :: 0 <= i < |logs| && logs[i].service in PrototypeNames
  }

  /** What `groupByService(logs)` returns then enumerates, or the error it throws. */
  function ServiceGroups(logs: seq<ParsedRequest>): (r: Result<seq<Group>, string>)
    ensures r.Failure? <==> HitsPrototype(logs)
  {
    if HitsPrototype(logs) then Failure(PushError) else Success(Entries(Bucketed(logs, Service)))
  }

  /**
   * Every group holds exactly its service's records in order and is never
   * empty; no service is listed twice; every record's service is listed.
   */
  lemma ServiceGroupsPartition(logs: seq<ParsedRequest>)
    requires ServiceGroups(logs).Success?
    ensures var gs := ServiceGroups(logs).value;
      && (forall i :: 0 <= i < |gs| ==> gs[i].logs == Matching(logs, Service, gs[i].key) && gs[i].logs != [])
      && (forall i, j :: 0 <= i < j < |gs| ==> gs[i].key != gs[j].key)
      && (forall l :: l in logs ==> exists i :: 0 <= i < |gs| && gs[i].key == l.service)
  {
    var m := Bucketed(logs, Service);
    BucketedPartition(logs, Service);
    var gs := Entries(m);
    var order := PropertyOrder(m.keys);
    forall i | 0 <= i < |gs| ensures gs[i].logs == Matching(logs, Service, gs[i].key) && gs[i].logs != [] {
      assert order[i] in multiset(m.keys);
    }
    forall i, j | 0 <= i < j < |gs| ensures gs[i].key != gs[j].key {
      DistinctPermutation(m.keys, order, i, j);
    }
    forall l | l in logs ensures exists i :: 0 <= i < |gs| && gs[i].key == l.service {
      assert l.service in m.entries;
      assert l.service in multiset(order);
      var i :| 0 <= i < |order| && order[i] == l.service;
      assert gs[i].key == l.service;
    }
  }

  /** A permutation of a duplicate-free sequence is duplicate-free. */
  lemma DistinctPermutation<T>(a: seq<T>, b: seq<T>, i: nat, j: nat)
    requires Distinct(a) && multiset(a) == multiset(b)
    requires i < j < |b|
    ensures b[i] != b[j]
  {
    if b[i] == b[j] {
      var x := b[i];
      assert b == b[..i] + [x] + b[i + 1..j] + [x] + b[j + 1..];
      assert multiset(b)[x] >= 2;
      DistinctCount(a, x);
      assert false;
    }
  }

  lemma {:induction false} DistinctCount<T>(a: seq<T>, x: T)
    requires Distinct(a)
    ensures multiset(a)[x] <= 1
  {
    if a != [] {
      DistinctTail(a);
      DistinctCount(a[1..], x);
      assert a == [a[0]] + a[1..];
    }
  }

  /**
   * `groupByService` as the reduce loop runs: each record is pushed onto its
   * service's list; the first record under an inherited property name throws.
   */
  method GroupByService(logs: seq<ParsedRequest>) returns (r: Result<seq<Group>, string>)
    ensures r == ServiceGroups(logs)
  {
    var acc: Buckets := Empty();
    for i := 0 to |logs|
      invariant acc == Bucketed(logs[..i], Service)
      invariant ThrowFree(logs, i)
    {
      var log := logs[i];
      if log.service in PrototypeNames {
        ThrowsAt(logs, i);
        return Failure(PushError);
      }
      BucketedPrefix(logs, i, Service);
      var existing := acc.Get(log.service);
      acc := acc.Set(log.service, existing.GetOr([]) + [log]);
    }
    NoThrow(logs);
    r := Success(Entries(acc));
  }

  /** No record before index `i` has an inherited property name as its service. */
  predicate ThrowFree(logs: seq<ParsedRequest>, i: nat)
    requires i <= |logs|
  {
    forall j :: 0 <= j < i ==> logs[j].service !in PrototypeNames
  }

  lemma ThrowsAt(logs: seq<ParsedRequest>, i: nat)
    requires i < |logs| && logs[i].service in PrototypeNames
    ensures ServiceGroups(logs) == Failure(PushError)
  {
  }

  lemma NoThrow(logs: seq<ParsedRequest>)
    requires ThrowFree(logs, |logs|)
    ensures ServiceGroups(logs) == Success(Entries(Bucketed(logs[..|logs|], Service)))
  {
    assert logs[..|logs|] == logs;
  }

  /** The `Map` of records by source IP that `detectSuspiciousPattern` fills with `forEach`. */
  method GroupBySourceIp(logs: seq<ParsedRequest>) returns (groups: Buckets)
    ensures groups == Bucketed(logs, SourceIp)
  {
    groups := Empty();
    for i := 0 to |logs|
      invariant groups == Bucketed(logs[..i], SourceIp)
    {
      var log := logs[i];
      BucketedPrefix(logs, i, SourceIp);
      var before := groups;
      if log.sourceIp !in groups.entries {
        groups := groups.Set(log.sourceIp, []);
      }
      var arr := groups.Get(log.sourceIp);
      PushOnto(before, log.sourceIp, log);
      groups := groups.Set(log.sourceIp, arr.value + [log]);
    }
    assert logs[..|logs|] == logs;
  }

  /** One more record of `logs` pushes it under its key. */
  lemma BucketedPrefix(logs: seq<ParsedRequest>, i: nat, key: ParsedRequest -> string)
    requires i < |logs|
    ensures var m := Bucketed(logs[..i], key);
            Bucketed(logs[..i + 1], key) == m.Set(key(logs[i]), m.Get(key(logs[i])).GetOr([]) + [logs[i]])
  {
    assert logs[..i + 1][..i] == logs[..i];
  }

  /** Creating an empty list when the key is missing, then pushing onto it, is one push. */
  lemma PushOnto(m: Buckets, k: string, l: ParsedRequest)
    requires m.Valid()
    ensures var g := if k !in m.entries then m.Set(k, []) else m;
            && g.Get(k).Some?
            && g.Set(k, g.Get(k).value + [l]) == m.Set(k, m.Get(k).GetOr([]) + [l])
  {
    if k !in m.entries {
      SetTwice(m, k, [], [l]);
    }
  }
}

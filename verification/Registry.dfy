// crates/dandori-app-services/src/worker/registry.rs: the versioned handler registry.
module Registry {
  import opened Base

  const U32_MAX: nat := 0xFFFF_FFFF

  // A handler is known by its event type, its schema version and its identity.
  datatype Handler = Handler(eventType: string, schemaVersion: nat, identity: Uuid)

  type Versions = seq<(nat, Handler)>

  // ----- Vec::sort_by_key, a stable sort

  ghost predicate Sorted(s: Versions) {
    forall i, j :: 0 <= i < j < |s| ==> s[i].0 <= s[j].0
  }

  function Position(s: Versions, key: nat): (p: nat)
    ensures p <= |s|
    ensures forall i :: 0 <= i < p ==> s[i].0 <= key
    ensures p < |s| ==> key < s[p].0
  {
    if s == [] || key < s[0].0 then 0 else 1 + Position(s[1..], key)
  }

  function Inserted<T>(s: seq<T>, p: nat, x: T): (r: seq<T>)
    requires p <= |s|
    ensures |r| == |s| + 1 && r[p] == x
    ensures forall i :: 0 <= i < p ==> r[i] == s[i]
    ensures forall i :: p < i < |r| ==> r[i] == s[i - 1]
  {
    s[..p] + [x] + s[p..]
  }

  function InsertSorted(s: Versions, x: (nat, Handler)): Versions {
    Inserted(s, Position(s, x.0), x)
  }

  function StableSort(s: Versions): Versions {
    if s == [] then [] else InsertSorted(StableSort(s[..|s| - 1]), s[|s| - 1])
  }

  function WithVersion(s: Versions, v: nat): Versions {
    if s == [] then [] else WithVersion(s[..|s| - 1], v) + (if s[|s| - 1].0 == v then [s[|s| - 1]] else [])
  }

  lemma {:induction false} WithVersionConcat(a: Versions, b: Versions, v: nat)
    ensures WithVersion(a + b, v) == WithVersion(a, v) + WithVersion(b, v)
    decreases |b|
  {
    if b == [] {
      assert a + b == a;
    } else {
      assert (a + b)[..|a + b| - 1] == a + b[..|b| - 1];
      WithVersionConcat(a, b[..|b| - 1], v);
    }
  }

  lemma {:induction false} WithVersionNone(s: Versions, v: nat)
    requires forall i :: 0 <= i < |s| ==> s[i].0 != v
    ensures WithVersion(s, v) == []
    decreases |s|
  {
    if s != [] {
      WithVersionNone(s[..|s| - 1], v);
    }
  }

  lemma InsertKeepsSorted(s: Versions, x: (nat, Handler))
    requires Sorted(s)
    ensures Sorted(InsertSorted(s, x))
  {
  }

  lemma {:induction false} InsertKeepsVersions(s: Versions, x: (nat, Handler), v: nat)
    requires Sorted(s)
    ensures WithVersion(InsertSorted(s, x), v) == WithVersion(s, v) + (if x.0 == v then [x] else [])
  {
    var p := Position(s, x.0);
    assert s == s[..p] + s[p..];
    InsertBetween(s[..p], x, s[p..], v);
  }

  lemma {:induction false} InsertBetween(a: Versions, x: (nat, Handler), b: Versions, v: nat)
    requires forall i :: 0 <= i < |b| ==> x.0 < b[i].0
    ensures WithVersion(a + [x] + b, v) == WithVersion(a + b, v) + (if x.0 == v then [x] else [])
  {
    WithVersionConcat(a + [x], b, v);
    WithVersionConcat(a, [x], v);
    WithVersionConcat(a, b, v);
    WithVersionOne(x, v);
    if x.0 == v {
      WithVersionNone(b, v);
    }
  }

  lemma {:induction false} WithVersionOne(x: (nat, Handler), v: nat)
    ensures WithVersion([x], v) == if x.0 == v then [x] else []
  {
    assert [x][..0] == [];
  }

  // The result is in order of version, and equal versions keep their order.
  lemma {:induction false} StableSortSortsStably(s: Versions, v: nat)
    ensures Sorted(StableSort(s))
    ensures WithVersion(StableSort(s), v) == WithVersion(s, v)
    ensures |StableSort(s)| == |s|
    decreases |s|
  {
    if s != [] {
      StableSortSortsStably(s[..|s| - 1], v);
      InsertKeepsSorted(StableSort(s[..|s| - 1]), s[|s| - 1]);
      InsertKeepsVersions(StableSort(s[..|s| - 1]), s[|s| - 1], v);
    }
  }

  lemma InsertAtEnd(s: Versions, x: (nat, Handler))
    requires forall i :: 0 <= i < |s| ==> s[i].0 <= x.0
    ensures InsertSorted(s, x) == s + [x]
  {
    assert Position(s, x.0) == |s|;
  }

  lemma {:induction false} StableSortOfSorted(s: Versions)
    requires Sorted(s)
    ensures StableSort(s) == s
    decreases |s|
  {
    if s != [] {
      var init, x := s[..|s| - 1], s[|s| - 1];
      StableSortOfSorted(init);
      InsertAtEnd(init, x);
      assert init + [x] == s;
    }
  }

  // Pushing onto a sorted vector and sorting again inserts behind the equal versions.
  lemma PushAndSort(s: Versions, x: (nat, Handler)) returns (p: nat)
    requires Sorted(s)
    ensures p <= |s|
    ensures forall i :: 0 <= i < p ==> s[i].0 <= x.0
    ensures forall i :: p <= i < |s| ==> x.0 < s[i].0
    ensures StableSort(s + [x]) == Inserted(s, p, x)
  {
    var t := s + [x];
    assert t[..|t| - 1] == s && t[|t| - 1] == x;
    StableSortOfSorted(s);
    p := Position(s, x.0);
  }

  // ----- what resolving means, in terms of the registrations alone

  ghost predicate Usable(h: Handler, eventType: string, version: nat) {
    h.eventType == eventType && h.schemaVersion <= version
  }

  // The i-th registration is the latest among those with the greatest usable version.
  ghost predicate Best(registered: seq<Handler>, i: nat, eventType: string, version: nat) {
    && i < |registered| && Usable(registered[i], eventType, version)
    && forall j :: 0 <= j < |registered| && Usable(registered[j], eventType, version) ==>
         || registered[j].schemaVersion < registered[i].schemaVersion
         || (registered[j].schemaVersion == registered[i].schemaVersion && j <= i)
  }

  ghost predicate Resolves(registered: seq<Handler>, eventType: string, version: nat, r: Option<Handler>) {
    match r
    case None => forall j :: 0 <= j < |registered| ==> !Usable(registered[j], eventType, version)
    case Some(h) => exists i: nat :: Best(registered, i, eventType, version) && registered[i] == h
  }

  // There is only one such answer.
  lemma ResolvesIsUnique(
    registered: seq<Handler>, eventType: string, version: nat, r: Option<Handler>, q: Option<Handler>)
    requires Resolves(registered, eventType, version, r) && Resolves(registered, eventType, version, q)
    ensures r == q
  {
  }

  ghost predicate FoundAt(s: Versions, k: int, version: nat, h: Handler) {
    0 <= k < |s| && s[k].0 <= version && s[k].1 == h && forall i :: k < i < |s| ==> version < s[i].0
  }

  lemma FoundEarlier(s: Versions, before: Versions, version: nat, r: Option<Handler>)
    requires s != [] && before == s[..|s| - 1] && version < s[|s| - 1].0
    requires r.Some? ==> exists k :: FoundAt(before, k, version, r.value)
    ensures r.Some? ==> exists k :: FoundAt(s, k, version, r.value)
  {
    if r.Some? {
      var k :| FoundAt(before, k, version, r.value);
      assert FoundAt(s, k, version, r.value);
    }
  }

  // versions.iter().rev().find(|(v, _)| *v <= version)
  function LastAtMost(s: Versions, version: nat): (r: Option<Handler>)
    ensures r.None? <==> forall i :: 0 <= i < |s| ==> version < s[i].0
    ensures r.Some? ==> exists k :: FoundAt(s, k, version, r.value)
    decreases |s|
  {
    if s == [] then None
    else if s[|s| - 1].0 <= version then
      assert FoundAt(s, |s| - 1, version, s[|s| - 1].1);
      Some(s[|s| - 1].1)
    else
      var r := LastAtMost(s[..|s| - 1], version);
      FoundEarlier(s, s[..|s| - 1], version, r);
      r
  }

  // The entries of one type, each with the position of its registration: all registrations
  // of that type, by version and then by position.
  ghost predicate Indexed(versions: Versions, at: seq<nat>, registered: seq<Handler>, eventType: string) {
    && |at| == |versions|
    && EntriesAt(versions, at, registered, eventType)
    && Ordered(versions, at)
    && (forall j :: 0 <= j < |registered| && registered[j].eventType == eventType ==> j in at)
  }

  ghost predicate EntriesAt(versions: Versions, at: seq<nat>, registered: seq<Handler>, eventType: string)
    requires |at| == |versions|
  {
    forall k :: 0 <= k < |at| ==>
      && at[k] < |registered| && registered[at[k]] == versions[k].1
      && versions[k].1.eventType == eventType && versions[k].0 == versions[k].1.schemaVersion
  }

  ghost predicate Ordered(versions: Versions, at: seq<nat>)
    requires |at| == |versions|
  {
    forall k, l :: 0 <= k < l < |at| ==>
      versions[k].0 < versions[l].0 || (versions[k].0 == versions[l].0 && at[k] < at[l])
  }

  lemma IndexedIsSorted(versions: Versions, at: seq<nat>, registered: seq<Handler>, eventType: string)
    requires Indexed(versions, at, registered, eventType)
    ensures Sorted(versions)
  {
  }

  lemma IndexedPush(versions: Versions, at: seq<nat>, registered: seq<Handler>, h: Handler, after: Versions)
    returns (at': seq<nat>)
    requires Indexed(versions, at, registered, h.eventType)
    requires after == StableSort(versions + [(h.schemaVersion, h)])
    ensures Indexed(after, at', registered + [h], h.eventType)
  {
    IndexedIsSorted(versions, at, registered, h.eventType);
    var p := PushAndSort(versions, (h.schemaVersion, h));
    at' := Inserted(at, p, |registered|);
    IndexedInsert(versions, at, registered, h, p, after, at');
  }

  lemma IndexedInsert(
    versions: Versions, at: seq<nat>, registered: seq<Handler>, h: Handler, p: nat, after: Versions, at': seq<nat>)
    requires Indexed(versions, at, registered, h.eventType)
    requires p <= |versions|
    requires forall i :: 0 <= i < p ==> versions[i].0 <= h.schemaVersion
    requires forall i :: p <= i < |versions| ==> h.schemaVersion < versions[i].0
    requires after == Inserted(versions, p, (h.schemaVersion, h)) && at' == Inserted(at, p, |registered|)
    ensures Indexed(after, at', registered + [h], h.eventType)
  {
    InsertedKeepsOrder(versions, at, (h.schemaVersion, h), |registered|, p);
    forall j | 0 <= j < |registered + [h]| && (registered + [h])[j].eventType == h.eventType ensures j in at' {
      InsertedKeepsMembers(at, p, |registered|, j);
    }
  }

  lemma InsertedKeepsMembers(at: seq<nat>, p: nat, x: nat, j: nat)
    requires p <= |at| && (j in at || j == x)
    ensures j in Inserted(at, p, x)
  {
    if j == x {
      assert Inserted(at, p, x)[p] == j;
    } else {
      var k :| 0 <= k < |at| && at[k] == j;
      assert Inserted(at, p, x)[if k < p then k else k + 1] == j;
    }
  }

  lemma InsertedKeepsOrder(versions: Versions, at: seq<nat>, x: (nat, Handler), position: nat, p: nat)
    requires |at| == |versions| && Ordered(versions, at) && p <= |versions|
    requires forall i :: 0 <= i < p ==> versions[i].0 <= x.0
    requires forall i :: p <= i < |versions| ==> x.0 < versions[i].0
    requires forall k :: 0 <= k < |at| ==> at[k] < position
    ensures Ordered(Inserted(versions, p, x), Inserted(at, p, position))
  {
    var after, at' := Inserted(versions, p, x), Inserted(at, p, position);
    forall k, l | 0 <= k < l < |at'|
      ensures after[k].0 < after[l].0 || (after[k].0 == after[l].0 && at'[k] < at'[l])
    {
      var k0, l0 := if k < p then k else k - 1, if l < p then l else l - 1;
      if k != p && l != p {
        assert after[k] == versions[k0] && after[l] == versions[l0];
      }
    }
  }

  lemma IndexedOther(versions: Versions, at: seq<nat>, registered: seq<Handler>, h: Handler, eventType: string)
    requires Indexed(versions, at, registered, eventType) && h.eventType != eventType
    ensures Indexed(versions, at, registered + [h], eventType)
  {
  }

  // The scan of one type's vector already gives the whole answer.
  lemma {:induction false} ScanResolves(
    versions: Versions, at: seq<nat>, registered: seq<Handler>, eventType: string, version: nat)
    requires Indexed(versions, at, registered, eventType)
    ensures Resolves(registered, eventType, version, LastAtMost(versions, version))
  {
    var r := LastAtMost(versions, version);
    if r.None? {
      forall j | 0 <= j < |registered| ensures !Usable(registered[j], eventType, version) {
        if registered[j].eventType == eventType {
          var k :| 0 <= k < |at| && at[k] == j;
          assert version < versions[k].0;
        }
      }
    } else {
      var k :| FoundAt(versions, k, version, r.value);
      forall j | 0 <= j < |registered| && Usable(registered[j], eventType, version)
        ensures registered[j].schemaVersion < registered[at[k]].schemaVersion
          || (registered[j].schemaVersion == registered[at[k]].schemaVersion && j <= at[k])
      {
        var l :| 0 <= l < |at| && at[l] == j;
        assert versions[l].0 <= version;
      }
      assert Best(registered, at[k], eventType, version);
    }
  }

  // The latest registration of exactly this version wins over every other usable one.
  ghost predicate LatestExact(registered: seq<Handler>, i: nat, eventType: string, version: nat) {
    && i < |registered| && registered[i].eventType == eventType && registered[i].schemaVersion == version
    && forall j :: i < j < |registered| ==>
      !(registered[j].eventType == eventType && registered[j].schemaVersion == version)
  }

  ghost predicate KeyIndexed(byKey: map<(string, nat), Handler>, registered: seq<Handler>) {
    && (forall j :: 0 <= j < |registered| ==> (registered[j].eventType, registered[j].schemaVersion) in byKey)
    && (forall k :: k in byKey ==> exists i: nat :: LatestExact(registered, i, k.0, k.1) && registered[i] == byKey[k])
  }

  lemma KeyIndexedPush(byKey: map<(string, nat), Handler>, registered: seq<Handler>, h: Handler)
    requires KeyIndexed(byKey, registered)
    ensures KeyIndexed(byKey[(h.eventType, h.schemaVersion) := h], registered + [h])
  {
    var after, all := byKey[(h.eventType, h.schemaVersion) := h], registered + [h];
    forall k | k in after ensures exists i: nat :: LatestExact(all, i, k.0, k.1) && all[i] == after[k] {
      if k == (h.eventType, h.schemaVersion) {
        assert LatestExact(all, |registered|, k.0, k.1);
      } else {
        var i: nat :| LatestExact(registered, i, k.0, k.1) && registered[i] == byKey[k];
        assert LatestExact(all, i, k.0, k.1);
      }
    }
  }

  ghost predicate TypesIndexed(byType: map<string, Versions>, at: map<string, seq<nat>>, registered: seq<Handler>) {
    && at.Keys == byType.Keys
    && (forall t :: t in byType ==> Indexed(byType[t], at[t], registered, t))
    && (forall j :: 0 <= j < |registered| ==> registered[j].eventType in byType)
  }

  function VersionsOf(byType: map<string, Versions>, eventType: string): Versions {
    if eventType in byType then byType[eventType] else []
  }

  lemma TypesIndexedPush(byType: map<string, Versions>, at: map<string, seq<nat>>, registered: seq<Handler>, h: Handler)
    returns (positions: seq<nat>)
    requires TypesIndexed(byType, at, registered)
    ensures TypesIndexed(
      byType[h.eventType := StableSort(VersionsOf(byType, h.eventType) + [(h.schemaVersion, h)])],
      at[h.eventType := positions], registered + [h])
  {
    var versions := VersionsOf(byType, h.eventType);
    positions := if h.eventType in at then at[h.eventType] else [];
    assert Indexed(versions, positions, registered, h.eventType);
    positions := IndexedPush(versions, positions, registered, h, StableSort(versions + [(h.schemaVersion, h)]));
    forall t | t in byType && t != h.eventType ensures Indexed(byType[t], at[t], registered + [h], t) {
      IndexedOther(byType[t], at[t], registered, h, t);
    }
  }

  class OutboxRegistry {
    var byKey: map<(string, nat), Handler>
    var byType: map<string, Versions>
    // Every registration so far, oldest first, and where each vector entry came from.
    ghost var registered: seq<Handler>
    ghost var at: map<string, seq<nat>>

    ghost predicate Valid()
      reads this
    {
      KeyIndexed(byKey, registered) && TypesIndexed(byType, at, registered)
    }

    constructor ()
      ensures Valid() && registered == []
    {
      byKey, byType := map[], map[];
      registered, at := [], map[];
    }

    method Register(h: Handler)
      requires Valid()
      modifies this
      ensures Valid() && registered == old(registered) + [h]
    {
      KeyIndexedPush(byKey, registered, h);
      byKey := byKey[(h.eventType, h.schemaVersion) := h];
      ghost var positions := TypesIndexedPush(byType, at, registered, h);
      var versions := VersionsOf(byType, h.eventType);
      versions := versions + [(h.schemaVersion, h)];
      versions := StableSort(versions);
      byType := byType[h.eventType := versions];
      at := at[h.eventType := positions];
      registered := registered + [h];
    }

    function Scan(eventType: string, version: nat): Option<Handler>
      reads this
    {
      if eventType in byType then LastAtMost(byType[eventType], version) else None
    }

    lemma ScanAnswers(eventType: string, version: nat)
      requires Valid()
      ensures Resolves(registered, eventType, version, Scan(eventType, version))
    {
      if eventType in byType {
        ScanResolves(byType[eventType], at[eventType], registered, eventType, version);
      }
    }

    // Resolving answers from the registrations alone, and as the vector scan would: the
    // exact-match index is only a shortcut.
    method Resolve(eventType: string, version: nat) returns (r: Option<Handler>)
      requires Valid()
      ensures Resolves(registered, eventType, version, r)
      ensures r == Scan(eventType, version)
    {
      ScanAnswers(eventType, version);
      if (eventType, version) in byKey {
        r := Some(byKey[(eventType, version)]);
        ghost var i: nat :| LatestExact(registered, i, eventType, version) && registered[i] == r.value;
        assert Best(registered, i, eventType, version);
        ResolvesIsUnique(registered, eventType, version, r, Scan(eventType, version));
        return;
      }
      if eventType !in byType {
        return None;
      }
      r := LastAtMost(byType[eventType], version);
    }

    // The message is handed to the resolved handler, or refused as unsupported exactly when
    // no registered handler of its type covers its schema version.
    method Dispatch(eventType: string, field: SchemaField) returns (d: Dispatched)
      requires Valid()
      ensures d.Unsupported? <==>
        forall j :: 0 <= j < |registered| ==> !Usable(registered[j], eventType, EffectiveVersion(field))
      ensures d.HandledBy? ==> Resolves(registered, eventType, EffectiveVersion(field), Some(d.handler))
    {
      var version := ResolveSchemaVersion(field);
      var r := Resolve(eventType, if version.Some? then version.value else 1);
      d := if r.Some? then HandledBy(r.value) else Unsupported;
    }
  }

  // The payload's schema_version member: absent, not an unsigned integer, or one.
  datatype SchemaField = Absent | NotUnsigned | Unsigned(value: nat)

  datatype Dispatched = HandledBy(handler: Handler) | Unsupported

  function ResolveSchemaVersion(field: SchemaField): Option<nat> {
    if field.Unsigned? && field.value <= U32_MAX then Some(field.value) else None
  }

  // The first schema version, unless the payload names one that fits 32 bits.
  ghost function EffectiveVersion(field: SchemaField): nat {
    match field
    case Unsigned(v) => if v <= 0xFFFF_FFFF then v else 1
    case _ => 1
  }
}

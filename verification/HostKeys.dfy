/** Trust on first use of SSH host keys: the list in the browser's database
    (internal/terminal/adapter/indexeddb.go) and the callback that checks hosts against it
    (`buildHostKeyCallback` in internal/terminal/controller/session.go). The list is
    changed at the first match of a name and read back into a map where the last match
    wins. Whether the database fails is an input of each operation. */
module HostKeys {
  import opened Types

  datatype Entry<T> = Entry(name: string, value: T)

  /** A known host with its fingerprint. */
  type KnownHost = Entry<string>

  datatype SshKey = SshKey(kind: string, publicKey: string, privateKey: string, encrypted: bool)

  datatype StoreError = TransactionError | NotFound

  datatype Outcome = Ok | Failed(error: StoreError)

  // ---- Lists of named entries ----

  function Upsert<T>(list: seq<Entry<T>>, e: Entry<T>): seq<Entry<T>> {
    if list == [] then [e]
    else if list[0].name == e.name then [e] + list[1..]
    else [list[0]] + Upsert(list[1..], e)
  }

  function Without<T>(list: seq<Entry<T>>, name: string): seq<Entry<T>> {
    if list == [] then []
    else if list[0].name != name then [list[0]] + Without(list[1..], name)
    else Without(list[1..], name)
  }

  function Find<T>(list: seq<Entry<T>>, name: string): Option<T> {
    if list == [] then None
    else if list[0].name == name then Some(list[0].value)
    else Find(list[1..], name)
  }

  function MapView<T>(list: seq<Entry<T>>): map<string, T> {
    if list == [] then map[]
    else MapView(list[..|list| - 1])[list[|list| - 1].name := list[|list| - 1].value]
  }

  function Occurrences<T>(list: seq<Entry<T>>, name: string): nat {
    if list == [] then 0 else (if list[0].name == name then 1 else 0) + Occurrences(list[1..], name)
  }

  predicate Unique<T>(list: seq<Entry<T>>) {
    forall i, j :: 0 <= i < j < |list| ==> list[i].name != list[j].name
  }

  /** The map view seen from the front: later entries win. */
  lemma {:induction false} MapViewHead<T>(list: seq<Entry<T>>)
    requires list != []
    ensures MapView(list) == map[list[0].name := list[0].value] + MapView(list[1..])
  {
    var n := |list| - 1;
    if n > 0 {
      MapViewHead(list[..n]);
      assert list[..n][1..] == list[1..][..n - 1];
      assert list[1..][n - 1] == list[n];
    } else {
      assert list[..0] == [] && list[1..] == [];
    }
  }

  lemma {:induction false} MapViewNames<T>(list: seq<Entry<T>>, name: string)
    ensures name in MapView(list) <==> Occurrences(list, name) > 0
  {
    if list != [] {
      MapViewHead(list);
      MapViewNames(list[1..], name);
    }
  }

  /** An upsert touches no other name ... */
  lemma {:induction false} UpsertElsewhere<T>(list: seq<Entry<T>>, e: Entry<T>, name: string)
    requires name != e.name
    ensures name in MapView(Upsert(list, e)) <==> name in MapView(list)
    ensures name in MapView(list) ==> MapView(Upsert(list, e))[name] == MapView(list)[name]
    ensures Find(Upsert(list, e), name) == Find(list, name)
  {
    var new_ := Upsert(list, e);
    MapViewHead(new_);
    if list != [] {
      MapViewHead(list);
      if list[0].name == e.name {
        assert new_[1..] == list[1..];
      } else {
        assert new_[1..] == Upsert(list[1..], e);
        UpsertElsewhere(list[1..], e, name);
      }
    } else {
      assert new_[1..] == [];
    }
  }

  /** ... and the map view agrees about its own name if and only if that name occurred at
      most once before, or had the new value already. */
  lemma {:induction false} UpsertHere<T>(list: seq<Entry<T>>, e: Entry<T>)
    ensures e.name in MapView(Upsert(list, e))
    ensures Occurrences(list, e.name) > 0 ==> e.name in MapView(list)
    ensures MapView(Upsert(list, e))[e.name] == e.value <==>
            Occurrences(list, e.name) <= 1 || MapView(list)[e.name] == e.value
    ensures Find(Upsert(list, e), e.name) == Some(e.value)
  {
    var new_ := Upsert(list, e);
    MapViewHead(new_);
    MapViewNames(list, e.name);
    if list == [] {
      assert new_[1..] == [];
    } else {
      MapViewHead(list);
      MapViewNames(list[1..], e.name);
      if list[0].name == e.name {
        assert new_[1..] == list[1..];
      } else {
        assert new_[1..] == Upsert(list[1..], e);
        UpsertHere(list[1..], e);
      }
    }
  }

  lemma {:induction false} UniqueOccursOnce<T>(list: seq<Entry<T>>, name: string)
    requires Unique(list)
    ensures Occurrences(list, name) <= 1
    ensures (forall i :: 0 <= i < |list| ==> list[i].name != name) ==> Occurrences(list, name) == 0
  {
    if list != [] {
      var rest := list[1..];
      assert forall i :: 0 <= i < |rest| ==> rest[i] == list[i + 1];
      UniqueOccursOnce(rest, name);
    }
  }

  lemma {:induction false} UpsertNames<T>(list: seq<Entry<T>>, e: Entry<T>, i: nat)
    requires i < |Upsert(list, e)|
    ensures Upsert(list, e)[i].name == e.name || exists j :: 0 <= j < |list| && list[j].name == Upsert(list, e)[i].name
  {
    if list != [] && list[0].name != e.name && i > 0 {
      UpsertNames(list[1..], e, i - 1);
      if Upsert(list, e)[i].name != e.name {
        var j :| 0 <= j < |list[1..]| && list[1..][j].name == Upsert(list[1..], e)[i - 1].name;
        assert list[j + 1].name == Upsert(list, e)[i].name;
      }
    }
  }

  lemma {:induction false} UpsertKeepsUnique<T>(list: seq<Entry<T>>, e: Entry<T>)
    requires Unique(list)
    ensures Unique(Upsert(list, e))
  {
    if list != [] && list[0].name != e.name {
      UpsertKeepsUnique(list[1..], e);
      var rest := Upsert(list[1..], e);
      forall i | 0 <= i < |rest| ensures rest[i].name != list[0].name {
        UpsertNames(list[1..], e, i);
      }
    }
  }

  /** With unique names, first match and last match are one: an upsert of the list is an
      update of the map. */
  lemma UpsertIsMapUpdate<T>(list: seq<Entry<T>>, e: Entry<T>)
    requires Unique(list)
    ensures Unique(Upsert(list, e)) && MapView(Upsert(list, e)) == MapView(list)[e.name := e.value]
  {
    UpsertKeepsUnique(list, e);
    UniqueOccursOnce(list, e.name);
    UpsertHere(list, e);
    forall name | name != e.name
      ensures name in MapView(Upsert(list, e)) <==> name in MapView(list)
      ensures name in MapView(list) ==> MapView(Upsert(list, e))[name] == MapView(list)[name]
    {
      UpsertElsewhere(list, e, name);
    }
  }

  /** A deleted name is not found again, every other name is found as before. */
  lemma {:induction false} FindWithout<T>(list: seq<Entry<T>>, name: string, other: string)
    ensures Find(Without(list, name), other) == if other == name then None else Find(list, other)
  {
    if list != [] {
      FindWithout(list[1..], name, other);
      if list[0].name != name {
        assert Without(list, name)[1..] == Without(list[1..], name);
      }
    }
  }

  /** An upsert replaces the first entry of the name, in its place, or appends. */
  lemma {:induction false} UpsertIs<T>(list: seq<Entry<T>>, e: Entry<T>, i: nat)
    requires i <= |list| && (forall j :: 0 <= j < i ==> list[j].name != e.name)
    requires i < |list| ==> list[i].name == e.name
    ensures Upsert(list, e) == if i < |list| then list[i := e] else list + [e]
  {
    if i > 0 { UpsertIs(list[1..], e, i - 1); }
  }

  /** A deletion takes away all entries of the name and no other. */
  lemma {:induction false} WithoutIs<T>(list: seq<Entry<T>>, name: string, e: Entry<T>)
    ensures multiset(Without(list, name))[e] == if e.name == name then 0 else multiset(list)[e]
  {
    if list != [] {
      WithoutIs(list[1..], name, e);
      assert list == [list[0]] + list[1..];
    }
  }

  // ---- The store ----

  function ListOf<T>(stored: Option<seq<Entry<T>>>): seq<Entry<T>> {
    if stored.Some? then stored.value else []
  }

  class KeyStore {
    var hosts: Option<seq<KnownHost>>
    var keys: Option<seq<Entry<SshKey>>>

    method ListHosts(getFails: bool) returns (list: seq<KnownHost>, r: Outcome)
      ensures r == if getFails then Failed(TransactionError) else Ok
      ensures list == if getFails then [] else ListOf(hosts)
    {
      if getFails {
        return [], Failed(TransactionError);
      }
      if hosts.None? {
        return [], Ok;
      }
      return hosts.value, Ok;
    }

    method SaveHost(host: KnownHost, getFails: bool, setFails: bool) returns (r: Outcome)
      modifies this`hosts
      ensures getFails || setFails ==> hosts == old(hosts) && r == Failed(TransactionError)
      ensures !getFails && !setFails ==> hosts == Some(Upsert(ListOf(old(hosts)), host)) && r == Ok
    {
      var list, err := ListHosts(getFails);
      if err.Failed? {
        return err;
      }
      list := UpsertLoop(list, host);
      if setFails {
        return Failed(TransactionError);
      }
      hosts := Some(list);
      r := Ok;
    }

    method ListKeys(getFails: bool) returns (list: seq<Entry<SshKey>>, r: Outcome)
      ensures r == if getFails then Failed(TransactionError) else Ok
      ensures list == if getFails then [] else ListOf(keys)
    {
      if getFails {
        return [], Failed(TransactionError);
      }
      if keys.None? {
        return [], Ok;
      }
      return keys.value, Ok;
    }

    method SaveKey(key: Entry<SshKey>, getFails: bool, setFails: bool) returns (r: Outcome)
      modifies this`keys
      ensures getFails || setFails ==> keys == old(keys) && r == Failed(TransactionError)
      ensures !getFails && !setFails ==> keys == Some(Upsert(ListOf(old(keys)), key)) && r == Ok
    {
      var list, err := ListKeys(getFails);
      if err.Failed? {
        return err;
      }
      list := UpsertLoop(list, key);
      if setFails {
        return Failed(TransactionError);
      }
      keys := Some(list);
      r := Ok;
    }

    method GetKey(name: string, getFails: bool) returns (key: Option<SshKey>, r: Outcome)
      ensures getFails ==> key == None && r == Failed(TransactionError)
      ensures !getFails ==> key == Find(ListOf(keys), name) && r == if key.None? then Failed(NotFound) else Ok
    {
      var list, err := ListKeys(getFails);
      if err.Failed? {
        return None, err;
      }
      for i := 0 to |list|
        invariant Find(list, name) == Find(list[i..], name)
      {
        assert list[i..][1..] == list[i + 1..];
        if list[i].name == name {
          return Some(list[i].value), Ok;
        }
      }
      return None, Failed(NotFound);
    }

    method DeleteKey(name: string, getFails: bool, setFails: bool) returns (r: Outcome)
      modifies this`keys
      ensures getFails || setFails ==> keys == old(keys) && r == Failed(TransactionError)
      ensures !getFails && !setFails ==> keys == Some(Without(ListOf(old(keys)), name)) && r == Ok
    {
      var list, err := ListKeys(getFails);
      if err.Failed? {
        return err;
      }
      var filtered: seq<Entry<SshKey>> := [];
      for i := 0 to |list|
        invariant filtered + Without(list[i..], name) == Without(list, name)
      {
        assert list[i..][1..] == list[i + 1..];
        if list[i].name != name {
          filtered := filtered + [list[i]];
        }
      }
      assert filtered + Without(list[|list|..], name) == filtered;
      if setFails {
        return Failed(TransactionError);
      }
      keys := Some(filtered);
      r := Ok;
    }
  }

  /** The loop of SaveHost and SaveKey. */
  method UpsertLoop<T>(list: seq<Entry<T>>, e: Entry<T>) returns (result: seq<Entry<T>>)
    ensures result == Upsert(list, e)
  {
    for i := 0 to |list|
      invariant Upsert(list, e) == list[..i] + Upsert(list[i..], e)
    {
      assert list[i..][1..] == list[i + 1..];
      if list[i].name == e.name {
        return list[i := e];
      }
    }
    result := list + [e];
  }

  // ---- The callback ----

  class HostKeyCallback {
    const store: KeyStore
    var hostMap: map<string, string>

    /** `buildHostKeyCallback` once the list has been read. */
    constructor (store: KeyStore, knownHosts: seq<KnownHost>)
      ensures this.store == store && hostMap == MapView(knownHosts)
    {
      this.store := store;
      hostMap := map[];
      new;
      for i := 0 to |knownHosts|
        invariant hostMap == MapView(knownHosts[..i])
      {
        assert knownHosts[..i + 1][..i] == knownHosts[..i];
        hostMap := hostMap[knownHosts[i].name := knownHosts[i].value];
      }
      assert knownHosts[..|knownHosts|] == knownHosts;
    }

    method Check(hostname: string, fp: string, getFails: bool, setFails: bool) returns (accepted: bool)
      modifies this, store`hosts
      ensures accepted == Accepts(old(hostMap), Call(hostname, fp, getFails || setFails))
      ensures Trust(store.hosts, hostMap) == Next(old(Trust(store.hosts, hostMap)), Call(hostname, fp, getFails || setFails))
      ensures hostname in old(hostMap) ==>
                accepted == (old(hostMap)[hostname] == fp) && hostMap == old(hostMap) && store.hosts == old(store.hosts)
      ensures hostname !in old(hostMap) && (getFails || setFails) ==>
                !accepted && hostMap == old(hostMap) && store.hosts == old(store.hosts)
      ensures hostname !in old(hostMap) && !getFails && !setFails ==>
                && accepted && hostMap == old(hostMap)[hostname := fp]
                && store.hosts.Some? && Find(store.hosts.value, hostname) == Some(fp)
    {
      UpsertHere(ListOf(store.hosts), Entry(hostname, fp));
      if hostname in hostMap {
        return hostMap[hostname] == fp;
      }
      var err := store.SaveHost(Entry(hostname, fp), getFails, setFails);
      if err.Failed? {
        return false;
      }
      hostMap := hostMap[hostname := fp];
      accepted := true;
    }
  }

  // ---- Runs ----

  /** The stored list and the map of the callback in use. */
  datatype Trust = Trust(stored: Option<seq<KnownHost>>, hostMap: map<string, string>)

  datatype Event = Call(hostname: string, fp: string, storeFails: bool) | Rebuild

  predicate Accepts(hostMap: map<string, string>, e: Event)
    requires e.Call?
  {
    if e.hostname in hostMap then hostMap[e.hostname] == e.fp else !e.storeFails
  }

  function Next(t: Trust, e: Event): Trust {
    match e
    case Rebuild => t.(hostMap := MapView(ListOf(t.stored)))
    case Call(hostname, fp, storeFails) =>
      if hostname in t.hostMap || storeFails then t
      else Trust(Some(Upsert(ListOf(t.stored), Entry(hostname, fp))), t.hostMap[hostname := fp])
  }

  function After(t: Trust, es: seq<Event>): Trust
    decreases |es|
  {
    if es == [] then t else After(Next(t, es[0]), es[1..])
  }

  /** The map in memory is the map view of the stored list, whose names are unique. */
  predicate Inv(t: Trust) {
    Unique(ListOf(t.stored)) && t.hostMap == MapView(ListOf(t.stored))
  }

  lemma StepKeepsInv(t: Trust, e: Event)
    requires Inv(t)
    ensures Inv(Next(t, e))
    ensures forall h <- t.hostMap :: h in Next(t, e).hostMap && Next(t, e).hostMap[h] == t.hostMap[h]
  {
    if e.Call? { UpsertIsMapUpdate(ListOf(t.stored), Entry(e.hostname, e.fp)); }
  }

  lemma {:induction false} RunKeepsInv(t: Trust, es: seq<Event>)
    requires Inv(t)
    ensures Inv(After(t, es))
    ensures forall h <- t.hostMap :: h in After(t, es).hostMap && After(t, es).hostMap[h] == t.hostMap[h]
    decreases |es|
  {
    if es != [] {
      StepKeepsInv(t, es[0]);
      RunKeepsInv(Next(t, es[0]), es[1..]);
    }
  }

  /** Starting from nothing, in any order of calls and of callbacks rebuilt from the store, the
      map in memory always equals the map view of the stored list. */
  lemma MemoryEqualsStore(es: seq<Event>)
    ensures var t := After(Trust(None, map[]), es); t.hostMap == MapView(ListOf(t.stored))
  {
    RunKeepsInv(Trust(None, map[]), es);
  }

  /** Trust on first use persists: a host name once accepted with a fingerprint is later
      accepted if and only if it shows that fingerprint, also after rebuilding. */
  lemma TrustPersists(t: Trust, first: Event, es: seq<Event>, later: Event)
    requires Inv(t) && first.Call? && later.Call? && later.hostname == first.hostname
    requires Accepts(t.hostMap, first)
    ensures Accepts(After(Next(t, first), es).hostMap, later) <==> later.fp == first.fp
  {
    StepKeepsInv(t, first);
    RunKeepsInv(Next(t, first), es);
    assert Next(t, first).hostMap[first.hostname] == first.fp;
  }

  const NOTHING: Trust := Trust(None, map[])

  /** The call would have stored that host: the database worked. */
  predicate Stores(e: Event, hostname: string) { e.Call? && e.hostname == hostname && !e.storeFails }

  lemma {:induction false} UnseenStaysUnknown(t: Trust, es: seq<Event>, hostname: string)
    requires Inv(t) && hostname !in t.hostMap && forall e <- es :: !Stores(e, hostname)
    ensures Inv(After(t, es)) && hostname !in After(t, es).hostMap
    decreases |es|
  {
    if es != [] {
      var t' := Next(t, es[0]);
      StepKeepsInv(t, es[0]);
      assert es[0] in es;
      StaysUnknown(t, es[0], hostname);
      UnseenStaysUnknown(t', es[1..], hostname);
    }
  }

  lemma {:induction false} MapViewIsFind<T>(list: seq<Entry<T>>, name: string)
    requires Unique(list)
    ensures (name in MapView(list) <==> Find(list, name).Some?)
    ensures name in MapView(list) ==> Find(list, name) == Some(MapView(list)[name])
  {
    if list != [] {
      var rest := list[1..];
      assert forall i :: 0 <= i < |rest| ==> rest[i] == list[i + 1];
      MapViewHead(list);
      MapViewIsFind(rest, name);
      UniqueOccursOnce(list, name);
      MapViewNames(rest, name);
    }
  }

  /** Trust on first use, over every sequence of calls and rebuilds from an empty store: once a call for a
      host has found the database working, the host is known with the fingerprint of the first
      such call, in memory and in the store, and accepted if and only if it shows that one. */
  lemma TrustedIsFirstStored(es: seq<Event>, i: nat, later: Event)
    requires later.Call? && i < |es| && Stores(es[i], later.hostname)
    requires forall j :: 0 <= j < i ==> !Stores(es[j], later.hostname)
    ensures var t := After(NOTHING, es);
            && later.hostname in t.hostMap && t.hostMap[later.hostname] == es[i].fp
            && Find(ListOf(t.stored), later.hostname) == Some(es[i].fp)
            && (Accepts(t.hostMap, later) <==> later.fp == es[i].fp)
  {
    RunKeepsInv(NOTHING, es);
    FirstStoredIsKept(NOTHING, es, later.hostname, i);
    MapViewIsFind(ListOf(After(NOTHING, es).stored), later.hostname);
  }

  /** ... and before that it is unknown, and accepted if and only if it can be stored. */
  lemma UnknownUntilStored(es: seq<Event>, later: Event)
    requires later.Call? && forall e <- es :: !Stores(e, later.hostname)
    ensures var t := After(NOTHING, es);
            && later.hostname !in t.hostMap && Find(ListOf(t.stored), later.hostname) == None
            && (Accepts(t.hostMap, later) <==> !later.storeFails)
  {
    UnseenStaysUnknown(NOTHING, es, later.hostname);
    MapViewIsFind(ListOf(After(NOTHING, es).stored), later.hostname);
  }

  lemma {:induction false} FirstStoredIsKept(t: Trust, es: seq<Event>, hostname: string, i: nat)
    requires Inv(t) && hostname !in t.hostMap
    requires i < |es| && Stores(es[i], hostname) && forall j :: 0 <= j < i ==> !Stores(es[j], hostname)
    ensures hostname in After(t, es).hostMap && After(t, es).hostMap[hostname] == es[i].fp
    decreases i
  {
    var t' := Next(t, es[0]);
    StepKeepsInv(t, es[0]);
    if i == 0 {
      RunKeepsInv(t', es[1..]);
      assert hostname in t'.hostMap && t'.hostMap[hostname] == es[0].fp;
    } else {
      StaysUnknown(t, es[0], hostname);
      FirstStoredIsKept(t', es[1..], hostname, i - 1);
    }
  }

  lemma StaysUnknown(t: Trust, e: Event, hostname: string)
    requires Inv(t) && hostname !in t.hostMap && !Stores(e, hostname)
    ensures hostname !in Next(t, e).hostMap
  {
    if e.Rebuild? { assert t.hostMap == MapView(ListOf(t.stored)); }
  }
}

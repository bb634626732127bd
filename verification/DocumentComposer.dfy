/** Applies patches to DID documents: what the patches mean, and the code that carries them out in place. */
module DocumentComposer {
  import opened Wrappers
  import opened Models
  import opened ArrayMethods
  import opened Operations

  // ------------------------------------------------------------ lists of items with identifiers

  function Ids<T>(id: T -> string, items: seq<T>): (r: seq<string>) {
    seq(|items|, i requires 0 <= i < |items| => id(items[i]))
  }

  /** The position of an identifier, or the length if it does not occur. */
  function Find<T>(id: T -> string, items: seq<T>, x: string): (n: nat)
    ensures n <= |items|
    ensures n < |items| ==> id(items[n]) == x
    ensures forall i :: 0 <= i < n ==> id(items[i]) != x
  {
    if items == [] || id(items[0]) == x then 0 else 1 + Find(id, items[1..], x)
  }

  /** Sets an entry of an insertion-ordered map, as JavaScript's `Map.set` does. */
  function Upsert<T>(id: T -> string, items: seq<T>, item: T): seq<T> {
    var n := Find(id, items, id(item));
    if n < |items| then items[n := item] else items + [item]
  }

  function UpsertAll<T>(id: T -> string, items: seq<T>, additions: seq<T>): seq<T> {
    if additions == [] then items
    else Upsert(id, UpsertAll(id, items, additions[..|additions| - 1]), additions[|additions| - 1])
  }

  /** What an insertion-ordered map associates with an identifier. */
  function Lookup<T>(id: T -> string, items: seq<T>, x: string): Option<T> {
    var n := Find(id, items, x);
    if n < |items| then Some(items[n]) else None
  }

  function Without<T>(id: T -> string, items: seq<T>, ids: seq<string>): (r: seq<T>) {
    if items == [] then []
    else
      var last := items[|items| - 1];
      Without(id, items[..|items| - 1], ids) + if id(last) in ids then [] else [last]
  }

  predicate UniqueIds<T>(id: T -> string, items: seq<T>) {
    forall i, j :: 0 <= i < j < |items| ==> id(items[i]) != id(items[j])
  }

  lemma FindIs<T>(id: T -> string, items: seq<T>, n: nat)
    requires UniqueIds(id, items) && n < |items|
    ensures Find(id, items, id(items[n])) == n
  {
  }

  lemma {:induction false} FindInConcatenation<T>(id: T -> string, a: seq<T>, b: seq<T>, x: string)
    ensures Find(id, a + b, x) == if Find(id, a, x) < |a| then Find(id, a, x) else |a| + Find(id, b, x)
  {
    if a == [] {
      assert a + b == b;
    } else {
      FindInConcatenation(id, a[1..], b, x);
      assert (a + b)[1..] == a[1..] + b;
    }
  }

  /** An upsert changes the entry of one identifier, and neither reorders nor duplicates any. */
  lemma UpsertIsMapUpdate<T>(id: T -> string, items: seq<T>, item: T, x: string)
    requires UniqueIds(id, items)
    ensures UniqueIds(id, Upsert(id, items, item))
    ensures Lookup(id, Upsert(id, items, item), x) == if x == id(item) then Some(item) else Lookup(id, items, x)
    ensures Ids(id, items) <= Ids(id, Upsert(id, items, item))
  {
    var r, n, m := Upsert(id, items, item), Find(id, items, x), Find(id, items, id(item));
    assert UniqueIds(id, r);
    if x == id(item) {
      FindIs(id, r, m);
    } else if n < |items| {
      FindIs(id, r, n);
    } else {
      assert forall i :: 0 <= i < |r| ==> id(r[i]) != x;
    }
  }

  lemma {:induction false} UpsertAllKeepsUnique<T>(id: T -> string, items: seq<T>, additions: seq<T>)
    requires UniqueIds(id, items)
    ensures UniqueIds(id, UpsertAll(id, items, additions))
    ensures Ids(id, items) <= Ids(id, UpsertAll(id, items, additions))
  {
    if additions != [] {
      var n := |additions| - 1;
      UpsertAllKeepsUnique(id, items, additions[..n]);
      UpsertIsMapUpdate(id, UpsertAll(id, items, additions[..n]), additions[n], "");
    }
  }

  lemma {:induction false} WithoutRemoves<T>(id: T -> string, items: seq<T>, ids: seq<string>)
    ensures forall item :: item in items && id(item) !in ids ==> item in Without(id, items, ids)
    ensures forall i :: 0 <= i < |Without(id, items, ids)| ==>
              Without(id, items, ids)[i] in items && id(Without(id, items, ids)[i]) !in ids
  {
    if items != [] {
      var n := |items| - 1;
      WithoutRemoves(id, items[..n], ids);
      assert items == items[..n] + [items[n]];
    }
  }

  lemma {:induction false} WithoutKeepsUnique<T>(id: T -> string, items: seq<T>, ids: seq<string>)
    requires UniqueIds(id, items)
    ensures UniqueIds(id, Without(id, items, ids))
  {
    if items != [] {
      var n := |items| - 1;
      WithoutKeepsUnique(id, items[..n], ids);
      WithoutRemoves(id, items[..n], ids);
      var rest := Without(id, items[..n], ids);
      forall i | 0 <= i < |rest|
        ensures id(rest[i]) != id(items[n])
      {
        assert rest[i] in items[..n];
        var j :| 0 <= j < n && items[..n][j] == rest[i];
      }
    }
  }

  /** Loading a list without duplicates into an empty map gives the list. */
  lemma {:induction false} UpsertIntoEmpty<T>(id: T -> string, items: seq<T>)
    requires UniqueIds(id, items)
    ensures UpsertAll(id, [], items) == items
  {
    if items != [] {
      var n := |items| - 1;
      UpsertIntoEmpty(id, items[..n]);
      assert Find(id, items[..n], id(items[n])) == n;
    }
  }

  lemma {:induction false} UpsertAllConcatenation<T>(id: T -> string, items: seq<T>, a: seq<T>, b: seq<T>)
    ensures UpsertAll(id, items, a + b) == UpsertAll(id, UpsertAll(id, items, a), b)
  {
    if b == [] {
      assert a + b == a;
    } else {
      var n := |b| - 1;
      UpsertAllConcatenation(id, items, a, b[..n]);
      assert (a + b)[..|a + b| - 1] == a + b[..n] && (a + b)[|a + b| - 1] == b[n];
    }
  }

  // ------------------------------------------------------------ the meaning of patches

  function KeyId(key: PublicKey): string {
    key.id
  }

  function ServiceId(service: Service): string {
    service.id
  }

  function Present<T>(items: Option<seq<T>>): seq<T> {
    if items.Some? then items.value else []
  }

  /** Keys are added by loading both lists into a map. */
  function KeysAdded(keys: seq<PublicKey>, additions: seq<PublicKey>): seq<PublicKey> {
    UpsertAll(KeyId, [], keys + additions)
  }

  /** The last position of an identifier, or the length if it does not occur. */
  function FindLast(services: seq<Service>, x: string): (n: nat)
    ensures n <= |services|
    ensures n < |services| ==> services[n].id == x
    ensures n == |services| ==> forall i :: 0 <= i < |services| ==> services[i].id != x
    ensures forall i :: n < i < |services| ==> services[i].id != x
  {
    if services == [] then 0
    else if services[|services| - 1].id == x then |services| - 1
    else
      var n := FindLast(services[..|services| - 1], x);
      if n == |services| - 1 then |services| else n
  }

  /** Services are added through a table of the positions in the original list, which is not extended. */
  function ServicesAdded(services: seq<Service>, additions: seq<Service>): (r: seq<Service>)
    ensures |r| >= |services|
  {
    if additions == [] then services
    else
      var before := ServicesAdded(services, additions[..|additions| - 1]);
      var last := additions[|additions| - 1];
      var n := FindLast(services, last.id);
      if n < |services| then before[n := last] else before + [last]
  }

  function Patched(document: DocumentModel, patch: Patch): DocumentModel {
    match patch
    case Replace(replacement) => replacement
    case AddPublicKeys(keys) => document.(publicKeys := Some(KeysAdded(Present(document.publicKeys), keys)))
    case RemovePublicKeys(ids) =>
      if document.publicKeys.None? then document
      else document.(publicKeys := Some(Without(KeyId, document.publicKeys.value, ids)))
    case AddServices(services) => document.(services := Some(ServicesAdded(Present(document.services), services)))
    case RemoveServices(ids) =>
      if document.services.None? then document
      else document.(services := Some(Without(ServiceId, document.services.value, ids)))
  }

  function ApplyPatches(document: DocumentModel, patches: seq<Patch>): DocumentModel {
    if patches == [] then document
    else Patched(ApplyPatches(document, patches[..|patches| - 1]), patches[|patches| - 1])
  }

  const EMPTY_DOCUMENT := DocumentModel(None, None)

  /** The reference semantics: both kinds of additions are upserts of an ordered map. */
  function PatchedByUpsert(document: DocumentModel, patch: Patch): DocumentModel {
    match patch
    case AddPublicKeys(keys) => document.(publicKeys := Some(UpsertAll(KeyId, Present(document.publicKeys), keys)))
    case AddServices(services) =>
      document.(services := Some(UpsertAll(ServiceId, Present(document.services), services)))
    case _ => Patched(document, patch)
  }

  function ApplyByUpsert(document: DocumentModel, patches: seq<Patch>): DocumentModel {
    if patches == [] then document
    else PatchedByUpsert(ApplyByUpsert(document, patches[..|patches| - 1]), patches[|patches| - 1])
  }

  predicate UniqueDocument(document: DocumentModel) {
    UniqueIds(KeyId, Present(document.publicKeys)) && UniqueIds(ServiceId, Present(document.services))
  }

  lemma KeysAddedIsUpsert(keys: seq<PublicKey>, additions: seq<PublicKey>)
    requires UniqueIds(KeyId, keys)
    ensures KeysAdded(keys, additions) == UpsertAll(KeyId, keys, additions)
  {
    UpsertAllConcatenation(KeyId, [], keys, additions);
    UpsertIntoEmpty(KeyId, keys);
  }

  /** The additions whose identifier is new to the services, in order. */
  function NewServices(services: seq<Service>, additions: seq<Service>): seq<Service> {
    if additions == [] then []
    else
      var last := additions[|additions| - 1];
      NewServices(services, additions[..|additions| - 1])
      + if Find(ServiceId, services, last.id) < |services| then [] else [last]
  }

  lemma IdsOfUpdate<T>(id: T -> string, before: seq<T>, items: seq<T>, n: nat, item: T)
    requires Ids(id, before) == Ids(id, items) && n < |items| && id(items[n]) == id(item)
    ensures |before| == |items| && Ids(id, before[n := item]) == Ids(id, items)
  {
    assert |before| == |Ids(id, before)| == |Ids(id, items)| == |items|;
    assert Ids(id, before[n := item]) == Ids(id, before)[n := id(item)];
    assert Ids(id, items)[n] == id(items[n]);
  }

  /** The services, each replaced by the last addition with its identifier, if any. */
  function Replaced(services: seq<Service>, additions: seq<Service>): (r: seq<Service>)
    ensures Ids(ServiceId, r) == Ids(ServiceId, services)
  {
    if additions == [] then services
    else
      var last := additions[|additions| - 1];
      var n := Find(ServiceId, services, last.id);
      var before := Replaced(services, additions[..|additions| - 1]);
      if n < |services| then
        IdsOfUpdate(ServiceId, before, services, n, last);
        before[n := last]
      else before
  }

  lemma FindByIds(a: seq<Service>, b: seq<Service>, x: string)
    requires UniqueIds(ServiceId, a) && Ids(ServiceId, a) == Ids(ServiceId, b)
    ensures Find(ServiceId, a, x) == Find(ServiceId, b, x)
  {
    assert |a| == |Ids(ServiceId, a)| == |b|;
    assert forall i :: 0 <= i < |a| ==> ServiceId(a[i]) == Ids(ServiceId, a)[i] == ServiceId(b[i]);
    var n := Find(ServiceId, a, x);
    if n < |a| {
      FindIs(ServiceId, b, n);
    }
  }

  lemma {:induction false} AddedIsReplacedThenNew(services: seq<Service>, additions: seq<Service>)
    requires UniqueIds(ServiceId, services)
    ensures ServicesAdded(services, additions) == Replaced(services, additions) + NewServices(services, additions)
  {
    if additions != [] {
      var n := |additions| - 1;
      AddedIsReplacedThenNew(services, additions[..n]);
      assert |Replaced(services, additions[..n])| == |Ids(ServiceId, services)|;
    }
  }

  lemma UpsertInConcatenation<T>(id: T -> string, a: seq<T>, b: seq<T>, item: T)
    ensures var n := Find(id, a, id(item));
            Upsert(id, a + b, item) == if n < |a| then a[n := item] + b else a + Upsert(id, b, item)
  {
    FindInConcatenation(id, a, b, id(item));
  }

  lemma UpsertAllSnoc<T>(id: T -> string, items: seq<T>, additions: seq<T>, last: T)
    ensures UpsertAll(id, items, additions + [last]) == Upsert(id, UpsertAll(id, items, additions), last)
  {
    assert (additions + [last])[..|additions|] == additions;
  }

  lemma {:induction false} UpsertIsReplacedThenNew(services: seq<Service>, additions: seq<Service>)
    requires UniqueIds(ServiceId, services)
    ensures UpsertAll(ServiceId, services, additions)
            == Replaced(services, additions) + UpsertAll(ServiceId, [], NewServices(services, additions))
  {
    if additions == [] {
      assert UpsertAll(ServiceId, [], NewServices(services, additions)) == [];
    } else {
      var n, last := |additions| - 1, additions[|additions| - 1];
      UpsertIsReplacedThenNew(services, additions[..n]);
      var kept, added := Replaced(services, additions[..n]), NewServices(services, additions[..n]);
      FindByIds(services, kept, last.id);
      assert |kept| == |Ids(ServiceId, services)|;
      UpsertInConcatenation(ServiceId, kept, UpsertAll(ServiceId, [], added), last);
      UpsertAllSnoc(ServiceId, [], added, last);
      assert added + [] == added;
    }
  }

  /** Adding services is an upsert exactly if no new identifier is added twice: the position table is not extended
      when a service is pushed, so a second one with the same identifier is pushed as well. */
  lemma ServicesAddedIsUpsert(services: seq<Service>, additions: seq<Service>)
    requires UniqueIds(ServiceId, services)
    ensures ServicesAdded(services, additions) == UpsertAll(ServiceId, services, additions)
            <==> UniqueIds(ServiceId, NewServices(services, additions))
  {
    var kept, added := Replaced(services, additions), NewServices(services, additions);
    AddedIsReplacedThenNew(services, additions);
    UpsertIsReplacedThenNew(services, additions);
    UpsertAllKeepsUnique(ServiceId, [], added);
    if UniqueIds(ServiceId, added) {
      UpsertIntoEmpty(ServiceId, added);
    } else {
      assert (kept + added)[|kept|..] == added;
      assert (kept + UpsertAll(ServiceId, [], added))[|kept|..] == UpsertAll(ServiceId, [], added);
    }
  }

  lemma {:induction false} NewServicesAreAdditions(services: seq<Service>, additions: seq<Service>)
    requires UniqueIds(ServiceId, additions)
    ensures UniqueIds(ServiceId, NewServices(services, additions))
    ensures forall s <- NewServices(services, additions) :: s in additions
  {
    if additions != [] {
      var n := |additions| - 1;
      NewServicesAreAdditions(services, additions[..n]);
      var added := NewServices(services, additions[..n]);
      forall i | 0 <= i < |added|
        ensures added[i].id != additions[n].id
      {
        assert added[i] in added;
      }
    }
  }

  /** A patch that passed the checks keeps identifiers unique, and means the same as its upsert. */
  lemma CheckedPatchIsUpsert(p: Primitives, document: DocumentModel, patch: Patch)
    requires UniqueDocument(document) && CheckPatch(p, patch).Ok?
    ensures Patched(document, patch) == PatchedByUpsert(document, patch)
    ensures UniqueDocument(Patched(document, patch))
  {
    match patch
    case Replace(replacement) =>
      assert replacement.publicKeys.Some? ==> NoDuplicates(KeyIds(replacement.publicKeys.value));
      assert replacement.services.Some? ==> NoDuplicates(ServiceIds(replacement.services.value));
      UniqueFromChecks(replacement);
    case AddPublicKeys(keys) =>
      KeysAddedIsUpsert(Present(document.publicKeys), keys);
      UpsertAllKeepsUnique(KeyId, Present(document.publicKeys), keys);
    case AddServices(services) =>
      assert forall i :: 0 <= i < |services| ==> ServiceIds(services)[i] == ServiceId(services[i]);
      NewServicesAreAdditions(Present(document.services), services);
      ServicesAddedIsUpsert(Present(document.services), services);
      UpsertAllKeepsUnique(ServiceId, Present(document.services), services);
    case RemovePublicKeys(ids) =>
      WithoutKeepsUnique(KeyId, Present(document.publicKeys), ids);
    case RemoveServices(ids) =>
      WithoutKeepsUnique(ServiceId, Present(document.services), ids);
  }

  lemma UniqueFromChecks(document: DocumentModel)
    requires CheckDocument(document).Ok?
    ensures UniqueDocument(document)
  {
    if document.publicKeys.Some? {
      var keys := document.publicKeys.value;
      assert forall i :: 0 <= i < |keys| ==> KeyIds(keys)[i] == KeyId(keys[i]);
    }
    if document.services.Some? {
      var services := document.services.value;
      assert forall i :: 0 <= i < |services| ==> ServiceIds(services)[i] == ServiceId(services[i]);
    }
  }

  lemma {:induction false} CheckedPatches(p: Primitives, patches: seq<Patch>, i: nat)
    requires CheckPatches(p, patches).Ok? && i < |patches|
    ensures CheckPatch(p, patches[i]).Ok?
  {
    if i > 0 {
      CheckedPatches(p, patches[1..], i - 1);
    }
  }

  lemma {:induction false} PatchesAreUpserts(p: Primitives, document: DocumentModel, patches: seq<Patch>)
    requires UniqueDocument(document)
    requires forall i :: 0 <= i < |patches| ==> CheckPatch(p, patches[i]).Ok?
    ensures ApplyPatches(document, patches) == ApplyByUpsert(document, patches)
    ensures UniqueDocument(ApplyPatches(document, patches))
  {
    if patches != [] {
      var n := |patches| - 1;
      PatchesAreUpserts(p, document, patches[..n]);
      CheckedPatchIsUpsert(p, ApplyPatches(document, patches[..n]), patches[n]);
    }
  }

  /** Over any sequence of patches that passed the checks, identifiers stay unique and every addition is an upsert. */
  lemma CheckedPatchesAreUpserts(p: Primitives, document: DocumentModel, patches: seq<Patch>)
    requires UniqueDocument(document) && CheckPatches(p, patches).Ok?
    ensures ApplyPatches(document, patches) == ApplyByUpsert(document, patches)
    ensures UniqueDocument(ApplyPatches(document, patches))
  {
    forall i | 0 <= i < |patches|
      ensures CheckPatch(p, patches[i]).Ok?
    {
      CheckedPatches(p, patches, i);
    }
    PatchesAreUpserts(p, document, patches);
  }

  // ------------------------------------------------------------ validation

  method ValidatePublicKeys(keys: seq<PublicKey>) returns (r: Result<(), Error>)
    ensures r == CheckPublicKeys(keys)
  {
    var publicKeyIdSet := {};
    for i := 0 to |keys|
      invariant forall x :: x in publicKeyIdSet <==> exists k :: 0 <= k < i && keys[k].id == x
      invariant forall j, k :: 0 <= j < k < i ==> keys[j].id != keys[k].id
    {
      if keys[i].id in publicKeyIdSet {
        var k :| 0 <= k < i && keys[k].id == keys[i].id;
        assert KeyIds(keys)[k] == KeyIds(keys)[i];
        return Err(DocumentComposerPublicKeyIdDuplicated);
      }
      publicKeyIdSet := publicKeyIdSet + {keys[i].id};
    }
    return Ok(());
  }

  method ValidateServices(services: seq<Service>) returns (r: Result<(), Error>)
    ensures r == CheckServices(services)
  {
    var serviceIdSet := {};
    for i := 0 to |services|
      invariant forall x :: x in serviceIdSet <==> exists k :: 0 <= k < i && services[k].id == x
      invariant forall j, k :: 0 <= j < k < i ==> services[j].id != services[k].id
    {
      if services[i].id in serviceIdSet {
        var k :| 0 <= k < i && services[k].id == services[i].id;
        assert ServiceIds(services)[k] == ServiceIds(services)[i];
        return Err(DocumentComposerPatchServiceIdNotUnique);
      }
      serviceIdSet := serviceIdSet + {services[i].id};
    }
    return Ok(());
  }

  // ------------------------------------------------------------ documents on the heap

  /** A JavaScript array of services, which documents may share. */
  class ServiceArray {
    var items: seq<Service>

    constructor (items: seq<Service>)
      ensures this.items == items
    {
      this.items := items;
    }
  }

  /** A document object: keys are replaced as a whole, services are changed in place. */
  class Document {
    var publicKeys: Option<seq<PublicKey>>
    var services: ServiceArray?

    constructor ()
      ensures publicKeys == None && services == null
    {
      publicKeys := None;
      services := null;
    }

    ghost function View(): DocumentModel
      reads this, services
    {
      DocumentModel(publicKeys, if services == null then None else Some(services.items))
    }

    /** The objects that patching the document may change. */
    ghost function Footprint(): set<object>
      reads this
    {
      {this} + if services == null then {} else {services}
    }
  }

  /** The document keeps its array of services, drops it, or gets a new one. */
  twostate predicate Reached(document: Document)
    reads document
  {
    document.services == null || document.services == old(document.services) || fresh(document.services)
  }

  method AddPublicKeys(document: Document, keys: seq<PublicKey>)
    modifies document`publicKeys
    ensures document.View() == Patched(old(document.View()), Patch.AddPublicKeys(keys))
  {
    var existing := Present(document.publicKeys);
    var publicKeyMap: seq<PublicKey> := [];
    for i := 0 to |existing|
      invariant publicKeyMap == UpsertAll(KeyId, [], existing[..i])
    {
      assert existing[..i + 1] == existing[..i] + [existing[i]];
      UpsertAllSnoc(KeyId, [], existing[..i], existing[i]);
      publicKeyMap := Upsert(KeyId, publicKeyMap, existing[i]);
    }
    assert existing[..|existing|] == existing && existing + keys[..0] == existing;
    for i := 0 to |keys|
      invariant publicKeyMap == UpsertAll(KeyId, [], existing + keys[..i])
    {
      assert existing + keys[..i + 1] == existing + keys[..i] + [keys[i]];
      UpsertAllSnoc(KeyId, [], existing + keys[..i], keys[i]);
      publicKeyMap := Upsert(KeyId, publicKeyMap, keys[i]);
    }
    assert keys[..|keys|] == keys;
    document.publicKeys := Some(publicKeyMap);
  }

  method RemovePublicKeys(document: Document, ids: seq<string>)
    modifies document`publicKeys
    ensures document.View() == Patched(old(document.View()), Patch.RemovePublicKeys(ids))
  {
    if document.publicKeys.None? {
      return;
    }
    document.publicKeys := Some(Without(KeyId, document.publicKeys.value, ids));
  }

  /** The position of every identifier in an array; of repeated ones, the last. */
  method PositionTable(services: seq<Service>) returns (table: map<string, nat>)
    ensures forall x :: x in table <==> FindLast(services, x) < |services|
    ensures forall x <- table :: table[x] == FindLast(services, x)
  {
    table := map[];
    for index := 0 to |services|
      invariant forall x :: x in table <==> FindLast(services[..index], x) < index
      invariant forall x <- table :: table[x] == FindLast(services[..index], x)
    {
      assert services[..index + 1][..index] == services[..index];
      table := table[services[index].id := index];
    }
    assert services[..|services|] == services;
  }

  method AddServices(document: Document, services: seq<Service>)
    modifies document.Footprint()
    ensures document.View() == Patched(old(document.View()), Patch.AddServices(services))
    ensures Reached(document)
  {
    if document.services == null {
      var none := new ServiceArray([]);
      document.services := none;
    }
    var list := document.services;
    var existing := list.items;
    var idToIndexMapper := PositionTable(existing);
    for i := 0 to |services|
      invariant document.services == list && document.publicKeys == old(document.publicKeys)
      invariant list.items == ServicesAdded(existing, services[..i])
    {
      var service := services[i];
      assert services[..i + 1][..i] == services[..i];
      if service.id in idToIndexMapper {
        var idx := idToIndexMapper[service.id];
        list.items := list.items[idx := service];
      } else {
        list.items := list.items + [service];
      }
    }
    assert services[..|services|] == services;
  }

  /** Filtering makes a new array. */
  method RemoveServices(document: Document, ids: seq<string>)
    modifies document`services
    ensures document.View() == Patched(old(document.View()), Patch.RemoveServices(ids))
    ensures Reached(document)
  {
    if document.services == null {
      return;
    }
    var kept := new ServiceArray(Without(ServiceId, document.services.items, ids));
    document.services := kept;
  }

  method ApplyPatchToDidDocument(document: Document, patch: Patch)
    modifies document.Footprint()
    ensures document.View() == Patched(old(document.View()), patch)
    ensures Reached(document)
  {
    match patch
    case Replace(replacement) =>
      document.publicKeys := replacement.publicKeys;
      document.services := null;
      if replacement.services.Some? {
        var services := new ServiceArray(replacement.services.value);
        document.services := services;
      }
    case AddPublicKeys(keys) => AddPublicKeys(document, keys);
    case RemovePublicKeys(ids) => RemovePublicKeys(document, ids);
    case AddServices(services) => AddServices(document, services);
    case RemoveServices(ids) => RemoveServices(document, ids);
  }

  method ApplyPatchesInPlace(document: Document, patches: seq<Patch>)
    modifies document.Footprint()
    ensures document.View() == ApplyPatches(old(document.View()), patches)
    ensures Reached(document)
  {
    for i := 0 to |patches|
      invariant document.View() == ApplyPatches(old(document.View()), patches[..i])
      invariant Reached(document)
    {
      assert patches[..i + 1][..i] == patches[..i];
      ApplyPatchToDidDocument(document, patches[i]);
    }
    assert patches[..|patches|] == patches;
  }

  /** A copy that shares nothing with the original. */
  method DeepCopy(document: Document) returns (copy: Document)
    ensures fresh(copy.Footprint())
    ensures copy.View() == document.View()
  {
    copy := new Document();
    copy.publicKeys := document.publicKeys;
    if document.services != null {
      var services := new ServiceArray(document.services.items);
      copy.services := services;
    }
  }

  /** The document of the next state is patched on a copy: nothing that existed before the call is changed, so the
      previous state's document stays as it was, whoever else refers to it. */
  method PatchedCopy(document: Document, patches: seq<Patch>) returns (patched: Document)
    ensures fresh(patched.Footprint())
    ensures patched.View() == ApplyPatches(old(document.View()), patches)
    ensures unchanged(document) && document.View() == old(document.View())
  {
    patched := DeepCopy(document);
    ApplyPatchesInPlace(patched, patches);
  }
}

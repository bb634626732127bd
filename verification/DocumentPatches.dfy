/** What patches do to a document, by identifier and position. */
module DocumentPatches {
  import opened Wrappers
  import opened Models
  import opened Operations
  import opened DocumentComposer

  // ------------------------------------------------------------ lists

  /** The positions of the items with a property, in increasing order. */
  ghost predicate Positions<T(!new)>(items: seq<T>, keep: T -> bool, positions: seq<nat>) {
    && (forall j, k :: 0 <= j < k < |positions| ==> positions[j] < positions[k])
    && (forall k :: 0 <= k < |positions| ==> positions[k] < |items| && keep(items[positions[k]]))
    && forall i :: 0 <= i < |items| && keep(items[i]) ==> exists k :: 0 <= k < |positions| && positions[k] == i
  }

  ghost predicate TakenFrom<T(!new)>(items: seq<T>, positions: seq<nat>, r: seq<T>) {
    && |r| == |positions|
    && forall k :: 0 <= k < |r| ==> positions[k] < |items| && r[k] == items[positions[k]]
  }

  /** The items with a property, in their order and as often as they occur, and nothing else. */
  ghost predicate Exactly<T(!new)>(items: seq<T>, keep: T -> bool, r: seq<T>) {
    exists positions: seq<nat> :: Positions(items, keep, positions) && TakenFrom(items, positions, r)
  }

  ghost function Filter<T(!new)>(items: seq<T>, keep: T -> bool): seq<T> {
    if items == [] then []
    else
      var n := |items| - 1;
      var rest := Filter(items[..n], keep);
      if keep(items[n]) then rest + [items[n]] else rest
  }

  lemma PositionsGrow<T(!new)>(items: seq<T>, keep: T -> bool, positions: seq<nat>)
    requires items != [] && Positions(items[..|items| - 1], keep, positions)
    ensures var n: nat := |items| - 1;
            Positions(items, keep, if keep(items[n]) then positions + [n] else positions)
  {
    var n: nat := |items| - 1;
    var more := if keep(items[n]) then positions + [n] else positions;
    forall i | 0 <= i < |items| && keep(items[i])
      ensures exists k :: 0 <= k < |more| && more[k] == i
    {
      if i < n {
        assert keep(items[..n][i]);
        var k :| 0 <= k < |positions| && positions[k] == i;
        assert more[k] == i;
      } else {
        assert more[|positions|] == i;
      }
    }
  }

  lemma TakenFromMore<T(!new)>(items: seq<T>, positions: seq<nat>, r: seq<T>, n: nat)
    requires n < |items| && TakenFrom(items[..n], positions, r)
    ensures TakenFrom(items, positions, r) && TakenFrom(items, positions + [n], r + [items[n]])
  {
  }

  lemma {:induction false} FilterIsExact<T(!new)>(items: seq<T>, keep: T -> bool) returns (positions: seq<nat>)
    ensures Positions(items, keep, positions) && TakenFrom(items, positions, Filter(items, keep))
  {
    if items == [] {
      positions := [];
    } else {
      var n: nat := |items| - 1;
      var before := FilterIsExact(items[..n], keep);
      PositionsGrow(items, keep, before);
      TakenFromMore(items, before, Filter(items[..n], keep), n);
      positions := if keep(items[n]) then before + [n] else before;
    }
  }

  lemma PositionIsLast<T(!new)>(items: seq<T>, keep: T -> bool, positions: seq<nat>)
    requires items != [] && Positions(items, keep, positions) && keep(items[|items| - 1])
    ensures positions != [] && positions[|positions| - 1] == |items| - 1
  {
    var k :| 0 <= k < |positions| && positions[k] == |items| - 1;
    assert positions[k] <= positions[|positions| - 1];
  }

  lemma PositionStays(positions: seq<nat>, fewer: seq<nat>, n: nat, i: nat)
    requires i < n && exists k :: 0 <= k < |positions| && positions[k] == i
    requires positions == fewer || positions == fewer + [n]
    ensures exists k :: 0 <= k < |fewer| && fewer[k] == i
  {
    var k :| 0 <= k < |positions| && positions[k] == i;
    assert fewer[k] == i;
  }

  lemma FewerAreLower<T(!new)>(items: seq<T>, keep: T -> bool, positions: seq<nat>, fewer: seq<nat>)
    requires items != [] && Positions(items, keep, positions)
    requires positions == if keep(items[|items| - 1]) then fewer + [|items| - 1] else fewer
    ensures forall k :: 0 <= k < |fewer| ==> fewer[k] == positions[k] && fewer[k] < |items| - 1
  {
    if keep(items[|items| - 1]) {
      assert positions[|fewer|] == |items| - 1;
    } else {
      assert forall k :: 0 <= k < |positions| ==> keep(items[positions[k]]);
    }
  }

  lemma PositionsShrink<T(!new)>(items: seq<T>, keep: T -> bool, positions: seq<nat>, fewer: seq<nat>)
    requires items != [] && Positions(items, keep, positions)
    requires positions == if keep(items[|items| - 1]) then fewer + [|items| - 1] else fewer
    ensures Positions(items[..|items| - 1], keep, fewer)
  {
    var n := |items| - 1;
    FewerAreLower(items, keep, positions, fewer);
    forall i | 0 <= i < n && keep(items[..n][i])
      ensures exists k :: 0 <= k < |fewer| && fewer[k] == i
    {
      assert keep(items[i]);
      PositionStays(positions, fewer, n, i);
    }
  }

  lemma LastInRange<T(!new)>(items: seq<T>, keep: T -> bool, positions: seq<nat>)
    requires Positions(items, keep, positions)
    ensures positions != [] ==> positions[|positions| - 1] < |items|
  {
  }

  lemma TakenFromFront<T(!new)>(items: seq<T>, positions: seq<nat>, r: seq<T>)
    requires items != [] && positions != [] && positions[|positions| - 1] == |items| - 1
    requires TakenFrom(items, positions, r) && forall j, k :: 0 <= j < k < |positions| ==> positions[j] < positions[k]
    ensures var n, m := |items| - 1, |positions| - 1;
            |r| == m + 1 && TakenFrom(items[..n], positions[..m], r[..m]) && r == r[..m] + [items[n]]
  {
  }

  lemma {:induction false} ExactIsFilter<T(!new)>(items: seq<T>, keep: T -> bool, positions: seq<nat>, r: seq<T>)
    requires Positions(items, keep, positions) && TakenFrom(items, positions, r)
    ensures r == Filter(items, keep)
  {
    if items == [] {
      LastInRange(items, keep, positions);
    } else {
      var n, m := |items| - 1, |positions| - 1;
      if keep(items[n]) {
        PositionIsLast(items, keep, positions);
        assert positions == positions[..m] + [n];
        PositionsShrink(items, keep, positions, positions[..m]);
        TakenFromFront(items, positions, r);
        ExactIsFilter(items[..n], keep, positions[..m], r[..m]);
      } else {
        PositionsShrink(items, keep, positions, positions);
        assert TakenFrom(items[..n], positions, r);
        ExactIsFilter(items[..n], keep, positions, r);
      }
    }
  }

  lemma ExactlyOne<T(!new)>(items: seq<T>, keep: T -> bool, r: seq<T>)
    ensures Exactly(items, keep, r) <==> r == Filter(items, keep)
  {
    var positions := FilterIsExact(items, keep);
    if Exactly(items, keep, r) {
      var others: seq<nat> :| Positions(items, keep, others) && TakenFrom(items, others, r);
      ExactIsFilter(items, keep, others, r);
    }
  }

  // ------------------------------------------------------------ removing

  ghost function NotAmong<T>(id: T -> string, ids: seq<string>): T -> bool {
    item => id(item) !in ids
  }

  lemma {:induction false} WithoutIsFilter<T(!new)>(id: T -> string, items: seq<T>, ids: seq<string>)
    ensures Without(id, items, ids) == Filter(items, NotAmong(id, ids))
  {
    if items != [] {
      WithoutIsFilter(id, items[..|items| - 1], ids);
    }
  }

  // ------------------------------------------------------------ adding

  ghost predicate NewTo<T(!new)>(id: T -> string, items: seq<T>, item: T) {
    forall i :: 0 <= i < |items| ==> id(items[i]) != id(item)
  }

  ghost function Additional<T(!new)>(id: T -> string, items: seq<T>): T -> bool {
    item => NewTo(id, items, item)
  }

  /** An item is replaced by the addition with its identifier, if there is one. */
  ghost predicate Renewed<T(!new)>(id: T -> string, item: T, additions: seq<T>, r: T) {
    id(r) == id(item) && if NewTo(id, additions, item) then r == item else r in additions
  }

  /** Every item stays at its position, renewed; the additions with new identifiers follow, in their order. */
  ghost predicate Merged<T(!new)>(id: T -> string, items: seq<T>, additions: seq<T>, r: seq<T>) {
    && |items| <= |r|
    && (forall i :: 0 <= i < |items| ==> Renewed(id, items[i], additions, r[i]))
    && Exactly(additions, Additional(id, items), r[|items|..])
  }

  lemma {:induction false} FilterMembers<T(!new)>(items: seq<T>, keep: T -> bool)
    ensures forall i :: 0 <= i < |Filter(items, keep)| ==>
              Filter(items, keep)[i] in items && keep(Filter(items, keep)[i])
  {
    if items != [] {
      FilterMembers(items[..|items| - 1], keep);
    }
  }

  /** The same with the additions that are new filtered out. */
  ghost predicate MergedFiltered<T(!new)>(id: T -> string, items: seq<T>, additions: seq<T>, r: seq<T>) {
    && |items| <= |r|
    && (forall i :: 0 <= i < |items| ==> Renewed(id, items[i], additions, r[i]))
    && r[|items|..] == Filter(additions, Additional(id, items))
  }

  lemma RenewedStays<T(!new)>(id: T -> string, item: T, additions: seq<T>, last: T, r: T)
    requires Renewed(id, item, additions, r) && id(last) != id(item)
    ensures Renewed(id, item, additions + [last], r)
  {
    var all := additions + [last];
    if NewTo(id, additions, item) {
      assert forall i :: 0 <= i < |all| ==> all[i] == if i < |additions| then additions[i] else last;
    } else {
      var i :| 0 <= i < |additions| && id(additions[i]) == id(item);
      assert all[i] == additions[i];
    }
  }

  lemma MergedReplaces<T(!new)>(id: T -> string, items: seq<T>, additions: seq<T>, last: T, before: seq<T>, n: nat)
    requires UniqueIds(id, items) && MergedFiltered(id, items, additions, before)
    requires n < |items| && id(items[n]) == id(last)
    ensures MergedFiltered(id, items, additions + [last], before[n := last])
  {
    var all, r := additions + [last], before[n := last];
    assert all[|additions|] == last;
    forall i | 0 <= i < |items|
      ensures Renewed(id, items[i], all, r[i])
    {
      if i != n {
        RenewedStays(id, items[i], additions, last, before[i]);
      }
    }
    assert all[..|additions|] == additions;
    assert r[|items|..] == before[|items|..];
  }

  lemma MergedAppends<T(!new)>(id: T -> string, items: seq<T>, additions: seq<T>, last: T, before: seq<T>)
    requires MergedFiltered(id, items, additions, before) && NewTo(id, items, last)
    ensures MergedFiltered(id, items, additions + [last], before + [last])
  {
    var all, r := additions + [last], before + [last];
    forall i | 0 <= i < |items|
      ensures Renewed(id, items[i], all, r[i])
    {
      RenewedStays(id, items[i], additions, last, before[i]);
    }
    assert all[..|additions|] == additions;
    assert r[|items|..] == before[|items|..] + [last];
  }

  lemma FindBeyond<T(!new)>(id: T -> string, items: seq<T>, additions: seq<T>, last: T, before: seq<T>)
    requires MergedFiltered(id, items, additions, before) && NewTo(id, items, last) && NewTo(id, additions, last)
    ensures Find(id, before, id(last)) == |before|
  {
    FilterMembers(additions, Additional(id, items));
    forall i | 0 <= i < |before|
      ensures id(before[i]) != id(last)
    {
      if i < |items| {
        assert Renewed(id, items[i], additions, before[i]);
      } else {
        assert before[i] == before[|items|..][i - |items|];
      }
    }
  }

  lemma FindWithin<T(!new)>(id: T -> string, items: seq<T>, additions: seq<T>, before: seq<T>, n: nat)
    requires UniqueIds(id, items) && MergedFiltered(id, items, additions, before) && n < |items|
    ensures Find(id, before, id(items[n])) == n
  {
    assert forall i :: 0 <= i <= n ==> Renewed(id, items[i], additions, before[i]);
  }

  lemma {:induction false} UpsertAllMerges<T(!new)>(id: T -> string, items: seq<T>, additions: seq<T>)
    requires UniqueIds(id, items) && UniqueIds(id, additions)
    ensures MergedFiltered(id, items, additions, UpsertAll(id, items, additions))
  {
    if additions == [] {
      assert items[|items|..] == [];
    } else {
      var m, last := |additions| - 1, additions[|additions| - 1];
      var before := UpsertAll(id, items, additions[..m]);
      UpsertAllMerges(id, items, additions[..m]);
      assert additions == additions[..m] + [last];
      var n := Find(id, items, id(last));
      if n < |items| {
        FindWithin(id, items, additions[..m], before, n);
        MergedReplaces(id, items, additions[..m], last, before, n);
      } else {
        FindBeyond(id, items, additions[..m], last, before);
        MergedAppends(id, items, additions[..m], last, before);
      }
    }
  }

  lemma MergedIsUnique<T(!new)>(id: T -> string, items: seq<T>, additions: seq<T>, a: seq<T>, b: seq<T>)
    requires UniqueIds(id, additions)
    requires MergedFiltered(id, items, additions, a) && MergedFiltered(id, items, additions, b)
    ensures a == b
  {
    var n := |items|;
    forall i | 0 <= i < n
      ensures a[i] == b[i]
    {
      assert Renewed(id, items[i], additions, a[i]) && Renewed(id, items[i], additions, b[i]);
    }
    assert a == a[..n] + a[n..] && b == b[..n] + b[n..];
  }

  lemma UpsertAllIsTheMerge<T(!new)>(id: T -> string, items: seq<T>, additions: seq<T>, r: seq<T>)
    requires UniqueIds(id, items) && UniqueIds(id, additions)
    ensures r == UpsertAll(id, items, additions) <==> Merged(id, items, additions, r)
  {
    UpsertAllMerges(id, items, additions);
    if |items| <= |r| {
      ExactlyOne(additions, Additional(id, items), r[|items|..]);
      if Merged(id, items, additions, r) {
        MergedIsUnique(id, items, additions, r, UpsertAll(id, items, additions));
      }
    }
  }

  // ------------------------------------------------------------ one patch

  /** A replacement takes over whole; the other patches concern one property of the document and keep the other. What is
      removed leaves the rest in order, what is not there is not made by removing, and what is added renews the item
      with its identifier or joins the end. */
  ghost predicate Means(before: DocumentModel, patch: Patch, after: DocumentModel) {
    match patch
    case Replace(replacement) => after.publicKeys == replacement.publicKeys && after.services == replacement.services
    case AddPublicKeys(keys) =>
      && after.services == before.services && after.publicKeys.Some?
      && Merged(KeyId, if before.publicKeys.Some? then before.publicKeys.value else [], keys, after.publicKeys.value)
    case RemovePublicKeys(ids) =>
      && after.services == before.services && (after.publicKeys.Some? <==> before.publicKeys.Some?)
      && (before.publicKeys.Some? ==>
            Exactly(before.publicKeys.value, NotAmong(KeyId, ids), after.publicKeys.value))
    case AddServices(services) =>
      && after.publicKeys == before.publicKeys && after.services.Some?
      && Merged(ServiceId, if before.services.Some? then before.services.value else [], services, after.services.value)
    case RemoveServices(ids) =>
      && after.publicKeys == before.publicKeys && (after.services.Some? <==> before.services.Some?)
      && (before.services.Some? ==>
            Exactly(before.services.value, NotAmong(ServiceId, ids), after.services.value))
  }

  lemma AddedKeysAreUnique(keys: seq<PublicKey>)
    requires CheckPublicKeys(keys).Ok?
    ensures UniqueIds(KeyId, keys)
  {
    assert forall i :: 0 <= i < |keys| ==> KeyIds(keys)[i] == KeyId(keys[i]);
  }

  lemma AddedServicesAreUnique(services: seq<Service>)
    requires CheckServices(services).Ok?
    ensures UniqueIds(ServiceId, services)
  {
    assert forall i :: 0 <= i < |services| ==> ServiceIds(services)[i] == ServiceId(services[i]);
  }

  /** A checked patch leads to the one document that it means, and to no other. */
  lemma PatchedExactly(p: Primitives, before: DocumentModel, patch: Patch, after: DocumentModel)
    requires UniqueDocument(before) && CheckPatch(p, patch).Ok?
    ensures after == Patched(before, patch) <==> Means(before, patch, after)
  {
    CheckedPatchIsUpsert(p, before, patch);
    match patch
    case Replace(_) =>
    case AddPublicKeys(keys) =>
      AddedKeysAreUnique(keys);
      if after.publicKeys.Some? {
        UpsertAllIsTheMerge(KeyId, Present(before.publicKeys), keys, after.publicKeys.value);
      }
    case AddServices(services) =>
      AddedServicesAreUnique(services);
      if after.services.Some? {
        UpsertAllIsTheMerge(ServiceId, Present(before.services), services, after.services.value);
      }
    case RemovePublicKeys(ids) =>
      if before.publicKeys.Some? && after.publicKeys.Some? {
        WithoutIsFilter(KeyId, before.publicKeys.value, ids);
        ExactlyOne(before.publicKeys.value, NotAmong(KeyId, ids), after.publicKeys.value);
      }
    case RemoveServices(ids) =>
      if before.services.Some? && after.services.Some? {
        WithoutIsFilter(ServiceId, before.services.value, ids);
        ExactlyOne(before.services.value, NotAmong(ServiceId, ids), after.services.value);
      }
  }

  // ------------------------------------------------------------ all patches

  /** Patches lead through a list of documents, one patch from each to the next. */
  ghost predicate LeadsThrough(documents: seq<DocumentModel>, patches: seq<Patch>) {
    && |documents| == |patches| + 1
    && forall i :: 0 <= i < |patches| ==> Means(documents[i], patches[i], documents[i + 1])
  }

  function Documents(document: DocumentModel, patches: seq<Patch>): (r: seq<DocumentModel>)
    ensures |r| == |patches| + 1
  {
    seq(|patches| + 1, i requires 0 <= i <= |patches| => ApplyPatches(document, patches[..i]))
  }

  /** Checked patches are carried out one after the other, in order, each meaning what it says. */
  lemma PatchesAreMeant(p: Primitives, document: DocumentModel, patches: seq<Patch>)
    requires UniqueDocument(document) && CheckPatches(p, patches).Ok?
    ensures var documents := Documents(document, patches);
            && documents[0] == document && documents[|patches|] == ApplyPatches(document, patches)
            && LeadsThrough(documents, patches)
  {
    assert patches[..|patches|] == patches;
    forall i | 0 <= i < |patches|
      ensures Means(Documents(document, patches)[i], patches[i], Documents(document, patches)[i + 1])
    {
      assert patches[..i + 1][..i] == patches[..i];
      forall j | 0 <= j < i
        ensures CheckPatch(p, patches[..i][j]).Ok?
      {
        CheckedPatches(p, patches, j);
      }
      PatchesAreUpserts(p, document, patches[..i]);
      CheckedPatches(p, patches, i);
      var before := ApplyPatches(document, patches[..i]);
      PatchedExactly(p, before, patches[i], Patched(before, patches[i]));
    }
  }

  lemma {:induction false} PatchesInTurn(document: DocumentModel, a: seq<Patch>, b: seq<Patch>)
    ensures ApplyPatches(document, a + b) == ApplyPatches(ApplyPatches(document, a), b)
  {
    if b == [] {
      assert a + b == a;
    } else {
      var n := |b| - 1;
      PatchesInTurn(document, a, b[..n]);
      assert (a + b)[..|a + b| - 1] == a + b[..n];
    }
  }

  /** Nothing before a replacement has any bearing on what comes out, whatever the document and the patches. */
  lemma ReplacementForgets(document: DocumentModel, a: seq<Patch>, replacement: DocumentModel, b: seq<Patch>)
    ensures ApplyPatches(document, a + [Replace(replacement)] + b) == ApplyPatches(replacement, b)
    ensures ApplyPatches(document, a + [Replace(replacement)]) == replacement
  {
    var replaced := a + [Replace(replacement)];
    assert replaced[..|a|] == a;
    PatchesInTurn(document, replaced, b);
  }
}

/** The order in which operations are stored does not matter to resolution. */
module ResolutionOrder {
  import opened Wrappers
  import opened Models
  import opened OperationProcessor
  import opened Resolver
  import opened ResolutionHistory

  lemma {:induction false} BucketCounts(
    p: Primitives, operations: seq<AnchoredOperation>, c: string, o: AnchoredOperation)
    ensures multiset(Bucket(p, operations, c))[o] == if CommitKey(p, o) == Ok(c) then multiset(operations)[o] else 0
  {
    if operations != [] {
      var n := |operations| - 1;
      BucketCounts(p, operations[..n], c, o);
      assert operations == operations[..n] + [operations[n]];
    }
  }

  lemma SameBuckets(p: Primitives, a: seq<AnchoredOperation>, b: seq<AnchoredOperation>, c: string)
    requires multiset(a) == multiset(b)
    ensures multiset(Bucket(p, a, c)) == multiset(Bucket(p, b, c))
  {
    forall o
      ensures multiset(Bucket(p, a, c))[o] == multiset(Bucket(p, b, c))[o]
    {
      BucketCounts(p, a, c, o);
      BucketCounts(p, b, c, o);
    }
  }

  lemma {:induction false} TypeCounts(operations: seq<AnchoredOperation>, t: OperationType, o: AnchoredOperation)
    ensures multiset(OfType(operations, t))[o]
            == if TypeOf(o.operationBuffer) == t then multiset(operations)[o] else 0
  {
    if operations != [] {
      var n := |operations| - 1;
      TypeCounts(operations[..n], t, o);
      assert operations == operations[..n] + [operations[n]];
    }
  }

  lemma SamePhaseOperations(a: seq<AnchoredOperation>, b: seq<AnchoredOperation>, phase: Phase)
    requires multiset(a) == multiset(b)
    ensures multiset(PhaseOperations(phase, a)) == multiset(PhaseOperations(phase, b))
  {
    forall t
      ensures multiset(OfType(a, t)) == multiset(OfType(b, t))
    {
      forall o
        ensures multiset(OfType(a, t))[o] == multiset(OfType(b, t))[o]
      {
        TypeCounts(a, t, o);
        TypeCounts(b, t, o);
      }
    }
  }

  lemma SameMembers(a: seq<AnchoredOperation>, b: seq<AnchoredOperation>)
    requires multiset(a) == multiset(b)
    ensures |a| == |b| && forall o :: o in a <==> o in b
  {
    assert |a| == |multiset(a)| && |b| == |multiset(b)|;
    forall o
      ensures o in a <==> o in b
    {
      assert o in a <==> o in multiset(a);
      assert o in b <==> o in multiset(b);
    }
  }

  lemma SameLast(a: seq<AnchoredOperation>, b: seq<AnchoredOperation>)
    requires Ascending(a) && Ascending(b) && DistinctNumbers(a) && a != [] && |a| == |b|
    requires forall o :: o in a <==> o in b
    ensures a[|a| - 1] == b[|b| - 1]
  {
    var n := |a| - 1;
    assert a[n] in b && b[n] in a;
    var i :| 0 <= i < |b| && b[i] == a[n];
    var j :| 0 <= j < |a| && a[j] == b[n];
    assert b[i].transactionNumber <= b[n].transactionNumber && a[j].transactionNumber <= a[n].transactionNumber;
  }

  lemma SameFront(a: seq<AnchoredOperation>, b: seq<AnchoredOperation>)
    requires a != [] && |a| == |b| && a[|a| - 1] == b[|b| - 1] && multiset(a) == multiset(b)
    ensures multiset(a[..|a| - 1]) == multiset(b[..|b| - 1])
  {
    var n := |a| - 1;
    assert a == a[..n] + [a[n]] && b == b[..n] + [b[n]];
    assert multiset(a[..n]) == multiset(a) - multiset{a[n]};
    assert multiset(b[..n]) == multiset(b) - multiset{b[n]};
  }

  /** There is only one way to put operations with distinct transaction numbers in order. */
  lemma {:induction false} AscendingIsUnique(a: seq<AnchoredOperation>, b: seq<AnchoredOperation>)
    requires Ascending(a) && Ascending(b) && DistinctNumbers(a) && multiset(a) == multiset(b)
    ensures a == b
  {
    SameMembers(a, b);
    if a != [] {
      var n := |a| - 1;
      SameLast(a, b);
      SameFront(a, b);
      AscendingIsUnique(a[..n], b[..n]);
      assert a == a[..n] + [a[n]] && b == b[..n] + [b[n]];
    }
  }

  lemma SameSorted(p: Primitives, a: seq<AnchoredOperation>, b: seq<AnchoredOperation>, c: string)
    requires DistinctNumbers(a) && multiset(a) == multiset(b)
    ensures SortedByNumber(Bucket(p, a, c)) == SortedByNumber(Bucket(p, b, c))
  {
    var x, y := SortedByNumber(Bucket(p, a, c)), SortedByNumber(Bucket(p, b, c));
    SameBuckets(p, a, b, c);
    SortedIsAscending(Bucket(p, a, c));
    SortedIsAscending(Bucket(p, b, c));
    assert forall o <- x :: o in a;
    AscendingIsUnique(x, y);
  }

  lemma SameNextState(
    p: Primitives, phase: Phase, a: seq<AnchoredOperation>, b: seq<AnchoredOperation>, didState: DidState)
    requires DistinctNumbers(a) && multiset(a) == multiset(b)
    ensures NextState(p, phase, a, didState) == NextState(p, phase, b, didState)
  {
    var commitment := Commitment(phase, didState);
    if commitment.Some? {
      SameSorted(p, a, b, commitment.value);
    }
  }

  lemma {:induction false} SameRun(
    p: Primitives, phase: Phase, a: seq<AnchoredOperation>, b: seq<AnchoredOperation>, didState: DidState,
    applied: set<nat>)
    requires DistinctNumbers(a) && multiset(a) == multiset(b)
    ensures Run(p, phase, a, didState, applied) == Run(p, phase, b, didState, applied)
    decreases Numbers(a) - applied
  {
    SameNextState(p, phase, a, b, didState);
    var next := NextState(p, phase, a, didState);
    if next.Some? && next.value.lastOperationTransactionNumber !in applied {
      NextNumber(p, phase, a, didState);
      SameRun(p, phase, a, b, next.value, applied + {next.value.lastOperationTransactionNumber});
    }
  }

  lemma SameIndexable(p: Primitives, a: seq<AnchoredOperation>, b: seq<AnchoredOperation>)
    requires multiset(a) == multiset(b)
    ensures Indexable(p, a) <==> Indexable(p, b)
  {
    SameMembers(a, b);
    if Indexable(p, a) {
      forall i | 0 <= i < |b|
        ensures CommitKey(p, b[i]).Ok?
      {
        assert b[i] in a;
      }
    }
    if Indexable(p, b) {
      forall i | 0 <= i < |a|
        ensures CommitKey(p, a[i]).Ok?
      {
        assert a[i] in b;
      }
    }
  }

  lemma PhaseIsDistinct(operations: seq<AnchoredOperation>, phase: Phase)
    requires DistinctNumbers(operations)
    ensures DistinctNumbers(PhaseOperations(phase, operations))
  {
  }

  lemma SamePhase(p: Primitives, phase: Phase, a: seq<AnchoredOperation>, b: seq<AnchoredOperation>)
    requires multiset(a) == multiset(b)
    ensures Indexable(p, PhaseOperations(phase, a)) <==> Indexable(p, PhaseOperations(phase, b))
  {
    SamePhaseOperations(a, b, phase);
    SameIndexable(p, PhaseOperations(phase, a), PhaseOperations(phase, b));
  }

  lemma SamePhaseRun(
    p: Primitives, phase: Phase, a: seq<AnchoredOperation>, b: seq<AnchoredOperation>, didState: DidState)
    requires DistinctNumbers(a) && multiset(a) == multiset(b)
    ensures Run(p, phase, PhaseOperations(phase, a), didState, {})
            == Run(p, phase, PhaseOperations(phase, b), didState, {})
  {
    SamePhaseOperations(a, b, phase);
    PhaseIsDistinct(a, phase);
    SameRun(p, phase, PhaseOperations(phase, a), PhaseOperations(phase, b), didState, {});
  }

  /** The order in which recovers, deactivates and updates are stored never matters, whatever their commitments: it
      neither decides whether resolution ends nor what it comes to. */
  lemma ResolutionIgnoresOrder(p: Primitives, a: seq<AnchoredOperation>, b: seq<AnchoredOperation>)
    requires DistinctNumbers(a) && multiset(a) == multiset(b) && OfType(a, Create) == OfType(b, Create)
    ensures Terminates(p, a) <==> Terminates(p, b)
    ensures Terminates(p, a) ==> Resolve(p, a) == Resolve(p, b)
  {
    SamePhase(p, Recovery, a, b);
    SamePhase(p, Updating, a, b);
    var first := FirstState(p, OfType(a, Create));
    if first.Some? {
      SamePhaseRun(p, Recovery, a, b, first.value);
      var recovered := Run(p, Recovery, PhaseOperations(Recovery, a), first.value, {});
      if recovered.Some? {
        SamePhaseRun(p, Updating, a, b, recovered.value);
      }
    }
  }
}

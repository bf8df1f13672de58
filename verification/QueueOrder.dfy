// Whom the queue serves, said of the operations alone: who was let in, with
// which priority, and when.
module QueueOrder {
  import opened BinaryHeap
  import opened WaitingLine

  ghost predicate Waits(maximum: nat, ops: seq<Operation>, id: int) {
    Waiting(After(maximum, ops).line, id)
  }

  // Operation k lets the id in.
  ghost predicate LetsIn(maximum: nat, ops: seq<Operation>, k: nat, id: int) {
    && k < |ops| && ops[k].DoPut? && ops[k].id == id
    && !Waits(maximum, ops[..k], id) && Waits(maximum, ops[..k + 1], id)
  }

  // It has been waiting ever since.
  ghost predicate WaitsSince(maximum: nat, ops: seq<Operation>, k: nat, id: int) {
    LetsIn(maximum, ops, k, id) && forall m :: k < m <= |ops| ==> Waits(maximum, ops[..m], id)
  }

  // The put at k asked for a smaller priority value than the one at l, or for
  // the same and earlier.
  predicate AskedAhead(ops: seq<Operation>, k: nat, l: nat)
    requires k < |ops| && l < |ops| && ops[k].DoPut? && ops[l].DoPut?
  {
    ops[k].priority < ops[l].priority || (ops[k].priority == ops[l].priority && k < l)
  }

  lemma NextIs(maximum: nat, ops: seq<Operation>, op: Operation)
    ensures After(maximum, ops + [op]) == Perform(After(maximum, ops), maximum, op)
    ensures forall m :: 0 <= m <= |ops| ==> (ops + [op])[..m] == ops[..m]
    ensures (ops + [op])[..|ops| + 1] == ops + [op]
  {
    assert (ops + [op])[..|ops|] == ops;
  }

  // ------------------------------------------------------------------
  // Who is let in
  // ------------------------------------------------------------------

  // Below capacity a put lets in whoever is not waiting yet; it lets in nobody
  // else and sends nobody away.
  lemma PutLetsInIff(maximum: nat, ops: seq<Operation>, id: int, priority: int)
    ensures var longer := ops + [DoPut(id, priority)];
      && (LetsIn(maximum, longer, |ops|, id) <==>
            !Waits(maximum, ops, id) && |After(maximum, ops).line| < maximum)
      && (forall other :: other != id ==> (Waits(maximum, longer, other) <==> Waits(maximum, ops, other)))
      && (Waits(maximum, ops, id) ==> Waits(maximum, longer, id))
      && (Put(After(maximum, ops), maximum, id, priority).1.Full? <==> |After(maximum, ops).line| == maximum)
  {
    var longer, q := ops + [DoPut(id, priority)], After(maximum, ops);
    NextIs(maximum, ops, DoPut(id, priority));
    EveryRunIsSound(maximum, ops);
    assert longer[..|ops|] == ops;
    if |q.line| < maximum && !Waiting(q.line, id) {
      WaitingAfterEnqueue(q.line, Entry(priority, |q.admitted|, id));
    }
  }

  // The length of the line counts the ids.
  lemma {:induction false} LineCountsIds(line: seq<Entry>)
    requires InLine(line) && OneEach(line)
    ensures |set x | x in line :: x.id| == |line|
  {
    var ids := set x | x in line :: x.id;
    if line == [] {
      assert ids == {};
    } else {
      InLineTail(line);
      LineCountsIds(line[1..]);
      var rest := set x | x in line[1..] :: x.id;
      assert line[0] in line;
      forall id ensures id in ids <==> id in rest + {line[0].id} {
        if id in ids {
          var x :| x in line && x.id == id;
          assert x == line[0] || x in line[1..];
        }
      }
      assert ids == rest + {line[0].id};
      forall x | x in line[1..] ensures x.id != line[0].id {
        assert x in line && x != line[0];
      }
    }
  }

  lemma LengthIsHowManyWait(maximum: nat, ops: seq<Operation>, waiting: set<int>)
    requires forall id :: id in waiting <==> Waits(maximum, ops, id)
    ensures |waiting| == |After(maximum, ops).line| <= maximum
  {
    var line := After(maximum, ops).line;
    EveryRunIsSound(maximum, ops);
    LineCountsIds(line);
    forall id ensures id in waiting <==> id in set x | x in line :: x.id {
      WaitingIs(line, id);
    }
    assert waiting == set x | x in line :: x.id;
  }

  // ------------------------------------------------------------------
  // Entries are what was asked for
  // ------------------------------------------------------------------

  // The entry goes back to the put at k.
  ghost predicate Traced(maximum: nat, ops: seq<Operation>, x: Entry, k: nat) {
    && WaitsSince(maximum, ops, k, x.id) && ops[k].priority == x.priority
    && |After(maximum, ops[..k]).admitted| == x.sequence
  }

  lemma TracedNext(maximum: nat, ops: seq<Operation>, op: Operation, x: Entry, k: nat)
    requires Traced(maximum, ops, x, k) && Waits(maximum, ops + [op], x.id)
    ensures Traced(maximum, ops + [op], x, k)
  {
    NextIs(maximum, ops, op);
    var longer := ops + [op];
    assert longer[..k] == ops[..k] && longer[..k + 1] == ops[..k + 1];
    forall m | k < m <= |longer| ensures Waits(maximum, longer[..m], x.id) {
      assert m <= |ops| ==> longer[..m] == ops[..m];
      assert m == |longer| ==> longer[..m] == longer;
    }
  }

  // Whoever is in line after an operation was there before, or is the one the
  // operation let in.
  lemma MemberNext(q: Queue, maximum: nat, op: Operation, x: Entry)
    requires InLine(q.line) && x in Perform(q, maximum, op).line
    ensures x in q.line
            || (op.DoPut? && x == Entry(op.priority, |q.admitted|, op.id) && !Waiting(q.line, op.id))
  {
    match op
    case DoPut(id, priority) => EnqueueMembers(q.line, Entry(priority, |q.admitted|, id));
    case DoPop =>
      if q.line != [] {
        InLineTail(q.line);
      }
    case DoCancel(id) => WithoutMembers(q.line, id);
    case DoClear =>
  }

  lemma InLineNext(maximum: nat, ops: seq<Operation>, op: Operation, x: Entry)
    requires x in After(maximum, ops + [op]).line
    ensures x in After(maximum, ops).line
            || (op.DoPut? && x == Entry(op.priority, |After(maximum, ops).admitted|, op.id)
                && !Waits(maximum, ops, op.id))
  {
    NextIs(maximum, ops, op);
    EveryRunIsSound(maximum, ops);
    MemberNext(After(maximum, ops), maximum, op, x);
  }

  lemma {:induction false} EntryIsTraced(maximum: nat, ops: seq<Operation>, x: Entry) returns (k: nat)
    requires x in After(maximum, ops).line
    ensures Traced(maximum, ops, x, k)
  {
    var front, op := ops[..|ops| - 1], ops[|ops| - 1];
    assert ops == front + [op];
    InLineNext(maximum, front, op, x);
    if x in After(maximum, front).line {
      k := EntryIsTraced(maximum, front, x);
      WaitingIs(After(maximum, ops).line, x.id);
      TracedNext(maximum, front, op, x, k);
    } else {
      k := |front|;
      NewEntryIsTraced(maximum, front, op, x);
    }
  }

  lemma NewEntryIsTraced(maximum: nat, ops: seq<Operation>, op: Operation, x: Entry)
    requires op.DoPut? && x == Entry(op.priority, |After(maximum, ops).admitted|, op.id) && !Waits(maximum, ops, op.id)
    requires x in After(maximum, ops + [op]).line
    ensures Traced(maximum, ops + [op], x, |ops|)
  {
    NextIs(maximum, ops, op);
    WaitingIs(After(maximum, ops + [op]).line, x.id);
    assert (ops + [op])[..|ops|] == ops;
  }

  // ------------------------------------------------------------------
  // Whom a pop serves
  // ------------------------------------------------------------------

  lemma SinceOnce(maximum: nat, ops: seq<Operation>, k: nat, l: nat, id: int)
    requires WaitsSince(maximum, ops, k, id) && WaitsSince(maximum, ops, l, id)
    ensures k == l
  {
  }

  lemma PerformAdmits(q: Queue, maximum: nat, op: Operation)
    ensures |q.admitted| <= |Perform(q, maximum, op).admitted|
  {
  }

  lemma {:induction false} AdmissionsCount(maximum: nat, ops: seq<Operation>, k: nat, m: nat)
    requires k <= m <= |ops|
    ensures |After(maximum, ops[..k]).admitted| <= |After(maximum, ops[..m]).admitted|
    decreases m
  {
    if k < m {
      AdmissionsCount(maximum, ops, k, m - 1);
      assert ops[..m][..m - 1] == ops[..m - 1];
      PerformAdmits(After(maximum, ops[..m - 1]), maximum, ops[m - 1]);
    }
  }

  // The admission at k counts one.
  lemma AdmissionCounts(maximum: nat, ops: seq<Operation>, k: nat, l: nat, id: int)
    requires LetsIn(maximum, ops, k, id) && k < l <= |ops|
    ensures |After(maximum, ops[..k]).admitted| < |After(maximum, ops[..l]).admitted|
  {
    assert ops[..k + 1][..k] == ops[..k];
    AdmissionsCount(maximum, ops, k + 1, l);
  }

  // Two entries stand in line as they were asked for.
  lemma InLineMeansAhead(maximum: nat, ops: seq<Operation>, x: Entry, k: nat, y: Entry, l: nat)
    requires Traced(maximum, ops, x, k) && Traced(maximum, ops, y, l) && Before(x, y)
    ensures AskedAhead(ops, k, l)
  {
    if l < k {
      AdmissionCounts(maximum, ops, l, k, y.id);
    }
  }

  // A pop returns an id that, of all that wait, asked for the least priority
  // value, and of those that asked for it was let in first.
  lemma PopServesWhoAskedFirst(maximum: nat, ops: seq<Operation>) returns (k: nat)
    requires Pop(After(maximum, ops)).1.Some?
    ensures var id := Pop(After(maximum, ops)).1.value.id;
      && WaitsSince(maximum, ops, k, id)
      && (forall other, l :: other != id && WaitsSince(maximum, ops, l, other) ==> AskedAhead(ops, k, l))
      && (forall other :: Waits(maximum, ops + [DoPop], other) <==> other != id && Waits(maximum, ops, other))
  {
    var line := After(maximum, ops).line;
    var x := line[0];
    EveryRunIsSound(maximum, ops);
    InLineTail(line);
    k := EntryIsTraced(maximum, ops, x);
    forall other, l | other != x.id && WaitsSince(maximum, ops, l, other) ensures AskedAhead(ops, k, l) {
      assert ops[..|ops|] == ops && Waits(maximum, ops[..|ops|], other);
      WaitingIs(line, other);
      var y :| y in line && y.id == other;
      var m := EntryIsTraced(maximum, ops, y);
      SinceOnce(maximum, ops, l, m, other);
      InLineMeansAhead(maximum, ops, x, k, y, l);
    }
    NextIs(maximum, ops, DoPop);
    WaitingAfterPop(After(maximum, ops), maximum);
  }

  // A pop on a queue in which somebody waits serves somebody.
  lemma PopServesIff(maximum: nat, ops: seq<Operation>)
    ensures Pop(After(maximum, ops)).1.Some? <==> exists id :: Waits(maximum, ops, id)
  {
    var line := After(maximum, ops).line;
    if line != [] {
      assert Waits(maximum, ops, line[0].id);
    }
  }

  // A cancel sends away the one id, a clear sends away all.
  lemma CancelsAndClears(maximum: nat, ops: seq<Operation>, id: int)
    ensures forall other :: Waits(maximum, ops + [DoCancel(id)], other) <==> other != id && Waits(maximum, ops, other)
    ensures forall other :: !Waits(maximum, ops + [DoClear], other)
  {
    NextIs(maximum, ops, DoCancel(id));
    NextIs(maximum, ops, DoClear);
    WaitingAfterCancel(After(maximum, ops).line, id);
  }
}

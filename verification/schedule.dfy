/** Many days of the scheduled job: each cycle starts from the store the
    previous one left. Cycles run one after another; concurrent invocations
    are not modelled. */
module Schedule {
  import opened Wrappers
  import opened Store
  import opened Sequencer
  import opened Triggers

  /** The store after a run, and every cycle's outcome in order. */
  datatype Trace = Trace(db: Db, outcomes: seq<Outcome>)

  function Run(db: Db, ws: seq<World>): (r: Trace)
    ensures |r.outcomes| == |ws|
    ensures r.db.state.Some? <==> db.state.Some?
    ensures |r.db.items| == |db.items|
    decreases |ws|
  {
    if ws == [] then Trace(db, [])
    else
      var c := ScheduledStep(db, ws[0]);
      var t := Run(c.db, ws[1..]);
      Trace(t.db, [c.outcome] + t.outcomes)
  }

  /** The orders of the dispatched items, in dispatch order. */
  function DispatchedOrders(os: seq<Outcome>): seq<int>
    decreases |os|
  {
    if os == [] then []
    else (if os[0].Dispatched? then [os[0].order] else []) + DispatchedOrders(os[1..])
  }

  predicate StrictlyIncreasing(s: seq<int>) {
    forall i, j :: 0 <= i < j < |s| ==> s[i] < s[j]
  }

  lemma PrependIncreasing(x: int, s: seq<int>, lo: int, hi: int)
    requires StrictlyIncreasing(s) && x < lo <= hi
    requires forall k :: 0 <= k < |s| ==> lo <= s[k] < hi
    ensures StrictlyIncreasing([x] + s)
    ensures forall k :: 0 <= k < |[x] + s| ==> x <= ([x] + s)[k] < hi
  {
  }

  lemma DispatchedOrdersCons(o: Outcome, os: seq<Outcome>)
    ensures DispatchedOrders([o] + os)
         == (if o.Dispatched? then [o.order] else []) + DispatchedOrders(os)
  {
    assert ([o] + os)[1..] == os;
  }

  /** Unfolds one cycle of a non-empty run. */
  lemma RunCons(db: Db, ws: seq<World>)
    requires |ws| > 0
    ensures var c := ScheduledStep(db, ws[0]);
            var t := Run(c.db, ws[1..]);
            && Run(db, ws).db == t.db
            && DispatchedOrders(Run(db, ws).outcomes)
               == (if c.outcome.Dispatched? then [c.outcome.order] else []) + DispatchedOrders(t.outcomes)
  {
    var c := ScheduledStep(db, ws[0]);
    DispatchedOrdersCons(c.outcome, Run(c.db, ws[1..]).outcomes);
  }

  /** Across any run, whatever the transactions and sends do, `sent` never goes
      back to false and no item's content is rewritten. */
  lemma {:induction false} RunSentNeverReverts(db: Db, ws: seq<World>)
    ensures var r := Run(db, ws);
            forall j :: 0 <= j < |db.items| ==>
              SameContent(db.items[j], r.db.items[j]) && (db.items[j].sent ==> r.db.items[j].sent)
    decreases |ws|
  {
    if ws != [] {
      var c := ScheduledStep(db, ws[0]);
      RunSentNeverReverts(c.db, ws[1..]);
    }
  }

  /** Across any run an item that was already sent is left exactly as it was:
      its `sentAt` is stamped once, by the cycle that dispatched it. */
  lemma {:induction false} RunSentItemsFrozen(db: Db, ws: seq<World>)
    ensures forall j :: 0 <= j < |db.items| && db.items[j].sent ==> Run(db, ws).db.items[j] == db.items[j]
    decreases |ws|
  {
    if ws != [] {
      var c := ScheduledStep(db, ws[0]);
      RunSentItemsFrozen(c.db, ws[1..]);
    }
  }

  /** Items go out in strictly increasing order, never below the starting cursor,
      and the cursor never moves back. */
  lemma {:induction false} RunOrdersIncrease(db: Db, ws: seq<World>)
    requires db.state.Some?
    ensures var r := Run(db, ws);
            var d := DispatchedOrders(r.outcomes);
            && StrictlyIncreasing(d)
            && Cursor(db) <= Cursor(r.db)
            && (forall k :: 0 <= k < |d| ==> Cursor(db) <= d[k] < Cursor(r.db))
    decreases |ws|
  {
    if ws != [] {
      var c := ScheduledStep(db, ws[0]);
      RunOrdersIncrease(c.db, ws[1..]);
      RunCons(db, ws);
      if c.outcome.Dispatched? {
        assert Cursor(db) < Cursor(c.db);
        PrependIncreasing(c.outcome.order, DispatchedOrders(Run(c.db, ws[1..]).outcomes),
                          Cursor(c.db), Cursor(Run(db, ws).db));
      }
    }
  }

  /** From a positive cursor the cursor counts the dispatches: the k-th dispatched
      order is the starting cursor plus k, and the cursor and the number of sent
      items both grow by the number of dispatches. */
  lemma {:induction false} RunCountsDispatches(db: Db, ws: seq<World>)
    requires db.state.Some? && Cursor(db) >= 1
    ensures var r := Run(db, ws);
            var d := DispatchedOrders(r.outcomes);
            && Cursor(r.db) == Cursor(db) + |d|
            && SentCount(r.db.items) == SentCount(db.items) + |d|
            && (forall k :: 0 <= k < |d| ==> d[k] == Cursor(db) + k)
    decreases |ws|
  {
    if ws != [] {
      var c := ScheduledStep(db, ws[0]);
      CursorTracksSentCount(db, ws[0].transaction, ws[0].clock);
      RunCountsDispatches(c.db, ws[1..]);
      RunCons(db, ws);
    }
  }

  /** A gap stalls the sequence: with no pending item at the cursor, every later
      cycle reports that same order and the store never changes. */
  lemma {:induction false} GapStalls(db: Db, ws: seq<World>)
    requires db.state.Some? && !HasPending(db.items, Cursor(db))
    ensures Run(db, ws).db == db
    ensures forall k :: 0 <= k < |ws| ==> Run(db, ws).outcomes[k] == NoPendingItem(Cursor(db))
    decreases |ws|
  {
    if ws != [] {
      GapStalls(db, ws[1..]);
    }
  }

  /** The state document exists and holds `nextOrder = n`. */
  predicate CursorAt(db: Db, n: int) {
    db.state.Some? && db.state.value.nextOrder == Some(n)
  }

  /** `after` is `before` with the items of order `k` marked sent and nothing else changed. */
  predicate MarkedOrder(before: seq<ContentItem>, after: seq<ContentItem>, k: int) {
    && |after| == |before|
    && forall j :: 0 <= j < |before| ==>
         && after[j].order == before[j].order
         && after[j].id == before[j].id
         && after[j].sent == (before[j].sent || before[j].order == k)
  }

  /** `after` is `before` with the items of orders lo .. hi-1 marked sent and
      no other flag changed. */
  predicate MarkedRange(before: seq<ContentItem>, after: seq<ContentItem>, lo: int, hi: int) {
    && |after| == |before|
    && forall j :: 0 <= j < |before| ==>
         after[j].sent == (before[j].sent || lo <= before[j].order < hi)
  }

  lemma MarkedCompose(a: seq<ContentItem>, b: seq<ContentItem>, c: seq<ContentItem>, k: int, hi: int)
    requires MarkedOrder(a, b, k) && MarkedRange(b, c, k + 1, hi) && k < hi
    ensures MarkedRange(a, c, k, hi)
  {
  }

  /** One committing cycle at cursor `k`, with orders unique: it dispatches the
      pending item of order k, moves the cursor to k + 1, and changes no flag
      except that item's. */
  lemma CommitStep(db: Db, w: World, k: int)
    requires CursorAt(db, k) && k >= 1
    requires UniqueOrders(db.items) && HasPending(db.items, k) && w.transaction == Commits
    ensures var c := ScheduledStep(db, w);
            && c.outcome.Dispatched? && c.outcome.order == k
            && (exists j :: 0 <= j < |db.items| && Pending(db.items[j], k) && db.items[j].id == c.outcome.itemId)
            && CursorAt(c.db, k + 1)
            && MarkedOrder(db.items, c.db.items, k)
  {
    var c := ScheduledStep(db, w);
    var i := FindPending(db.items, k).value;
    assert Pending(db.items[i], k) && db.items[i].id == c.outcome.itemId;
    forall j | 0 <= j < |db.items| && j != i
      ensures c.db.items[j] == db.items[j] && db.items[j].order != k
    {
    }
  }

  /** Marking order `k` sent keeps orders unique. */
  lemma MarkedKeepsUnique(before: seq<ContentItem>, after: seq<ContentItem>, k: int)
    requires MarkedOrder(before, after, k) && UniqueOrders(before)
    ensures UniqueOrders(after)
  {
  }

  /** Marking order `k` sent leaves the orders after it pending. */
  lemma MarkedKeepsLaterPending(before: seq<ContentItem>, after: seq<ContentItem>, k: int, hi: int)
    requires MarkedOrder(before, after, k)
    requires forall n :: k <= n < hi ==> HasPending(before, n)
    ensures forall n :: k + 1 <= n < hi ==> HasPending(after, n)
  {
    forall n | k + 1 <= n < hi
      ensures HasPending(after, n)
    {
      assert HasPending(before, n);
      var p :| 0 <= p < |before| && Pending(before[p], n);
      assert Pending(after[p], n);
    }
  }

  /** A pending item after the marking was pending, with the same id, before it. */
  lemma WitnessCarriesBack(before: seq<ContentItem>, after: seq<ContentItem>, k: int, n: int, id: string)
    requires MarkedOrder(before, after, k)
    requires exists j :: 0 <= j < |after| && Pending(after[j], n) && after[j].id == id
    ensures exists j :: 0 <= j < |before| && Pending(before[j], n) && before[j].id == id
  {
    var j :| 0 <= j < |after| && Pending(after[j], n) && after[j].id == id;
    assert Pending(before[j], n);
  }

  /** After N committing cycles from `nextOrder = k` the cursor is k + N. */
  lemma {:induction false} SequentialCursor(db: Db, ws: seq<World>, k: int)
    requires CursorAt(db, k) && k >= 1
    requires UniqueOrders(db.items)
    requires forall j :: k <= j < k + |ws| ==> HasPending(db.items, j)
    requires forall m :: 0 <= m < |ws| ==> ws[m].transaction == Commits
    ensures CursorAt(Run(db, ws).db, k + |ws|)
    decreases |ws|
  {
    if ws != [] {
      var c := ScheduledStep(db, ws[0]);
      CommitStep(db, ws[0], k);
      MarkedKeepsUnique(db.items, c.db.items, k);
      MarkedKeepsLaterPending(db.items, c.db.items, k, k + |ws|);
      var rest := ws[1..];
      assert |rest| + 1 == |ws|;
      SequentialCursor(c.db, rest, k + 1);
      var t := Run(c.db, rest);
      assert CursorAt(t.db, k + 1 + |rest|);
      assert k + 1 + |rest| == k + |ws|;
      assert Run(db, ws) == Trace(t.db, [c.outcome] + t.outcomes);
    }
  }

  /** After N committing cycles from `nextOrder = k` exactly the items of orders
      k .. k+N-1 have become sent; every other flag is as it was. */
  lemma {:induction false} SequentialFlags(db: Db, ws: seq<World>, k: int)
    requires CursorAt(db, k) && k >= 1
    requires UniqueOrders(db.items)
    requires forall j :: k <= j < k + |ws| ==> HasPending(db.items, j)
    requires forall m :: 0 <= m < |ws| ==> ws[m].transaction == Commits
    ensures MarkedRange(db.items, Run(db, ws).db.items, k, k + |ws|)
    decreases |ws|
  {
    if ws != [] {
      var c := ScheduledStep(db, ws[0]);
      CommitStep(db, ws[0], k);
      MarkedKeepsUnique(db.items, c.db.items, k);
      MarkedKeepsLaterPending(db.items, c.db.items, k, k + |ws|);
      SequentialFlags(c.db, ws[1..], k + 1);
      assert Run(db, ws).db == Run(c.db, ws[1..]).db;
      MarkedCompose(db.items, c.db.items, Run(db, ws).db.items, k, k + |ws|);
    } else {
      assert Run(db, ws).db == db;
    }
  }

  /** Starting at `nextOrder = k` with pending items of orders k .. k+N-1 and N
      committing cycles: cycle m dispatches a pending item of order k + m. With
      SequentialCursor, the cursor ends at k + N and exactly the items of those
      orders become sent. */
  lemma {:induction false} SequentialDelivery(db: Db, ws: seq<World>, k: int)
    requires CursorAt(db, k) && k >= 1
    requires UniqueOrders(db.items)
    requires forall j :: k <= j < k + |ws| ==> HasPending(db.items, j)
    requires forall m :: 0 <= m < |ws| ==> ws[m].transaction == Commits
    ensures forall m :: 0 <= m < |ws| ==>
              && Run(db, ws).outcomes[m].Dispatched?
              && Run(db, ws).outcomes[m].order == k + m
              && exists j :: 0 <= j < |db.items| && Pending(db.items[j], k + m)
                             && db.items[j].id == Run(db, ws).outcomes[m].itemId
    decreases |ws|
  {
    if ws != [] {
      var r := Run(db, ws);
      var c := ScheduledStep(db, ws[0]);
      CommitStep(db, ws[0], k);
      MarkedKeepsUnique(db.items, c.db.items, k);
      MarkedKeepsLaterPending(db.items, c.db.items, k, k + |ws|);
      SequentialDelivery(c.db, ws[1..], k + 1);
      var t := Run(c.db, ws[1..]);
      assert r.outcomes == [c.outcome] + t.outcomes;
      forall m | 1 <= m < |ws|
        ensures r.outcomes[m].Dispatched? && r.outcomes[m].order == k + m
        ensures exists j :: 0 <= j < |db.items| && Pending(db.items[j], k + m)
                            && db.items[j].id == r.outcomes[m].itemId
      {
        var m' := m - 1;
        assert 0 <= m' < |ws[1..]|;
        assert r.outcomes[m] == t.outcomes[m'];
        assert t.outcomes[m'].Dispatched? && t.outcomes[m'].order == k + 1 + m';
        WitnessCarriesBack(db.items, c.db.items, k, k + m, r.outcomes[m].itemId);
      }
    }
  }

  /** Once the pending items k .. k+N-1 are all out and none of order k + N
      exists, the next cycle reports order k + N missing and changes nothing. */
  lemma DrainedCycleIsIdle(db: Db, ws: seq<World>, k: int, w: World)
    requires CursorAt(db, k) && k >= 1
    requires UniqueOrders(db.items)
    requires forall j :: k <= j < k + |ws| ==> HasPending(db.items, j)
    requires forall m :: 0 <= m < |ws| ==> ws[m].transaction == Commits
    requires !HasPending(db.items, k + |ws|)
    ensures var r := Run(db, ws);
            ScheduledStep(r.db, w) == Effect(r.db, NoPendingItem(k + |ws|))
  {
    var r := Run(db, ws);
    SequentialCursor(db, ws, k);
    RunPendingWasPending(db, ws, k + |ws|);
    assert Cursor(r.db) == k + |ws|;
  }

  /** An item unsent after a run was unsent, with the same order, before it. */
  lemma RunPendingWasPending(db: Db, ws: seq<World>, n: int)
    ensures HasPending(Run(db, ws).db.items, n) ==> HasPending(db.items, n)
  {
    var r := Run(db, ws);
    RunSentNeverReverts(db, ws);
    if HasPending(r.db.items, n) {
      var p :| 0 <= p < |r.db.items| && Pending(r.db.items[p], n);
      assert Pending(db.items[p], n);
    }
  }
}

/** The sequencing step both entry points run (functions/index.js): read the
    state, find the pending item for `nextOrder`, and in one transaction mark
    it sent and advance `nextOrder`. Nothing is sent from here; the entry
    points only build messages once this step reports a commit. */
module Sequencer {
  import opened Wrappers
  import opened Store

  /** What the store's transaction does: it commits both writes, or throws. */
  datatype TxOutcome = Commits | Aborts(message: string)

  /** Environment values read during one cycle: the two `new Date()` written
      by the transaction and the two `toISOString()` put in the messages. */
  datatype Clock = Clock(
    itemSentAt: Time,
    stateSentAt: Time,
    visibleUpdatedAt: string,
    dataUpdatedAt: string)

  /** How the step ended. `Committed` carries the item as the query read it. */
  datatype Step =
    | Missing
    | Stalled(order: int)
    | Aborted(message: string)
    | Committed(item: ContentItem)

  datatype Transition = Transition(db: Db, step: Step)

  /** The transaction's two writes, applied together: item `i` becomes sent,
      and the state moves to `n + 1` and records the item's id. */
  function MarkSent(db: Db, i: nat, n: int, clock: Clock): (r: Db)
    requires db.state.Some? && i < |db.items|
    ensures r.state.Some? && r.state.value.nextOrder == Some(n + 1)
    ensures r.state.value.lastSentItemId == Some(db.items[i].id)
    ensures |r.items| == |db.items| && r.items[i].sent
    ensures SameContent(db.items[i], r.items[i])
    ensures forall j :: 0 <= j < |db.items| && j != i ==> r.items[j] == db.items[j]
    // both writes carry the transaction's timestamps
    ensures r.items[i].sentAt == Some(clock.itemSentAt) && r.state.value.lastSentAt == Some(clock.stateSentAt)
  {
    var st := db.state.value;
    var item := db.items[i];
    Db(Some(st.(nextOrder := Some(n + 1), lastSentAt := Some(clock.stateSentAt),
                lastSentItemId := Some(item.id))),
       db.items[i := item.(sent := true, sentAt := Some(clock.itemSentAt))])
  }

  /** Steps 1 to 3 of a dispatch cycle. Only a commit changes the store, and a
      commit changes exactly the first pending item of the cursor's order and
      the state document, together. */
  function Advance(db: Db, tx: TxOutcome, clock: Clock): (t: Transition)
    // a missing state document fails the step and changes nothing
    ensures t.step.Missing? <==> db.state.None?
    ensures !t.step.Committed? ==> t.db == db
    ensures t.db.state.Some? <==> db.state.Some?
    // no pending item at the cursor: that order is reported, whatever else waits
    ensures t.step.Stalled? <==> db.state.Some? && !HasPending(db.items, Cursor(db))
    ensures t.step.Stalled? ==> t.step.order == Cursor(db)
    // a throwing transaction is the only other way not to commit
    ensures t.step.Aborted? <==> db.state.Some? && HasPending(db.items, Cursor(db)) && tx.Aborts?
    ensures t.step.Committed? <==> db.state.Some? && HasPending(db.items, Cursor(db)) && tx.Commits?
    // an absent or zero nextOrder is read as 1
    ensures db.state.Some? && db.state.value.nextOrder in {None, Some(0)} && t.step.Committed?
            ==> t.step.item.order == 1 && t.db.state.value.nextOrder == Some(2)
    // the commit: the query's item, sent; the cursor one further; nothing else
    ensures t.step.Committed? ==>
              var i := FindPending(db.items, Cursor(db)).value;
              && t.step.item == db.items[i]
              && t.step.item.order == Cursor(db)
              && t.db.state.value.nextOrder == Some(Cursor(db) + 1)
              && t.db.state.value.lastSentItemId == Some(t.step.item.id)
              && |t.db.items| == |db.items|
              && t.db.items[i].sent && SameContent(db.items[i], t.db.items[i])
              && t.db.items[i].sentAt == Some(clock.itemSentAt)
              && t.db.state.value.lastSentAt == Some(clock.stateSentAt)
              && (forall j :: 0 <= j < |db.items| && j != i ==> t.db.items[j] == db.items[j])
    // sent only turns from false to true, and content is never rewritten
    ensures |t.db.items| == |db.items|
    ensures forall j :: 0 <= j < |db.items| ==>
              SameContent(db.items[j], t.db.items[j]) && (db.items[j].sent ==> t.db.items[j].sent)
    // an item already sent is never touched again, so its `sentAt` is never re-stamped
    ensures forall j :: 0 <= j < |db.items| && db.items[j].sent ==> t.db.items[j] == db.items[j]
  {
    match db.state
    case None => Transition(db, Missing)
    case Some(st) =>
      var n := EffectiveNextOrder(st);
      match FindPending(db.items, n)
      case None => Transition(db, Stalled(n))
      case Some(i) =>
        match tx
        case Aborts(msg) => Transition(db, Aborted(msg))
        case Commits =>
          Transition(MarkSent(db, i, n, clock), Committed(db.items[i]))
  }

  lemma SentCountUpdate(items: seq<ContentItem>, i: nat, x: ContentItem)
    requires i < |items|
    ensures SentCount(items[i := x]) + (if items[i].sent then 1 else 0)
         == SentCount(items) + (if x.sent then 1 else 0)
    decreases |items|
  {
    if i > 0 {
      assert items[i := x][1..] == items[1..][i - 1 := x];
      SentCountUpdate(items[1..], i - 1, x);
    } else {
      assert items[i := x][1..] == items[1..];
    }
  }

  /** The number of sent items grows by one exactly when a step commits, which
      is exactly when the cursor advances: no item is marked sent without the
      cursor moving, and the cursor never moves without an item marked sent. */
  lemma CursorTracksSentCount(db: Db, tx: TxOutcome, clock: Clock)
    ensures var t := Advance(db, tx, clock);
            SentCount(t.db.items) == SentCount(db.items) + (if t.step.Committed? then 1 else 0)
  {
    var t := Advance(db, tx, clock);
    if t.step.Committed? {
      var i := FindPending(db.items, Cursor(db)).value;
      SentCountUpdate(db.items, i, t.db.items[i]);
      assert t.db.items == db.items[i := t.db.items[i]];
    }
  }
}

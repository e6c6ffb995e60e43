/** The two entry points of functions/index.js: the daily scheduled job
    `sendDailyWidgetContent` and the callable `manualSendDailyContent`. Both run
    `Sequencer.Advance` and only after a commit hand messages to the messaging
    service; the outcome of each send is an input. */
module Triggers {
  import opened Wrappers
  import opened JsText
  import opened Store
  import opened Sequencer
  import opened Emitter

  /** How one `messaging.send` settled: its message id, or the rejection's message. */
  datatype SendOutcome = Fulfilled(messageId: string) | Rejected(reason: string)

  /** Everything a cycle learns from outside: the transaction's fate, the clock,
      and how the visible and the data-only send settle. */
  datatype World = World(
    transaction: TxOutcome,
    clock: Clock,
    notification: SendOutcome,
    dataOnly: SendOutcome)

  /** The scheduled job's outcome, before it is rendered as the returned object. */
  datatype Outcome =
    | StateMissing
    | NoPendingItem(order: int)
    | TransactionFailed(message: string)
    | Dispatched(itemId: string, order: int, notificationSent: bool, dataOnlySent: bool)

  /** One scheduled cycle: the store afterwards, the outcome, and the messages
      handed to the messaging service, in order. */
  datatype Cycle = Cycle(db: Db, outcome: Outcome, messages: seq<Message>)

  /** A scheduled cycle without its messages. */
  datatype Effect = Effect(db: Db, outcome: Outcome)

  const StateNotFound: string := "State document not found"
  const NoUnsentPrefix: string := "No unsent item found with order "

  /** The object the scheduled job returns. */
  datatype ScheduledResponse =
    | ScheduledFailure(error: string)
    | ScheduledSuccess(itemId: string, order: int, notificationSent: bool, dataOnlySent: bool)

  /** What a scheduled cycle does to the store and how it ends, before any
      message is built: the outcome mirrors the sequencing step, and after a
      commit the flags report the two sends independently. */
  function ScheduledStep(db: Db, w: World): (e: Effect)
    ensures e.db == Advance(db, w.transaction, w.clock).db
    ensures e.outcome.StateMissing? <==> db.state.None?
    ensures e.outcome.NoPendingItem? <==> db.state.Some? && !HasPending(db.items, Cursor(db))
    ensures e.outcome.NoPendingItem? ==> e.outcome.order == Cursor(db)
    ensures e.outcome.TransactionFailed? <==> db.state.Some? && HasPending(db.items, Cursor(db)) && w.transaction.Aborts?
    ensures e.outcome.TransactionFailed? ==> e.outcome.message == w.transaction.message
    ensures !e.outcome.Dispatched? ==> e.db == db
    ensures e.outcome.Dispatched? ==>
              && e.outcome.notificationSent == w.notification.Fulfilled?
              && e.outcome.dataOnlySent == w.dataOnly.Fulfilled?
              && e.outcome.order == Cursor(db)
              && e.db.state.value.lastSentItemId == Some(e.outcome.itemId)
  {
    var t := Advance(db, w.transaction, w.clock);
    match t.step
    case Missing => Effect(db, StateMissing)
    case Stalled(n) => Effect(db, NoPendingItem(n))
    case Aborted(msg) => Effect(db, TransactionFailed(msg))
    case Committed(item) =>
      Effect(t.db, Dispatched(item.id, item.order, w.notification.Fulfilled?, w.dataOnly.Fulfilled?))
  }

  /** `sendDailyWidgetContent`. Messages are built and handed to the messaging
      service only after the transaction committed: the visible one first, then
      the data-only one, both naming the dispatched item. */
  function SendDailyWidgetContent(db: Db, w: World): (c: Cycle)
    ensures c.db == ScheduledStep(db, w).db && c.outcome == ScheduledStep(db, w).outcome
    ensures c.messages != [] <==> c.outcome.Dispatched?
    ensures c.messages != [] <==> c.db != db
    ensures c.outcome.Dispatched? ==>
              && |c.messages| == 2
              && c.messages[0].notification.Some? && c.messages[0].data.kind == VisibleType
              && c.messages[1].notification.None? && c.messages[1].data.kind == UpdateType
              && c.messages[0].data.itemId == c.outcome.itemId
              && c.messages[1].data.itemId == c.outcome.itemId
              && ParseInt(c.messages[0].data.order) == Some(c.outcome.order)
              && ParseInt(c.messages[1].data.order) == Some(c.outcome.order)
    // the two messages are exactly those built for the item the transaction marked
    ensures c.outcome.Dispatched? ==>
              c.messages == [VisibleMessage(Advance(db, w.transaction, w.clock).step.item, w.clock.visibleUpdatedAt),
                             DataOnlyMessage(Advance(db, w.transaction, w.clock).step.item, w.clock.dataUpdatedAt)]
  {
    var e := ScheduledStep(db, w);
    match Advance(db, w.transaction, w.clock).step
    case Committed(item) =>
      var i := FindPending(db.items, Cursor(db)).value;
      assert !db.items[i].sent && e.db.items[i].sent;
      Cycle(e.db, e.outcome,
            [VisibleMessage(item, w.clock.visibleUpdatedAt), DataOnlyMessage(item, w.clock.dataUpdatedAt)])
    case _ => Cycle(e.db, e.outcome, [])
  }

  /** The object the scheduled job returns for an outcome. */
  function ScheduledResponseOf(o: Outcome): (r: ScheduledResponse)
    ensures r.ScheduledSuccess? <==> o.Dispatched?
    ensures o.StateMissing? ==> r.error == StateNotFound
    ensures o.NoPendingItem? ==>
              && |r.error| > |NoUnsentPrefix|
              && r.error[..|NoUnsentPrefix|] == NoUnsentPrefix
              && ParseInt(r.error[|NoUnsentPrefix|..]) == Some(o.order)
              && Canonical(r.error[|NoUnsentPrefix|..])
    ensures o.TransactionFailed? ==> r.error == o.message
    ensures o.Dispatched? ==>
              r == ScheduledSuccess(o.itemId, o.order, o.notificationSent, o.dataOnlySent)
  {
    match o
    case StateMissing => ScheduledFailure(StateNotFound)
    case NoPendingItem(n) =>
      IntToStringRoundTrip(n);
      var e := NoUnsentPrefix + IntToString(n);
      assert e[..|NoUnsentPrefix|] == NoUnsentPrefix;
      assert e[|NoUnsentPrefix|..] == IntToString(n);
      ScheduledFailure(e)
    case TransactionFailed(msg) => ScheduledFailure(msg)
    case Dispatched(id, n, a, b) => ScheduledSuccess(id, n, a, b)
  }

  /** Any of the four combinations of send outcomes can follow a commit: the
      flags are independent of each other. */
  lemma SendFlagsIndependent(db: Db, clock: Clock, a: bool, b: bool)
    requires db.state.Some? && HasPending(db.items, Cursor(db))
    ensures var w := World(Commits, clock,
                           if a then Fulfilled("") else Rejected(""),
                           if b then Fulfilled("") else Rejected(""));
            var r := ScheduledResponseOf(SendDailyWidgetContent(db, w).outcome);
            r.ScheduledSuccess? && r.notificationSent == a && r.dataOnlySent == b
  {
  }

  /** The error the callable entry point throws, with its code. */
  datatype ManualResponse =
    | ManualSuccess(itemId: string, order: int, messageId: string)
    | HttpsError(code: string, message: string)

  datatype ManualCycle = ManualCycle(db: Db, response: ManualResponse, messages: seq<Message>)

  /** `manualSendDailyContent`. The same step as the scheduled job, but only the
      visible message is sent, and every error, the not-found ones included, is
      caught and re-thrown with code "internal". A rejected send is reported as
      an error although the transaction has already committed. */
  function ManualSendDailyContent(db: Db, w: World): (c: ManualCycle)
    ensures c.db == Advance(db, w.transaction, w.clock).db
    ensures c.messages != [] <==> c.db != db
    ensures c.response.HttpsError? ==> c.response.code == "internal"
    ensures db.state.None? ==> c.response == HttpsError("internal", StateNotFound)
    ensures c.response.ManualSuccess? <==> c.db != db && w.notification.Fulfilled?
    ensures c.db != db ==>
              && |c.messages| == 1
              && c.messages[0] == VisibleMessage(Advance(db, w.transaction, w.clock).step.item,
                                                 w.clock.visibleUpdatedAt)
    ensures c.db != db && w.notification.Rejected? ==> c.response == HttpsError("internal", w.notification.reason)
    // the success object names the dispatched item and the id the send returned
    ensures c.response.ManualSuccess? ==>
              c.response == ManualSuccess(Advance(db, w.transaction, w.clock).step.item.id,
                                          Advance(db, w.transaction, w.clock).step.item.order,
                                          w.notification.messageId)
    // a stall names the cursor's order; an abort carries the transaction's message
    ensures db.state.Some? && !HasPending(db.items, Cursor(db)) ==>
              c.response == HttpsError("internal", NoUnsentPrefix + IntToString(Cursor(db)))
    ensures db.state.Some? && HasPending(db.items, Cursor(db)) && w.transaction.Aborts? ==>
              c.response == HttpsError("internal", w.transaction.message)
  {
    var t := Advance(db, w.transaction, w.clock);
    match t.step
    case Missing => ManualCycle(db, HttpsError("internal", StateNotFound), [])
    case Stalled(n) => ManualCycle(db, HttpsError("internal", NoUnsentPrefix + IntToString(n)), [])
    case Aborted(msg) => ManualCycle(db, HttpsError("internal", msg), [])
    case Committed(item) =>
      var i := FindPending(db.items, Cursor(db)).value;
      assert !db.items[i].sent && t.db.items[i].sent;
      var m := VisibleMessage(item, w.clock.visibleUpdatedAt);
      match w.notification
      case Fulfilled(id) => ManualCycle(t.db, ManualSuccess(item.id, item.order, id), [m])
      case Rejected(reason) => ManualCycle(t.db, HttpsError("internal", reason), [m])
  }

  /** Both entry points run the same step: from the same store and world they
      leave the same store, fail for the same reasons with the same messages,
      and dispatch the same item with the same visible message. */
  lemma EntryPointsAgree(db: Db, w: World)
    ensures var s := SendDailyWidgetContent(db, w);
            var m := ManualSendDailyContent(db, w);
            && s.db == m.db
            && (!s.outcome.Dispatched? ==>
                  m.response == HttpsError("internal", ScheduledResponseOf(s.outcome).error)
                  && m.messages == [])
            && (s.outcome.Dispatched? ==>
                  m.messages == s.messages[..1]
                  && (m.response.ManualSuccess? ==>
                        m.response.itemId == s.outcome.itemId && m.response.order == s.outcome.order))
  {
  }
}

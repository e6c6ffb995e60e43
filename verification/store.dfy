/** The two collections the dispatcher reads and writes: the `daily_items`
    documents and the singleton `daily_state/current` document. The store
    itself is abstract; a `Db` value is one snapshot of it. */
module Store {
  import opened Wrappers

  /** An instant as the store records it (`new Date()`), left opaque. */
  type Time = nat

  /** One `daily_items` document: its document id and the fields the cycle reads or writes. */
  datatype ContentItem = ContentItem(
    id: string,
    order: int,
    title: Option<string>,
    body: Option<string>,
    sent: bool,
    sentAt: Option<Time>)

  /** The `daily_state/current` document. */
  datatype DispatchState = DispatchState(
    nextOrder: Option<int>,
    lastSentAt: Option<Time>,
    lastSentItemId: Option<string>)

  /** A snapshot of the store. `state` is None when the state document does not
      exist; `items` lists the item documents in the order a query returns them. */
  datatype Db = Db(state: Option<DispatchState>, items: seq<ContentItem>)

  /** What the item query matches: `order == n` and `sent == false`. */
  predicate Pending(item: ContentItem, n: int) {
    item.order == n && !item.sent
  }

  predicate HasPending(items: seq<ContentItem>, n: int) {
    exists i :: 0 <= i < |items| && Pending(items[i], n)
  }

  /** `state.nextOrder || 1`: an absent field and 0 are both falsy. */
  function EffectiveNextOrder(s: DispatchState): int {
    if s.nextOrder.Some? && s.nextOrder.value != 0 then s.nextOrder.value else 1
  }

  /** The order the next cycle looks for, when the state document exists. */
  function Cursor(db: Db): int
    requires db.state.Some?
  {
    EffectiveNextOrder(db.state.value)
  }

  /** The item query with `limit(1)`: the position of the first pending item of order `n`. */
  function FindPending(items: seq<ContentItem>, n: int): (r: Option<nat>)
    ensures r.Some? ==> r.value < |items| && Pending(items[r.value], n)
    ensures r.Some? ==> forall j :: 0 <= j < r.value ==> !Pending(items[j], n)
    ensures r.None? <==> !HasPending(items, n)
    decreases |items|
  {
    if items == [] then None
    else if Pending(items[0], n) then Some(0)
    else
      match FindPending(items[1..], n)
      case None => None
      case Some(k) => Some(k + 1)
  }

  /** Number of items already marked sent. */
  function SentCount(items: seq<ContentItem>): nat
    decreases |items|
  {
    if items == [] then 0 else (if items[0].sent then 1 else 0) + SentCount(items[1..])
  }

  /** Content authoring gives every item its own order. */
  predicate UniqueOrders(items: seq<ContentItem>) {
    forall i, j :: 0 <= i < j < |items| ==> items[i].order != items[j].order
  }

  /** `b` is `a` with at most its dispatch bookkeeping changed. */
  predicate SameContent(a: ContentItem, b: ContentItem) {
    a.id == b.id && a.order == b.order && a.title == b.title && a.body == b.body
  }
}

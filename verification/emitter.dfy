/** The two push messages built for a dispatched item (functions/index.js):
    a visible notification and a silent data-only update, both addressed to
    the one broadcast topic. Platform delivery hints are not modelled. */
module Emitter {
  import opened Wrappers
  import opened JsText
  import opened Store

  const Topic: string := "daily_widget_all"
  const VisibleType: string := "DAILY_WIDGET"
  const UpdateType: string := "DAILY_WIDGET_UPDATE"
  const NotificationTitle: string := "Günün İçeriği"
  const FallbackNotificationBody: string := "Yeni içerik hazır"
  const DocPathPrefix: string := "daily_items/"

  /** The alert a device shows. */
  datatype Alert = Alert(title: string, body: string)

  /** The `data` map of a message; every value is a string. */
  datatype DataPayload = DataPayload(
    kind: string,        // the `type` key
    order: string,
    itemId: string,
    docPath: string,
    title: string,
    body: string,
    updatedAt: string)

  /** A message handed to the messaging service. */
  datatype Message = Message(notification: Option<Alert>, data: DataPayload, topic: string)

  /** What the data payload of either message tells a client about the item:
      the order it can read back, the document path it can strip back to the id,
      and the title and body, an absent one as the empty string. */
  predicate Describes(d: DataPayload, item: ContentItem, kind: string, updatedAt: string) {
    && d.kind == kind
    && ParseInt(d.order) == Some(item.order) && Canonical(d.order)
    && |d.docPath| == |DocPathPrefix| + |item.id|
    && d.docPath[..|DocPathPrefix|] == DocPathPrefix
    && d.docPath[|DocPathPrefix|..] == item.id
    && d.itemId == item.id
    && (item.title.Some? ==> d.title == item.title.value)
    && (item.title.None? ==> d.title == "")
    && (item.body.Some? ==> d.body == item.body.value)
    && (item.body.None? ==> d.body == "")
    && d.updatedAt == updatedAt
  }

  function Payload(kind: string, item: ContentItem, updatedAt: string): (d: DataPayload)
    ensures Describes(d, item, kind, updatedAt)
  {
    IntToStringRoundTrip(item.order);
    DataPayload(kind, IntToString(item.order), item.id, DocPathPrefix + item.id,
                OrElse(item.title, ""), OrElse(item.body, ""), updatedAt)
  }

  /** The visible notification. Its alert is always titled "Günün İçeriği"; its
      text is the item's title, or "Yeni içerik hazır" when the title is absent
      or empty, so it is never empty. The item's body is not shown in the alert. */
  function VisibleMessage(item: ContentItem, updatedAt: string): (m: Message)
    ensures m.topic == Topic && Describes(m.data, item, VisibleType, updatedAt)
    ensures m.notification.Some? && m.notification.value.title == NotificationTitle
    ensures item.title.Some? && item.title.value != "" ==> m.notification.value.body == item.title.value
    ensures item.title.None? || item.title.value == "" ==> m.notification.value.body == FallbackNotificationBody
    ensures m.notification.value.body != ""
  {
    Message(Some(Alert(NotificationTitle, OrElse(item.title, FallbackNotificationBody))),
            Payload(VisibleType, item, updatedAt), Topic)
  }

  /** The silent update carrying the same content for the widget's cache. */
  function DataOnlyMessage(item: ContentItem, updatedAt: string): (m: Message)
    ensures m.topic == Topic && m.notification.None?
    ensures Describes(m.data, item, UpdateType, updatedAt)
  {
    Message(None, Payload(UpdateType, item, updatedAt), Topic)
  }

  /** The two messages carry the same payload: they differ only in its `type`
      and timestamp, and in the visible alert. */
  lemma MessagesAgree(item: ContentItem, visibleAt: string, dataAt: string)
    ensures var v := VisibleMessage(item, visibleAt);
            var d := DataOnlyMessage(item, dataAt);
            && v.topic == d.topic
            && v.data.(kind := UpdateType, updatedAt := dataAt) == d.data
  {
  }

  /** Distinct items get distinct document paths, so the path names the item. */
  lemma DocPathIdentifiesItem(a: ContentItem, b: ContentItem, at: string)
    requires VisibleMessage(a, at).data.docPath == VisibleMessage(b, at).data.docPath
    ensures a.id == b.id
  {
    var p := VisibleMessage(a, at).data.docPath;
    assert p[|DocPathPrefix|..] == a.id;
    assert p[|DocPathPrefix|..] == b.id;
  }
}

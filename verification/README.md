# Daily widget content dispatcher: a Dafny model

A Firebase backend pushes one piece of content a day to every installed app.
The content sits in the `daily_items` collection, one document per day,
numbered by `order`. A single state document (`daily_state/current`) holds the
cursor `nextOrder`. Each cycle works in four steps:

1. read the cursor;
2. find an unsent item with that order;
3. in one transaction, mark the item sent and advance the cursor;
4. only then send two push messages to the topic `daily_widget_all`: a visible
   notification and a silent data-only one.

Two entry points run a cycle: the scheduled job `sendDailyWidgetContent` and
the callable `manualSendDailyContent`. On the phone, the Android widget
(`DailyWidgetProvider.updateAppWidget`) searches several shared-preference files
and several key spellings for the title, body and timestamp it displays.

The modules follow the program's structure:

| file | module | what it holds |
|---|---|---|
| `wrappers.dfy` | `Wrappers` | `Option` |
| `js_text.dfy` | `JsText` | JavaScript's `x \|\| fallback` on strings and `String(n)` on integers, with a parser proving `String(n)` loses nothing |
| `store.dfy` | `Store` | the documents (`ContentItem`, `DispatchState`, `Db`) and the query "first unsent item with this order" |
| `sequencer.dfy` | `Sequencer` | steps 1 to 3: cursor, lookup, transaction |
| `emitter.dfy` | `Emitter` | the two push messages |
| `triggers.dfy` | `Triggers` | both entry points with their return values and errors |
| `schedule.dfy` | `Schedule` | many scheduled cycles in a row |
| `widget_lookup.dfy` | `WidgetLookup` | the widget's preference search |

The outside world comes in as parameters:

- the transaction's fate (`TxOutcome`);
- the clock readings (`Clock`);
- how each send settles (`SendOutcome`);
- on the phone, the contents of the preference files and the date formatter.

The collection is a sequence in the order the query returns documents, and
`limit(1)` takes the first match in that order.

The two entry points differ in the code, and the model keeps the differences:

- The callable re-throws every error as `HttpsError("internal", message)`
  (functions/index.js:312-318). This includes its own `not-found` errors for a
  missing state and for a missing item (functions/index.js:247-252, 264-268).
  So its caller always sees code `internal`, with the original message.
- The callable awaits a single `messaging.send` (functions/index.js:304). A
  rejected send therefore ends in an `internal` error, although the item is
  already marked sent and the cursor has moved. The scheduled job settles
  both sends with `Promise.allSettled` and reports success either way.
- The callable sends only the visible message, never the data-only one.
- The callable's visible message has no `android` or `apns` block
  (functions/index.js:287-302). The scheduled job's visible message has both
  (functions/index.js:117-135): high priority, the channel
  `daily_widget_channel`, a sound, an alert and badge 1. These blocks are not
  modelled, so the two visible messages agree on every modelled field only.

## Model

| member | source | states |
|---|---|---|
| JsText.OrElse | functions/index.js:99 | `x \|\| fallback` on an optional string: the result is either the fallback or the present value itself, and it is never empty when the fallback is not |
| JsText.OrEmptyIsValueOrEmpty | functions/index.js:112-113 | with an empty fallback, `v \|\| ""` is the stored text whenever there is one, an empty one included, and "" only when the field is absent |
| JsText.NatToString | functions/index.js:109 | decimal rendering of a natural number is non-empty, all digits, and has no leading zero unless the number is 0 |
| JsText.IntToString | functions/index.js:109 | `String(n)` starts with a minus sign exactly when n is negative, and is canonical: no leading zero, no "-0" |
| JsText.CanonicalIsIntToString | functions/index.js:109 | a canonical string that parses as n is `String(n)` itself, so "canonical and parses back to n" pins the text exactly |
| JsText.NatToStringRoundTrip | functions/index.js:109 | parsing the decimal rendering of a natural number gives the number back |
| JsText.IntToStringRoundTrip | functions/index.js:109 | parsing `String(n)` gives n back for every integer, negative ones included |
| JsText.IntToStringInjective | functions/index.js:109 | two different orders never render as the same `order` string |
| Store.FindPending | functions/index.js:49-56 | the query with `limit(1)`: a result is an unsent item of the order, no earlier item in query order qualifies, and there is no result exactly when no unsent item of that order exists |
| Sequencer.MarkSent | functions/index.js:76-95 | the transaction: the item is sent with its content untouched, the cursor becomes n + 1, `lastSentItemId` is the item's id, `sentAt` and `lastSentAt` carry the transaction's two timestamps, and every other item is unchanged |
| Sequencer.Advance | functions/index.js:33-95 | steps 1-3: a missing state fails; an absent or zero `nextOrder` reads as 1; with no unsent item at the cursor, that order is reported; an aborted transaction changes nothing; a commit marks exactly the query's item, stamps its `sentAt` and the state's `lastSentAt`, and moves the cursor one further; `sent` never goes back to false, no content is rewritten, and an item already sent is left exactly as it was |
| Sequencer.SentCountUpdate | functions/index.js:78-81 | replacing one item changes the number of sent items by the change of that item's flag |
| Sequencer.CursorTracksSentCount | functions/index.js:76-95 | the number of sent items grows by one exactly when the step commits, which is exactly when the cursor moves |
| Emitter.Payload | functions/index.js:107-115 | the data block names the item: its order is a canonical decimal that parses back to the item's order, `docPath` is `daily_items/` plus the id, and title and body are the item's or "" |
| Emitter.VisibleMessage | functions/index.js:98-136 | the visible message goes to the topic with the fixed title; its body is the item's title, or the fallback text when the title is absent or empty, so it is never empty; the data block names the item |
| Emitter.DataOnlyMessage | functions/index.js:139-163 | the silent message goes to the same topic, has no notification, and has a data block naming the item |
| Emitter.MessagesAgree | functions/index.js:107-115 | both messages go to the same topic, and their data blocks agree on every field except `type` and `updatedAt`; the alert and the platform blocks belong to the visible message alone |
| Emitter.DocPathIdentifiesItem | functions/index.js:111 | two items whose messages carry the same `docPath` have the same id |
| Triggers.ScheduledStep | functions/index.js:33-95 | a scheduled cycle before messages: state missing, no pending item (reporting the cursor) and transaction failure (carrying the transaction's message) happen under exactly their conditions and change nothing; a dispatch reports the cursor's order and the item recorded as last sent, with each send flag true exactly when that send was fulfilled |
| Triggers.SendDailyWidgetContent | functions/index.js:19-215 | messages are sent exactly when the store changed, and that happens exactly on a dispatch; a dispatch sends exactly two messages, the visible one and then the data-only one, each built for the item the transaction marked (topic, alert, type, order, itemId, docPath, title, body, timestamp) |
| Triggers.ScheduledResponseOf | functions/index.js:38-213 | the returned object: success exactly on dispatch; the error texts are "State document not found", the transaction's message, or "No unsent item found with order " followed by a canonical decimal that parses back to the order |
| Triggers.SendFlagsIndependent | functions/index.js:166-204 | after a commit, all four combinations of the two send flags occur: the flags are independent |
| Triggers.ManualSendDailyContent | functions/index.js:222-320 | the callable: the error code is always `internal`; a missing state gives "State document not found"; success exactly when the store changed and the one send was fulfilled; a commit sends exactly the visible message; success returns the dispatched item's id and order and the send's message id; a rejected send after a commit is an error carrying the rejection's message; a stall's error names the cursor's order and an abort's carries the transaction's message |
| Triggers.EntryPointsAgree | functions/index.js:243-311 | both entry points leave the same store, fail with the same messages, and send visible messages that agree on every modelled field, for the same item and order |
| Schedule.Run | functions/index.js:19-26 | a run has one outcome per cycle, never creates or deletes the state document, and never adds or removes items |
| Schedule.RunSentNeverReverts | functions/index.js:76-95 | across any run, `sent` never goes back to false and no item's content changes |
| Schedule.RunSentItemsFrozen | functions/index.js:49-81 | across any run, an item that was already sent is left exactly as it was, so its `sentAt` is stamped once, by the cycle that dispatched it |
| Schedule.RunOrdersIncrease | functions/index.js:44-89 | across any run, dispatched orders strictly increase, are never below the starting cursor, and the cursor never moves back |
| Schedule.RunCountsDispatches | functions/index.js:44-89 | from a positive cursor, the k-th dispatch has the starting order plus k, and the cursor and the number of sent items both grow by the number of dispatches |
| Schedule.GapStalls | functions/index.js:56-64 | with no unsent item at the cursor, every later cycle reports that same order and the store never changes |
| Schedule.CommitStep | functions/index.js:44-95 | with orders unique, a committing cycle at cursor k dispatches an unsent item of order k, moves the cursor to k + 1 and changes only the flags of order k |
| Schedule.MarkedCompose | functions/index.js:76-95 | marking order k and then orders k+1 .. hi-1 marks orders k .. hi-1 |
| Schedule.MarkedKeepsUnique | functions/index.js:78-81 | marking items sent keeps orders unique |
| Schedule.MarkedKeepsLaterPending | functions/index.js:78-81 | marking order k leaves the later orders unsent |
| Schedule.WitnessCarriesBack | functions/index.js:66-68 | an item unsent after marking was unsent, with the same id, before it |
| Schedule.SequentialCursor | functions/index.js:84-89 | N committing cycles from `nextOrder = k` over unsent items k .. k+N-1 leave the cursor at k + N |
| Schedule.SequentialFlags | functions/index.js:78-81 | over the same run, exactly the items of orders k .. k+N-1 become sent |
| Schedule.SequentialDelivery | functions/index.js:49-68 | over the same run, cycle m dispatches an item that was unsent with order k + m |
| Schedule.DrainedCycleIsIdle | functions/index.js:56-64 | once those items are out and no item of order k + N exists, the next cycle reports order k + N and changes nothing |
| Schedule.RunPendingWasPending | functions/index.js:49-56 | an item the query could find after a run was already findable, with the same order, before it: runs never create pending work |
| WidgetLookup.FirstHit | android/app/src/main/kotlin/com/example/periodicallynotification/widget/DailyWidgetProvider.kt:119-156 | the value found is the first probe that hits, and nothing is found exactly when no probe hits |
| WidgetLookup.FirstHitAppend | android/app/src/main/kotlin/com/example/periodicallynotification/widget/DailyWidgetProvider.kt:120-146 | a hit among earlier probes decides the field, so a later file never overwrites a value once it is found |
| WidgetLookup.CandidatesAppend | android/app/src/main/kotlin/com/example/periodicallynotification/widget/DailyWidgetProvider.kt:80 | probing two lists of files in turn is probing their concatenation |
| WidgetLookup.ScanOneMore | android/app/src/main/kotlin/com/example/periodicallynotification/widget/DailyWidgetProvider.kt:120-156 | one more file changes a field only while it is still unknown |
| WidgetLookup.ScanStop | android/app/src/main/kotlin/com/example/periodicallynotification/widget/DailyWidgetProvider.kt:160-163 | the scan stops after the first file at which title and body are both known, or after the last file |
| WidgetLookup.StopKeepsTitleAndBody | android/app/src/main/kotlin/com/example/periodicallynotification/widget/DailyWidgetProvider.kt:160-163 | stopping early never changes the title or the body |
| WidgetLookup.UpdatedText | android/app/src/main/kotlin/com/example/periodicallynotification/widget/DailyWidgetProvider.kt:186-203 | the update line is non-empty exactly when a timestamp was found and it formats, and then it is the fixed prefix followed by the formatted date |
| WidgetLookup.FindKey | android/app/src/main/kotlin/com/example/periodicallynotification/widget/DailyWidgetProvider.kt:121-129 | the inner loop returns the value of the first key the file holds |
| WidgetLookup.ProbeFile | android/app/src/main/kotlin/com/example/periodicallynotification/widget/DailyWidgetProvider.kt:120-130 | probing a field only while it is unknown keeps it equal to the first hit over the files probed so far |
| WidgetLookup.UpdateAppWidget | android/app/src/main/kotlin/com/example/periodicallynotification/widget/DailyWidgetProvider.kt:59-204 | the nested loops with their early exit produce the view described by the reference function `ExpectedView`: title and body are the first hits over all files or the defaults; the timestamp is the first hit over the files scanned before the stop |
| WidgetLookup.FirstFileThenFirstKey | android/app/src/main/kotlin/com/example/periodicallynotification/widget/DailyWidgetProvider.kt:80-156 | the search order: a field takes its value from the first file holding any of its keys, and within it from the first key it holds |
| WidgetLookup.NoHitIffAbsent | android/app/src/main/kotlin/com/example/periodicallynotification/widget/DailyWidgetProvider.kt:80-156 | a field is not found exactly when no file holds any of its keys |
| WidgetLookup.NothingStoredGivesDefaults | android/app/src/main/kotlin/com/example/periodicallynotification/widget/DailyWidgetProvider.kt:166-168 | with no key stored anywhere, the widget shows the default title, the default body and no update line |
| WidgetLookup.ExampleStopsAfterFirstFile | android/app/src/main/kotlin/com/example/periodicallynotification/widget/DailyWidgetProvider.kt:160-163 | with title and body in the first file, the scan stops after that file |
| WidgetLookup.ExampleTimestampInSecondFile | android/app/src/main/kotlin/com/example/periodicallynotification/widget/DailyWidgetProvider.kt:146-156 | in that example the timestamp is stored only in the second file |
| WidgetLookup.EarlyStopHidesLaterTimestamp | android/app/src/main/kotlin/com/example/periodicallynotification/widget/DailyWidgetProvider.kt:160-163 | the early stop is observable: a stored timestamp in a later file is never shown |

## Left out

- Firebase plumbing is not modelled: initialisation, the schedule expression, the
  time zone, memory and timeout settings, region, and the platform hints in the
  messages (android priority and channel, apns payload, sound, badge). They
  affect how a device presents a message, not which item is dispatched or
  what the payload says. The scheduled visible message carries them and the
  callable's does not.
- Logging is left out; it has no effect on state or results.
- Concurrent cycles are left out; the model runs cycles one after another. The
  source does not make overlapping cycles safe. The item query
  (functions/index.js:49-54) runs outside the transaction, and the transaction
  (functions/index.js:76-95) reads nothing. So two overlapping cycles can both
  send the same item. The exactly-once results here hold for sequential runs
  only.
- Failures of the state read and of the item query are left out. Such an error
  would reach the same `catch` as a failed transaction. Only the transaction's
  failure is an input.
- `title` and `body` are strings or absent. Other value types are not modelled:
  a truthy non-string would pass through `|| ""` into the data map and the
  alert (functions/index.js:99, 112-113, 145-146).
- `nextOrder` and `order` are integers. Non-number values, which JavaScript
  would coerce, are not modelled. The one falsy case that matters, a missing
  or zero `nextOrder`, is.
- An item document without a `sent` field is not modelled; the query would
  skip such an item. `sent` is a boolean here.
- Sequencer.MarkSent: orders and `nextOrder` are exact integers, so `nextOrder + 1`
  (functions/index.js:84, 281) always adds one. JavaScript numbers are IEEE
  doubles, and this holds in the source only below 2^53. From 2^53 the addition
  stops changing the value; the source would then write the same cursor back
  and stall at that order. Fractional orders are not modelled either. The
  "+1 per dispatch" results (`Sequencer.CursorTracksSentCount`,
  `Schedule.RunCountsDispatches`, `Schedule.SequentialCursor`) inherit this.
- JsText.IntToString: renders integers as plain decimals. JavaScript switches to
  exponent notation at 1e21, which is not modelled.
- Timestamps (`new Date()`, `toISOString()`) are opaque inputs in `Clock`.
- WidgetLookup.UpdateAppWidget: the preference files hold string values only.
  `getString` on a non-string value throws, and that case is not modelled.
- WidgetLookup.UpdatedText: `SimpleDateFormat` parsing and formatting is the
  parameter `formatDate`. Its locale and time zone behaviour is not modelled.
- Building the `RemoteViews` and handing them to the widget manager are left
  out; the model returns the three texts the widget is set to.
- The rest of the Android and iOS widget code (`onUpdate`, `onReceive`, the
  Swift widget, the Flutter app) is not part of this model.

/** How the Android home-screen widget finds the text it shows
    (DailyWidgetProvider.kt, `updateAppWidget`): it probes a fixed list of
    shared-preference files and, in each, a fixed list of keys per field,
    keeps the first value it finds for each field, stops once title and body
    are both known, and falls back to defaults. */
module WidgetLookup {
  import opened Wrappers

  /** Every shared-preference file, flattened: (file name, key) to string value. */
  type Prefs = map<(string, string), string>

  const PrefsNames: seq<string> := [
    "HomeWidgetPreferences",
    "FlutterSharedPreferences",
    "flutter.home_widget",
    "home_widget",
    "HomeWidgetProviderPrefs"]

  const TitleKeys: seq<string> := [
    "widget_title",
    "flutter.widget_title",
    "flutter.home_widget.widget_title",
    "flutter.home_widget.widget_title.String",
    "flutter.home_widget.widget_title.string"]

  const BodyKeys: seq<string> := [
    "widget_body",
    "flutter.widget_body",
    "flutter.home_widget.widget_body",
    "flutter.home_widget.widget_body.String",
    "flutter.home_widget.widget_body.string"]

  const UpdatedKeys: seq<string> := [
    "widget_updatedAt",
    "flutter.widget_updatedAt",
    "flutter.home_widget.widget_updatedAt",
    "flutter.home_widget.widget_updatedAt.String",
    "flutter.home_widget.widget_updatedAt.string"]

  const DefaultTitle: string := "Günün İçeriği"
  const DefaultBody: string := "İçerik yükleniyor..."
  const UpdatedPrefix: string := "Son güncelleme: "

  /** What the widget is set to show. `updatedAt` is the raw value found, if any. */
  datatype WidgetView = WidgetView(title: string, body: string, updatedAt: Option<string>, updatedText: string)

  /** The probes of one file, in key order. */
  function Row(file: string, keys: seq<string>): (c: seq<(string, string)>)
    ensures |c| == |keys|
    ensures forall j :: 0 <= j < |keys| ==> c[j] == (file, keys[j])
  {
    seq(|keys|, j requires 0 <= j < |keys| => (file, keys[j]))
  }

  /** All probes for one field: file by file, and within a file key by key. */
  function Candidates(files: seq<string>, keys: seq<string>): seq<(string, string)>
    decreases |files|
  {
    if files == [] then [] else Row(files[0], keys) + Candidates(files[1..], keys)
  }

  /** The value of the first probe that hits. */
  function FirstHit(prefs: Prefs, c: seq<(string, string)>): (r: Option<string>)
    ensures r.None? <==> forall n :: 0 <= n < |c| ==> c[n] !in prefs
    ensures forall n :: 0 <= n < |c| && c[n] in prefs && (forall m :: 0 <= m < n ==> c[m] !in prefs)
              ==> r == Some(prefs[c[n]])
    decreases |c|
  {
    if c == [] then None
    else if c[0] in prefs then Some(prefs[c[0]])
    else FirstHit(prefs, c[1..])
  }

  /** A hit among the earlier probes decides the field; later probes only
      matter when the earlier ones all miss. This is why a value, once found,
      is never overwritten by a later file. */
  lemma {:induction false} FirstHitAppend(prefs: Prefs, a: seq<(string, string)>, b: seq<(string, string)>)
    ensures FirstHit(prefs, a + b)
         == if FirstHit(prefs, a).Some? then FirstHit(prefs, a) else FirstHit(prefs, b)
    decreases |a|
  {
    if a != [] {
      assert (a + b)[0] == a[0];
      assert (a + b)[1..] == a[1..] + b;
      FirstHitAppend(prefs, a[1..], b);
    } else {
      assert a + b == b;
    }
  }

  lemma {:induction false} CandidatesAppend(f1: seq<string>, f2: seq<string>, keys: seq<string>)
    ensures Candidates(f1 + f2, keys) == Candidates(f1, keys) + Candidates(f2, keys)
    decreases |f1|
  {
    if f1 == [] {
      assert f1 + f2 == f2;
    } else {
      assert (f1 + f2)[0] == f1[0];
      assert (f1 + f2)[1..] == f1[1..] + f2;
      CandidatesAppend(f1[1..], f2, keys);
    }
  }

  /** Probing one more file changes a field only if it was still unknown. */
  lemma ScanOneMore(prefs: Prefs, files: seq<string>, i: nat, keys: seq<string>)
    requires i < |files|
    ensures FirstHit(prefs, Candidates(files[..i + 1], keys))
         == if FirstHit(prefs, Candidates(files[..i], keys)).Some?
            then FirstHit(prefs, Candidates(files[..i], keys))
            else FirstHit(prefs, Row(files[i], keys))
  {
    assert files[..i + 1] == files[..i] + [files[i]];
    CandidatesAppend(files[..i], [files[i]], keys);
    assert Candidates([files[i]], keys) == Row(files[i], keys) + [];
    assert Row(files[i], keys) + [] == Row(files[i], keys);
    FirstHitAppend(prefs, Candidates(files[..i], keys), Row(files[i], keys));
  }

  /** Title and body are both known after probing the first `n` files. */
  predicate BothKnown(prefs: Prefs, files: seq<string>, n: nat)
    requires n <= |files|
  {
    && FirstHit(prefs, Candidates(files[..n], TitleKeys)).Some?
    && FirstHit(prefs, Candidates(files[..n], BodyKeys)).Some?
  }

  /** How many files the scan probes when `s` of them are already done: it stops
      after the first file at which title and body are both known. */
  function ScanStop(prefs: Prefs, files: seq<string>, s: nat): (r: nat)
    requires s <= |files|
    ensures s <= r <= |files|
    ensures r == |files| || BothKnown(prefs, files, r)
    ensures forall n :: s < n < r ==> !BothKnown(prefs, files, n)
    decreases |files| - s
  {
    if s == |files| then s
    else if BothKnown(prefs, files, s + 1) then s + 1
    else ScanStop(prefs, files, s + 1)
  }

  /** Stopping early never changes the title or the body: the scan stops only
      once both are known, and a known field is never overwritten. */
  lemma StopKeepsTitleAndBody(prefs: Prefs, files: seq<string>)
    ensures var s := ScanStop(prefs, files, 0);
            && FirstHit(prefs, Candidates(files[..s], TitleKeys)) == FirstHit(prefs, Candidates(files, TitleKeys))
            && FirstHit(prefs, Candidates(files[..s], BodyKeys)) == FirstHit(prefs, Candidates(files, BodyKeys))
  {
    var s := ScanStop(prefs, files, 0);
    assert files == files[..s] + files[s..];
    CandidatesAppend(files[..s], files[s..], TitleKeys);
    CandidatesAppend(files[..s], files[s..], BodyKeys);
    FirstHitAppend(prefs, Candidates(files[..s], TitleKeys), Candidates(files[s..], TitleKeys));
    FirstHitAppend(prefs, Candidates(files[..s], BodyKeys), Candidates(files[s..], BodyKeys));
  }

  /** What the widget shows, stated over the whole probe order: title and body
      are the first hits over all files, or the defaults; `updatedAt` is the
      first hit over the files probed before the scan stopped, and has no
      default. `formatDate` stands for parsing the stored ISO-8601 stamp and
      formatting it for display; it yields None when the stamp does not parse,
      and then, as without a stamp, the updated text is empty. */
  function ExpectedView(prefs: Prefs, formatDate: string -> Option<string>): WidgetView {
    var s := ScanStop(prefs, PrefsNames, 0);
    var u := FirstHit(prefs, Candidates(PrefsNames[..s], UpdatedKeys));
    WidgetView(
      FirstHit(prefs, Candidates(PrefsNames, TitleKeys)).GetOr(DefaultTitle),
      FirstHit(prefs, Candidates(PrefsNames, BodyKeys)).GetOr(DefaultBody),
      u,
      UpdatedText(u, formatDate))
  }

  /** The line under the body: the formatted stamp after a fixed prefix, or nothing. */
  function UpdatedText(updatedAt: Option<string>, formatDate: string -> Option<string>): (t: string)
    ensures t != [] <==> updatedAt.Some? && formatDate(updatedAt.value).Some?
    ensures t != [] ==> t == UpdatedPrefix + formatDate(updatedAt.value).value
  {
    if updatedAt.None? then ""
    else match formatDate(updatedAt.value)
      case None => ""
      case Some(d) => UpdatedPrefix + d
  }

  /** The inner loop: the first key of `keys` that `file` holds a string for. */
  method FindKey(prefs: Prefs, file: string, keys: seq<string>) returns (v: Option<string>)
    ensures v == FirstHit(prefs, Row(file, keys))
  {
    v := None;
    var j := 0;
    while j < |keys|
      invariant 0 <= j <= |keys|
      invariant forall m :: 0 <= m < j ==> (file, keys[m]) !in prefs
    {
      if (file, keys[j]) in prefs {
        v := Some(prefs[(file, keys[j])]);
        break;
      }
      j := j + 1;
    }
  }

  /** One field at one file: probe only while the field is still unknown. */
  method ProbeFile(prefs: Prefs, files: seq<string>, i: nat, keys: seq<string>, known: Option<string>)
    returns (v: Option<string>)
    requires i < |files|
    requires known == FirstHit(prefs, Candidates(files[..i], keys))
    ensures v == FirstHit(prefs, Candidates(files[..i + 1], keys))
  {
    ScanOneMore(prefs, files, i, keys);
    v := known;
    if v.None? {
      v := FindKey(prefs, files[i], keys);
    }
  }

  /** `updateAppWidget`, the lookup part: probe the files in order, fill each
      field at most once, stop when title and body are known, then default. */
  method UpdateAppWidget(prefs: Prefs, formatDate: string -> Option<string>) returns (view: WidgetView)
    ensures view == ExpectedView(prefs, formatDate)
  {
    var title: Option<string> := None;
    var body: Option<string> := None;
    var updatedAt: Option<string> := None;
    var i := 0;
    while i < |PrefsNames|
      invariant 0 <= i <= |PrefsNames|
      invariant title == FirstHit(prefs, Candidates(PrefsNames[..i], TitleKeys))
      invariant body == FirstHit(prefs, Candidates(PrefsNames[..i], BodyKeys))
      invariant updatedAt == FirstHit(prefs, Candidates(PrefsNames[..i], UpdatedKeys))
      invariant ScanStop(prefs, PrefsNames, i) == ScanStop(prefs, PrefsNames, 0)
    {
      title := ProbeFile(prefs, PrefsNames, i, TitleKeys, title);
      body := ProbeFile(prefs, PrefsNames, i, BodyKeys, body);
      updatedAt := ProbeFile(prefs, PrefsNames, i, UpdatedKeys, updatedAt);
      i := i + 1;
      if title.Some? && body.Some? {
        break;
      }
    }
    StopKeepsTitleAndBody(prefs, PrefsNames);
    var updatedText := "";
    if updatedAt.Some? {
      var date := formatDate(updatedAt.value);
      if date.Some? {
        updatedText := UpdatedPrefix + date.value;
      }
    }
    view := WidgetView(title.GetOr(DefaultTitle), body.GetOr(DefaultBody), updatedAt, updatedText);
  }

  /** The probe order in the source's own terms: a field takes its value from
      the first file that holds any of its keys, and within that file from the
      first key it holds. */
  lemma {:induction false} FirstFileThenFirstKey(prefs: Prefs, files: seq<string>, keys: seq<string>, i: nat, j: nat)
    requires i < |files| && j < |keys|
    requires (files[i], keys[j]) in prefs
    requires forall i', k :: 0 <= i' < i && 0 <= k < |keys| ==> (files[i'], keys[k]) !in prefs
    requires forall k :: 0 <= k < j ==> (files[i], keys[k]) !in prefs
    ensures FirstHit(prefs, Candidates(files, keys)) == Some(prefs[(files[i], keys[j])])
    decreases i
  {
    var row := Row(files[0], keys);
    FirstHitAppend(prefs, row, Candidates(files[1..], keys));
    if i == 0 {
      assert row[j] in prefs && forall k :: 0 <= k < j ==> row[k] !in prefs;
    } else {
      assert forall k :: 0 <= k < |keys| ==> row[k] !in prefs;
      var rest := files[1..];
      assert forall i', k :: 0 <= i' < i - 1 && 0 <= k < |keys| ==> (rest[i'], keys[k]) !in prefs by {
        forall i', k | 0 <= i' < i - 1 && 0 <= k < |keys|
          ensures (rest[i'], keys[k]) !in prefs
        {
          assert rest[i'] == files[i' + 1];
        }
      }
      assert rest[i - 1] == files[i];
      FirstFileThenFirstKey(prefs, rest, keys, i - 1, j);
    }
  }

  /** A field is not found exactly when no probed file holds any of its keys. */
  lemma {:induction false} NoHitIffAbsent(prefs: Prefs, files: seq<string>, keys: seq<string>)
    ensures FirstHit(prefs, Candidates(files, keys)).None?
        <==> forall f, k :: f in files && k in keys ==> (f, k) !in prefs
    decreases |files|
  {
    if files != [] {
      FirstHitAppend(prefs, Row(files[0], keys), Candidates(files[1..], keys));
      NoHitIffAbsent(prefs, files[1..], keys);
      assert forall f :: f in files <==> f == files[0] || f in files[1..];
      if FirstHit(prefs, Row(files[0], keys)).Some? {
        var n :| 0 <= n < |keys| && Row(files[0], keys)[n] in prefs;
        assert (files[0], keys[n]) in prefs;
      }
    }
  }

  /** With none of the keys in any file the widget shows the two defaults and
      no update line. */
  lemma NothingStoredGivesDefaults(prefs: Prefs, formatDate: string -> Option<string>)
    requires forall f, k :: f in PrefsNames && (k in TitleKeys || k in BodyKeys || k in UpdatedKeys)
               ==> (f, k) !in prefs
    ensures ExpectedView(prefs, formatDate) == WidgetView(DefaultTitle, DefaultBody, None, "")
  {
    var s := ScanStop(prefs, PrefsNames, 0);
    NoHitIffAbsent(prefs, PrefsNames, TitleKeys);
    NoHitIffAbsent(prefs, PrefsNames, BodyKeys);
    NoHitIffAbsent(prefs, PrefsNames[..s], UpdatedKeys);
  }

  /** Title and body in the first file, a timestamp only in the second. */
  const StopExample: Prefs := map[
    ("HomeWidgetPreferences", "widget_title") := "T",
    ("HomeWidgetPreferences", "widget_body") := "B",
    ("FlutterSharedPreferences", "widget_updatedAt") := "2024-01-01T00:00:00.000Z"]

  /** In that example the scan stops after the first file. */
  lemma ExampleStopsAfterFirstFile()
    ensures ScanStop(StopExample, PrefsNames, 0) == 1
    ensures FirstHit(StopExample, Candidates(PrefsNames, TitleKeys)) == Some("T")
    ensures FirstHit(StopExample, Candidates(PrefsNames, BodyKeys)) == Some("B")
  {
    FirstFileThenFirstKey(StopExample, PrefsNames, TitleKeys, 0, 0);
    FirstFileThenFirstKey(StopExample, PrefsNames[..1], TitleKeys, 0, 0);
    FirstFileThenFirstKey(StopExample, PrefsNames[..1], BodyKeys, 0, 0);
    FirstFileThenFirstKey(StopExample, PrefsNames, BodyKeys, 0, 0);
    assert BothKnown(StopExample, PrefsNames, 1);
  }

  /** In that example the first file holds no timestamp, the second does. */
  lemma ExampleTimestampInSecondFile()
    ensures FirstHit(StopExample, Candidates(PrefsNames[..1], UpdatedKeys)).None?
    ensures FirstHit(StopExample, Candidates(PrefsNames, UpdatedKeys)) == Some("2024-01-01T00:00:00.000Z")
  {
    assert forall k :: 0 <= k < |UpdatedKeys| ==> (PrefsNames[0], UpdatedKeys[k]) !in StopExample;
    assert PrefsNames[..1] == [PrefsNames[0]];
    NoHitIffAbsent(StopExample, PrefsNames[..1], UpdatedKeys);
    FirstFileThenFirstKey(StopExample, PrefsNames, UpdatedKeys, 1, 0);
  }

  /** The early stop is observable: the scan never reaches the second file, so
      the widget shows no update line although a timestamp is stored. */
  lemma EarlyStopHidesLaterTimestamp(formatDate: string -> Option<string>)
    ensures FirstHit(StopExample, Candidates(PrefsNames, UpdatedKeys)).Some?
    ensures ExpectedView(StopExample, formatDate) == WidgetView("T", "B", None, "")
  {
    ExampleStopsAfterFirstFile();
    ExampleTimestampInSecondFile();
  }
}

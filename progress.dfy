/** The transfer progress state machine behind `upload` and `download`: each
    transport event yields a status message and may update one of the two
    progress values (`getStatusMessage`). This module holds the specification
    of that fold; the class in module Client runs it in place. */
module Progress {
  import opened Url

  /** The transport's transfer events. `ResponseHeader` and `User` are the
      remaining kinds the transport can emit; `getStatusMessage` has no case
      for them. */
  datatype Event =
    | Sent
    | UploadProgress(loaded: int, total: int)
    | ResponseHeader
    | DownloadProgress(loaded: int, total: int)
    | Response(body: string)
    | User

  datatype Direction = Uploading | Downloading

  /** The values of `uploadProgress` and `downloadProgress`. */
  datatype Channels = Channels(upload: int, download: int)

  predicate IsProgress(e: Event, d: Direction)
  {
    match d
    case Uploading => e.UploadProgress?
    case Downloading => e.DownloadProgress?
  }

  function Channel(c: Channels, d: Direction): int
  {
    match d
    case Uploading => c.upload
    case Downloading => c.download
  }

  /** A progress event whose percentage is a finite number. */
  predicate Measurable(e: Event)
  {
    (e.UploadProgress? || e.DownloadProgress?) ==> e.total > 0
  }

  predicate AllMeasurable(events: seq<Event>)
  {
    forall i :: 0 <= i < |events| ==> Measurable(events[i])
  }

  /** `Math.round(100 * loaded / total)`: the integer nearest to the exact
      percentage, halves rounded up. */
  function Percent(loaded: int, total: int): (p: int)
    requires total > 0
    ensures 2 * total * p - total <= 200 * loaded < 2 * total * p + total
  {
    var num, den := 200 * loaded + total, 2 * total;
    var p := num / den;
    assert num == den * p + num % den;
    p
  }

  lemma {:induction false} ScaleStrict(t: int, a: int, b: int)
    requires t > 0 && t * a < t * b
    ensures a < b
  {
    assert t * b - t * a == t * (b - a);
  }

  /** A transferred share of the total gives a percentage between 0 and 100. */
  lemma PercentBounds(loaded: int, total: int)
    requires total > 0 && 0 <= loaded <= total
    ensures 0 <= Percent(loaded, total) <= 100
  {
    var p := Percent(loaded, total);
    ScaleStrict(total, -1, 2 * p + 1);
    ScaleStrict(total, 2 * p - 1, 201);
  }

  /** More bytes transferred never means a smaller percentage. */
  lemma PercentMonotone(l1: int, l2: int, total: int)
    requires total > 0 && l1 <= l2
    ensures Percent(l1, total) <= Percent(l2, total)
  {
    var p1, p2 := Percent(l1, total), Percent(l2, total);
    ScaleStrict(total, 2 * p1 - 1, 2 * p2 + 1);
  }

  lemma PercentNonNegative(loaded: int, total: int)
    requires total > 0 && 0 <= loaded
    ensures 0 <= Percent(loaded, total)
  {
    var p := Percent(loaded, total);
    ScaleStrict(total, -1, 2 * p + 1);
  }

  function EventPercent(e: Event): int
    requires Measurable(e) && (e.UploadProgress? || e.DownloadProgress?)
  {
    Percent(e.loaded, e.total)
  }

  /** The message `getStatusMessage` returns for an event. */
  function StatusMessage(e: Event): string
    requires Measurable(e)
  {
    match e
    case Sent => "Uploading Files"
    case UploadProgress(_, _) => "Files are " + IntToString(EventPercent(e)) + "% uploaded"
    case DownloadProgress(_, _) => "Files are " + IntToString(EventPercent(e)) + "% downloaded"
    case Response(body) => body
    case _ => "Something went wrong"
  }

  /** A progress message is `Files are `, the percentage and `% uploaded` or
      `% downloaded` by the event's kind, and the number in the middle reads
      back as the percentage; `Sent` and the response have their own texts. */
  lemma StatusMessageReadBack(e: Event)
    requires Measurable(e)
    ensures var r := StatusMessage(e);
            e.UploadProgress? ==>
              && |r| > 20 && r[..10] == "Files are " && r[|r| - 10..] == "% uploaded"
              && IsIntText(r[10..|r| - 10]) && ParseInt(r[10..|r| - 10]) == EventPercent(e)
    ensures var r := StatusMessage(e);
            e.DownloadProgress? ==>
              && |r| > 22 && r[..10] == "Files are " && r[|r| - 12..] == "% downloaded"
              && IsIntText(r[10..|r| - 12]) && ParseInt(r[10..|r| - 12]) == EventPercent(e)
    ensures e.Sent? ==> StatusMessage(e) == "Uploading Files"
    ensures e.Response? ==> StatusMessage(e) == e.body
    ensures e.ResponseHeader? || e.User? ==> StatusMessage(e) == "Something went wrong"
  {
    if e.UploadProgress? || e.DownloadProgress? {
      var r := StatusMessage(e);
      var n := IntToString(EventPercent(e));
      var tail := if e.UploadProgress? then "% uploaded" else "% downloaded";
      assert r == "Files are " + n + tail;
      assert r[..10] == "Files are ";
      assert r[10..|r| - |tail|] == n;
      assert r[|r| - |tail|..] == tail;
      IntRoundTrip(EventPercent(e));
    }
  }

  /** The progress values after `getStatusMessage` handled one event. */
  function Step(c: Channels, e: Event): (r: Channels)
    requires Measurable(e)
    ensures forall d :: Channel(r, d) == if IsProgress(e, d) then EventPercent(e) else Channel(c, d)
  {
    match e
    case UploadProgress(_, _) => c.(upload := EventPercent(e))
    case DownloadProgress(_, _) => c.(download := EventPercent(e))
    case _ => c
  }

  /** The progress values after handling `events` in order. */
  function Fold(c: Channels, events: seq<Event>): (r: Channels)
    requires AllMeasurable(events)
    ensures (forall i :: 0 <= i < |events| ==> !events[i].UploadProgress? && !events[i].DownloadProgress?) ==> r == c
    decreases |events|
  {
    if |events| == 0 then c
    else
      var init := events[..|events| - 1];
      assert forall i :: 0 <= i < |init| ==> init[i] == events[i];
      Step(Fold(c, init), events[|events| - 1])
  }

  /** The position of the last progress event of direction `d`, or -1. */
  function LastIndex(events: seq<Event>, d: Direction): (k: int)
    ensures -1 <= k < |events|
    ensures k >= 0 ==> IsProgress(events[k], d)
    ensures forall j :: k < j < |events| ==> !IsProgress(events[j], d)
    decreases |events|
  {
    if |events| == 0 then -1
    else if IsProgress(events[|events| - 1], d) then |events| - 1
    else LastIndex(events[..|events| - 1], d)
  }

  /** Each progress value holds the percentage of the last progress event of
      its own kind, or its earlier value when there is none: `Sent`,
      `Response`, other events and events of the other kind leave it alone. */
  lemma {:induction false} FoldTracksLatest(c: Channels, events: seq<Event>, d: Direction)
    requires AllMeasurable(events)
    ensures var k := LastIndex(events, d);
            Channel(Fold(c, events), d) == if k < 0 then Channel(c, d) else EventPercent(events[k])
    decreases |events|
  {
    if |events| > 0 {
      var init := events[..|events| - 1];
      assert AllMeasurable(init) by {
        forall i | 0 <= i < |init| ensures Measurable(init[i]) {
          assert init[i] == events[i];
        }
      }
      FoldTracksLatest(c, init, d);
      if !IsProgress(events[|events| - 1], d) {
        assert LastIndex(events, d) == LastIndex(init, d);
        forall k | 0 <= k < |init| ensures init[k] == events[k] { }
      }
    }
  }

  /** Within one transfer the transport reports progress of a direction with
      one total and never-decreasing byte counts. */
  predicate Ordered(events: seq<Event>, d: Direction)
  {
    && (forall i :: 0 <= i < |events| && IsProgress(events[i], d) ==> 0 <= events[i].loaded)
    && (forall i, j :: 0 <= i < j < |events| && IsProgress(events[i], d) && IsProgress(events[j], d) ==>
          events[i].total == events[j].total && events[i].loaded <= events[j].loaded)
  }

  lemma PrefixMeasurable(events: seq<Event>, n: nat)
    requires AllMeasurable(events) && n <= |events|
    ensures AllMeasurable(events[..n])
  {
    forall i | 0 <= i < n ensures Measurable(events[..n][i]) {
      assert events[..n][i] == events[i];
    }
  }

  /** A progress value never decreases while the fold runs over an ordered
      transfer, whatever other events come in between: from the first
      progress event of its kind on, and from the start when it starts at 0
      or below. */
  lemma ProgressNeverDecreases(c: Channels, events: seq<Event>, d: Direction, i: nat, j: nat)
    requires AllMeasurable(events) && Ordered(events, d)
    requires i <= j <= |events|
    requires Channel(c, d) <= 0 || LastIndex(events[..i], d) >= 0
    ensures AllMeasurable(events[..i]) && AllMeasurable(events[..j])
    ensures Channel(Fold(c, events[..i]), d) <= Channel(Fold(c, events[..j]), d)
  {
    PrefixMeasurable(events, i);
    PrefixMeasurable(events, j);
    FoldTracksLatest(c, events[..i], d);
    FoldTracksLatest(c, events[..j], d);
    var ki, kj := LastIndex(events[..i], d), LastIndex(events[..j], d);
    if ki >= 0 {
      assert events[..i][ki] == events[ki];
      assert events[..j][ki] == events[ki];
    }
    if kj >= 0 {
      assert events[..j][kj] == events[kj];
      PercentNonNegative(events[kj].loaded, events[kj].total);
      if 0 <= ki < kj {
        PercentMonotone(events[ki].loaded, events[kj].loaded, events[kj].total);
      }
    }
  }

  /** Progress events of 0, 50 and 100 bytes out of 100 followed by the
      response: the upload value goes 0, 50, 100 and the last message is the
      response body. */
  lemma UploadExample(body: string)
    ensures var events := [UploadProgress(0, 100), UploadProgress(50, 100), UploadProgress(100, 100), Response(body)];
            && AllMeasurable(events)
            && Fold(Channels(0, 0), events[..1]).upload == 0
            && Fold(Channels(0, 0), events[..2]).upload == 50
            && Fold(Channels(0, 0), events[..3]).upload == 100
            && Fold(Channels(0, 0), events) == Channels(100, 0)
            && StatusMessage(events[3]) == body
  {
    var events := [UploadProgress(0, 100), UploadProgress(50, 100), UploadProgress(100, 100), Response(body)];
    assert events[..1] == [UploadProgress(0, 100)];
    assert events[..2] == events[..1] + [UploadProgress(50, 100)];
    assert events[..3] == events[..2] + [UploadProgress(100, 100)];
    assert events[..4] == events;
  }
}

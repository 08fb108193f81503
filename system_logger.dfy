/**
 * The in-memory communication log: ordinary entries in a buffer of at
 * most 10000, radar scans sampled one in 1000 into a buffer of at most
 * 100, and the merged view ordered by timestamp.
 *
 * The clock and `JSON.stringify` are parameters.
 */
module SystemLogger {
  import opened Text
  import JsonStream
  import Sorting

  const RadarScanSampleRate: nat := 1000
  const MaxRadarScanLogs: nat := 100
  const MaxLogLines: nat := 10000

  datatype LogType = CommandSent | MessageReceived | RadarScanData | SystemEvent

  datatype LogEntry = LogEntry(timestamp: int, logType: LogType, message: string)

  /** The sort key of `getAllLogs`. */
  function Timestamp(e: LogEntry): int {
    e.timestamp
  }

  /** What `addLog` accepts: a string, or an object it serialises. */
  datatype Message = TextMessage(text: string) | ObjectMessage(value: JsonStream.Json)

  /** `generateLogEntry`: the time, the type, and the message as text. */
  function GenerateLogEntry(message: Message, logType: LogType, now: int, stringify: JsonStream.Json -> string): (e: LogEntry)
    ensures e.timestamp == now && e.logType == logType
    ensures e.message == (match message case TextMessage(t) => t case ObjectMessage(v) => stringify(v))
  {
    var serialized := match message case TextMessage(t) => t case ObjectMessage(v) => stringify(v);
    LogEntry(now, logType, serialized)
  }

  /** `push` then, when the buffer is over its bound, one `shift`. */
  function PushBounded<T>(s: seq<T>, x: T, max: nat): (r: seq<T>)
    ensures |r| <= |s| + 1
    ensures |s| <= max && max > 0 ==> |r| <= max
    ensures r == (if |s| + 1 > max then (s + [x])[1..] else s + [x])
  {
    var t := s + [x];
    if |t| > max then t[1..] else t
  }

  /** Pushing several entries in turn. */
  function PushAll<T>(s: seq<T>, xs: seq<T>, max: nat): seq<T>
    decreases |xs|
  {
    if xs == [] then s else PushAll(PushBounded(s, xs[0], max), xs[1..], max)
  }

  function Min(a: nat, b: nat): nat {
    if a <= b then a else b
  }

  /** The last `n` elements of `s` (all of them when there are fewer). */
  function Latest<T>(s: seq<T>, n: nat): (r: seq<T>)
    ensures |r| == Min(|s|, n)
  {
    s[|s| - Min(|s|, n)..]
  }

  /**
   * A bounded buffer keeps exactly the latest `max` entries: pushing any
   * sequence of entries into a buffer within its bound leaves the last
   * `max` of everything pushed so far, in order.
   */
  lemma {:induction false} PushAllKeepsLatest<T>(s: seq<T>, xs: seq<T>, max: nat)
    requires 0 < max && |s| <= max
    ensures PushAll(s, xs, max) == Latest(s + xs, max)
    decreases |xs|
  {
    if xs == [] {
      assert s + xs == s;
    } else {
      var s' := PushBounded(s, xs[0], max);
      PushBoundedLatest(s, xs[0], max);
      PushAllKeepsLatest(s', xs[1..], max);
      LatestTwice(s + [xs[0]], xs[1..], max);
      assert s + [xs[0]] + xs[1..] == s + xs;
      SameSeq(PushAll(s, xs, max), PushAll(s', xs[1..], max), Latest(s' + xs[1..], max), Latest(s + xs, max));
    }
  }

  /** One bounded push keeps the latest `max` entries. */
  lemma PushBoundedLatest<T>(s: seq<T>, x: T, max: nat)
    requires 0 < max && |s| <= max
    ensures PushBounded(s, x, max) == Latest(s + [x], max)
  {
  }

  /** Three equal steps between sequences. */
  lemma SameSeq<T>(a: seq<T>, b: seq<T>, c: seq<T>, d: seq<T>)
    requires a == b && b == c && c == d
    ensures a == d
  {
  }

  lemma LatestTwice<T>(a: seq<T>, b: seq<T>, max: nat)
    ensures Latest(Latest(a, max) + b, max) == Latest(a + b, max)
  {
    var la := Latest(a, max);
    assert la == a[|a| - Min(|a|, max)..];
    var k := |a + b| - Min(|a + b|, max);
    var k' := |la + b| - Min(|la + b|, max);
    assert |a| - |la| + k' == k;
  }

  /** The counter and whether the scan is kept, after one more radar scan. */
  function ScanStep(counter: nat): (r: (nat, bool)) {
    if (counter + 1) % RadarScanSampleRate == 0 then (0, true) else (counter + 1, false)
  }

  /** How many of `k` further scans are kept, starting from `counter`. */
  function Sampled(counter: nat, k: nat): nat
    decreases k
  {
    if k == 0 then 0
    else
      var step := ScanStep(counter);
      (if step.1 then 1 else 0) + Sampled(step.0, k - 1)
  }

  function CounterAfter(counter: nat, k: nat): nat
    decreases k
  {
    if k == 0 then counter else CounterAfter(ScanStep(counter).0, k - 1)
  }

  /**
   * Sampling keeps one scan in every 1000: from a counter below 1000, `k`
   * further scans keep `(counter + k) / 1000` of them and leave the
   * counter at `(counter + k) % 1000`.
   */
  lemma {:induction false} SamplingRate(counter: nat, k: nat)
    requires counter < RadarScanSampleRate
    ensures Sampled(counter, k) == (counter + k) / RadarScanSampleRate
    ensures CounterAfter(counter, k) == (counter + k) % RadarScanSampleRate
    decreases k
  {
    if k > 0 {
      SamplingRate(ScanStep(counter).0, k - 1);
      SamplingArithmetic(counter, k);
    }
  }

  /** One scan step moves one unit of `counter + k` into the counter, or carries a kept scan. */
  lemma SamplingArithmetic(counter: nat, k: nat)
    requires counter < RadarScanSampleRate && k > 0
    ensures var step := ScanStep(counter);
      (step.0 + (k - 1)) / RadarScanSampleRate + (if step.1 then 1 else 0) == (counter + k) / RadarScanSampleRate
      && (step.0 + (k - 1)) % RadarScanSampleRate == (counter + k) % RadarScanSampleRate
  {
    if counter + 1 == RadarScanSampleRate {
      var n := k - 1;
      assert counter + k == n + RadarScanSampleRate;
      assert (n + RadarScanSampleRate) / RadarScanSampleRate == n / RadarScanSampleRate + 1;
      assert (n + RadarScanSampleRate) % RadarScanSampleRate == n % RadarScanSampleRate;
    }
  }

  predicate NoScans(s: seq<LogEntry>) {
    forall i :: 0 <= i < |s| ==> s[i].logType != RadarScanData
  }

  predicate OnlyScans(s: seq<LogEntry>) {
    forall i :: 0 <= i < |s| ==> s[i].logType == RadarScanData
  }

  class Store {
    var logs: seq<LogEntry>
    var scanLogs: seq<LogEntry>
    var scanCounter: nat

    /** Both buffers within their bounds, scans only in the scan buffer, and the counter below the rate. */
    predicate Valid()
      reads this
    {
      |logs| <= MaxLogLines && |scanLogs| <= MaxRadarScanLogs && scanCounter < RadarScanSampleRate
      && NoScans(logs) && OnlyScans(scanLogs)
    }

    constructor()
      ensures Valid() && logs == [] && scanLogs == [] && scanCounter == 0
    {
      logs := [];
      scanLogs := [];
      scanCounter := 0;
    }

    /**
     * `addLog`: a radar scan advances the counter and is kept only when the
     * counter reaches a multiple of 1000 (which resets it); any other entry
     * goes to the main buffer. Each buffer drops its oldest entry when full.
     */
    method AddLog(logType: LogType, message: Message, now: int, stringify: JsonStream.Json -> string)
      requires Valid()
      modifies this
      ensures Valid()
      ensures logType == RadarScanData ==>
        logs == old(logs) && scanCounter == ScanStep(old(scanCounter)).0
        && scanLogs == (if ScanStep(old(scanCounter)).1
                        then PushBounded(old(scanLogs), GenerateLogEntry(message, logType, now, stringify), MaxRadarScanLogs)
                        else old(scanLogs))
      ensures logType != RadarScanData ==>
        scanLogs == old(scanLogs) && scanCounter == old(scanCounter)
        && logs == PushBounded(old(logs), GenerateLogEntry(message, logType, now, stringify), MaxLogLines)
    {
      if logType == RadarScanData {
        scanCounter := scanCounter + 1;
        if scanCounter % RadarScanSampleRate == 0 {
          var entry := GenerateLogEntry(message, logType, now, stringify);
          scanLogs := scanLogs + [entry];
          if |scanLogs| > MaxRadarScanLogs {
            scanLogs := scanLogs[1..];
          }
          scanCounter := 0;
        }
      } else {
        var entry := GenerateLogEntry(message, logType, now, stringify);
        logs := logs + [entry];
        if |logs| > MaxLogLines {
          logs := logs[1..];
        }
      }
    }

    /**
     * `getAllLogs`: every entry of both buffers, in ascending timestamp
     * order; entries with the same timestamp keep their order, the general
     * entries before the scan entries.
     */
    method GetAllLogs() returns (r: seq<LogEntry>)
      ensures Sorting.SortedBy(r, Timestamp)
      ensures multiset(r) == multiset(logs + scanLogs)
      ensures forall t :: Sorting.WithKey(r, Timestamp, t) == Sorting.WithKey(logs + scanLogs, Timestamp, t)
    {
      r := Sorting.SortBy(logs + scanLogs, Timestamp);
      forall t {
        Sorting.SortByStable(logs + scanLogs, Timestamp, t);
      }
    }
  }
}

/**
 * The run's records: the capped event log (app.js lines 503-507) and the
 * three history series behind the chart (app.js lines 400-404, 490-496).
 */
module Records {

  /**
   * What a log line reports. The source formats these as text
   * ("NAME-number shut down (age)." and so on); the model keeps the parts.
   */
  datatype Event =
    | ShutDown(name: string, number: nat)
    | Collapsed
    | MinedOre(name: string, number: nat)
    | Upgraded(name: string, number: nat)
    | Rejected(name: string, number: nat)
    | Born(name: string, number: nat, mark: nat)
    | WinsCombat(name: string, number: nat)
    | Defends(name: string, number: nat)

  datatype LogEntry = LogEntry(event: Event, cycle: nat)

  const LogLimit := 9

  /**
   * addLog: the new entry goes to the front; when that makes more than nine,
   * the oldest (last) is dropped.
   */
  function AddLog(log: seq<LogEntry>, e: LogEntry): (r: seq<LogEntry>)
    ensures |log| <= LogLimit ==> |r| <= LogLimit
    ensures |r| == if |log| + 1 > LogLimit then |log| else |log| + 1
    ensures r[0] == e
    ensures forall i | 1 <= i < |r| :: r[i] == log[i - 1]
  {
    var pushed := [e] + log;
    if |pushed| > LogLimit then pushed[..|pushed| - 1] else pushed
  }

  /** Several entries logged in order. */
  function AddLogs(log: seq<LogEntry>, es: seq<LogEntry>): seq<LogEntry>
    decreases |es|
  {
    if es == [] then log else AddLogs(AddLog(log, es[0]), es[1..])
  }

  function Reversed<T>(s: seq<T>): (r: seq<T>)
    ensures |r| == |s|
  {
    if s == [] then [] else Reversed(s[1..]) + [s[0]]
  }

  function Min(a: int, b: int): int { if a <= b then a else b }

  /**
   * Logging entries one by one into a log of at most nine keeps the newest
   * nine of everything logged, newest first.
   */
  lemma {:induction false} AddLogsKeepsNewest(log: seq<LogEntry>, es: seq<LogEntry>)
    requires |log| <= LogLimit
    ensures AddLogs(log, es) == (Reversed(es) + log)[..Min(LogLimit, |es| + |log|)]
    decreases |es|
  {
    if es != [] {
      var log1 := AddLog(log, es[0]);
      AddLogsKeepsNewest(log1, es[1..]);
      var all := Reversed(es[1..]) + log1;
      var whole := Reversed(es) + log;
      assert Reversed(es) == Reversed(es[1..]) + [es[0]];
      var n := Min(LogLimit, |es| + |log|);
      assert |all| >= n;
      forall k | 0 <= k < n ensures all[k] == whole[k] {
        if k >= |es| - 1 {
          assert whole[k] == ([es[0]] + log)[k - (|es| - 1)];
        }
      }
      assert all[..n] == whole[..n];
    }
  }

  /** The three chart series: population, average fitness, peak fitness. */
  datatype History = History(population: seq<nat>, avg: seq<int>, peak: seq<int>)

  const HistoryLimit := 220

  predicate Balanced(h: History) {
    |h.population| == |h.avg| == |h.peak|
  }

  /** Array.prototype.shift on the model's side: drops the first element, if any. */
  function Shift<T>(s: seq<T>): (r: seq<T>)
    ensures s != [] ==> r == s[1..]
    ensures s == [] ==> r == []
  {
    if s == [] then [] else s[1..]
  }

  /** One round of trimHistory's loop body: one shift of each series. */
  function ShiftAll(h: History): History {
    History(Shift(h.population), Shift(h.avg), Shift(h.peak))
  }

  /** trimHistory: shift all three series while the population series is longer than 220. */
  function Trimmed(h: History): (r: History)
    ensures |r.population| == Min(|h.population|, HistoryLimit)
    decreases |h.population|
  {
    if |h.population| > HistoryLimit then Trimmed(ShiftAll(h)) else h
  }

  /**
   * For balanced series, trimming keeps them balanced, at most 220 long, and
   * keeps exactly the newest entries of each.
   */
  lemma {:induction false} TrimmedKeepsNewest(h: History)
    requires Balanced(h)
    ensures var r := Trimmed(h);
      var drop := |h.population| - |r.population|;
      && Balanced(r)
      && |r.population| <= HistoryLimit
      && r.population == h.population[drop..]
      && r.avg == h.avg[drop..]
      && r.peak == h.peak[drop..]
    decreases |h.population|
  {
    if |h.population| > HistoryLimit {
      var s := ShiftAll(h);
      TrimmedKeepsNewest(s);
      var drop := |h.population| - |Trimmed(h).population|;
      assert h.population[1..][drop - 1..] == h.population[drop..];
      assert h.avg[1..][drop - 1..] == h.avg[drop..];
      assert h.peak[1..][drop - 1..] == h.peak[drop..];
    } else {
      assert h.population[0..] == h.population;
      assert h.avg[0..] == h.avg;
      assert h.peak[0..] == h.peak;
    }
  }

  /** The push of one step's three values onto the series. */
  function Pushed(h: History, population: nat, avg: int, peak: int): (r: History)
    ensures Balanced(h) ==> Balanced(r)
    ensures |r.population| == |h.population| + 1 && r.population[|h.population|] == population
  {
    History(h.population + [population], h.avg + [avg], h.peak + [peak])
  }

  /**
   * Pushing one entry onto balanced series of at most 220 and trimming leaves
   * balanced series of 1 to 220 entries whose last entry is the pushed one and
   * which are the newest entries of the pushed series.
   */
  lemma PushThenTrim(h: History, population: nat, avg: int, peak: int)
    requires Balanced(h) && |h.population| <= HistoryLimit
    ensures var r := Trimmed(Pushed(h, population, avg, peak));
      var n := |r.population|;
      var drop := |h.population| + 1 - n;
      && 0 < n <= HistoryLimit && Balanced(r)
      && r.population[n - 1] == population && r.avg[n - 1] == avg && r.peak[n - 1] == peak
      && r.population == (h.population + [population])[drop..]
      && r.avg == (h.avg + [avg])[drop..]
      && r.peak == (h.peak + [peak])[drop..]
  {
    TrimmedKeepsNewest(Pushed(h, population, avg, peak));
  }
}

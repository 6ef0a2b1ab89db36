/**
 * The per-run counter both drafts' `checkCount` implement: a count per key,
 * an "already reported" flag per key, and the diagnostics handed to the
 * context. Each draft turns a field event into a probe (the key it counts
 * under, the limit it looked up, the diagnostic it would report); this
 * module says what one probe does and what a whole run amounts to per key.
 */
module Counting {
  import opened Js

  /** A diagnostic handed to `reportError`, with the key it was reported for. */
  datatype Report<R> = Report(key: string, value: R)

  /** `currentCount`, `errorMap` and the diagnostics reported so far in one run. */
  datatype Counters<R> = Counters(counts: map<string, int>, errorMap: map<string, bool>, reports: seq<Report<R>>)

  /** What `checkCount` works with for one field: its key, the looked-up limit, its diagnostic. */
  datatype Probe<R> = Probe(key: string, maxAllowed: Option<int>, report: R)

  /** The two maps a run starts with are new and empty, and nothing is reported. */
  function Fresh<R>(): Counters<R> {
    Counters(map[], map[], [])
  }

  /** `currentCountData.get(key) ?? 0` */
  function CountOf<R>(s: Counters<R>, key: string): int {
    if key in s.counts then s.counts[key] else 0
  }

  /** `errorMap.get(key)` is truthy. */
  predicate Reported<R>(s: Counters<R>, key: string) {
    key in s.errorMap && s.errorMap[key]
  }

  /** How many occurrences a limit lets through before the first report. */
  function Allowance(limit: int): nat {
    if limit > 0 then limit else 0
  }

  /**
   * `checkCount` once the key and the limit are known. It touches only the
   * probe's key, never lowers a count or clears a flag, stores a count only
   * when it is within the limit, and reports at most once per key: a report
   * is added only when the key was not reported before, and then it is.
   */
  function Check<R>(s: Counters<R>, p: Probe<R>): (r: Counters<R>)
    ensures !Truthy(p.maxAllowed) ==> r == s
    ensures forall k :: k != p.key ==>
      && (k in r.counts <==> k in s.counts) && CountOf(r, k) == CountOf(s, k)
      && (k in r.errorMap <==> k in s.errorMap) && (Reported(r, k) <==> Reported(s, k))
    ensures CountOf(r, p.key) != CountOf(s, p.key) ==>
      Truthy(p.maxAllowed) && CountOf(r, p.key) == CountOf(s, p.key) + 1 <= p.maxAllowed.value
    ensures CountOf(s, p.key) <= CountOf(r, p.key)
    ensures Reported(s, p.key) ==> Reported(r, p.key)
    ensures |s.reports| <= |r.reports| <= |s.reports| + 1 && r.reports[..|s.reports|] == s.reports
    ensures |r.reports| == |s.reports| + 1 <==> !Reported(s, p.key) && Reported(r, p.key)
    ensures |r.reports| == |s.reports| + 1 ==> r.reports[|s.reports|] == Report(p.key, p.report)
  {
    if !Truthy(p.maxAllowed) then s
    else
      var maxAllowed := p.maxAllowed.value;
      var currentCount := CountOf(s, p.key) + 1;
      if currentCount > maxAllowed then
        if !Reported(s, p.key) then
          Counters(s.counts, s.errorMap[p.key := true], s.reports + [Report(p.key, p.report)])
        else s
      else Counters(s.counts[p.key := currentCount], s.errorMap, s.reports)
  }

  /** What was handed to `reportError`, in order: the values of a report log. */
  function Values<R>(log: seq<Report<R>>): (vs: seq<R>)
    ensures |vs| == |log| && forall i :: 0 <= i < |log| ==> vs[i] == log[i].value
  {
    seq(|log|, i requires 0 <= i < |log| => log[i].value)
  }

  /** The counters after the probes `ps`, one after the other, from fresh maps. */
  function Run<R>(ps: seq<Probe<R>>): Counters<R> {
    if ps == [] then Fresh() else Check(Run(ps[..|ps| - 1]), ps[|ps| - 1])
  }

  /** The probes for `key`, in order. */
  function KeyProbes<R>(ps: seq<Probe<R>>, key: string): seq<Probe<R>> {
    if ps == [] then []
    else KeyProbes(ps[..|ps| - 1], key) + (if ps[|ps| - 1].key == key then [ps[|ps| - 1]] else [])
  }

  /** The reports for `key`, in order. */
  function ReportsFor<R>(rs: seq<Report<R>>, key: string): seq<Report<R>> {
    if rs == [] then []
    else ReportsFor(rs[..|rs| - 1], key) + (if rs[|rs| - 1].key == key then [rs[|rs| - 1]] else [])
  }

  /**
   * What a run leaves for one key whose probes all carry `limit`, `kp` being
   * those probes. With a truthy limit the stored count is the number of
   * occurrences capped at the allowance and is present only once something
   * was stored, the key is flagged exactly when the occurrences exceed the
   * allowance, and then there is exactly one report, the one of the first
   * occurrence past the allowance. With a falsy limit nothing is kept.
   */
  ghost predicate KeyOutcome<R>(s: Counters<R>, key: string, kp: seq<Probe<R>>, limit: Option<int>) {
    if Truthy(limit) then
      var allowed := Allowance(limit.value);
      && CountOf(s, key) == (if |kp| < allowed then |kp| else allowed)
      && (key in s.counts <==> 0 < |kp| && 0 < allowed)
      && (Reported(s, key) <==> |kp| > allowed)
      && ReportsFor(s.reports, key) == (if |kp| > allowed then [Report(key, kp[allowed].report)] else [])
    else
      key !in s.counts && key !in s.errorMap && ReportsFor(s.reports, key) == []
  }

  /** The whole-run property of one key, by induction over the run. */
  lemma {:induction false} RunPerKey<R>(ps: seq<Probe<R>>, key: string, limit: Option<int>)
    requires forall i :: 0 <= i < |ps| && ps[i].key == key ==> ps[i].maxAllowed == limit
    ensures KeyOutcome(Run(ps), key, KeyProbes(ps, key), limit)
  {
    if ps != [] {
      var pre, last := ps[..|ps| - 1], ps[|ps| - 1];
      RunPerKey(pre, key, limit);
      var s, kp := Run(pre), KeyProbes(pre, key);
      var r := Check(s, last);
      assert Run(ps) == r;
      if |r.reports| == |s.reports| + 1 {
        assert r.reports == s.reports + [r.reports[|s.reports|]];
        assert r.reports[..|r.reports| - 1] == s.reports;
      } else {
        assert r.reports == s.reports;
      }
      if last.key == key {
        assert KeyProbes(ps, key) == kp + [last];
      } else {
        assert KeyProbes(ps, key) == kp;
      }
    }
  }

  /** Every reported key is flagged, and no key was reported twice. */
  ghost predicate ReportsOncePerKey<R>(s: Counters<R>) {
    && (forall i :: 0 <= i < |s.reports| ==> Reported(s, s.reports[i].key))
    && (forall i, j :: 0 <= i < j < |s.reports| ==> s.reports[i].key != s.reports[j].key)
  }

  /** Over a whole run no key is reported twice. */
  lemma {:induction false} RunReportsOncePerKey<R>(ps: seq<Probe<R>>)
    ensures ReportsOncePerKey(Run(ps))
  {
    if ps != [] {
      var pre, p := ps[..|ps| - 1], ps[|ps| - 1];
      RunReportsOncePerKey(pre);
      var s := Run(pre);
      var r := Check(s, p);
      assert Run(ps) == r;
      assert ReportsOncePerKey(s);
      forall i | 0 <= i < |s.reports| ensures r.reports[i] == s.reports[i] && Reported(r, s.reports[i].key) {
        assert r.reports[..|s.reports|][i] == s.reports[i];
        assert Reported(s, s.reports[i].key);
      }
      if |r.reports| == |s.reports| + 1 {
        forall i | 0 <= i < |s.reports| ensures r.reports[i].key != p.key {
          assert Reported(s, s.reports[i].key);
        }
      }
    }
  }
}

/**
 * A validation run as both drafts drive it: the visitor calls the
 * "leave Field" callback once per field selection of the document, the
 * callback ignores fields whose parent is not literally Query or Mutation,
 * and turns the others into a probe of the per-run counter. The drafts
 * differ only in the probe they build (key spelling, limit lookup,
 * diagnostic), which is the `probe` parameter here.
 */
module Visits {
  import opened Js
  import opened GraphQL
  import opened Counting

  /** How a draft turns a field under a root type into a probe. */
  type Prober<R> = (string, FieldNode) -> Probe<R>

  /** One "leave Field" visit: fields whose parent is not Query or Mutation leave everything as it was. */
  function Step<R>(probe: Prober<R>, s: Counters<R>, ev: FieldEvent): Counters<R> {
    if IsChecked(ev) then Check(s, probe(ev.parentType.value, ev.node)) else s
  }

  /** The counters after the visits `evs`, from fresh maps. */
  function RunEvents<R>(probe: Prober<R>, evs: seq<FieldEvent>): Counters<R> {
    if evs == [] then Fresh() else Step(probe, RunEvents(probe, evs[..|evs| - 1]), evs[|evs| - 1])
  }

  /** The probes of the visits that are checked, in order. */
  function Probes<R>(probe: Prober<R>, evs: seq<FieldEvent>): seq<Probe<R>> {
    if evs == [] then []
    else
      var ev := evs[|evs| - 1];
      Probes(probe, evs[..|evs| - 1]) + (if IsChecked(ev) then [probe(ev.parentType.value, ev.node)] else [])
  }

  /** The nodes of the visits of field `fieldName` directly under `typeName`, aliases included. */
  function Occurrences(evs: seq<FieldEvent>, typeName: string, fieldName: string): (occ: seq<FieldNode>)
    ensures |occ| <= |evs| && forall i :: 0 <= i < |occ| ==> occ[i].name == fieldName
  {
    if evs == [] then []
    else
      var ev := evs[|evs| - 1];
      Occurrences(evs[..|evs| - 1], typeName, fieldName)
        + (if ev.parentType == Some(typeName) && ev.node.name == fieldName then [ev.node] else [])
  }

  /** Visiting the document is running the counter over the probes of its checked fields. */
  lemma {:induction false} RunEventsIsRun<R>(probe: Prober<R>, evs: seq<FieldEvent>)
    ensures RunEvents(probe, evs) == Run(Probes(probe, evs))
  {
    if evs != [] {
      var pre, ev := evs[..|evs| - 1], evs[|evs| - 1];
      RunEventsIsRun(probe, pre);
      var ps := Probes(probe, evs);
      if IsChecked(ev) {
        assert ps[..|ps| - 1] == Probes(probe, pre);
        assert ps[|ps| - 1] == probe(ev.parentType.value, ev.node);
      } else {
        assert ps == Probes(probe, pre);
      }
    }
  }

  /** The probe of a field is keyed `typeName + sep + fieldName`. */
  ghost predicate KeyedBy<R>(probe: Prober<R>, sep: string) {
    forall t, n :: probe(t, n).key == t + sep + n.name
  }

  /**
   * The probes counted under `Type<sep>field` are exactly those of the visits
   * of that field under that root type: no other field or root type shares the key.
   */
  lemma {:induction false} KeyProbesAreOccurrences<R>(probe: Prober<R>, sep: string, evs: seq<FieldEvent>,
                                                      typeName: string, fieldName: string)
    requires KeyedBy(probe, sep) && IsRootName(typeName)
    ensures var kp := KeyProbes(Probes(probe, evs), typeName + sep + fieldName);
      var occ := Occurrences(evs, typeName, fieldName);
      && |kp| == |occ|
      && forall i :: 0 <= i < |kp| ==> kp[i] == probe(typeName, occ[i])
  {
    if evs != [] {
      var pre, ev := evs[..|evs| - 1], evs[|evs| - 1];
      KeyProbesAreOccurrences(probe, sep, pre, typeName, fieldName);
      var ps, ps' := Probes(probe, pre), Probes(probe, evs);
      if IsChecked(ev) {
        var p := probe(ev.parentType.value, ev.node);
        assert ps'[..|ps'| - 1] == ps && ps'[|ps'| - 1] == p;
        if p.key == typeName + sep + fieldName {
          RootKeyInjective(ev.parentType.value, ev.node.name, typeName, fieldName, sep);
        }
      } else {
        assert ps' == ps;
      }
    }
  }

  /** `p` is the probe of some field under Query or Mutation. */
  ghost predicate FromRootField<R>(probe: Prober<R>, p: Probe<R>) {
    exists t, n :: IsRootName(t) && p == probe(t, n)
  }

  lemma {:induction false} ProbesComeFromRootFields<R>(probe: Prober<R>, evs: seq<FieldEvent>)
    ensures forall p :: p in Probes(probe, evs) ==> FromRootField(probe, p)
  {
    if evs != [] {
      var pre, ev := evs[..|evs| - 1], evs[|evs| - 1];
      ProbesComeFromRootFields(probe, pre);
      if IsChecked(ev) {
        assert IsRootName(ev.parentType.value);
        assert FromRootField(probe, probe(ev.parentType.value, ev.node));
      }
    }
  }

  /**
   * The alias limit of one field of a root type over a whole document, when
   * the draft looks up the same `limit` for every selection of that field.
   * Let `k` be the number of selections of the field under the type (each
   * alias is one more). With a truthy limit the stored count is `k` capped at
   * the allowance, the field is flagged exactly when `k` exceeds it, and then
   * there is exactly one report, the one made for the first selection past
   * the allowance. With no truthy limit the field is never counted nor reported.
   */
  lemma FieldOutcome<R>(probe: Prober<R>, sep: string, evs: seq<FieldEvent>, typeName: string, fieldName: string,
                        limit: Option<int>)
    requires KeyedBy(probe, sep) && IsRootName(typeName)
    requires forall n: FieldNode :: n.name == fieldName ==> probe(typeName, n).maxAllowed == limit
    ensures var s := RunEvents(probe, evs);
      var key, occ := typeName + sep + fieldName, Occurrences(evs, typeName, fieldName);
      if Truthy(limit) then
        var allowed := Allowance(limit.value);
        && CountOf(s, key) == (if |occ| < allowed then |occ| else allowed)
        && (Reported(s, key) <==> |occ| > allowed)
        && ReportsFor(s.reports, key) == if |occ| > allowed then [Report(key, probe(typeName, occ[allowed]).report)] else []
      else
        key !in s.counts && key !in s.errorMap && ReportsFor(s.reports, key) == []
  {
    var key, ps := typeName + sep + fieldName, Probes(probe, evs);
    RunEventsIsRun(probe, evs);
    KeyProbesAreOccurrences(probe, sep, evs, typeName, fieldName);
    ProbesComeFromRootFields(probe, evs);
    forall i | 0 <= i < |ps| && ps[i].key == key ensures ps[i].maxAllowed == limit {
      assert FromRootField(probe, ps[i]);
      var t, n :| IsRootName(t) && ps[i] == probe(t, n);
      RootKeyInjective(t, n.name, typeName, fieldName, sep);
    }
    RunPerKey(ps, key, limit);
  }

  /** Over a whole document no key is reported twice, and every reported key stays flagged. */
  lemma RunEventsReportsOncePerKey<R>(probe: Prober<R>, evs: seq<FieldEvent>)
    ensures ReportsOncePerKey(RunEvents(probe, evs))
  {
    RunEventsIsRun(probe, evs);
    RunReportsOncePerKey(Probes(probe, evs));
  }

  /** A document whose probes all find no truthy limit leaves the counters as fresh as they started. */
  lemma {:induction false} NoLimitNoChange<R>(probe: Prober<R>, evs: seq<FieldEvent>)
    requires forall t, n :: IsRootName(t) ==> !Truthy(probe(t, n).maxAllowed)
    ensures RunEvents(probe, evs) == Fresh()
  {
    if evs != [] {
      NoLimitNoChange(probe, evs[..|evs| - 1]);
    }
  }

  /** The run depends on the probes of root fields only: two probers that agree there give the same counters. */
  lemma {:induction false} SameProbesSameRun<R>(p1: Prober<R>, p2: Prober<R>, evs: seq<FieldEvent>)
    requires forall t, n :: IsRootName(t) ==> p1(t, n) == p2(t, n)
    ensures RunEvents(p1, evs) == RunEvents(p2, evs)
  {
    if evs != [] {
      SameProbesSameRun(p1, p2, evs[..|evs| - 1]);
    }
  }
}

/**
 ApplyStatefulSet over many reconciles: a desired template is written at most once, so pods are not
 recycled for a template they already run.
 */
module TemplateUpdates {
  import opened Slices
  import opened Wrappers
  import opened StatefulSets
  import opened PodTemplates

  /** What is not compared is as it was, but for lists of containers that are replaced as a whole. */
  ghost predicate KeepsRest(c: PodTemplateSpec, r: PodTemplateSpec, c1: PodTemplateSpec, name: string) {
    && c1.other == c.other
    && c1.initContainers == (if |c.initContainers| == |r.initContainers| then c.initContainers else r.initContainers)
    && (if |c.containers| == |r.containers| then KeepsUncompared(c.containers, c1.containers, SkipsEnv(name))
        else c1.containers == r.containers)
  }

  /** A merge into `c` left `c1`. */
  ghost predicate MergedInto(c: PodTemplateSpec, r: PodTemplateSpec, c1: PodTemplateSpec, name: string, changed: bool) {
    && Agree(c1, r, name) && KeepsRest(c, r, c1, name)
    && (!changed ==> Agree(c, r, name) && Reordered(c1, c))
    && (Agree(c, r, name) && Determined(c, name) ==> !changed)
  }

  /**
   One ApplyStatefulSet: the desired template, whether an existing StatefulSet can be read, what the caller is
   handed, the write's fate, and the outcome.
   */
  datatype Applying =
    Applying(desired: PodTemplateSpec, got: bool, result: PodTemplateSpec, fate: Fate, phase: Phase, failed: bool)

  function Write(before: Option<PodTemplateSpec>, a: Applying): Option<PodTemplateSpec> {
    if a.fate.Refused? then before else Some(a.result)
  }

  ghost predicate SlicesSorted(t: PodTemplateSpec) {
    Sorted(t.tolerations) && Sorted(t.volumes) && AllSorted(t.containers)
  }

  ghost predicate AllSorted(cs: seq<Container>) {
    forall i :: 0 <= i < |cs| ==> ContainerSorted(cs[i])
  }

  ghost predicate ContainerSorted(c: Container) {
    Sorted(c.ports) && Sorted(c.volumeMounts) && Sorted(c.env)
  }

  /** A template to be created is the desired one with its slices sorted. */
  ghost predicate SortedFrom(desired: PodTemplateSpec, result: PodTemplateSpec) {
    Reordered(result, desired) && SlicesSorted(result)
  }

  ghost predicate Applied(before: Option<PodTemplateSpec>, a: Applying, after: Option<PodTemplateSpec>, name: string) {
    match before
    case None =>
      a.phase == Pending && a.failed == !a.fate.Acked? && SortedFrom(a.desired, a.result) && after == Write(before, a)
    case Some(c) =>
      if !a.got then
        // creating what exists leaves it alone, and passes for success
        a.phase == Pending && a.failed == !a.fate.Acked? && SortedFrom(a.desired, a.result) && after == before
      else
      && (a.phase == Updating || a.phase == Ready)
      && MergedInto(c, a.desired, a.result, name, a.phase == Updating)
      && (if a.phase == Updating then a.failed == !a.fate.Acked? && after == Write(before, a)
          else !a.failed && after == before)
  }

  method SortContainer(c: Container) returns (r: Container)
    ensures ContainerReordered(r, c) && ContainerSorted(r)
  {
    var ports := SortedSlice(c.ports);
    var mounts := SortedSlice(c.volumeMounts);
    var env := SortedSlice(c.env);
    return c.(ports := ports, volumeMounts := mounts, env := env);
  }

  method SortContainers(cs: seq<Container>) returns (r: seq<Container>)
    ensures AllReordered(r, cs) && AllSorted(r)
  {
    r := cs;
    for i := 0 to |cs|
      invariant |r| == |cs| && forall k :: i <= k < |cs| ==> r[k] == cs[k]
      invariant forall k :: 0 <= k < i ==> ContainerReordered(r[k], cs[k]) && ContainerSorted(r[k])
    {
      var c := SortContainer(r[i]);
      r := r[i := c];
    }
  }

  method SortStatefulSetSlices(t: PodTemplate)
    modifies t
    ensures Reordered(t.Value(), old(t.Value())) && SlicesSorted(t.Value())
  {
    t.tolerations := SortedSlice(t.tolerations);
    t.volumes := SortedSlice(t.volumes);
    t.containers := SortContainers(t.containers);
  }

  /** The StatefulSet as the API server stores it, if there is one. */
  class StatefulSetApi {
    var stored: Option<PodTemplateSpec>

    constructor (stored: Option<PodTemplateSpec>)
      ensures this.stored == stored
    {
      this.stored := stored;
    }

    /**
     `got`: an existing StatefulSet can be read; `fate` is that of the write, if there is one. The caller's
     template ends up as the latest state.
     */
    method ApplyStatefulSet(revised: PodTemplate, name: string, got: bool, fate: Fate)
      returns (phase: Phase, failed: bool)
      modifies this, revised
      ensures Applied(old(stored), Applying(old(revised.Value()), got, revised.Value(), fate, phase, failed), stored,
                      name)
    {
      if stored.None? || !got {
        SortStatefulSetSlices(revised);
        if stored.None? && !fate.Refused? {
          stored := Some(revised.Value());
        }
        return Pending, !fate.Acked?;
      }
      var current := new PodTemplate(stored.value);
      var hasUpdates := current.MergePodUpdates(revised, name);
      revised.Assign(current.Value());
      if hasUpdates {
        if !fate.Refused? {
          stored := Some(revised.Value());
        }
        return Updating, !fate.Acked?;
      }
      return Ready, false;
    }
  }

  lemma AgreementCarries(a: seq<Container>, b: seq<Container>, c: seq<Container>, skipEnv: bool)
    requires AllContainersAgree(a, b, skipEnv) && AllReordered(b, c)
    ensures AllContainersAgree(a, c, skipEnv)
  {
    forall i | 0 <= i < |a| ensures ContainersAgree(a[i], c[i], skipEnv) {
      assert ContainersAgree(a[i], b[i], skipEnv) && ContainerReordered(b[i], c[i]);
    }
  }

  lemma AgreementDetermines(a: seq<Container>, b: seq<Container>, skipEnv: bool)
    requires AllContainersAgree(a, b, skipEnv) && AllDetermined(b, skipEnv)
    ensures AllDetermined(a, skipEnv)
  {
    forall i | 0 <= i < |a| ensures ContainerDetermined(a[i], skipEnv) {
      assert ContainersAgree(a[i], b[i], skipEnv) && ContainerDetermined(b[i], skipEnv);
    }
  }

  /** The stored template needs no update to be `d`, in whatever order `d` comes. */
  ghost predicate UpToDate(stored: Option<PodTemplateSpec>, d: PodTemplateSpec, name: string) {
    stored.Some? && Agree(stored.value, d, name) && Determined(stored.value, name)
  }

  lemma AgreeingIsUpToDate(c: PodTemplateSpec, r: PodTemplateSpec, d: PodTemplateSpec, name: string)
    requires Agree(c, r, name) && Reordered(r, d) && Determined(d, name)
    ensures UpToDate(Some(c), d, name)
  {
    AgreementCarries(c.containers, r.containers, d.containers, SkipsEnv(name));
    AgreementDetermines(c.containers, d.containers, SkipsEnv(name));
  }

  lemma ReorderedIsSymmetric(r: PodTemplateSpec, d: PodTemplateSpec)
    requires Reordered(r, d)
    ensures Reordered(d, r)
  {
    forall i | 0 <= i < |d.containers| ensures ContainerReordered(d.containers[i], r.containers[i]) {
      assert ContainerReordered(r.containers[i], d.containers[i]);
    }
  }

  lemma ReorderedAgrees(r: PodTemplateSpec, d: PodTemplateSpec, name: string)
    requires Reordered(r, d)
    ensures Agree(r, d, name)
  {
    forall i | 0 <= i < |d.containers| ensures ContainersAgree(r.containers[i], d.containers[i], SkipsEnv(name)) {
      assert ContainerReordered(r.containers[i], d.containers[i]);
    }
  }

  predicate Writes(before: Option<PodTemplateSpec>, a: Applying) {
    a.phase != Ready && !a.fate.Refused? && (before.None? || a.got)
  }

  /** With the stored template up to date, applying it again writes nothing, and reports Ready if it can be read. */
  lemma UpToDateIsReady(before: Option<PodTemplateSpec>, a: Applying, after: Option<PodTemplateSpec>,
                        d: PodTemplateSpec, name: string)
    requires Applied(before, a, after, name) && Reordered(a.desired, d) && UpToDate(before, d, name)
    ensures a.phase == (if a.got then Ready else Pending) && after == before
  {
    ReorderedIsSymmetric(a.desired, d);
    AgreementCarries(before.value.containers, d.containers, a.desired.containers, SkipsEnv(name));
    assert Agree(before.value, a.desired, name);
  }

  /** A write, or a Ready, leaves the stored template up to date. */
  lemma WriteBringsUpToDate(before: Option<PodTemplateSpec>, a: Applying, after: Option<PodTemplateSpec>,
                            d: PodTemplateSpec, name: string)
    requires Applied(before, a, after, name) && Reordered(a.desired, d) && Determined(d, name)
    requires a.phase == Ready || Writes(before, a)
    ensures UpToDate(after, d, name)
  {
    if before.None? {
      ReorderedAgrees(a.result, a.desired, name);
      AgreeingIsUpToDate(a.result, a.desired, d, name);
    } else if a.phase == Ready {
      AgreeingIsUpToDate(before.value, a.desired, d, name);
    } else {
      AgreeingIsUpToDate(a.result, a.desired, d, name);
    }
  }

  function AfterAll(before: Option<PodTemplateSpec>, steps: seq<Applying>): Option<PodTemplateSpec> {
    if steps == [] then before
    else
      var earlier := AfterAll(before, steps[..|steps| - 1]);
      var a := steps[|steps| - 1];
      if Writes(earlier, a) then Some(a.result) else earlier
  }

  /** The steps are reconciles for one desired template, built anew each time with its slices in any order. */
  ghost predicate AllApplied(before: Option<PodTemplateSpec>, steps: seq<Applying>, d: PodTemplateSpec, name: string)
    decreases |steps|
  {
    steps != [] ==>
      var k := |steps| - 1;
      && AllApplied(before, steps[..k], d, name)
      && Reordered(steps[k].desired, d)
      && Applied(AfterAll(before, steps[..k]), steps[k], AfterAll(before, steps), name)
  }

  function CountWrites(before: Option<PodTemplateSpec>, steps: seq<Applying>): nat {
    if steps == [] then 0
    else
      var k := |steps| - 1;
      CountWrites(before, steps[..k]) + if Writes(AfterAll(before, steps[..k]), steps[k]) then 1 else 0
  }

  /**
   However often ApplyStatefulSet runs and however its reads and writes go, a desired template takes effect at
   most once; and no write is made at all to a stored template that agrees with it.
   */
  lemma {:induction false} WritesAtMostOnce(before: Option<PodTemplateSpec>, steps: seq<Applying>,
                                            d: PodTemplateSpec, name: string)
    requires Determined(d, name) && AllApplied(before, steps, d, name)
    ensures CountWrites(before, steps) <= 1
    ensures CountWrites(before, steps) == 1 ==> UpToDate(AfterAll(before, steps), d, name)
    ensures UpToDate(before, d, name) ==> CountWrites(before, steps) == 0 && AfterAll(before, steps) == before
    ensures CountWrites(before, steps) == 0 ==> AfterAll(before, steps) == before
    decreases |steps|
  {
    if steps != [] {
      var k := |steps| - 1;
      var earlier := AfterAll(before, steps[..k]);
      WritesAtMostOnce(before, steps[..k], d, name);
      if UpToDate(earlier, d, name) {
        UpToDateIsReady(earlier, steps[k], AfterAll(before, steps), d, name);
      } else if Writes(earlier, steps[k]) {
        WriteBringsUpToDate(earlier, steps[k], AfterAll(before, steps), d, name);
      }
    }
  }

  /** After one merge, a merge of the same template, in any order, finds nothing to do. */
  lemma SecondMergeFindsNothing(c: PodTemplateSpec, r: PodTemplateSpec, c1: PodTemplateSpec,
                                r1: PodTemplateSpec, changed: bool,
                                d: PodTemplateSpec, c2: PodTemplateSpec, r2: PodTemplateSpec, again: bool, name: string)
    requires Merged(c, r, c1, r1, name, changed) && Merged(c1, d, c2, r2, name, again)
    requires Reordered(r, d) && Determined(d, name)
    ensures !again && Reordered(c2, c1)
  {
    AgreeingIsUpToDate(c1, r, d, name);
  }
}

/** The Cucumber runtime that fans every selected scenario ("pickle") out over
    every configured platform. `run` is modelled by the sequence of calls it
    makes on its collaborators (the execution context, the executor and the
    futures) together with how it ends. The feature list, the filter, the
    ordering strategy, the platform list, how each future completes and the
    exception the context holds after `finishTestRun` are parameters. */
module Runtime {
  import opened Wrappers
  import opened Text
  import opened Driver
  import opened Supplier
  import Listener

  /** Java's `int`. */
  type int32 = x: int | -0x8000_0000 <= x < 0x8000_0000

  /** `Integer.MAX_VALUE`, the limit used when none is configured. */
  const IntMax: int := 0x7fff_ffff

  datatype Pickle = Pickle(id: string, name: string)
  datatype GherkinFeature = GherkinFeature(uri: string, pickles: seq<Pickle>)
  datatype Platform = Platform(name: string)

  /** One submitted unit of work: a pickle on a platform. */
  datatype Task = Task(platform: Platform, pickle: Pickle)

  // ---------------------------------------------------------------------------
  // Selection: flatMap, filter, order, limit

  /** `limit > 0 ? limit : 2147483647`. */
  function EffectiveLimit(limit: int32): (n: nat)
    ensures 1 <= n <= IntMax
    ensures limit > 0 ==> n == limit
    ensures limit <= 0 ==> n == IntMax
  {
    if limit > 0 then limit else IntMax
  }

  /** The pickles of every feature, feature by feature, each in its own order. */
  function Flatten(features: seq<GherkinFeature>): (r: seq<Pickle>)
    ensures forall k, i :: 0 <= k < |features| && 0 <= i < |features[k].pickles| ==> features[k].pickles[i] in r
    ensures forall p :: p in r ==> exists k :: 0 <= k < |features| && p in features[k].pickles
  {
    if features == [] then []
    else
      var rest := Flatten(features[1..]);
      assert forall k :: 1 <= k < |features| ==> features[k] == features[1..][k - 1];
      features[0].pickles + rest
  }

  /** The pickles the filter keeps, in their original order. */
  function FilterPickles(s: seq<Pickle>, keep: Pickle -> bool): (r: seq<Pickle>)
    ensures |r| <= |s|
    ensures forall x :: multiset(r)[x] == if keep(x) then multiset(s)[x] else 0
  {
    if s == [] then []
    else
      assert s == [s[0]] + s[1..];
      (if keep(s[0]) then [s[0]] else []) + FilterPickles(s[1..], keep)
  }

  /** `flatMap` keeps encounter order: the pickles of earlier features come first. */
  lemma {:induction false} FlattenConcat(a: seq<GherkinFeature>, b: seq<GherkinFeature>)
    ensures Flatten(a + b) == Flatten(a) + Flatten(b)
  {
    if a == [] {
      assert a + b == b;
    } else {
      assert (a + b)[1..] == a[1..] + b;
      FlattenConcat(a[1..], b);
    }
  }

  lemma FlattenSingleton(f: GherkinFeature)
    ensures Flatten([f]) == f.pickles
  {
    assert [f][1..] == [];
  }

  /** `filter` keeps encounter order: filtering a concatenation filters each part. */
  lemma {:induction false} FilterConcat(a: seq<Pickle>, b: seq<Pickle>, keep: Pickle -> bool)
    ensures FilterPickles(a + b, keep) == FilterPickles(a, keep) + FilterPickles(b, keep)
  {
    if a == [] {
      assert a + b == b;
    } else {
      assert (a + b)[0] == a[0];
      assert (a + b)[1..] == a[1..] + b;
      FilterConcat(a[1..], b, keep);
    }
  }

  lemma FilterSingleton(x: Pickle, keep: Pickle -> bool)
    ensures FilterPickles([x], keep) == if keep(x) then [x] else []
  {
    assert [x][1..] == [];
  }

  /** The filtered pickles as the ordering strategy arranges them. */
  function Ordered(features: seq<GherkinFeature>, keep: Pickle -> bool,
                   order: seq<Pickle> -> seq<Pickle>): seq<Pickle>
  {
    order(FilterPickles(Flatten(features), keep))
  }

  /** The pickles `run` fans out: the first `EffectiveLimit(limit)` ones of the
      ordered list, all of them when it is shorter. */
  function SelectPickles(features: seq<GherkinFeature>, keep: Pickle -> bool,
                         order: seq<Pickle> -> seq<Pickle>, limit: int32): (r: seq<Pickle>)
    ensures r <= Ordered(features, keep, order)
    ensures |r| == if |Ordered(features, keep, order)| < EffectiveLimit(limit)
                   then |Ordered(features, keep, order)| else EffectiveLimit(limit)
  {
    var ordered := Ordered(features, keep, order);
    var n := EffectiveLimit(limit);
    if |ordered| < n then ordered else ordered[..n]
  }

  /** The assumption made of Cucumber's pickle ordering: it rearranges the
      list it is given and neither drops nor adds pickles. */
  predicate Rearranges(order: seq<Pickle> -> seq<Pickle>, s: seq<Pickle>) {
    multiset(order(s)) == multiset(s)
  }

  /** With a positive limit, `min(limit, |filtered|)` pickles are selected;
      otherwise every filtered pickle is, since no Java list is longer than
      `Integer.MAX_VALUE`. */
  lemma SelectedCount(features: seq<GherkinFeature>, keep: Pickle -> bool,
                      order: seq<Pickle> -> seq<Pickle>, limit: int32)
    requires Rearranges(order, FilterPickles(Flatten(features), keep))
    ensures var filtered := FilterPickles(Flatten(features), keep);
      && (limit > 0 ==> |SelectPickles(features, keep, order, limit)|
                          == if limit < |filtered| then limit as int else |filtered|)
      && (limit <= 0 && |filtered| <= IntMax ==>
            SelectPickles(features, keep, order, limit) == order(filtered))
  {
    var filtered := FilterPickles(Flatten(features), keep);
    assert |multiset(order(filtered))| == |order(filtered)|;
    assert |multiset(filtered)| == |filtered|;
  }

  /** Every selected pickle comes from one of the features and passes the filter. */
  lemma SelectedAreFiltered(features: seq<GherkinFeature>, keep: Pickle -> bool,
                            order: seq<Pickle> -> seq<Pickle>, limit: int32)
    requires Rearranges(order, FilterPickles(Flatten(features), keep))
    ensures var r := SelectPickles(features, keep, order, limit);
      forall i :: 0 <= i < |r| ==>
        && keep(r[i])
        && exists k :: 0 <= k < |features| && r[i] in features[k].pickles
  {
    var r := SelectPickles(features, keep, order, limit);
    var all := Flatten(features);
    var filtered := FilterPickles(all, keep);
    forall i | 0 <= i < |r|
      ensures keep(r[i]) && exists k :: 0 <= k < |features| && r[i] in features[k].pickles
    {
      var x := r[i];
      assert x in order(filtered);
      assert multiset(filtered)[x] > 0;
      assert keep(x) && multiset(all)[x] > 0;
      assert x in all;
    }
  }

  // ---------------------------------------------------------------------------
  // Fan-out: one task per (pickle, platform), pickle-major

  function PerPlatform(pickle: Pickle, platforms: seq<Platform>): (r: seq<Task>)
    ensures |r| == |platforms|
    ensures forall j :: 0 <= j < |r| ==> r[j] == Task(platforms[j], pickle)
  {
    seq(|platforms|, j requires 0 <= j < |platforms| => Task(platforms[j], pickle))
  }

  /** The tasks for the selected pickles, pickle by pickle, each on every
      platform in platform order. */
  function FanOut(pickles: seq<Pickle>, platforms: seq<Platform>): (r: seq<Task>)
    ensures |r| == |pickles| * |platforms|
  {
    if pickles == [] then []
    else FanOut(pickles[..|pickles| - 1], platforms) + PerPlatform(pickles[|pickles| - 1], platforms)
  }

  lemma MulStep(i: nat, m: nat)
    ensures (i + 1) * m == i * m + m
  {
  }

  lemma MulMonotone(a: nat, b: nat, m: nat)
    requires a <= b
    ensures a * m <= b * m
  {
  }

  /** Task number `k = i * |platforms| + j` is pickle `i` on platform `j`. */
  lemma {:induction false} FanOutAt(pickles: seq<Pickle>, platforms: seq<Platform>, i: nat, j: nat, k: nat)
    requires i < |pickles| && j < |platforms| && k == i * |platforms| + j
    ensures k < |FanOut(pickles, platforms)|
    ensures FanOut(pickles, platforms)[k] == Task(platforms[j], pickles[i])
  {
    var n := |pickles|;
    var m := |platforms|;
    var init := pickles[..n - 1];
    var front := FanOut(init, platforms);
    var last := PerPlatform(pickles[n - 1], platforms);
    assert FanOut(pickles, platforms) == front + last;
    MulStep(n - 1, m);
    assert |front| == (n - 1) * m;
    if i < n - 1 {
      FanOutAt(init, platforms, i, j, k);
      MulStep(i, m);
      MulMonotone(i + 1, n - 1, m);
      assert k < |front|;
      assert pickles[i] == init[i];
    } else {
      assert k == |front| + j;
    }
  }

  lemma FactorPositive(n: nat, m: nat)
    requires n * m > 0
    ensures m > 0
  {
  }

  lemma DivMod(k: nat, m: nat)
    requires m > 0
    ensures k == (k / m) * m + k % m && 0 <= k % m < m && k / m >= 0
  {
  }

  /** Every task is some pickle on some platform: task `k` is pickle
      `k / |platforms|` on platform `k % |platforms|`. */
  lemma FanOutIndex(pickles: seq<Pickle>, platforms: seq<Platform>, k: nat)
    requires k < |FanOut(pickles, platforms)|
    ensures |platforms| > 0 && k / |platforms| < |pickles|
    ensures FanOut(pickles, platforms)[k] == Task(platforms[k % |platforms|], pickles[k / |platforms|])
  {
    var m := |platforms|;
    FactorPositive(|pickles|, m);
    var i, j := k / m, k % m;
    DivMod(k, m);
    if i >= |pickles| {
      MulMonotone(|pickles|, i, m);
      assert false;
    }
    FanOutAt(pickles, platforms, i, j, k);
  }

  // ---------------------------------------------------------------------------
  // What `run` does

  /** How `Future.get()` ends for one submitted task. */
  datatype FutureResult =
    | Done             // the task completed
    | ExecutionFailed  // the task threw: `get` throws `ExecutionException`
    | Interrupted      // the waiting thread was interrupted

  /** The lifecycle, executor and future calls `run` makes, in the order it makes them. */
  datatype Event =
    | StartTestRun
    | BeforeFeature(feature: GherkinFeature)
    | Submit(task: Task)
    | Shutdown
    | Await(future: nat)        // `get()` on the future of submission number `future`
    | LogFailure(future: nat)   // the `ExecutionException` is logged
    | ShutdownNow
    | FinishTestRun

  /** How `run` ends: normally, or by throwing the context's exception. */
  datatype RunResult = Returned | Threw(exception: string)

  function BeforeFeatures(features: seq<GherkinFeature>): seq<Event> {
    seq(|features|, i requires 0 <= i < |features| => BeforeFeature(features[i]))
  }

  function Submissions(tasks: seq<Task>): seq<Event> {
    seq(|tasks|, i requires 0 <= i < |tasks| => Submit(tasks[i]))
  }

  function DrainStep(k: nat, r: FutureResult): seq<Event> {
    match r
    case Done => [Await(k)]
    case ExecutionFailed => [Await(k), LogFailure(k)]
    case Interrupted => [Await(k), ShutdownNow]
  }

  /** The drain loop over the first `n` futures. */
  function Drain(outcome: nat -> FutureResult, n: nat): seq<Event> {
    if n == 0 then [] else Drain(outcome, n - 1) + DrainStep(n - 1, outcome(n - 1))
  }

  function RunTasks(features: seq<GherkinFeature>, keep: Pickle -> bool,
                    order: seq<Pickle> -> seq<Pickle>, limit: int32,
                    platforms: seq<Platform>): seq<Task>
  {
    FanOut(SelectPickles(features, keep, order, limit), platforms)
  }

  /** The trace `run` makes for given tasks, whichever tasks they are. */
  function TraceFor(features: seq<GherkinFeature>, tasks: seq<Task>, outcome: nat -> FutureResult): seq<Event> {
    [StartTestRun] + BeforeFeatures(features) + Submissions(tasks) + [Shutdown]
      + Drain(outcome, |tasks|) + [FinishTestRun]
  }

  /** The whole sequence of lifecycle, executor and future calls `run` makes. */
  function RunTrace(features: seq<GherkinFeature>, keep: Pickle -> bool,
                    order: seq<Pickle> -> seq<Pickle>, limit: int32,
                    platforms: seq<Platform>, outcome: nat -> FutureResult): seq<Event>
  {
    TraceFor(features, RunTasks(features, keep, order, limit, platforms), outcome)
  }

  // ---------------------------------------------------------------------------
  // Properties of the trace

  function SubmittedTask(e: Event): Option<Task> {
    if e.Submit? then Some(e.task) else None
  }

  function AwaitedFuture(e: Event): Option<nat> {
    if e.Await? then Some(e.future) else None
  }

  function AnnouncedFeature(e: Event): Option<GherkinFeature> {
    if e.BeforeFeature? then Some(e.feature) else None
  }

  /** The values `select` picks out of the events, in trace order. */
  function Project<X>(t: seq<Event>, select: Event -> Option<X>): seq<X> {
    if t == [] then []
    else (if select(t[0]).Some? then [select(t[0]).value] else []) + Project(t[1..], select)
  }

  /** `0, 1, ..., n - 1`. */
  function Range(n: nat): (r: seq<nat>)
    ensures |r| == n && forall i :: 0 <= i < n ==> r[i] == i
  {
    seq(n, i requires 0 <= i < n => i)
  }

  lemma {:induction false} ProjectConcat<X>(a: seq<Event>, b: seq<Event>, select: Event -> Option<X>)
    ensures Project(a + b, select) == Project(a, select) + Project(b, select)
  {
    if a != [] {
      assert (a + b)[0] == a[0];
      assert (a + b)[1..] == a[1..] + b;
      ProjectConcat(a[1..], b, select);
      var h := if select(a[0]).Some? then [select(a[0]).value] else [];
      assert Project(a + b, select) == h + Project(a[1..] + b, select);
      assert Project(a, select) == h + Project(a[1..], select);
      assert h + (Project(a[1..], select) + Project(b, select)) == (h + Project(a[1..], select)) + Project(b, select);
    } else {
      assert a + b == b;
    }
  }

  lemma ProjectSingleton<X>(e: Event, select: Event -> Option<X>)
    ensures Project([e], select) == if select(e).Some? then [select(e).value] else []
  {
    assert [e][1..] == [];
  }

  /** What a selector picks out of a trace shaped like that of `run`. */
  lemma ProjectRunShape<X>(announced: seq<Event>, submitted: seq<Event>, drained: seq<Event>,
                           select: Event -> Option<X>)
    requires select(StartTestRun).None? && select(Shutdown).None? && select(FinishTestRun).None?
    ensures Project([StartTestRun] + announced + submitted + [Shutdown] + drained + [FinishTestRun], select)
         == Project(announced, select) + Project(submitted, select) + Project(drained, select)
  {
    var a := [StartTestRun] + announced;
    var b := a + submitted;
    var c := b + [Shutdown];
    var d := c + drained;
    ProjectSingleton(StartTestRun, select);
    ProjectSingleton(Shutdown, select);
    ProjectSingleton(FinishTestRun, select);
    var pa, ps, pd := Project(announced, select), Project(submitted, select), Project(drained, select);
    ProjectConcat([StartTestRun], announced, select);
    assert Project(a, select) == pa;
    ProjectConcat(a, submitted, select);
    assert Project(b, select) == pa + ps;
    ProjectConcat(b, [Shutdown], select);
    assert Project(c, select) == pa + ps;
    ProjectConcat(c, drained, select);
    assert Project(d, select) == pa + ps + pd;
    ProjectConcat(d, [FinishTestRun], select);
    assert Project(d + [FinishTestRun], select) == pa + ps + pd;
  }

  lemma {:induction false} ProjectNone<X>(t: seq<Event>, select: Event -> Option<X>)
    requires forall i :: 0 <= i < |t| ==> select(t[i]).None?
    ensures Project(t, select) == []
  {
    if t != [] {
      assert forall i :: 0 <= i < |t[1..]| ==> t[1..][i] == t[i + 1];
      ProjectNone(t[1..], select);
    }
  }

  lemma {:induction false} ProjectEach<X>(t: seq<Event>, select: Event -> Option<X>)
    requires forall i :: 0 <= i < |t| ==> select(t[i]).Some?
    ensures |Project(t, select)| == |t|
    ensures forall i :: 0 <= i < |t| ==> Project(t, select)[i] == select(t[i]).value
  {
    if t != [] {
      assert forall i :: 0 <= i < |t[1..]| ==> t[1..][i] == t[i + 1];
      ProjectEach(t[1..], select);
    }
  }

  lemma SegmentProjections(features: seq<GherkinFeature>, tasks: seq<Task>)
    ensures Project(BeforeFeatures(features), AnnouncedFeature) == features
    ensures Project(BeforeFeatures(features), SubmittedTask) == []
    ensures Project(BeforeFeatures(features), AwaitedFuture) == []
    ensures Project(Submissions(tasks), SubmittedTask) == tasks
    ensures Project(Submissions(tasks), AnnouncedFeature) == []
    ensures Project(Submissions(tasks), AwaitedFuture) == []
  {
    ProjectEach(BeforeFeatures(features), AnnouncedFeature);
    ProjectNone(BeforeFeatures(features), SubmittedTask);
    ProjectNone(BeforeFeatures(features), AwaitedFuture);
    ProjectEach(Submissions(tasks), SubmittedTask);
    ProjectNone(Submissions(tasks), AnnouncedFeature);
    ProjectNone(Submissions(tasks), AwaitedFuture);
  }

  lemma DrainStepProjections(k: nat, r: FutureResult)
    ensures Project(DrainStep(k, r), AwaitedFuture) == [k]
    ensures Project(DrainStep(k, r), SubmittedTask) == []
    ensures Project(DrainStep(k, r), AnnouncedFeature) == []
  {
    var second := if r == ExecutionFailed then [LogFailure(k)] else if r == Interrupted then [ShutdownNow] else [];
    assert DrainStep(k, r) == [Await(k)] + second;
    ProjectSingleton(Await(k), AwaitedFuture);
    ProjectSingleton(Await(k), SubmittedTask);
    ProjectSingleton(Await(k), AnnouncedFeature);
    ProjectConcat([Await(k)], second, AwaitedFuture);
    ProjectConcat([Await(k)], second, SubmittedTask);
    ProjectConcat([Await(k)], second, AnnouncedFeature);
    if second != [] {
      ProjectSingleton(second[0], AwaitedFuture);
      ProjectSingleton(second[0], SubmittedTask);
      ProjectSingleton(second[0], AnnouncedFeature);
    }
  }

  lemma {:induction false} DrainAwaited(outcome: nat -> FutureResult, n: nat)
    ensures Project(Drain(outcome, n), AwaitedFuture) == Range(n)
  {
    if n > 0 {
      DrainAwaited(outcome, n - 1);
      DrainStepProjections(n - 1, outcome(n - 1));
      ProjectConcat(Drain(outcome, n - 1), DrainStep(n - 1, outcome(n - 1)), AwaitedFuture);
      assert Range(n - 1) + [n - 1] == Range(n);
    }
  }

  lemma DrainSilent(outcome: nat -> FutureResult, n: nat)
    ensures Project(Drain(outcome, n), SubmittedTask) == []
    ensures Project(Drain(outcome, n), AnnouncedFeature) == []
  {
    var t := Drain(outcome, n);
    DrainPhase(outcome, n);
    assert forall i :: 0 <= i < |t| ==> Phase(t[i]) == 4;
    ProjectNone(t, SubmittedTask);
    ProjectNone(t, AnnouncedFeature);
  }

  lemma DrainProjections(outcome: nat -> FutureResult, n: nat)
    ensures Project(Drain(outcome, n), AwaitedFuture) == Range(n)
    ensures Project(Drain(outcome, n), SubmittedTask) == []
    ensures Project(Drain(outcome, n), AnnouncedFeature) == []
  {
    DrainAwaited(outcome, n);
    DrainSilent(outcome, n);
  }

  lemma TraceForAnnounced(features: seq<GherkinFeature>, tasks: seq<Task>, outcome: nat -> FutureResult)
    ensures Project(TraceFor(features, tasks, outcome), AnnouncedFeature) == features
  {
    SegmentProjections(features, tasks);
    DrainProjections(outcome, |tasks|);
    ProjectRunShape(BeforeFeatures(features), Submissions(tasks), Drain(outcome, |tasks|), AnnouncedFeature);
  }

  lemma TraceForSubmitted(features: seq<GherkinFeature>, tasks: seq<Task>, outcome: nat -> FutureResult)
    ensures Project(TraceFor(features, tasks, outcome), SubmittedTask) == tasks
  {
    SegmentProjections(features, tasks);
    DrainProjections(outcome, |tasks|);
    ProjectRunShape(BeforeFeatures(features), Submissions(tasks), Drain(outcome, |tasks|), SubmittedTask);
  }

  lemma TraceForAwaited(features: seq<GherkinFeature>, tasks: seq<Task>, outcome: nat -> FutureResult)
    ensures Project(TraceFor(features, tasks, outcome), AwaitedFuture) == Range(|tasks|)
  {
    SegmentProjections(features, tasks);
    DrainProjections(outcome, |tasks|);
    ProjectRunShape(BeforeFeatures(features), Submissions(tasks), Drain(outcome, |tasks|), AwaitedFuture);
  }

  /** `run` calls `beforeFeature` once for every feature, in list order. */
  lemma RunAnnouncesEachFeature(features: seq<GherkinFeature>, keep: Pickle -> bool,
                                order: seq<Pickle> -> seq<Pickle>, limit: int32,
                                platforms: seq<Platform>, outcome: nat -> FutureResult)
    ensures Project(RunTrace(features, keep, order, limit, platforms, outcome), AnnouncedFeature) == features
  {
    TraceForAnnounced(features, RunTasks(features, keep, order, limit, platforms), outcome);
  }

  /** `run` submits exactly the tasks of the fan-out, pickle-major. */
  lemma RunSubmitsEachPair(features: seq<GherkinFeature>, keep: Pickle -> bool,
                           order: seq<Pickle> -> seq<Pickle>, limit: int32,
                           platforms: seq<Platform>, outcome: nat -> FutureResult)
    ensures Project(RunTrace(features, keep, order, limit, platforms, outcome), SubmittedTask)
         == RunTasks(features, keep, order, limit, platforms)
  {
    TraceForSubmitted(features, RunTasks(features, keep, order, limit, platforms), outcome);
  }

  /** `run` waits for every future exactly once, in submission order,
      whatever the futures' outcomes. */
  lemma RunAwaitsEachFuture(features: seq<GherkinFeature>, keep: Pickle -> bool,
                            order: seq<Pickle> -> seq<Pickle>, limit: int32,
                            platforms: seq<Platform>, outcome: nat -> FutureResult)
    ensures Project(RunTrace(features, keep, order, limit, platforms, outcome), AwaitedFuture)
         == Range(|RunTasks(features, keep, order, limit, platforms)|)
  {
    TraceForAwaited(features, RunTasks(features, keep, order, limit, platforms), outcome);
  }

  /** There is one task per selected pickle and platform, so none when either
      list is empty; task `k` pairs pickle `k / |platforms|` with platform
      `k % |platforms|`. */
  lemma RunTaskCount(features: seq<GherkinFeature>, keep: Pickle -> bool,
                     order: seq<Pickle> -> seq<Pickle>, limit: int32,
                     platforms: seq<Platform>, k: nat)
    ensures var selected := SelectPickles(features, keep, order, limit);
      var tasks := RunTasks(features, keep, order, limit, platforms);
      && |tasks| == |selected| * |platforms|
      && (selected == [] || platforms == [] ==> tasks == [])
      && (k < |tasks| ==> 0 < |platforms| && k / |platforms| < |selected|
                          && tasks[k] == Task(platforms[k % |platforms|], selected[k / |platforms|]))
  {
    var selected := SelectPickles(features, keep, order, limit);
    if k < |RunTasks(features, keep, order, limit, platforms)| {
      FanOutIndex(selected, platforms, k);
    }
  }

  /** Which lifecycle step an event belongs to. */
  function Phase(e: Event): nat {
    match e
    case StartTestRun => 0
    case BeforeFeature(_) => 1
    case Submit(_) => 2
    case Shutdown => 3
    case Await(_) => 4
    case LogFailure(_) => 4
    case ShutdownNow => 4
    case FinishTestRun => 5
  }

  predicate PhaseOrdered(t: seq<Event>) {
    forall i, j :: 0 <= i <= j < |t| ==> Phase(t[i]) <= Phase(t[j])
  }

  predicate AllInPhase(t: seq<Event>, p: nat) {
    forall i :: 0 <= i < |t| ==> Phase(t[i]) == p
  }

  predicate PhasesAtMost(t: seq<Event>, p: nat) {
    forall i :: 0 <= i < |t| ==> Phase(t[i]) <= p
  }

  lemma AppendPhase(a: seq<Event>, b: seq<Event>, p: nat)
    requires PhaseOrdered(a) && PhasesAtMost(a, p) && AllInPhase(b, p)
    ensures PhaseOrdered(a + b) && PhasesAtMost(a + b, p)
  {
    assert forall i :: |a| <= i < |a + b| ==> (a + b)[i] == b[i - |a|];
  }

  lemma {:induction false} DrainPhase(outcome: nat -> FutureResult, n: nat)
    ensures AllInPhase(Drain(outcome, n), 4)
  {
    if n > 0 {
      DrainPhase(outcome, n - 1);
      var front, step := Drain(outcome, n - 1), DrainStep(n - 1, outcome(n - 1));
      assert forall i :: |front| <= i < |front + step| ==> (front + step)[i] == step[i - |front|];
    }
  }

  lemma AbsentFromPhase(t: seq<Event>, p: nat, e: Event)
    requires AllInPhase(t, p) && Phase(e) != p
    ensures multiset(t)[e] == 0
  {
    assert e !in t;
  }

  /** The phases of a trace shaped like that of `run` never go back. */
  lemma PhaseRunShape(announced: seq<Event>, submitted: seq<Event>, drained: seq<Event>)
    requires AllInPhase(announced, 1) && AllInPhase(submitted, 2) && AllInPhase(drained, 4)
    ensures PhaseOrdered([StartTestRun] + announced + submitted + [Shutdown] + drained + [FinishTestRun])
  {
    var a := [StartTestRun] + announced;
    AppendPhase([StartTestRun], announced, 1);
    AppendPhase(a, submitted, 2);
    var b := a + submitted;
    AppendPhase(b, [Shutdown], 3);
    var c := b + [Shutdown];
    AppendPhase(c, drained, 4);
    var d := c + drained;
    AppendPhase(d, [FinishTestRun], 5);
  }

  /** A trace shaped like that of `run` starts and finishes the run, and shuts
      the executor down, exactly once each. */
  lemma OnceInRunShape(announced: seq<Event>, submitted: seq<Event>, drained: seq<Event>)
    requires AllInPhase(announced, 1) && AllInPhase(submitted, 2) && AllInPhase(drained, 4)
    ensures var t := [StartTestRun] + announced + submitted + [Shutdown] + drained + [FinishTestRun];
      && t[0] == StartTestRun && t[|t| - 1] == FinishTestRun
      && multiset(t)[StartTestRun] == 1
      && multiset(t)[Shutdown] == 1
      && multiset(t)[FinishTestRun] == 1
  {
    AbsentFromPhase(announced, 1, StartTestRun);
    AbsentFromPhase(announced, 1, Shutdown);
    AbsentFromPhase(announced, 1, FinishTestRun);
    AbsentFromPhase(submitted, 2, StartTestRun);
    AbsentFromPhase(submitted, 2, Shutdown);
    AbsentFromPhase(submitted, 2, FinishTestRun);
    AbsentFromPhase(drained, 4, StartTestRun);
    AbsentFromPhase(drained, 4, Shutdown);
    AbsentFromPhase(drained, 4, FinishTestRun);
    var t := [StartTestRun] + announced + submitted + [Shutdown] + drained + [FinishTestRun];
    assert multiset(t) == multiset([StartTestRun]) + multiset(announced) + multiset(submitted)
      + multiset([Shutdown]) + multiset(drained) + multiset([FinishTestRun]);
  }

  /** An event of the drain phase is in a trace shaped like that of `run`
      exactly when it is in the drain. */
  lemma DrainEventInRunShape(announced: seq<Event>, submitted: seq<Event>, drained: seq<Event>, e: Event)
    requires AllInPhase(announced, 1) && AllInPhase(submitted, 2) && Phase(e) == 4
    ensures e in [StartTestRun] + announced + submitted + [Shutdown] + drained + [FinishTestRun] <==> e in drained
  {
    AbsentFromPhase(announced, 1, e);
    AbsentFromPhase(submitted, 2, e);
  }

  lemma TraceForLifecycle(features: seq<GherkinFeature>, tasks: seq<Task>, outcome: nat -> FutureResult)
    ensures var t := TraceFor(features, tasks, outcome);
      && PhaseOrdered(t)
      && t[0] == StartTestRun && t[|t| - 1] == FinishTestRun
      && multiset(t)[StartTestRun] == 1
      && multiset(t)[Shutdown] == 1
      && multiset(t)[FinishTestRun] == 1
  {
    var announced, submitted, drained := BeforeFeatures(features), Submissions(tasks), Drain(outcome, |tasks|);
    DrainPhase(outcome, |tasks|);
    assert AllInPhase(announced, 1) && AllInPhase(submitted, 2);
    PhaseRunShape(announced, submitted, drained);
    OnceInRunShape(announced, submitted, drained);
  }

  /** The lifecycle order of `run`: `startTestRun` first and `finishTestRun`
      last, each exactly once; then, in order, every `beforeFeature`, every
      submission, the single `shutdown`, and the drain. */
  lemma RunLifecycleOrder(features: seq<GherkinFeature>, keep: Pickle -> bool,
                          order: seq<Pickle> -> seq<Pickle>, limit: int32,
                          platforms: seq<Platform>, outcome: nat -> FutureResult)
    ensures var t := RunTrace(features, keep, order, limit, platforms, outcome);
      && PhaseOrdered(t)
      && t[0] == StartTestRun && t[|t| - 1] == FinishTestRun
      && multiset(t)[StartTestRun] == 1
      && multiset(t)[Shutdown] == 1
      && multiset(t)[FinishTestRun] == 1
  {
    TraceForLifecycle(features, RunTasks(features, keep, order, limit, platforms), outcome);
  }

  /** The drain logs the failure of future `k` exactly when `k` was submitted
      and its task threw, and calls `shutdownNow` exactly when some wait was
      interrupted. In sequential mode every future is complete before it is
      waited for, so no wait is interrupted and `shutdownNow` is never called. */
  lemma {:induction false} DrainReactions(outcome: nat -> FutureResult, n: nat)
    ensures forall k: nat :: LogFailure(k) in Drain(outcome, n) <==> k < n && outcome(k) == ExecutionFailed
    ensures ShutdownNow in Drain(outcome, n) <==> exists k: nat :: k < n && outcome(k) == Interrupted
  {
    if n > 0 {
      DrainReactions(outcome, n - 1);
      var front, step := Drain(outcome, n - 1), DrainStep(n - 1, outcome(n - 1));
      assert Drain(outcome, n) == front + step;
      forall k: nat ensures LogFailure(k) in front + step <==> k < n && outcome(k) == ExecutionFailed {
        assert LogFailure(k) in step <==> k == n - 1 && outcome(k) == ExecutionFailed;
      }
      assert ShutdownNow in step <==> outcome(n - 1) == Interrupted;
    }
  }

  lemma TraceForReactions(features: seq<GherkinFeature>, tasks: seq<Task>, outcome: nat -> FutureResult)
    ensures var t := TraceFor(features, tasks, outcome);
      && (forall k: nat :: LogFailure(k) in t <==> k < |tasks| && outcome(k) == ExecutionFailed)
      && (ShutdownNow in t <==> exists k: nat :: k < |tasks| && outcome(k) == Interrupted)
  {
    var announced, submitted, drained := BeforeFeatures(features), Submissions(tasks), Drain(outcome, |tasks|);
    DrainReactions(outcome, |tasks|);
    assert AllInPhase(announced, 1) && AllInPhase(submitted, 2);
    forall k: nat ensures LogFailure(k) in TraceFor(features, tasks, outcome) <==> LogFailure(k) in drained {
      DrainEventInRunShape(announced, submitted, drained, LogFailure(k));
    }
    DrainEventInRunShape(announced, submitted, drained, ShutdownNow);
  }

  /** At the level of the whole run: failures and interrupts never end the
      loop early, they only add a log entry or a `shutdownNow` call. */
  lemma RunReactions(features: seq<GherkinFeature>, keep: Pickle -> bool,
                     order: seq<Pickle> -> seq<Pickle>, limit: int32,
                     platforms: seq<Platform>, outcome: nat -> FutureResult)
    ensures var t := RunTrace(features, keep, order, limit, platforms, outcome);
      var n := |RunTasks(features, keep, order, limit, platforms)|;
      && (forall k: nat :: LogFailure(k) in t <==> k < n && outcome(k) == ExecutionFailed)
      && (ShutdownNow in t <==> exists k: nat :: k < n && outcome(k) == Interrupted)
  {
    TraceForReactions(features, RunTasks(features, keep, order, limit, platforms), outcome);
  }

  lemma BeforeFeaturesSnoc(features: seq<GherkinFeature>, i: nat)
    requires i < |features|
    ensures BeforeFeatures(features[..i + 1]) == BeforeFeatures(features[..i]) + [BeforeFeature(features[i])]
  {
  }

  lemma SubmissionsSnoc(tasks: seq<Task>, task: Task)
    ensures Submissions(tasks + [task]) == Submissions(tasks) + [Submit(task)]
  {
  }

  lemma PerPlatformSnoc(pickle: Pickle, platforms: seq<Platform>, q: nat)
    requires q < |platforms|
    ensures PerPlatform(pickle, platforms[..q + 1]) == PerPlatform(pickle, platforms[..q]) + [Task(platforms[q], pickle)]
  {
  }

  lemma FanOutSnoc(pickles: seq<Pickle>, platforms: seq<Platform>, p: nat)
    requires p < |pickles|
    ensures FanOut(pickles[..p + 1], platforms) == FanOut(pickles[..p], platforms) + PerPlatform(pickles[p], platforms)
  {
    assert pickles[..p + 1][..p] == pickles[..p];
  }

  /** `features.forEach(context::beforeFeature)`. */
  method AnnounceFeatures(features: seq<GherkinFeature>) returns (events: seq<Event>)
    ensures events == BeforeFeatures(features)
  {
    events := [];
    for i := 0 to |features|
      invariant events == BeforeFeatures(features[..i])
    {
      BeforeFeaturesSnoc(features, i);
      events := events + [BeforeFeature(features[i])];
    }
    assert features[..|features|] == features;
  }

  /** The `forEach` over the selected pickles and, inside it, over the
      platforms: each submission is appended to the list of futures. */
  method SubmitAll(selected: seq<Pickle>, platforms: seq<Platform>)
    returns (executingPickles: seq<Task>, events: seq<Event>)
    ensures executingPickles == FanOut(selected, platforms)
    ensures events == Submissions(executingPickles)
  {
    executingPickles, events := [], [];
    for p := 0 to |selected|
      invariant executingPickles == FanOut(selected[..p], platforms)
      invariant events == Submissions(executingPickles)
    {
      ghost var before := executingPickles;
      for q := 0 to |platforms|
        invariant executingPickles == before + PerPlatform(selected[p], platforms[..q])
        invariant events == Submissions(executingPickles)
      {
        var task := Task(platforms[q], selected[p]);
        PerPlatformSnoc(selected[p], platforms, q);
        SubmissionsSnoc(executingPickles, task);
        executingPickles := executingPickles + [task];
        events := events + [Submit(task)];
      }
      assert platforms[..|platforms|] == platforms;
      FanOutSnoc(selected, platforms, p);
    }
    assert selected[..|selected|] == selected;
  }

  /** The `while` loop over the futures: every future is waited for once, in
      submission order; a failed task is logged and an interrupt calls
      `shutdownNow`, and in both cases the loop goes on. */
  method DrainFutures(executingPickles: seq<Task>, outcome: nat -> FutureResult)
    returns (events: seq<Event>)
    ensures events == Drain(outcome, |executingPickles|)
  {
    events := [];
    var k := 0;
    while k < |executingPickles|
      invariant 0 <= k <= |executingPickles|
      invariant events == Drain(outcome, k)
    {
      match outcome(k) {
        case Done =>
          events := events + [Await(k)];
        case ExecutionFailed =>
          events := events + [Await(k), LogFailure(k)];
        case Interrupted =>
          events := events + [Await(k), ShutdownNow];
      }
      k := k + 1;
    }
  }

  /** `run()`. `outcome(k)` is how `get()` ends on the future of the `k`-th
      submission, and `exception` is what the context's `getException()`
      returns after `finishTestRun`. The call ends by throwing exactly that
      exception when there is one, whatever the tasks did. */
  method Run(features: seq<GherkinFeature>, keep: Pickle -> bool,
             order: seq<Pickle> -> seq<Pickle>, limit: int32, platforms: seq<Platform>,
             outcome: nat -> FutureResult, exception: Option<string>)
    returns (trace: seq<Event>, result: RunResult)
    ensures trace == RunTrace(features, keep, order, limit, platforms, outcome)
    ensures exception.Some? ==> result == Threw(exception.value)
    ensures exception.None? ==> result == Returned
  {
    var announced := AnnounceFeatures(features);
    var selected := SelectPickles(features, keep, order, limit);
    var executingPickles, submitted := SubmitAll(selected, platforms);
    var drained := DrainFutures(executingPickles, outcome);
    trace := [StartTestRun] + announced + submitted + [Shutdown] + drained + [FinishTestRun];
    result := if exception.Some? then Threw(exception.value) else Returned;
  }

  // ---------------------------------------------------------------------------
  // One task: `executeForPlatform`

  /** The body of the task submitted for `task`, run on `thread`: the driver
      factory creates a session for the platform and the pickle's name, which is
      bound to the thread before the scenario runs; when the scenario finishes,
      Cucumber publishes `TestCaseFinished`, whose handler is the listener's
      `markAndCloseWebDriver`. Whether the new session's calls throw, whether it
      is a cloud driver and the scenario's result are parameters. */
  method ExecuteForPlatform(store: DriverStore, thread: ThreadId, task: Task,
                            failsScripts: bool, failsQuit: bool, cloud: bool,
                            result: Listener.TestResult)
    returns (driver: Session, outcome: Listener.Outcome)
    modifies store
    ensures fresh(driver)
    ensures driver.platformName == task.platform.name && driver.testName == task.pickle.name
    ensures driver.quits == 1
    ensures var attempt := Listener.TryBlock(cloud, true, result);
      && driver.scripts == (if attempt.Send? then [attempt.script] else [])
      && outcome == Listener.FinalOutcome(attempt, true, failsScripts, failsQuit)
    ensures failsQuit ==> store.bindings == old(store.bindings)[thread := driver]
    ensures !failsQuit ==> store.bindings == old(store.bindings) - {thread}
  {
    driver := new Session(task.platform.name, task.pickle.name, failsScripts, failsQuit);
    store.PutWebDriver(thread, driver);
    assert Footprint(store.bindings, thread) == {driver};
    outcome := Listener.MarkAndCloseWebDriver(store, thread, cloud, result);
  }

  // ---------------------------------------------------------------------------
  // Sequential mode: `SameThreadExecutorService`

  /** What `get()` reports for a future of the same-thread executor: the task
      has already run inside `submit`, so the caller never blocks and is never
      interrupted. */
  function SameThreadResult(throws: bool): (r: FutureResult)
    ensures r != Interrupted
    ensures r == ExecutionFailed <==> throws
  {
    if throws then ExecutionFailed else Done
  }

  class SameThreadExecutor {
    /** The tasks run so far, in the order they ran. */
    var ran: seq<Task>

    constructor ()
      ensures ran == []
    {
      ran := [];
    }

    /** `execute` runs the command at once, on the calling thread. */
    method Execute(task: Task)
      modifies this
      ensures ran == old(ran) + [task]
    {
      ran := ran + [task];
    }

    /** `submit`, inherited from `AbstractExecutorService`: wraps the task in a
        future and hands it to `execute`, so the task has run, and its future is
        complete, when `submit` returns. */
    method Submit(task: Task, throws: bool) returns (future: FutureResult)
      modifies this
      ensures ran == old(ran) + [task]
      ensures future == SameThreadResult(throws)
    {
      Execute(task);
      future := SameThreadResult(throws);
    }

    /** `shutdown` does nothing. */
    method Shutdown()
      ensures ran == old(ran)
    {
    }

    /** `shutdownNow` cancels nothing and returns no pending tasks. */
    method ShutdownNow() returns (pending: seq<Task>)
      ensures pending == []
    {
      pending := [];
    }

    method IsShutdown() returns (b: bool)
      ensures b
    {
      b := true;
    }

    method IsTerminated() returns (b: bool)
      ensures b
    {
      b := true;
    }

    /** `awaitTermination` returns at once, whatever the timeout. */
    method AwaitTermination(timeout: int) returns (b: bool)
      ensures b
    {
      b := true;
    }
  }

  /** With the same-thread executor the drain loop logs exactly the tasks that
      threw and never calls `shutdownNow`. */
  lemma SequentialRunReactions(features: seq<GherkinFeature>, keep: Pickle -> bool,
                               order: seq<Pickle> -> seq<Pickle>, limit: int32,
                               platforms: seq<Platform>, throws: nat -> bool)
    ensures var t := RunTrace(features, keep, order, limit, platforms, (k: nat) => SameThreadResult(throws(k)));
      var n := |RunTasks(features, keep, order, limit, platforms)|;
      && ShutdownNow !in t
      && forall k: nat :: LogFailure(k) in t <==> k < n && throws(k)
  {
    SequentialTraceReactions(features, RunTasks(features, keep, order, limit, platforms), throws);
  }

  lemma SequentialTraceReactions(features: seq<GherkinFeature>, tasks: seq<Task>, throws: nat -> bool)
    ensures var t := TraceFor(features, tasks, (k: nat) => SameThreadResult(throws(k)));
      && ShutdownNow !in t
      && forall k: nat :: LogFailure(k) in t <==> k < |tasks| && throws(k)
  {
    var outcome := (k: nat) => SameThreadResult(throws(k));
    TraceForReactions(features, tasks, outcome);
    assert forall k: nat :: outcome(k) == SameThreadResult(throws(k));
  }

  // ---------------------------------------------------------------------------
  // Thread naming: `WebDriverThreadFactory`

  /** `AtomicInteger.getAndIncrement`'s new value: Java `int` addition, which
      wraps from `Integer.MAX_VALUE` to `Integer.MIN_VALUE`. */
  function Inc32(x: int32): (r: int32)
    ensures x < IntMax ==> r == x + 1
    ensures x == IntMax ==> r == -0x8000_0000
  {
    if x == IntMax then -0x8000_0000 else x + 1
  }

  const PoolPrefix: string := "web-driver-runner-"
  const ThreadInfix: string := "-thread-"

  /** The name of thread `n` of pool `pool`. */
  function ThreadName(pool: int32, n: int32): string {
    PoolPrefix + IntToString(pool) + ThreadInfix + IntToString(n)
  }

  /** Pool numbers and thread numbers, as long as neither counter has wrapped,
      can be read back from a thread name: two names are equal exactly when
      both numbers are. */
  lemma ThreadNamesDistinct(p: int32, n: int32, p': int32, n': int32)
    requires p >= 0 && n >= 0 && p' >= 0 && n' >= 0
    ensures ThreadName(p, n) == ThreadName(p', n') <==> p == p' && n == n'
  {
    if ThreadName(p, n) == ThreadName(p', n') {
      var x, y, x', y' := NatToString(p), NatToString(n), NatToString(p'), NatToString(n');
      assert ThreadName(p, n) == PoolPrefix + (x + ThreadInfix + y);
      assert ThreadName(p', n') == PoolPrefix + (x' + ThreadInfix + y');
      assert (PoolPrefix + (x + ThreadInfix + y))[|PoolPrefix|..] == x + ThreadInfix + y;
      assert (PoolPrefix + (x' + ThreadInfix + y'))[|PoolPrefix|..] == x' + ThreadInfix + y';
      SplitAtSeparator(x, y, x', y', ThreadInfix);
      NatToStringInjective(p, p');
      NatToStringInjective(n, n');
    }
  }

  /** The static `poolNumber` counter shared by all factories. */
  class PoolCounter {
    var next: int32

    constructor ()
      ensures next == 1
    {
      next := 1;
    }
  }

  class WebDriverThreadFactory {
    const namePrefix: string
    /** The number the next thread gets. */
    var threadNumber: int32

    /** A new factory takes the next pool number. */
    constructor (pools: PoolCounter)
      modifies pools
      ensures namePrefix == PoolPrefix + IntToString(old(pools.next)) + ThreadInfix
      ensures threadNumber == 1
      ensures pools.next == Inc32(old(pools.next))
    {
      namePrefix := PoolPrefix + IntToString(pools.next) + ThreadInfix;
      threadNumber := 1;
      pools.next := Inc32(pools.next);
    }

    /** `newThread` names thread number `threadNumber` of this factory's pool
        and moves the counter on. */
    method NewThread() returns (name: string)
      modifies this
      ensures name == namePrefix + IntToString(old(threadNumber))
      ensures threadNumber == Inc32(old(threadNumber))
    {
      name := namePrefix + IntToString(threadNumber);
      threadNumber := Inc32(threadNumber);
    }
  }
}

# Cucumber/Selenium fan-out runtime: a Dafny model

This project models the execution core of a harness that runs Cucumber
scenarios ("pickles") against browser sessions on one or more platforms and
reports each scenario's status back to a remote session provider. It covers
four pieces:

- **`WebDriverRuntime`** (module `Runtime`). Scenario selection is a pure
  pipeline: flatten the features' pickles, filter them, order them with an
  external strategy, and take at most `limit` of them, where a limit of 0 or
  less means 2147483647. Each selected pickle fans out into one task per
  platform, pickle-major. `run` is modelled as the sequence of lifecycle,
  executor and future calls it makes on the Cucumber context, the executor
  and the futures. The sequence is
  built by three loops, one for the announcements, one for the nested
  submissions and one for the drain. The model also covers:
  - the body of one task (`executeForPlatform`);
  - the same-thread executor used in sequential mode;
  - the thread factory's naming scheme, with Java `int` wrap-around of its
    counters.
- **`WebDriverListener`** (module `Listener`, with `Json` for the string
  escaping of the payload). It covers:
  - choosing the status and reason;
  - Java's `split("\n")[0]`, exactly: `""` for `""`, and an exception for a
    non-empty string made only of line feeds;
  - the 255-character cap;
  - the `browserstack_executor: {...}` script, with a reader that recovers the
    status and reason from it;
  - the try/finally close discipline, as a method over a driver store and a
    session object that counts its scripts and quits.
- **`WebDriverSupplier`** (module `Supplier`). The `ThreadLocal` driver store
  is a class holding a map from thread id to driver. The calling thread is an
  explicit parameter.
- **`report/models/Feature`** (module `Report`). A class with an append-only
  scenario list and an all-match `passed()`.

The Selenium session is module `Driver`. Whether its `executeScript` or `quit`
throws is fixed when it is created.

Three behaviours of the code that the model keeps as written:

- The comment at `WebDriverListener.java:63` says all special characters are
  replaced with whitespace. The `replaceAll` on line 64 would replace only a
  leading one, and its result is discarded, so the reason is sent unchanged
  (`Listener.LeadingCharacterKept`).
- When a wait in the drain loop is interrupted, `run` calls `shutdownNow` and
  carries on with the next future (`WebDriverRuntime.java:76-79`,
  `Runtime.DrainReactions`).
- A `quit` that throws in the `finally` block skips `popWebDriver`, so the
  binding stays (`WebDriverListener.java:45-49`,
  `Listener.MarkAndCloseWebDriver`).

## Model

| member | source | states |
|---|---|---|
| Runtime.EffectiveLimit | src/main/java/com/browserstack/WebDriverRuntime.java:65 | a positive limit is used as is; zero or a negative limit means 2147483647 |
| Runtime.Flatten | src/main/java/com/browserstack/WebDriverRuntime.java:61-62 | every pickle of every feature is in the flattened list, and only those |
| Runtime.FilterPickles | src/main/java/com/browserstack/WebDriverRuntime.java:63 | each pickle the filter keeps occurs as often as in the input; each one it drops does not occur |
| Runtime.FlattenConcat | src/main/java/com/browserstack/WebDriverRuntime.java:61-62 | flattening keeps encounter order: the pickles of earlier features come first |
| Runtime.FlattenSingleton | src/main/java/com/browserstack/WebDriverRuntime.java:62 | one feature flattens to its own pickles, in their order |
| Runtime.FilterConcat | src/main/java/com/browserstack/WebDriverRuntime.java:63 | filtering keeps encounter order: filtering a concatenation filters each part |
| Runtime.FilterSingleton | src/main/java/com/browserstack/WebDriverRuntime.java:63 | one pickle is kept exactly when the filter accepts it |
| Runtime.SelectPickles | src/main/java/com/browserstack/WebDriverRuntime.java:61-65 | the selection is a prefix of the ordered, filtered pickles, of length min(its length, effective limit) |
| Runtime.SelectedCount | src/main/java/com/browserstack/WebDriverRuntime.java:64-65 | when the ordering is a permutation: min(limit, filtered count) pickles for a positive limit, all filtered ones otherwise |
| Runtime.SelectedAreFiltered | src/main/java/com/browserstack/WebDriverRuntime.java:61-65 | every selected pickle passes the filter and belongs to one of the features |
| Runtime.PerPlatform | src/main/java/com/browserstack/WebDriverRuntime.java:66 | one task per platform, in platform order, all for the same pickle |
| Runtime.FanOut | src/main/java/com/browserstack/WebDriverRuntime.java:66 | the fan-out has pickles × platforms tasks |
| Runtime.FanOutAt | src/main/java/com/browserstack/WebDriverRuntime.java:66 | task i·P + j pairs pickle i with platform j (pickle-major) |
| Runtime.FanOutIndex | src/main/java/com/browserstack/WebDriverRuntime.java:66 | task k pairs pickle k / P with platform k mod P, so every task is such a pair |
| Runtime.AnnounceFeatures | src/main/java/com/browserstack/WebDriverRuntime.java:59 | the loop emits one `beforeFeature` per feature, in list order |
| Runtime.SubmitAll | src/main/java/com/browserstack/WebDriverRuntime.java:60-66 | the nested loops build the futures list equal to the fan-out, submitting each task in that order |
| Runtime.Drain | src/main/java/com/browserstack/WebDriverRuntime.java:68-80 | the reference definition of the drain loop, one `get` per future and its reaction; described by `Runtime.DrainReactions` and `Runtime.RunAwaitsEachFuture` |
| Runtime.RunTrace | src/main/java/com/browserstack/WebDriverRuntime.java:54-88 | the reference definition of the calls `run` makes; described by `Runtime.RunAnnouncesEachFeature`, `Runtime.RunSubmitsEachPair`, `Runtime.RunAwaitsEachFuture`, `Runtime.RunLifecycleOrder` and `Runtime.RunReactions` |
| Runtime.DrainFutures | src/main/java/com/browserstack/WebDriverRuntime.java:68-80 | the iterator loop produces the drain trace for every future, in order |
| Runtime.Run | src/main/java/com/browserstack/WebDriverRuntime.java:54-88 | `run` makes exactly the calls of the run trace; it throws the context's exception when there is one and returns normally otherwise, whatever the tasks did |
| Runtime.RunAnnouncesEachFeature | src/main/java/com/browserstack/WebDriverRuntime.java:55-59 | the features announced over the whole run are exactly the feature list, in order |
| Runtime.RunSubmitsEachPair | src/main/java/com/browserstack/WebDriverRuntime.java:66 | the tasks submitted over the whole run are exactly the fan-out of the selection |
| Runtime.RunTaskCount | src/main/java/com/browserstack/WebDriverRuntime.java:66 | selected × platforms submissions, none when either is empty, task k being (pickle k / P, platform k mod P) |
| Runtime.RunAwaitsEachFuture | src/main/java/com/browserstack/WebDriverRuntime.java:68-80 | the futures waited for are 0, 1, …, n−1: each exactly once, in submission order, whatever their outcomes |
| Runtime.RunLifecycleOrder | src/main/java/com/browserstack/WebDriverRuntime.java:55-83 | phases never go back (start, beforeFeature*, submit*, shutdown, drain, finish); start is first and finish last; start, shutdown and finish occur once each |
| Runtime.DrainReactions | src/main/java/com/browserstack/WebDriverRuntime.java:70-80 | a failure is logged exactly for the submitted futures that failed; `shutdownNow` is called exactly when some wait was interrupted, and the loop goes on |
| Runtime.RunReactions | src/main/java/com/browserstack/WebDriverRuntime.java:68-80 | the same two equivalences over the whole run trace |
| Runtime.ExecuteForPlatform | src/main/java/com/browserstack/WebDriverRuntime.java:90-97 | a fresh session for the task's platform and pickle name is bound first; it is quit once, gets the listener's script exactly when one is sent, and is unbound unless `quit` throws; an exception from `quit` replaces the try block's, otherwise the call ends with the try block's exception or returns normally |
| Runtime.SameThreadResult | src/main/java/com/browserstack/WebDriverRuntime.java:103-105 | a same-thread future is never interrupted, and it fails exactly when its task threw |
| Runtime.SameThreadExecutor.constructor | src/main/java/com/browserstack/WebDriverRuntime.java:100-101 | a new executor has run nothing |
| Runtime.SameThreadExecutor.Execute | src/main/java/com/browserstack/WebDriverRuntime.java:103-105 | `execute` runs the task at once, after those already run |
| Runtime.SameThreadExecutor.Submit | src/main/java/com/browserstack/WebDriverRuntime.java:103-105 | `submit` has run the task when it returns, so tasks run in submission order; the future is already complete |
| Runtime.SameThreadExecutor.Shutdown | src/main/java/com/browserstack/WebDriverRuntime.java:107-108 | `shutdown` changes nothing |
| Runtime.SameThreadExecutor.ShutdownNow | src/main/java/com/browserstack/WebDriverRuntime.java:110-112 | `shutdownNow` changes nothing and returns no pending tasks |
| Runtime.SameThreadExecutor.IsShutdown | src/main/java/com/browserstack/WebDriverRuntime.java:114-116 | always true |
| Runtime.SameThreadExecutor.IsTerminated | src/main/java/com/browserstack/WebDriverRuntime.java:118-120 | always true |
| Runtime.SameThreadExecutor.AwaitTermination | src/main/java/com/browserstack/WebDriverRuntime.java:122-124 | always true, whatever the timeout |
| Runtime.SequentialRunReactions | src/main/java/com/browserstack/WebDriverRuntime.java:68-80 | in sequential mode `shutdownNow` is never called, and a failure is logged exactly for the submitted tasks that threw |
| Runtime.Inc32 | src/main/java/com/browserstack/WebDriverRuntime.java:128-129 | the counters step by one and wrap from 2147483647 to −2147483648 |
| Runtime.ThreadNamesDistinct | src/main/java/com/browserstack/WebDriverRuntime.java:133-137 | for non-negative counters, two thread names are equal exactly when their pool numbers and thread numbers are |
| Runtime.PoolCounter.constructor | src/main/java/com/browserstack/WebDriverRuntime.java:128 | pool numbering starts at 1 |
| Runtime.WebDriverThreadFactory.constructor | src/main/java/com/browserstack/WebDriverRuntime.java:129-134 | the prefix is `web-driver-runner-<pool>-thread-` with the next pool number; that counter moves on; thread numbering starts at 1 |
| Runtime.ThreadName | src/main/java/com/browserstack/WebDriverRuntime.java:133-137 | `web-driver-runner-<pool>-thread-<n>`; described by `Runtime.ThreadNamesDistinct` |
| Runtime.WebDriverThreadFactory.NewThread | src/main/java/com/browserstack/WebDriverRuntime.java:136-138 | the name is the prefix followed by the current thread number, and the counter moves on |
| Text.IntToString | src/main/java/com/browserstack/WebDriverRuntime.java:133 | a non-negative number renders as its digits; a negative one as a minus sign and the digits of its magnitude |
| Text.NatToStringInjective | src/main/java/com/browserstack/WebDriverRuntime.java:133-137 | distinct numbers have distinct decimal renderings (it reads back to the number) |
| Text.SplitAtSeparator | src/main/java/com/browserstack/WebDriverRuntime.java:133-137 | two digit strings around a separator that starts with a non-digit are recovered uniquely |
| Listener.StatusFor | src/main/java/com/browserstack/WebDriverListener.java:33-38 | an OK result gives "passed"/"Test Passed"; any other result gives "failed" with the error's text; a null error throws |
| Listener.JoinSplit | src/main/java/com/browserstack/WebDriverListener.java:58 | the pieces between line feeds, joined back with line feeds, are the input |
| Listener.JavaSplit | src/main/java/com/browserstack/WebDriverListener.java:58 | `split("\n")`: the whole string when it has no line feed, otherwise the pieces between line feeds with trailing empty ones dropped; described by `Listener.JoinSplit` and `Listener.FirstLineIsLineBefore` |
| Listener.FirstLine | src/main/java/com/browserstack/WebDriverListener.java:58 | `split("\n")[0]`, or nothing where the index throws; described by `Listener.FirstLineIsLineBefore` |
| Listener.FirstLineIsLineBefore | src/main/java/com/browserstack/WebDriverListener.java:58 | `split("\n")[0]` throws exactly for a non-empty string of line feeds alone, and otherwise is the text before the first line feed (`""` for `""`) |
| Listener.CapReason | src/main/java/com/browserstack/WebDriverListener.java:59-62 | the capped reason is a prefix of length min(length, 255) |
| Listener.ReplaceLeadingSpecial | src/main/java/com/browserstack/WebDriverListener.java:64 | what the discarded `replaceAll` would return: the input unchanged when it is empty or starts with an ASCII letter or digit, otherwise the input with its first character replaced by a space |
| Listener.ReducedReasonShape | src/main/java/com/browserstack/WebDriverListener.java:57-62 | the payload reason has no line feed, is at most 255 characters and is a prefix of the input: the whole first line if shorter than 255, else its first 255 characters |
| Listener.ReduceReason | src/main/java/com/browserstack/WebDriverListener.java:57-62 | the first line, then the 255 cap; described by `Listener.ReducedReasonShape` |
| Listener.LeadingCharacterKept | src/main/java/com/browserstack/WebDriverListener.java:63-64 | the reason's first character reaches the payload unchanged, even where the replacement would have changed it |
| Listener.CreateExecutorScript | src/main/java/com/browserstack/WebDriverListener.java:53-78 | the script fails exactly when `split` throws; otherwise it starts with the marker, is never empty (so `isNotEmpty` always passes) and has no raw line feed |
| Listener.PayloadJson | src/main/java/com/browserstack/WebDriverListener.java:66-73 | the text `writeValueAsString` produces for the action and arguments object; described by `Listener.ScriptRoundTrip` |
| Listener.ScriptRoundTrip | src/main/java/com/browserstack/WebDriverListener.java:66-77 | reading the script as `{"action":"setSessionStatus","arguments":{"status":…,"reason":…}}` gives back the status and the reduced reason |
| Listener.FinalOutcome | src/main/java/com/browserstack/WebDriverListener.java:44-50 | which exception leaves the call: one from `quit` replaces the try block's, otherwise the try block's exception or a normal return; used by `Listener.MarkAndCloseWebDriver` |
| Listener.TryBlock | src/main/java/com/browserstack/WebDriverListener.java:31-43 | nothing is attempted for a non-cloud driver; on a cloud driver the built script is sent when a driver is bound, a null error or a null driver raises a null-pointer exception, and a reason of line feeds alone raises an index exception; a script is sent only in the first case |
| Listener.MarkAndCloseWebDriver | src/main/java/com/browserstack/WebDriverListener.java:28-51 | whatever the try block does, a bound driver is quit exactly once; it receives the script exactly when one is sent; the binding is removed unless `quit` throws; an exception from `quit` replaces the try block's, otherwise the call ends with the try block's exception or returns normally; only that thread's entry and driver change |
| Json.EscapeChar | src/main/java/com/browserstack/WebDriverListener.java:73 | an escaped character is never empty and holds no control character |
| Json.Escape | src/main/java/com/browserstack/WebDriverListener.java:73 | an escaped string is at least as long as the input and holds no control character |
| Json.ReadEscaped | src/main/java/com/browserstack/WebDriverListener.java:73 | reading an escaped string up to its closing quote gives back the original and the rest |
| Driver.Session.constructor | src/main/java/com/browserstack/WebDriverRuntime.java:93 | a new session for a platform and test name has run no script and not been quit |
| Driver.Session.ExecuteScript | src/main/java/com/browserstack/WebDriverListener.java:41 | the script is recorded after the earlier ones; the call fails exactly on a session whose scripts throw |
| Driver.Session.Quit | src/main/java/com/browserstack/WebDriverListener.java:47 | the quit count grows by one; the call fails exactly on a session whose `quit` throws |
| Supplier.DriverStore.constructor | src/main/java/com/browserstack/WebDriverSupplier.java:7 | no thread has a driver bound |
| Supplier.DriverStore.PutWebDriver | src/main/java/com/browserstack/WebDriverSupplier.java:9-11 | the thread's entry becomes the driver, silently replacing an earlier one; every other thread's entry is unchanged |
| Supplier.DriverStore.PopWebDriver | src/main/java/com/browserstack/WebDriverSupplier.java:13-15 | the thread's entry is gone; every other entry is unchanged; popping an absent entry changes nothing |
| Supplier.DriverStore.GetWebDriver | src/main/java/com/browserstack/WebDriverSupplier.java:17-19 | the thread's driver, or null when none is bound; no state changes |
| Report.Feature.constructor | src/main/java/com/browserstack/report/models/Feature.java:11-17 | stores the given id, name and uri, with no scenarios |
| Report.Feature.GetFeatureId | src/main/java/com/browserstack/report/models/Feature.java:19-21 | returns the stored id |
| Report.Feature.GetName | src/main/java/com/browserstack/report/models/Feature.java:23-25 | returns the stored name |
| Report.Feature.GetUri | src/main/java/com/browserstack/report/models/Feature.java:27-29 | returns the stored uri |
| Report.Feature.GetScenarios | src/main/java/com/browserstack/report/models/Feature.java:32-34 | returns the stored scenarios |
| Report.Feature.AddScenario | src/main/java/com/browserstack/report/models/Feature.java:36-38 | appends at the end, keeping id, name and uri; the feature still passes exactly when it passed before and the new scenario passed |
| Report.Feature.Passed | src/main/java/com/browserstack/report/models/Feature.java:40-42 | true exactly when every scenario passed, so true with no scenarios |
| Report.AllPassedMeansEvery | src/main/java/com/browserstack/report/models/Feature.java:40-42 | the all-match is true exactly when every scenario passed |
| Report.AllPassedAppend | src/main/java/com/browserstack/report/models/Feature.java:36-42 | appending a passing scenario leaves the verdict unchanged; appending a failing one makes it false |
| Report.FailureSticks | src/main/java/com/browserstack/report/models/Feature.java:36-42 | once a failing scenario is in the list, no further appends make the feature pass |

## Left out

- `WebDriverTestRunner.java` and `WebDriverRuntime.Builder` are not part of this model. They only layer options and wire Cucumber's services, plugins and runner together.
- Real concurrency is not modelled: the fixed thread pool, blocking `Future.get`, interrupts and the atomicity of `AtomicInteger`. How each future completes is a parameter, and the drain visits the futures one by one. After a real `shutdownNow`, tasks still queued are dropped and their futures never complete, so the Java drain can block on `get()`; the model's outcome function always answers, which is why `Runtime.RunAwaitsEachFuture` holds unconditionally.
- Cucumber's internals are parameters: the feature supplier, the filter and the ordering strategy. So are the context's recorded exception and `runTestCase`/`runPickle`. A scenario's result reaches the listener as a parameter of the task body.
- The driver factory is not modelled: it creates sessions, reports whether a driver is a cloud driver and lists the platforms. Both the cloud flag and the platforms are parameters, and a session is an object with two failure flags.
- Jackson is modelled only as its string escaping. It writes the object members in insertion order; non-ASCII characters are left as they are.
- Logging is left out.
- Listener.CapReason: lengths count Unicode scalar values, while Java's `length()` and `substring(0, 255)` count UTF-16 code units. For text outside the Basic Multilingual Plane, Java cuts earlier and can split a surrogate pair; the model does not capture that.
- Listener.ReducedReasonShape: its bound of 255 is in Unicode scalar values, not in Java's UTF-16 code units, for the same reason.
- Listener.CreateExecutorScript: the `JsonProcessingException` path that rethrows it as an `Error` is not modelled: writing a tree of string values to a `String` cannot throw `JsonProcessingException`.
- Report.Feature.GetScenarios: returns the list's value; the Java getter returns the live list, so changes a caller makes through it are not modelled.
- Runtime.ThreadNamesDistinct: stated only for non-negative pool and thread numbers, that is, until a counter wraps past 2147483647 to −2147483648. A name can repeat only once a counter gets back to a value already used, after 2^32 increments; that case is not covered.
- Runtime.SelectedCount: assumes, as a precondition, that the ordering strategy returns a permutation of its input. For an arbitrary strategy, only `Runtime.SelectPickles` holds.
- Runtime.ExecuteForPlatform: runs the scenario and the close handler directly, as `runPickle` does when it publishes `TestCaseFinished`. It does not model how Cucumber handles an exception thrown by that handler.
- The stream `limit` takes a `long`. The model compares the count with the effective limit as an unbounded integer, which agrees for every `int` limit.

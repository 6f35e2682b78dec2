/** The test-case-finished listener: it chooses a status and a reason from the
    test result, reduces the reason, builds the provider's status-report script,
    sends it when the driver factory reports a cloud driver, and then always
    quits and unbinds the current thread's driver. */
module Listener {
  import opened Wrappers
  import opened Json
  import opened Driver
  import opened Supplier

  /** The part of Cucumber's `Result` the listener reads: whether the status is
      OK, and the text of `getError().toString()`, `None` when the error is null. */
  datatype TestResult = TestResult(ok: bool, error: Option<string>)

  /** The status and reason reported to the session provider. */
  datatype StatusReport = StatusReport(status: string, reason: string)

  /** The exceptions that can leave `markAndCloseWebDriver`. */
  datatype Failure =
    | NullPointer       // `toString()` on a null error, or a script on a null driver
    | IndexOutOfBounds  // `split("\n")[0]` on a reason made only of line feeds
    | ScriptFailed      // `executeScript` threw
    | QuitFailed        // `quit` threw, from inside the finally block

  datatype Outcome = Returned | Raised(failure: Failure)

  const MaxReasonLength: nat := 255
  const Marker: string := "browserstack_executor: "

  // ---------------------------------------------------------------------------
  // Status choice

  /** The status and reason before reduction; `None` when the result is not OK
      and its error is null, where `toString()` throws. */
  function StatusFor(result: TestResult): (r: Option<StatusReport>)
    ensures result.ok ==> r == Some(StatusReport("passed", "Test Passed"))
    ensures !result.ok && result.error.Some? ==> r == Some(StatusReport("failed", result.error.value))
    ensures r.None? <==> !result.ok && result.error.None?
  {
    if result.ok then Some(StatusReport("passed", "Test Passed"))
    else if result.error.Some? then Some(StatusReport("failed", result.error.value))
    else None
  }

  // ---------------------------------------------------------------------------
  // Java's `split("\n")`

  /** Every piece between line feeds, trailing and empty ones included. */
  function SplitAll(s: string): (r: seq<string>)
    ensures |r| > 0
    ensures forall k :: 0 <= k < |r| ==> '\n' !in r[k]
  {
    if s == [] then [[]]
    else if s[0] == '\n' then [[]] + SplitAll(s[1..])
    else var t := SplitAll(s[1..]); [[s[0]] + t[0]] + t[1..]
  }

  /** The pieces joined back with line feeds. */
  function JoinLines(parts: seq<string>): string
    requires |parts| > 0
  {
    if |parts| == 1 then parts[0] else parts[0] + ['\n'] + JoinLines(parts[1..])
  }

  function DropTrailingEmpty(parts: seq<string>): (r: seq<string>)
    ensures r <= parts
    ensures |r| > 0 ==> r[|r| - 1] != []
  {
    if parts == [] then []
    else if parts[|parts| - 1] == [] then DropTrailingEmpty(parts[..|parts| - 1])
    else parts
  }

  /** `String.split("\n")` with limit 0: the string itself when it holds no line
      feed, otherwise the pieces with the trailing empty ones removed. */
  function JavaSplit(s: string): seq<string> {
    if '\n' !in s then [s] else DropTrailingEmpty(SplitAll(s))
  }

  /** `split("\n")[0]`; `None` where the index is out of bounds. */
  function FirstLine(s: string): Option<string> {
    var parts := JavaSplit(s);
    if |parts| == 0 then None else Some(parts[0])
  }

  /** The characters before the first line feed: an independent statement of
      what the first line is. */
  function LineBefore(s: string): (r: string)
    ensures '\n' !in r && r <= s
    ensures |r| < |s| ==> s[|r|] == '\n'
  {
    if s == [] || s[0] == '\n' then [] else [s[0]] + LineBefore(s[1..])
  }

  predicate OnlyLineFeeds(s: string) {
    forall i :: 0 <= i < |s| ==> s[i] == '\n'
  }

  /** Splitting and joining gives the string back. */
  lemma {:induction false} JoinSplit(s: string)
    ensures JoinLines(SplitAll(s)) == s
  {
    if s != [] {
      JoinSplit(s[1..]);
      var t := SplitAll(s[1..]);
      if s[0] == '\n' {
        assert ([[]] + t)[1..] == t;
      } else {
        var r := [[s[0]] + t[0]] + t[1..];
        if |t| == 1 {
          assert s == [s[0]] + s[1..];
        } else {
          assert r[1..] == t[1..];
          assert JoinLines(t) == t[0] + ['\n'] + JoinLines(t[1..]);
        }
      }
    }
  }

  lemma {:induction false} SplitAllHead(s: string)
    ensures SplitAll(s)[0] == LineBefore(s)
  {
    if s != [] && s[0] != '\n' {
      SplitAllHead(s[1..]);
    }
  }

  predicate AllEmpty(parts: seq<string>) {
    forall k :: 0 <= k < |parts| ==> parts[k] == []
  }

  /** Every piece is empty exactly when the string is only line feeds. */
  lemma {:induction false} SplitAllAllEmpty(s: string)
    ensures AllEmpty(SplitAll(s)) <==> OnlyLineFeeds(s)
  {
    if s != [] {
      SplitAllAllEmpty(s[1..]);
      var t := SplitAll(s[1..]);
      if s[0] == '\n' {
        assert SplitAll(s) == [[]] + t;
        assert AllEmpty([[]] + t) <==> AllEmpty(t) by {
          if AllEmpty(t) {
            forall k | 0 <= k < |[[]] + t| ensures ([[]] + t)[k] == [] {
              if k > 0 { assert ([[]] + t)[k] == t[k - 1]; }
            }
          }
          if AllEmpty([[]] + t) {
            forall k | 0 <= k < |t| ensures t[k] == [] {
              assert ([[]] + t)[k + 1] == t[k];
            }
          }
        }
        assert OnlyLineFeeds(s) <==> OnlyLineFeeds(s[1..]) by {
          if OnlyLineFeeds(s[1..]) {
            forall i | 0 <= i < |s| ensures s[i] == '\n' {
              if i > 0 { assert s[i] == s[1..][i - 1]; }
            }
          }
        }
      } else {
        assert SplitAll(s)[0] != [];
      }
    }
  }

  lemma {:induction false} DropTrailingEmptyNone(parts: seq<string>)
    ensures DropTrailingEmpty(parts) == [] <==> AllEmpty(parts)
  {
    if parts != [] && parts[|parts| - 1] == [] {
      var init := parts[..|parts| - 1];
      DropTrailingEmptyNone(init);
      assert forall k :: 0 <= k < |init| ==> init[k] == parts[k];
    }
  }

  /** What `split("\n")[0]` yields: nothing (an exception) exactly for a
      non-empty string made only of line feeds, otherwise the characters before
      the first line feed, which is `""` for `""`. */
  lemma FirstLineIsLineBefore(s: string)
    ensures FirstLine(s).None? <==> |s| > 0 && OnlyLineFeeds(s)
    ensures FirstLine(s).Some? ==> FirstLine(s).value == LineBefore(s)
  {
    if '\n' !in s {
      assert LineBefore(s) == s;
      assert |s| > 0 ==> s[0] != '\n';
    } else {
      var parts := SplitAll(s);
      SplitAllHead(s);
      SplitAllAllEmpty(s);
      DropTrailingEmptyNone(parts);
      var kept := DropTrailingEmpty(parts);
      if kept != [] {
        assert kept[0] == parts[0];
      }
    }
  }

  // ---------------------------------------------------------------------------
  // Reason reduction

  /** Keeps the first 255 characters of a reason that has 255 or more. */
  function CapReason(s: string): (r: string)
    ensures r <= s
    ensures |r| == if |s| < MaxReasonLength then |s| else MaxReasonLength
  {
    if |s| >= MaxReasonLength then s[..MaxReasonLength] else s
  }

  predicate IsAsciiAlphanumeric(c: char) {
    'a' <= c <= 'z' || 'A' <= c <= 'Z' || '0' <= c <= '9'
  }

  /** What `reason.replaceAll("^[^a-zA-Z0-9]", " ")` returns. Its result is
      discarded, so the reduction below does not apply it. */
  function ReplaceLeadingSpecial(s: string): (r: string)
    ensures |r| == |s| && (|s| > 0 ==> r[1..] == s[1..])
    ensures |r| > 0 ==> IsAsciiAlphanumeric(r[0]) || r[0] == ' '
    ensures |s| > 0 && IsAsciiAlphanumeric(s[0]) ==> r == s
    ensures |s| > 0 && !IsAsciiAlphanumeric(s[0]) ==> r == [' '] + s[1..]
  {
    if |s| > 0 && !IsAsciiAlphanumeric(s[0]) then [' '] + s[1..] else s
  }

  /** The reason placed in the payload: the first line, then the cap. */
  function ReduceReason(reason: string): Option<string> {
    match FirstLine(reason)
    case None => None
    case Some(line) => Some(CapReason(line))
  }

  /** The reduced reason is a prefix of the input with no line feed and at most
      255 characters: the whole first line when it is shorter than 255, else its
      first 255 characters. It is missing only for a non-empty input made of
      line feeds alone. */
  lemma ReducedReasonShape(reason: string)
    ensures ReduceReason(reason).None? <==> |reason| > 0 && OnlyLineFeeds(reason)
    ensures ReduceReason(reason).Some? ==>
      var r := ReduceReason(reason).value;
      && '\n' !in r
      && |r| <= MaxReasonLength
      && r <= reason
      && r == CapReason(LineBefore(reason))
      && (|LineBefore(reason)| < MaxReasonLength ==> r == LineBefore(reason))
      && (|LineBefore(reason)| >= MaxReasonLength ==> r == reason[..MaxReasonLength])
  {
    FirstLineIsLineBefore(reason);
    if ReduceReason(reason).Some? {
      var line := LineBefore(reason);
      var r := CapReason(line);
      assert forall i :: 0 <= i < |r| ==> r[i] == line[i];
    }
  }

  /** Because the `replaceAll` result is dropped, a leading character that is
      not an ASCII letter or digit reaches the payload unchanged, where the
      replacement would have turned it into a space. */
  lemma LeadingCharacterKept(reason: string)
    requires |reason| > 0 && reason[0] != '\n'
    ensures ReduceReason(reason).Some?
    ensures ReduceReason(reason).value[0] == reason[0]
    ensures !IsAsciiAlphanumeric(reason[0]) && reason[0] != ' ' ==>
      ReplaceLeadingSpecial(ReduceReason(reason).value) != ReduceReason(reason).value
  {
    ReducedReasonShape(reason);
    FirstLineIsLineBefore(reason);
    assert |LineBefore(reason)| > 0;
  }

  // ---------------------------------------------------------------------------
  // The script

  const ActionMember: string := "{\"action\":\"setSessionStatus\","
  const ArgumentsHead: string := "\"arguments\":{\"status\":\""
  const ObjectHead: string := ActionMember + ArgumentsHead
  const ReasonKey: string := ",\"reason\":\""
  const ObjectTail: string := "}}"

  /** The JSON text Jackson writes for the payload object: keys `action`, then
      `arguments` holding `status`, then `reason`, with no white space. */
  function PayloadJson(status: string, reason: string): string {
    ObjectHead + (Escape(status) + ['"'] + (ReasonKey + (Escape(reason) + ['"'] + ObjectTail)))
  }

  predicate Printable(s: string) {
    forall i :: 0 <= i < |s| ==> s[i] as int >= 0x20
  }

  lemma PrintableConcat(a: string, b: string)
    requires Printable(a) && Printable(b)
    ensures Printable(a + b)
  {
    assert forall i :: |a| <= i < |a + b| ==> (a + b)[i] == b[i - |a|];
  }

  lemma MarkerPrintable() ensures Printable(Marker) {}
  lemma ActionMemberPrintable() ensures Printable(ActionMember) {}
  lemma ArgumentsHeadPrintable() ensures Printable(ArgumentsHead) {}
  lemma ReasonKeyPrintable() ensures Printable(ReasonKey) {}
  lemma ObjectTailPrintable() ensures Printable(ObjectTail) && Printable(['"']) {}

  lemma PayloadPrintable(status: string, reason: string)
    ensures Printable(Marker + PayloadJson(status, reason))
  {
    MarkerPrintable();
    ActionMemberPrintable();
    ArgumentsHeadPrintable();
    ReasonKeyPrintable();
    ObjectTailPrintable();
    var afterKey := Escape(reason) + ['"'] + ObjectTail;
    PrintableConcat(Escape(reason), ['"']);
    PrintableConcat(Escape(reason) + ['"'], ObjectTail);
    var afterHead := Escape(status) + ['"'] + (ReasonKey + afterKey);
    PrintableConcat(ReasonKey, afterKey);
    PrintableConcat(Escape(status), ['"']);
    PrintableConcat(Escape(status) + ['"'], ReasonKey + afterKey);
    PrintableConcat(ActionMember, ArgumentsHead);
    PrintableConcat(ObjectHead, afterHead);
    assert PayloadJson(status, reason) == ObjectHead + afterHead;
    PrintableConcat(Marker, PayloadJson(status, reason));
  }

  /** `createExecutorScript`, or `None` where `split("\n")[0]` throws. The
      script is never empty, so the `isNotEmpty` test before sending it always
      passes, and it holds no raw line feed. */
  function CreateExecutorScript(status: string, reason: string): (r: Option<string>)
    ensures r.None? <==> ReduceReason(reason).None?
    ensures r.Some? ==> |r.value| > 0 && Marker <= r.value
    ensures r.Some? ==> forall i :: 0 <= i < |r.value| ==> r.value[i] != '\n'
  {
    match ReduceReason(reason)
    case None => None
    case Some(reduced) =>
      PayloadPrintable(status, reduced);
      Some(Marker + PayloadJson(status, reduced))
  }

  /** Removes `prefix` from the front of `s`, if it is there. */
  function StripPrefix(prefix: string, s: string): (r: Option<string>)
    ensures r.Some? ==> prefix + r.value == s
  {
    if prefix <= s then Some(s[|prefix|..]) else None
  }

  /** How the session provider reads a status-report script: the marker, the
      fixed opening of the object, the status string, the reason string and the
      closing braces. */
  function ParseScript(script: string): Option<StatusReport> {
    match StripPrefix(Marker + ObjectHead, script)
    case None => None
    case Some(afterHead) =>
      match ReadString(afterHead)
      case None => None
      case Some((status, afterStatus)) =>
        match StripPrefix(ReasonKey, afterStatus)
        case None => None
        case Some(afterKey) =>
          match ReadString(afterKey)
          case None => None
          case Some((reason, tail)) =>
            if tail == ObjectTail then Some(StatusReport(status, reason)) else None
  }

  lemma StripPrefixOf(prefix: string, t: string)
    ensures StripPrefix(prefix, prefix + t) == Some(t)
  {
    assert (prefix + t)[|prefix|..] == t;
  }

  /** Reading the script back gives the status and the reduced reason. */
  lemma ScriptRoundTrip(status: string, reason: string)
    requires ReduceReason(reason).Some?
    ensures CreateExecutorScript(status, reason).Some?
    ensures ParseScript(CreateExecutorScript(status, reason).value)
         == Some(StatusReport(status, ReduceReason(reason).value))
  {
    var reduced := ReduceReason(reason).value;
    var afterKey := Escape(reduced) + ['"'] + ObjectTail;
    var afterHead := Escape(status) + ['"'] + (ReasonKey + afterKey);
    assert Marker + PayloadJson(status, reduced) == (Marker + ObjectHead) + afterHead;
    StripPrefixOf(Marker + ObjectHead, afterHead);
    ReadEscaped(status, ReasonKey + afterKey);
    StripPrefixOf(ReasonKey, afterKey);
    ReadEscaped(reduced, ObjectTail);
  }

  // ---------------------------------------------------------------------------
  // markAndCloseWebDriver

  /** What the try block does before the finally block runs. */
  datatype Attempt =
    | Skip                      // not a cloud driver: nothing is sent
    | Abort(failure: Failure)   // an exception before any script reaches a driver
    | Send(script: string)      // `executeScript(script)` is called on the driver

  function TryBlock(cloud: bool, hasDriver: bool, result: TestResult): (a: Attempt)
    ensures !cloud <==> a.Skip?
    ensures a.Send? ==>
      && hasDriver
      && StatusFor(result).Some?
      && CreateExecutorScript(StatusFor(result).value.status, StatusFor(result).value.reason) == Some(a.script)
    ensures cloud && StatusFor(result).None? ==> a == Abort(NullPointer)
    ensures cloud && StatusFor(result).Some? ==>
      var script := CreateExecutorScript(StatusFor(result).value.status, StatusFor(result).value.reason);
      && (script.None? ==> a == Abort(IndexOutOfBounds))
      && (script.Some? && !hasDriver ==> a == Abort(NullPointer))
      && (script.Some? && hasDriver ==> a == Send(script.value))
  {
    if !cloud then Skip
    else match StatusFor(result)
      case None => Abort(NullPointer)
      case Some(report) =>
        match CreateExecutorScript(report.status, report.reason)
        case None => Abort(IndexOutOfBounds)
        case Some(script) => if hasDriver then Send(script) else Abort(NullPointer)
  }

  /** The exception the whole call ends with, if any: one thrown by `quit`
      replaces whatever the try block threw. */
  function FinalOutcome(attempt: Attempt, hasDriver: bool, failsScripts: bool, failsQuit: bool): Outcome {
    if hasDriver && failsQuit then Raised(QuitFailed)
    else match attempt
      case Skip => Returned
      case Abort(f) => Raised(f)
      case Send(_) => if failsScripts then Raised(ScriptFailed) else Returned
  }

  /** `markAndCloseWebDriver` on `thread`. Whatever the try block does, a bound
      driver is quit exactly once and a null one is never touched; the binding
      is removed unless `quit` itself throws, which skips `popWebDriver`. Only
      the calling thread's entry and its driver change. */
  method MarkAndCloseWebDriver(store: DriverStore, thread: ThreadId, cloud: bool, result: TestResult)
    returns (outcome: Outcome)
    modifies store, Footprint(store.bindings, thread)
    ensures var d := BoundTo(old(store.bindings), thread);
      && var attempt := TryBlock(cloud, d != null, result);
      && (d != null ==> d.quits == old(d.quits) + 1)
      && (d != null ==> d.scripts == old(d.scripts) + (if attempt.Send? then [attempt.script] else []))
      && (if d != null && d.failsQuit then store.bindings == old(store.bindings)
          else store.bindings == old(store.bindings) - {thread})
      && outcome == FinalOutcome(attempt, d != null, d != null && d.failsScripts, d != null && d.failsQuit)
  {
    var driver := store.GetWebDriver(thread);
    var thrown: Option<Failure> := None;
    // try
    if cloud {
      var report := StatusFor(result);
      if report.None? {
        thrown := Some(NullPointer);
      } else {
        var script := CreateExecutorScript(report.value.status, report.value.reason);
        if script.None? {
          thrown := Some(IndexOutOfBounds);
        } else if |script.value| > 0 {
          if driver == null {
            thrown := Some(NullPointer);
          } else {
            var sent := driver.ExecuteScript(script.value);
            if !sent {
              thrown := Some(ScriptFailed);
            }
          }
        }
      }
    }
    // finally
    if driver != null {
      var quit := driver.Quit();
      if !quit {
        return Raised(QuitFailed);
      }
    }
    store.PopWebDriver(thread);
    outcome := if thrown.Some? then Raised(thrown.value) else Returned;
  }
}

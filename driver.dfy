/** The Selenium `WebDriver` as the harness uses it: an opaque remote or local
    browser session on which a script can be executed and which can be quit.
    Whether either call throws is fixed when the session is created. */
module Driver {

  class Session {
    /** The platform and test name the driver factory created the session for. */
    const platformName: string
    const testName: string
    /** Whether `executeScript` throws on this session. */
    const failsScripts: bool
    /** Whether `quit` throws on this session. */
    const failsQuit: bool
    /** Every script passed to `executeScript`, in call order. */
    var scripts: seq<string>
    /** How many times `quit` was called. */
    var quits: nat

    constructor (platformName: string, testName: string, failsScripts: bool, failsQuit: bool)
      ensures this.platformName == platformName && this.testName == testName
      ensures this.failsScripts == failsScripts && this.failsQuit == failsQuit
      ensures scripts == [] && quits == 0
    {
      this.platformName := platformName;
      this.testName := testName;
      this.failsScripts := failsScripts;
      this.failsQuit := failsQuit;
      scripts := [];
      quits := 0;
    }

    /** `JavascriptExecutor.executeScript`; `ok` is false when the call throws. */
    method ExecuteScript(script: string) returns (ok: bool)
      modifies this
      ensures scripts == old(scripts) + [script] && quits == old(quits)
      ensures ok == !failsScripts
    {
      scripts := scripts + [script];
      ok := !failsScripts;
    }

    /** `WebDriver.quit`; `ok` is false when the call throws. */
    method Quit() returns (ok: bool)
      modifies this
      ensures quits == old(quits) + 1 && scripts == old(scripts)
      ensures ok == !failsQuit
    {
      quits := quits + 1;
      ok := !failsQuit;
    }
  }
}

/**
  The raw configuration editor (components/ConfigEditor.tsx): loading the text
  on mount, and the "Apply Changes" workflow that tests the text with the
  backend, stops if the test fails, and otherwise saves it and restarts the
  service. The three backend calls are not modelled; what each one returned is
  a parameter of Apply, and every call is recorded, with the text it sent and
  the editor state visible while it was awaited, in the ghost trace Calls.
 */
module ConfigEditor {
  import opened Types

  /** The text shown when nothing was saved in the browser. */
  const DefaultConfig: string :=
    "# dnsmasq.conf\ndomain-needed\nbogus-priv\nno-resolv\nserver=8.8.8.8\ncache-size=1000"

  /**
    `load`: the saved text, when there is one and it is not empty (an empty
    string is falsy, like a missing one); otherwise the default configuration.
   */
  function LoadConfig(saved: Option<string>): (config: string)
    ensures config != ""
    ensures saved.Some? && saved.value != "" ==> config == saved.value
    ensures saved == None || saved == Some("") ==> config == DefaultConfig
  {
    match saved
    case Some(text) => if text != "" then text else DefaultConfig
    case None => DefaultConfig
  }

  /** What `/api/test-config` answers. */
  datatype TestResult = TestResult(valid: bool, error: Option<string>)

  /** What `/api/config` answers; Apply ignores it. */
  datatype SaveResult = SaveResult(success: bool, message: string)

  /** What `/api/restart` answers; Apply ignores it. */
  datatype RestartResult = RestartResult(success: bool, log: string)

  /** A request to the backend, with the configuration text it carries. */
  datatype ServiceCall = TestConfig(content: string) | SaveConfig(content: string) | RestartService

  /** A backend call together with the editor state rendered while it was awaited. */
  datatype Awaited = Awaited(call: ServiceCall, isSaving: bool, testResult: Option<TestResult>)

  /** The banner shown after a successful apply. */
  const AppliedResult: TestResult := TestResult(true, None)

  /** The `config`, `isSaving` and `testResult` state of the editor. */
  class Editor {
    var config: string
    var isSaving: bool
    var testResult: Option<TestResult>
    ghost var Calls: seq<Awaited>

    /** Mounting followed by the `load` effect, with the browser storage entry as a parameter. */
    constructor (saved: Option<string>)
      ensures config == LoadConfig(saved)
      ensures !isSaving && testResult == None && Calls == []
    {
      config := LoadConfig(saved);
      isSaving := false;
      testResult := None;
      Calls := [];
    }

    /** Typing in the text area. */
    method Edit(text: string)
      modifies this`config
      ensures config == text
    {
      config := text;
    }

    /**
      `handleApply`. `test`, `saved` and `restarted` are what the three awaited
      backend calls return. An invalid test ends the workflow with only the test
      call made; a valid one is followed by a save and then a restart of the
      same text, and reports success whatever those two returned.
     */
    method Apply(test: TestResult, saved: SaveResult, restarted: RestartResult)
      modifies this`isSaving, this`testResult, this`Calls
      ensures !isSaving
      ensures config == old(config)
      ensures |Calls| == |old(Calls)| + (if test.valid then 3 else 1)
      ensures Calls[..|old(Calls)|] == old(Calls)
      ensures Calls[|old(Calls)|] == Awaited(TestConfig(config), true, None)
      ensures !test.valid ==> testResult == Some(test)
      ensures test.valid ==> testResult == Some(AppliedResult)
      ensures test.valid ==>
        Calls[|old(Calls)| + 1] == Awaited(SaveConfig(config), true, None) &&
        Calls[|old(Calls)| + 2] == Awaited(RestartService, true, None)
    {
      isSaving := true;
      testResult := None;

      Calls := Calls + [Awaited(TestConfig(config), isSaving, testResult)];
      if !test.valid {
        testResult := Some(test);
        isSaving := false;
        return;
      }

      Calls := Calls + [Awaited(SaveConfig(config), isSaving, testResult)];
      Calls := Calls + [Awaited(RestartService, isSaving, testResult)];

      testResult := Some(AppliedResult);
      isSaving := false;
    }

    /** The timer that fires three seconds after a successful apply: it hides whatever banner is shown. */
    method ClearBanner()
      modifies this`testResult
      ensures testResult == None
    {
      testResult := None;
    }
  }
}

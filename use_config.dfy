/**
 * The multitenant flag of the configuration hook. The runtime setting comes
 * from the page's injected environment and the build setting from the
 * bundler's environment; the first one that is not nullish is used, and the
 * flag is on when its text, lower-cased, is exactly `true`. Whether a
 * `window` exists and what the two environments hold are parameters.
 */
module UseConfig {
  import opened JsValues
  import opened Text

  /** The JavaScript values the runtime term can take: `false`, a string, or `undefined`. */
  datatype Term = FalseTerm | StringTerm(s: string) | Undefined

  /**
   * `typeof window !== 'undefined' && window?.spiffworkflowFrontendJsenv?.MULTI_TENANT_ON`:
   * `false` without a window, else the setting, `undefined` when the
   * environment or its key is missing.
   */
  function RuntimeTerm(hasWindow: bool, runtimeSetting: Option<string>): Term
  {
    if !hasWindow then FalseTerm
    else if runtimeSetting.Some? then StringTerm(runtimeSetting.value)
    else Undefined
  }

  /**
   * `String(runtime ?? build ?? '')`: `??` skips `undefined`, and `null`, which
   * the setting's type excludes; so `false` and `""` are kept.
   */
  function RawText(runtime: Term, build: Option<string>): string
  {
    match runtime
    case FalseTerm => "false"
    case StringTerm(s) => s
    case Undefined => if build.Some? then build.value else ""
  }

  /** `getEnableMultitenant`. */
  function EnableMultitenant(hasWindow: bool, runtimeSetting: Option<string>, buildSetting: Option<string>): (on: bool)
  {
    ToLower(RawText(RuntimeTerm(hasWindow, runtimeSetting), buildSetting)) == "true"
  }

  /** Text that lower-cases to `true` has exactly four letters, each `t`, `r`, `u`, `e` in either case. */
  lemma TrueText(s: string)
    ensures ToLower(s) == "true" <==>
      |s| == 4 && s[0] in "tT" && s[1] in "rR" && s[2] in "uU" && s[3] in "eE"
  {
    if |s| == 4 {
      assert ToLower(s) == [LowerChar(s[0]), LowerChar(s[1]), LowerChar(s[2]), LowerChar(s[3])];
    }
  }

  /** A runtime setting, whatever it is, decides the flag, and the build setting is then ignored. */
  lemma RuntimeSettingWins(runtimeSetting: string, buildSetting: Option<string>)
    ensures EnableMultitenant(true, Some(runtimeSetting), buildSetting) <==> ToLower(runtimeSetting) == "true"
  {
  }

  /** An empty runtime setting turns the flag off even when the build setting is `true`. */
  lemma EmptyRuntimeSettingIsOff(buildSetting: Option<string>)
    ensures !EnableMultitenant(true, Some(""), buildSetting)
  {
  }

  /** Without a window the runtime term is `false`, which `??` keeps, so the flag is off. */
  lemma NoWindowIsOff(runtimeSetting: Option<string>, buildSetting: Option<string>)
    ensures !EnableMultitenant(false, runtimeSetting, buildSetting)
  {
    TrueText("false");
  }

  /** Without a runtime setting the build setting decides; without either the flag is off. */
  lemma BuildSettingFallback(buildSetting: Option<string>)
    ensures EnableMultitenant(true, None, buildSetting) <==> buildSetting.Some? && ToLower(buildSetting.value) == "true"
    ensures !EnableMultitenant(true, None, None)
  {
  }

  /** Case does not matter but surrounding spaces do: nothing is trimmed. */
  lemma CaseButNoTrim()
    ensures EnableMultitenant(true, Some("TRUE"), None) && EnableMultitenant(true, None, Some("True"))
    ensures !EnableMultitenant(true, Some(" true"), None) && !EnableMultitenant(true, Some("true "), None)
  {
    TrueText("TRUE");
    TrueText("True");
  }
}

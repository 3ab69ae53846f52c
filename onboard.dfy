/** The setup wizard's request to `openclaw onboard`: `validatePayload`, which checks the
    wizard's JSON body (src/server.js, lines 1420-1479), and `buildOnboardArgs`, which turns a
    body that passed into the command line (lines 929-982). The body is validated before the
    arguments are built (lines 1507-1511). */
module Onboard {
  import opened Text
  import opened Json

  /** `VALID_FLOWS`. */
  const ValidFlows: seq<string> := ["quickstart", "advanced", "manual"]

  /** `VALID_AUTH_CHOICES`. */
  const ValidAuthChoices: seq<string> := [
    "codex-cli", "openai-codex", "openai-api-key", "claude-cli", "token", "apiKey",
    "gemini-api-key", "google-antigravity", "google-gemini-cli", "openrouter-api-key",
    "ollama-local", "ai-gateway-api-key", "moonshot-api-key", "kimi-code-api-key",
    "zai-api-key", "minimax-api", "minimax-api-lightning", "qwen-portal", "github-copilot",
    "copilot-proxy", "synthetic-api-key", "opencode-zen"]

  /** The prefix an Ollama model name must carry. */
  const OllamaPrefix: string := "ollama/"

  /** The properties of the wizard's body that are read (None when absent). */
  datatype SetupPayload = SetupPayload(
    flow: Option<Json>,
    authChoice: Option<Json>,
    authSecret: Option<Json>,
    model: Option<Json>,
    telegramToken: Option<Json>,
    discordToken: Option<Json>,
    slackBotToken: Option<Json>,
    slackAppToken: Option<Json>)

  /** The properties of a JSON body; an array or a scalar has none of them. */
  function SetupPayloadOf(body: Json): (p: SetupPayload)
    ensures body.JObj? ==> p.flow == Get(body.fields, "flow") && p.authChoice == Get(body.fields, "authChoice")
  {
    var props := if body.JObj? then body.fields else [];
    SetupPayload(Get(props, "flow"), Get(props, "authChoice"), Get(props, "authSecret"), Get(props, "model"),
                 Get(props, "telegramToken"), Get(props, "discordToken"), Get(props, "slackBotToken"),
                 Get(props, "slackAppToken"))
  }

  /** Why `validatePayload` refused the body, in the order it checks. */
  datatype SetupError =
    | InvalidFlow
    | InvalidAuthChoice
    | NotAString(field: string)
    | OllamaModelMissing
    | OllamaModelPrefix
    /** the message for a bad flow or auth choice cannot be built: converting the value in
        its template literal throws, and the route answers 500 */
    | MessageThrew

  /** `options.includes(value)`: the value is one of the strings. */
  predicate IsOneOf(v: Option<Json>, options: seq<string>) {
    v.Some? && v.value.JStr? && v.value.s in options
  }

  /** `value !== undefined && typeof value !== "string"`. */
  predicate NotStringValue(v: Option<Json>) {
    v.Some? && !v.value.JStr?
  }

  /** `payload.flow && !VALID_FLOWS.includes(payload.flow)`. */
  predicate BadFlow(p: SetupPayload) {
    Truthy(p.flow) && !IsOneOf(p.flow, ValidFlows)
  }

  /** `payload.authChoice && !VALID_AUTH_CHOICES.includes(payload.authChoice)`. */
  predicate BadAuthChoice(p: SetupPayload) {
    Truthy(p.authChoice) && !IsOneOf(p.authChoice, ValidAuthChoices)
  }

  /** `${value}` of a present value throws. */
  predicate MessageThrows(v: Option<Json>) {
    v.Some? && StringThrows(v.value)
  }

  /** Every field that must be a string is one or is absent. */
  predicate StringsOnly(p: SetupPayload) {
    && !NotStringValue(p.telegramToken) && !NotStringValue(p.discordToken)
    && !NotStringValue(p.slackBotToken) && !NotStringValue(p.slackAppToken)
    && !NotStringValue(p.authSecret) && !NotStringValue(p.model)
  }

  /** The fields that must be strings, with their names, in the order they are checked. */
  function StringFields(p: SetupPayload): seq<(string, Option<Json>)> {
    [("telegramToken", p.telegramToken), ("discordToken", p.discordToken), ("slackBotToken", p.slackBotToken),
     ("slackAppToken", p.slackAppToken), ("authSecret", p.authSecret), ("model", p.model)]
  }

  /** The name of the first field in the list that holds something other than a string. */
  function FirstNonString(fields: seq<(string, Option<Json>)>): (r: Option<string>)
    ensures r.None? <==> forall i :: 0 <= i < |fields| ==> !NotStringValue(fields[i].1)
    ensures r.Some? ==> exists i :: 0 <= i < |fields| && fields[i].0 == r.value && NotStringValue(fields[i].1)
  {
    if fields == [] then None
    else if NotStringValue(fields[0].1) then Some(fields[0].0)
    else
      var r := FirstNonString(fields[1..]);
      assert forall i :: 1 <= i < |fields| ==> fields[i] == fields[1..][i - 1];
      r
  }

  /** The list check finds a field exactly when some field is not a string. */
  lemma FirstNonStringOfFields(p: SetupPayload)
    ensures FirstNonString(StringFields(p)).None? <==> StringsOnly(p)
  {
    var fs := StringFields(p);
    assert fs[0].1 == p.telegramToken && fs[1].1 == p.discordToken && fs[2].1 == p.slackBotToken;
    assert fs[3].1 == p.slackAppToken && fs[4].1 == p.authSecret && fs[5].1 == p.model;
  }

  /** `payload.model?.trim() || ""` on a model that is a string or absent. */
  function OllamaModel(p: SetupPayload): string {
    if p.model.Some? && p.model.value.JStr? then Trim(p.model.value.s) else ""
  }

  /** What the Ollama choice demands: a model, named under "ollama/". */
  predicate OllamaModelOk(p: SetupPayload) {
    p.authChoice == Some(JStr("ollama-local")) ==> OllamaModel(p) != "" && StartsWith(OllamaModel(p), OllamaPrefix)
  }

  /** What an acceptable body is, stated without the order of the checks. */
  predicate Validated(p: SetupPayload) {
    !BadFlow(p) && !BadAuthChoice(p) && StringsOnly(p) && OllamaModelOk(p)
  }

  /** `validatePayload(payload)`: the first problem found, None for `null` (acceptable). */
  function ValidatePayload(p: SetupPayload): (r: Option<SetupError>)
    ensures r.None? <==> Validated(p)
  {
    FirstNonStringOfFields(p);
    if BadFlow(p) then Some(if MessageThrows(p.flow) then MessageThrew else InvalidFlow)
    else if BadAuthChoice(p) then Some(if MessageThrows(p.authChoice) then MessageThrew else InvalidAuthChoice)
    else
      match FirstNonString(StringFields(p))
      case Some(field) => Some(NotAString(field))
      case None =>
        if p.authChoice == Some(JStr("ollama-local")) then
          var model := OllamaModel(p);
          if model == "" then Some(OllamaModelMissing)
          else if !StartsWith(model, OllamaPrefix) then Some(OllamaModelPrefix)
          else None
        else None
  }

  /** The checks accept exactly the acceptable bodies, and each error names the first
      requirement that fails. */
  lemma ValidatePayloadSound(p: SetupPayload)
    ensures ValidatePayload(p).None? <==> Validated(p)
    ensures ValidatePayload(p) == Some(InvalidFlow) <==> BadFlow(p) && !MessageThrows(p.flow)
    ensures ValidatePayload(p) == Some(InvalidAuthChoice) <==>
      !BadFlow(p) && BadAuthChoice(p) && !MessageThrows(p.authChoice)
    ensures ValidatePayload(p) == Some(MessageThrew) <==>
      (BadFlow(p) && MessageThrows(p.flow)) || (!BadFlow(p) && BadAuthChoice(p) && MessageThrows(p.authChoice))
    ensures (ValidatePayload(p).Some? && ValidatePayload(p).value.NotAString?) <==>
      !BadFlow(p) && !BadAuthChoice(p) && !StringsOnly(p)
    ensures ValidatePayload(p) == Some(OllamaModelMissing) <==>
      && !BadFlow(p) && !BadAuthChoice(p) && StringsOnly(p)
      && p.authChoice == Some(JStr("ollama-local")) && OllamaModel(p) == ""
    ensures ValidatePayload(p) == Some(OllamaModelPrefix) <==>
      && !BadFlow(p) && !BadAuthChoice(p) && StringsOnly(p)
      && p.authChoice == Some(JStr("ollama-local")) && OllamaModel(p) != ""
      && !StartsWith(OllamaModel(p), OllamaPrefix)
  {
    FirstNonStringOfFields(p);
  }

  /** `{"flow":{"toString":1}}`: the flow is refused, but building the message throws. */
  lemma ObjectFlowThrows()
    ensures ValidatePayload(SetupPayloadOf(JObj([Field("flow", OwnToString)])))
         == Some(MessageThrew)
  {
    OwnToStringThrows([OwnToString]);
    var p := SetupPayloadOf(JObj([Field("flow", OwnToString)]));
    assert p.flow == Some(OwnToString);
  }

  /** The name an error reports is one of the six fields that must be strings, and that
      field does hold something else. */
  lemma NotAStringNamesField(p: SetupPayload)
    requires ValidatePayload(p).Some? && ValidatePayload(p).value.NotAString?
    ensures exists i :: 0 <= i < 6 && StringFields(p)[i].0 == ValidatePayload(p).value.field
                                     && NotStringValue(StringFields(p)[i].1)
  {
  }

  /** The fixed part of the command line: non-interactive onboarding of a gateway bound to the
      loopback interface on the internal port, authenticated by the gateway token. */
  function BaseArgs(workspace: string, port: int, token: string, flow: string): seq<string> {
    ["onboard", "--non-interactive", "--accept-risk", "--json", "--no-install-daemon", "--skip-health",
     "--workspace", workspace, "--gateway-bind", "loopback", "--gateway-port", IntToString(port),
     "--gateway-auth", "token", "--gateway-token", token, "--flow", flow]
  }

  /** The CLI flag that carries the secret of an auth choice, if it takes one that way. */
  function SecretFlag(choice: string): Option<string> {
    match choice
    case "openai-api-key" => Some("--openai-api-key")
    case "apiKey" => Some("--anthropic-api-key")
    case "openrouter-api-key" => Some("--openrouter-api-key")
    case "ai-gateway-api-key" => Some("--ai-gateway-api-key")
    case "moonshot-api-key" => Some("--moonshot-api-key")
    case "kimi-code-api-key" => Some("--kimi-code-api-key")
    case "gemini-api-key" => Some("--gemini-api-key")
    case "zai-api-key" => Some("--zai-api-key")
    case "minimax-api" => Some("--minimax-api-key")
    case "minimax-api-lightning" => Some("--minimax-api-key")
    case "synthetic-api-key" => Some("--synthetic-api-key")
    case "opencode-zen" => Some("--opencode-zen-api-key")
    case _ => None
  }

  /** The flow passed on: the one chosen, or quickstart. */
  function FlowOf(p: SetupPayload): string
    requires Validated(p)
  {
    if Truthy(p.flow) then p.flow.value.s else "quickstart"
  }

  /** `(payload.authSecret || "").trim()`. */
  function SecretOf(p: SetupPayload): string
    requires Validated(p)
  {
    if Truthy(p.authSecret) then Trim(p.authSecret.value.s) else ""
  }

  /** The auth choice as passed on: Ollama needs no credential, so it becomes "skip". */
  function OnboardAuthChoice(choice: string): string {
    if choice == "ollama-local" then "skip" else choice
  }

  /** The arguments pushed for an auth choice with its trimmed secret. */
  function AuthArgs(choice: string, secret: string): (a: seq<string>)
    ensures |a| >= 2 && a[..2] == ["--auth-choice", OnboardAuthChoice(choice)]
    ensures secret == "" ==> |a| == 2
  {
    var chosen := ["--auth-choice", OnboardAuthChoice(choice)];
    var flag := SecretFlag(choice);
    var withSecret := if flag.Some? && secret != "" then chosen + [flag.value, secret] else chosen;
    if choice == "token" && secret != "" then withSecret + ["--token-provider", "anthropic", "--token", secret]
    else withSecret
  }

  /** `buildOnboardArgs(payload)` for a validated body; `workspace`, `port` and `token` are
      WORKSPACE_DIR, INTERNAL_GATEWAY_PORT and OPENCLAW_GATEWAY_TOKEN. */
  function BuildOnboardArgs(p: SetupPayload, workspace: string, port: int, token: string): (args: seq<string>)
    requires Validated(p)
    ensures |args| >= 18 && args[..18] == BaseArgs(workspace, port, token, FlowOf(p))
    ensures !Truthy(p.authChoice) ==> |args| == 18
    ensures Truthy(p.authChoice) ==> args[18..] == AuthArgs(p.authChoice.value.s, SecretOf(p))
  {
    var base := BaseArgs(workspace, port, token, FlowOf(p));
    if !Truthy(p.authChoice) then base
    else base + AuthArgs(p.authChoice.value.s, SecretOf(p))
  }

  /** The flow passed on is always one the CLI knows, and an auth choice passed on is one of
      the listed choices or "skip". */
  lemma PassedOnValuesAreKnown(p: SetupPayload, workspace: string, port: int, token: string)
    requires Validated(p)
    ensures var args := BuildOnboardArgs(p, workspace, port, token);
      && args[17] in ValidFlows
      && (Truthy(p.authChoice) ==> args[18] == "--auth-choice" && args[19] in ValidAuthChoices + ["skip"])
  {
    FlowIsKnown(p);
    FlowPassedOn(p, workspace, port, token);
    if Truthy(p.authChoice) {
      ChoiceIsKnown(p.authChoice.value.s);
      AuthChoicePassedOn(p, workspace, port, token);
    }
  }

  lemma FlowPassedOn(p: SetupPayload, workspace: string, port: int, token: string)
    requires Validated(p)
    ensures BuildOnboardArgs(p, workspace, port, token)[17] == FlowOf(p)
  {
    var args := BuildOnboardArgs(p, workspace, port, token);
    assert args[17] == args[..18][17];
  }

  lemma FlowIsKnown(p: SetupPayload)
    requires Validated(p)
    ensures FlowOf(p) in ValidFlows
  {
  }

  lemma ChoiceIsKnown(choice: string)
    requires choice in ValidAuthChoices
    ensures OnboardAuthChoice(choice) in ValidAuthChoices + ["skip"]
  {
  }

  lemma AuthChoicePassedOn(p: SetupPayload, workspace: string, port: int, token: string)
    requires Validated(p) && Truthy(p.authChoice)
    ensures var args := BuildOnboardArgs(p, workspace, port, token);
      && args[18] == "--auth-choice" && args[19] == OnboardAuthChoice(p.authChoice.value.s)
  {
    PairAt(BuildOnboardArgs(p, workspace, port, token), AuthArgs(p.authChoice.value.s, SecretOf(p)));
  }

  lemma PairAt(args: seq<string>, a: seq<string>)
    requires |args| >= 18 && args[18..] == a && |a| >= 2
    ensures args[18] == a[0] && args[19] == a[1] && a[..2] == [a[0], a[1]]
  {
  }

  /** The secret is passed on only behind the flag of the chosen provider, or as a setup token
      for the token choice, and never for any other choice. */
  lemma SecretPlacement(choice: string, secret: string)
    requires secret != ""
    ensures SecretFlag(choice).Some? ==> AuthArgs(choice, secret)[2..] == [SecretFlag(choice).value, secret]
    ensures choice == "token" ==> AuthArgs(choice, secret)[2..] == ["--token-provider", "anthropic", "--token", secret]
    ensures SecretFlag(choice).None? && choice != "token" ==> |AuthArgs(choice, secret)| == 2
  {
    assert SecretFlag("token").None?;
  }

  /** Ollama runs without an API key: its choice is passed on as "skip" and nothing goes with it. */
  lemma OllamaSkipsAuth(secret: string)
    ensures AuthArgs("ollama-local", secret) == ["--auth-choice", "skip"]
  {
    assert SecretFlag("ollama-local").None?;
  }

  /** A validated Ollama body names a model under the "ollama/" namespace. */
  lemma OllamaNeedsModel(model: string)
    requires !StartsWith(Trim(model), OllamaPrefix)
    ensures ValidatePayload(SetupPayload(None, Some(JStr("ollama-local")), None, Some(JStr(model)), None, None, None, None))
      == Some(if Trim(model) == "" then OllamaModelMissing else OllamaModelPrefix)
  {
    var p := SetupPayload(None, Some(JStr("ollama-local")), None, Some(JStr(model)), None, None, None, None);
    FirstNonStringOfFields(p);
    assert "ollama-local" in ValidAuthChoices;
  }
}

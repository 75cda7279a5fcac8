/** The decisions the bot takes when its module is loaded: refuse to start
    unless the three credentials are set, then pick a Gemini model from the
    names the backend lists, in a fixed order of preference. Reading the
    environment and listing the models are I/O; their results are inputs. */
module Startup {
  import opened Wrappers

  datatype StartupError =
    | MissingEnvironment                        // a credential is absent or empty
    | NoSuitableModel(available: seq<string>)   // neither preferred model is listed

  datatype Credentials = Credentials(
    channelSecret: string,
    channelAccessToken: string,
    geminiApiKey: string)

  datatype Config = Config(credentials: Credentials, modelName: string)

  /** The model used whenever the backend lists it. */
  const PreferredModel: string := "models/gemini-1.5-pro"
  /** The model used when only it, and not the preferred one, is listed. */
  const FallbackModel: string := "models/gemini-2.0-pro-exp"

  /** Truthiness of an environment lookup: an absent variable and an empty
      value are both false. */
  predicate IsSet(value: Option<string>) {
    value.Some? && value.value != ""
  }

  /** The start-up guard on the three credentials. */
  function CheckEnvironment(secret: Option<string>, accessToken: Option<string>, apiKey: Option<string>)
    : (r: Result<Credentials, StartupError>)
    ensures r.Success? <==> IsSet(secret) && IsSet(accessToken) && IsSet(apiKey)
    ensures r.Success? ==>
      && r.value == Credentials(secret.value, accessToken.value, apiKey.value)
      && r.value.channelSecret != "" && r.value.channelAccessToken != "" && r.value.geminiApiKey != ""
    ensures r.Failure? ==> r.error == MissingEnvironment
  {
    if !IsSet(secret) || !IsSet(accessToken) || !IsSet(apiKey) then Failure(MissingEnvironment)
    else Success(Credentials(secret.value, accessToken.value, apiKey.value))
  }

  /** The model choice over the listed model names. */
  function SelectModel(available: seq<string>): (r: Result<string, StartupError>)
    ensures r.Success? <==> PreferredModel in available || FallbackModel in available
    ensures r.Success? ==> r.value in available
    ensures r.Success? ==> r.value == PreferredModel || r.value == FallbackModel
    ensures PreferredModel in available ==> r == Success(PreferredModel)
    ensures r.Failure? ==> r.error == NoSuitableModel(available)
  {
    if PreferredModel in available then Success(PreferredModel)
    else if FallbackModel in available then Success(FallbackModel)
    else Failure(NoSuitableModel(available))
  }

  /** The choice depends only on which names are listed, not on the order
      or the multiplicity in which the backend lists them. */
  lemma SelectModelIgnoresListingOrder(a: seq<string>, b: seq<string>)
    requires forall name :: name in a <==> name in b
    ensures SelectModel(a).Success? == SelectModel(b).Success?
    ensures SelectModel(a).Success? ==> SelectModel(a).value == SelectModel(b).value
  {
  }

  /** The whole start-up sequence: the credential guard runs first, so a
      missing credential is reported whatever the model listing holds. */
  function Start(secret: Option<string>, accessToken: Option<string>, apiKey: Option<string>,
                 available: seq<string>): (r: Result<Config, StartupError>)
    ensures r.Success? <==>
      && IsSet(secret) && IsSet(accessToken) && IsSet(apiKey)
      && (PreferredModel in available || FallbackModel in available)
    ensures !(IsSet(secret) && IsSet(accessToken) && IsSet(apiKey)) ==> r == Failure(MissingEnvironment)
    ensures IsSet(secret) && IsSet(accessToken) && IsSet(apiKey)
      && !(PreferredModel in available || FallbackModel in available)
      ==> r == Failure(NoSuitableModel(available))
    ensures r.Success? ==>
      && r.value.credentials == Credentials(secret.value, accessToken.value, apiKey.value)
      && r.value.modelName in available
      && (r.value.modelName == PreferredModel || r.value.modelName == FallbackModel)
      && (PreferredModel in available ==> r.value.modelName == PreferredModel)
  {
    match CheckEnvironment(secret, accessToken, apiKey)
    case Failure(e) => Failure(e)
    case Success(credentials) =>
      match SelectModel(available)
      case Failure(e) => Failure(e)
      case Success(name) => Success(Config(credentials, name))
  }
}

// build_authorize_url of src-tauri/src/auth/mod.rs: the query of the login page.
module AuthorizeUrl {
  import opened Wrappers
  import opened Utf8
  import opened Percent
  import opened UrlPath

  const LOGTO_PUBLIC_ENDPOINT: Text := "https://auth.itops.sh"
  const DESKTOP_REDIRECT_URI: Text := "https://app.itops.sh/login/desktop/callback"
  const DEFAULT_SCOPES: Text := "openid profile email"

  // endpointValid: validate_logto_endpoint accepts it.
  datatype LogtoPublicConfig = LogtoPublicConfig(
    enabled: bool, endpoint: Option<Text>, endpointValid: bool, appId: Option<Text>, scopes: seq<Text>)

  datatype ConfigError = LogtoDisabled | InvalidConfig

  predicate Given(s: Option<Text>) {
    s.Some? && s.value != []
  }

  predicate Usable(config: LogtoPublicConfig) {
    config.enabled && Given(config.endpoint) && config.endpointValid && Given(config.appId)
  }

  function ScopesOf(config: LogtoPublicConfig): Text {
    if config.scopes == [] then DEFAULT_SCOPES else Join(config.scopes, ' ')
  }

  function Params(config: LogtoPublicConfig, state: Text, challenge: Text): seq<(Text, Text)>
    requires Usable(config)
  {
    [("client_id", config.appId.value), ("redirect_uri", DESKTOP_REDIRECT_URI), ("response_type", "code"),
     ("scope", ScopesOf(config)), ("state", state), ("code_challenge", challenge), ("code_challenge_method", "S256")]
  }

  function Base(): Text {
    LOGTO_PUBLIC_ENDPOINT + "/oidc/auth?"
  }

  predicate PlainKeys(params: seq<(Text, Text)>) {
    forall i, j :: 0 <= i < |params| && 0 <= j < |params[i].0| ==> Unreserved(params[i].0[j])
  }

  // The loop writes keys as they are; theirs are unreserved, so that is their encoding.
  method AppendParams(url: Text, params: seq<(Text, Text)>) returns (out: Text)
    requires PlainKeys(params)
    ensures out == url + QueryText(params)
  {
    hide Encode;
    out := url;
    var i := 0;
    while i < |params|
      invariant 0 <= i <= |params|
      invariant out == url + QueryText(params[..i])
    {
      assert params[..i + 1][..i] == params[..i];
      if i > 0 {
        out := out + ['&'];
      }
      out := out + params[i].0;
      out := out + ['='];
      var value := PercentEncodeComponent(params[i].1);
      out := out + value;
      EncodeUnreserved(params[i].0);
      assert out == url + (QueryText(params[..i]) + (if i > 0 then ['&'] else []) + PairText(params[i]));
      i := i + 1;
    }
    assert params[..|params|] == params;
  }

  lemma ParamKeysArePlain(config: LogtoPublicConfig, state: Text, challenge: Text)
    requires Usable(config)
    ensures PlainKeys(Params(config, state, challenge))
  {
  }

  // A login page address is built exactly from a usable configuration; it is the fixed
  // endpoint, and its query reads back as the seven parameters: this login's state and
  // challenge, and the native redirect, whatever characters any of them hold.
  method BuildAuthorizeUrl(config: LogtoPublicConfig, state: Text, challenge: Text) returns (r: Result<Text, ConfigError>)
    ensures r.Ok? <==>
              && config.enabled && config.endpoint.Some? && config.endpoint.value != "" && config.endpointValid
              && config.appId.Some? && config.appId.value != ""
    ensures r.Ok? <==> Usable(config)
    ensures r.Err? ==> (r.error.LogtoDisabled? <==> !config.enabled)
    ensures r.Ok? ==> Base() <= r.value && ParseQuery(r.value[|Base()|..]) == Params(config, state, challenge)
    ensures r.Ok? ==>
              && "https://auth.itops.sh/oidc/auth?" <= r.value
              && ParseQuery(r.value[|"https://auth.itops.sh/oidc/auth?"|..])
                 == [("client_id", config.appId.value), ("redirect_uri", "https://app.itops.sh/login/desktop/callback"),
                     ("response_type", "code"), ("scope", ScopesOf(config)), ("state", state), ("code_challenge", challenge),
                     ("code_challenge_method", "S256")]
  {
    hide QueryText, ParseQuery, Params;
    if !config.enabled {
      return Err(LogtoDisabled);
    }
    if !Given(config.endpoint) || !config.endpointValid || !Given(config.appId) {
      return Err(InvalidConfig);
    }
    var params := Params(config, state, challenge);
    ParamKeysArePlain(config, state, challenge);
    var url := AppendParams(Base(), params);
    ParamCount(config, state, challenge);
    QueryRoundTrip(params);
    assert url[|Base()|..] == QueryText(params);
    ParamsAre(config, state, challenge);
    return Ok(url);
  }

  lemma ParamsAre(config: LogtoPublicConfig, state: Text, challenge: Text)
    requires Usable(config)
    ensures Base() == "https://auth.itops.sh/oidc/auth?"
    ensures Params(config, state, challenge)
         == [("client_id", config.appId.value), ("redirect_uri", "https://app.itops.sh/login/desktop/callback"),
             ("response_type", "code"), ("scope", ScopesOf(config)), ("state", state), ("code_challenge", challenge),
             ("code_challenge_method", "S256")]
  {
  }

  // The scopes are those of the configuration, one space between two, or the default ones.
  lemma ScopesMean(config: LogtoPublicConfig)
    ensures config.scopes == [] ==> ScopesOf(config) == "openid profile email"
    ensures config.scopes != [] && (forall i :: 0 <= i < |config.scopes| ==> ' ' !in config.scopes[i]) ==>
              Split(ScopesOf(config), ' ') == config.scopes
  {
    if config.scopes != [] && forall i :: 0 <= i < |config.scopes| ==> ' ' !in config.scopes[i] {
      SplitJoin(config.scopes, ' ');
    }
  }

  lemma ParamCount(config: LogtoPublicConfig, state: Text, challenge: Text)
    requires Usable(config)
    ensures |Params(config, state, challenge)| == 7
  {
  }
}

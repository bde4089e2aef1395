/** Choice of the language-model provider for the e-mail assistant: the first
    provider, in a fixed priority order, whose API-key variable is set to
    something other than whitespace. The environment is a map from variable
    name to value. */
module Provider {
  import opened Text

  datatype ProviderModels = ProviderModels(slow: string, medium: string, fast: string)

  /** `(provider, models)`, or `(None, {})` when no key is usable. */
  datatype Selection = Chosen(provider: string, models: ProviderModels) | NoProvider

  const Priority: seq<string> := ["claude", "openai", "gemini", "xai", "groq"]

  const ApiKeyEnv: map<string, string> := map[
    "claude" := "ANTHROPIC_API_KEY",
    "openai" := "OPENAI_API_KEY",
    "gemini" := "GEMINI_API_KEY",
    "xai" := "XAI_API_KEY",
    "groq" := "GROQ_API_KEY"]

  const ModelsByProvider: map<string, ProviderModels> := map[
    "claude" := ProviderModels("claude-opus-4.5", "claude-sonnet-4.5", "claude-haiku-3.5"),
    "openai" := ProviderModels("gpt-5.2", "gpt-4o", "gpt-5-mini"),
    "gemini" := ProviderModels("gemini-3-flash-preview", "gemini-2.5-flash", "gemini-2.5-flash-lite"),
    "xai" := ProviderModels("grok-4", "grok-3", "grok-4-1-fast-reasoning"),
    "groq" := ProviderModels("openai/gpt-oss-120b", "qwen/qwen3-32b", "llama-3.1-8b-instant")]

  /** A provider the tables know. */
  predicate Known(p: string) {
    p in ApiKeyEnv && p in ModelsByProvider
  }

  /** `api_key and api_key.strip()` for `api_key = os.getenv(name)`. */
  predicate Usable(env: map<string, string>, name: string) {
    name in env && env[name] != "" && Strip(env[name]) != ""
  }

  predicate ProviderUsable(env: map<string, string>, p: string)
    requires Known(p)
  {
    Usable(env, ApiKeyEnv[p])
  }

  /** The loop over the priority list, first match wins. */
  function FirstUsable(providers: seq<string>, env: map<string, string>): (r: Selection)
    requires forall p :: p in providers ==> Known(p)
    ensures r.NoProvider? <==> forall i :: 0 <= i < |providers| ==> !ProviderUsable(env, providers[i])
    ensures r.Chosen? ==> exists i :: 0 <= i < |providers| && providers[i] == r.provider
                            && ProviderUsable(env, providers[i])
                            && forall j :: 0 <= j < i ==> !ProviderUsable(env, providers[j])
    ensures r.Chosen? ==> Known(r.provider) && r.models == ModelsByProvider[r.provider]
  {
    if providers == [] then NoProvider
    else if ProviderUsable(env, providers[0]) then
      Chosen(providers[0], ModelsByProvider[providers[0]])
    else
      var r := FirstUsable(providers[1..], env);
      PassOver(providers, env, r);
      r
  }

  /** The first provider is not usable, so the first match of the rest is the
      first match of all. */
  lemma PassOver(providers: seq<string>, env: map<string, string>, r: Selection)
    requires providers != [] && forall p :: p in providers ==> Known(p)
    requires !ProviderUsable(env, providers[0])
    requires r.NoProvider? <==> forall i :: 0 <= i < |providers[1..]| ==> !ProviderUsable(env, providers[1..][i])
    requires r.Chosen? ==> exists i :: 0 <= i < |providers[1..]| && providers[1..][i] == r.provider
                             && ProviderUsable(env, providers[1..][i])
                             && forall j :: 0 <= j < i ==> !ProviderUsable(env, providers[1..][j])
    ensures r.NoProvider? <==> forall i :: 0 <= i < |providers| ==> !ProviderUsable(env, providers[i])
    ensures r.Chosen? ==> exists i :: 0 <= i < |providers| && providers[i] == r.provider
                            && ProviderUsable(env, providers[i])
                            && forall j :: 0 <= j < i ==> !ProviderUsable(env, providers[j])
  {
    if r.Chosen? {
      var i :| 0 <= i < |providers[1..]| && providers[1..][i] == r.provider
               && ProviderUsable(env, providers[1..][i])
               && forall j :: 0 <= j < i ==> !ProviderUsable(env, providers[1..][j]);
      assert providers[i + 1] == r.provider;
      forall j | 0 <= j < i + 1 ensures !ProviderUsable(env, providers[j]) {
        if j > 0 { assert providers[j] == providers[1..][j - 1]; }
      }
    } else {
      forall i | 0 <= i < |providers| ensures !ProviderUsable(env, providers[i]) {
        if i > 0 { assert providers[i] == providers[1..][i - 1]; }
      }
    }
  }

  /** `select_email_provider_and_models()` */
  function SelectProvider(env: map<string, string>): Selection {
    FirstUsable(Priority, env)
  }

  /** The provider chosen is the earliest in priority order with a usable key,
      and its models are its table entry. */
  lemma SelectIsFirstMatch(env: map<string, string>, i: nat)
    requires i < |Priority| && ProviderUsable(env, Priority[i])
    requires forall j :: 0 <= j < i ==> !ProviderUsable(env, Priority[j])
    ensures SelectProvider(env) == Chosen(Priority[i], ModelsByProvider[Priority[i]])
  {
    var r := SelectProvider(env);
    assert r.Chosen?;
    var k :| 0 <= k < |Priority| && Priority[k] == r.provider && ProviderUsable(env, Priority[k])
             && forall j :: 0 <= j < k ==> !ProviderUsable(env, Priority[j]);
    assert k == i;
  }

  /** No usable key gives no provider. */
  lemma SelectNone(env: map<string, string>)
    requires forall name :: name in ApiKeyEnv.Values ==> !Usable(env, name)
    ensures SelectProvider(env) == NoProvider
  {
    forall i | 0 <= i < |Priority| ensures !ProviderUsable(env, Priority[i]) {
      assert ApiKeyEnv[Priority[i]] in ApiKeyEnv.Values;
    }
  }

  /** Providers whose usability agrees in two environments are chosen alike. */
  lemma {:induction false} SameUsability(providers: seq<string>, env: map<string, string>, env': map<string, string>)
    requires forall p :: p in providers ==> Known(p)
    requires forall p :: p in providers ==> (ProviderUsable(env, p) <==> ProviderUsable(env', p))
    ensures FirstUsable(providers, env) == FirstUsable(providers, env')
  {
    if providers != [] {
      SameUsability(providers[1..], env, env');
    }
  }

  /** A key set to whitespace only is the same as no key at all. */
  lemma WhitespaceKeyIsAbsent(env: map<string, string>, name: string)
    requires name in env && AllSpace(env[name])
    ensures SelectProvider(env) == SelectProvider(env - {name})
  {
    StripEmptyIffAllSpace(env[name]);
    SameUsability(Priority, env, env - {name});
  }
}

/**
 * The provider-agnostic dispatch layer: it reads an immutable configuration, owns the
 * one OpenAI client handle, routes `answer_question` and `extract_skills` to the Ollama
 * client or to the OpenAI client, and turns every failure into a value.
 *
 * The OpenAI functions (`ai_create_openai_client`, `ai_answer_question`,
 * `ai_extract_skills`, `ai_close_openai_client`) are given as outcomes or functions;
 * `Failure(message)` is an exception. A ghost trace records every provider function the
 * dispatcher calls, so that "no provider is called" can be stated.
 */
module AiInterface {
  import opened Wrappers
  import opened PyStr
  import opened OllamaConnections

  /**
   * The configuration values read from the settings module; a setting that is absent
   * is None and takes the default the dispatcher gives it.
   */
  datatype Config = Config(
    useAI: Option<bool>,
    aiProvider: Option<string>,
    useAIIfOllamaNotRunning: Option<bool>,
    ollamaModel: Option<string>,
    streamOutput: bool)

  /** `globals().get('use_AI', False)` is truthy. */
  predicate AiEnabled(c: Config)
  {
    c.useAI == Some(true)
  }

  /** `globals().get('ai_provider', 'unknown').lower()`. */
  function ProviderName(c: Config): (name: string)
    ensures c.aiProvider.None? ==> name == "unknown"
    ensures |name| == |c.aiProvider.GetOr("unknown")|
    ensures forall k :: 0 <= k < |name| ==> !('A' <= name[k] <= 'Z')
  {
    Lower(c.aiProvider.GetOr("unknown"))
  }

  const DefaultOllamaModel: string := "gemma3:4b"

  function OllamaModelName(c: Config): string
  {
    c.ollamaModel.GetOr(DefaultOllamaModel)
  }

  /** The provider is chosen by its lower-cased name, so "Ollama" or "OPENAI" select the same backend. */
  lemma ProviderMatchIgnoresCase(c: Config)
    ensures ProviderName(c) == "ollama" <==>
      var p := c.aiProvider.GetOr("unknown");
      |p| == 6 && forall k :: 0 <= k < 6 ==> p[k] == "ollama"[k] || p[k] == UpperChar("ollama"[k])
    ensures ProviderName(c) == "openai" <==>
      var p := c.aiProvider.GetOr("unknown");
      |p| == 6 && forall k :: 0 <= k < 6 ==> p[k] == "openai"[k] || p[k] == UpperChar("openai"[k])
  {
    LowerMatchesEveryCasing(c.aiProvider.GetOr("unknown"), "ollama");
    LowerMatchesEveryCasing(c.aiProvider.GetOr("unknown"), "openai");
  }

  /** An unset provider is "unknown", which selects neither backend. */
  lemma UnsetProviderIsUnknown(c: Config)
    requires c.aiProvider.None?
    ensures ProviderName(c) == "unknown"
    ensures ProviderName(c) != "ollama" && ProviderName(c) != "openai"
  {
    assert Lower("unknown") == "unknown";
  }

  /** The OpenAI client object, never inspected; `Some(h)` is a truthy client, None a falsy one. */
  datatype Handle = Handle(id: nat)

  /** The OpenAI answer and skills functions, given the client handle. */
  datatype OpenAIBackend<J> = OpenAIBackend(
    answer: (Handle, Question) -> Result<CompletionResult<J>, string>,
    skills: (Handle, string) -> Result<CompletionResult<J>, string>)

  /** The provider functions the dispatcher can call. */
  datatype ProviderCall =
    | OllamaIsRunning
    | OllamaModelExists(model: string)
    | CreateOpenAIClient
    | OllamaAnswer
    | OpenAIAnswer(client: Handle)
    | OllamaSkills
    | OpenAISkills(client: Handle)
    | CloseOpenAIClient(client: Handle)

  const AiDisabled: string := "AI is disabled"
  const NoProviderPrefix: string := "No valid AI provider configured: "
  const AnswerErrorPrefix: string := "Error answering question: "
  const SkillsErrorPrefixAtDispatch: string := "Error extracting skills: "

  class AiDispatcher {
    /** The configuration, fixed for the process lifetime. */
    const config: Config
    /** `openai_client`. */
    var openaiClient: Option<Handle>
    /** The provider functions called so far, in order. */
    ghost var calls: seq<ProviderCall>

    /** A client handle exists only when AI is on and the provider is OpenAI. */
    ghost predicate Valid()
      reads this
    {
      openaiClient.Some? ==> AiEnabled(config) && ProviderName(config) == "openai"
    }

    /** The module is loaded: no client yet. */
    constructor (config: Config)
      ensures this.config == config
      ensures openaiClient == None && calls == []
      ensures Valid()
    {
      this.config := config;
      openaiClient := None;
      calls := [];
    }

    /**
     * `initialize_ai`, given the two `/api/tags` replies (the health probe and the
     * model listing) and the outcome of `ai_create_openai_client()`.
     */
    method Initialize(probe: TagsReply, listing: TagsReply, create: Result<Option<Handle>, string>) returns (ok: bool)
      requires Valid()
      modifies this
      ensures Valid()
      ensures !AiEnabled(config) ==> !ok && openaiClient == old(openaiClient) && calls == old(calls)
      ensures AiEnabled(config) && ProviderName(config) == "ollama" ==>
        && ok == (IsRunning(probe) && ModelExists(ModelsList(listing), OllamaModelName(config)))
        && openaiClient == old(openaiClient)
        && calls == old(calls) + [OllamaIsRunning]
                  + (if IsRunning(probe) then [OllamaModelExists(OllamaModelName(config))] else [])
      ensures AiEnabled(config) && ProviderName(config) == "openai" ==>
        && calls == old(calls) + [CreateOpenAIClient]
        && (create.Failure? ==> !ok && openaiClient == old(openaiClient))
        && (create.Success? ==> openaiClient == create.value && ok == create.value.Some?)
      ensures AiEnabled(config) && ProviderName(config) != "ollama" && ProviderName(config) != "openai" ==>
        !ok && openaiClient == old(openaiClient) && calls == old(calls)
    {
      if !AiEnabled(config) {
        return false;
      }
      var provider := ProviderName(config);
      if provider == "ollama" {
        calls := calls + [OllamaIsRunning];
        if !IsRunning(probe) {
          // Both settings of use_AI_if_ollama_not_running end here with False.
          return false;
        }
        var modelName := OllamaModelName(config);
        calls := calls + [OllamaModelExists(modelName)];
        if !ModelExists(ModelsList(listing), modelName) {
          // Likewise for a missing model, whatever use_AI_if_ollama_not_running says.
          return false;
        }
        return true;
      } else if provider == "openai" {
        calls := calls + [CreateOpenAIClient];
        match create {
          case Failure(_) =>
            // The exception leaves openai_client as it was; the handler answers False.
            return false;
          case Success(client) =>
            openaiClient := client;
            return client.Some?;
        }
      } else {
        return false;
      }
    }

    /** `answer_question`: never raises; every failure comes back as a value. */
    method AnswerQuestion<J>(q: Question, ollama: OllamaBackend<J>, openai: OpenAIBackend<J>) returns (r: CompletionResult<J>)
      requires Valid()
      modifies this`calls
      ensures Valid() && openaiClient == old(openaiClient)
      ensures !AiEnabled(config) ==> r == TextAnswer(AiDisabled) && calls == old(calls)
      ensures AiEnabled(config) && ProviderName(config) == "ollama" ==>
        r == OllamaAnswerQuestion(q, config.streamOutput, ollama) && calls == old(calls) + [OllamaAnswer]
      ensures AiEnabled(config) && ProviderName(config) == "openai" && openaiClient.Some? ==>
        && calls == old(calls) + [OpenAIAnswer(openaiClient.value)]
        && r == match openai.answer(openaiClient.value, q)
                case Success(v) => v
                case Failure(e) => TextAnswer(AnswerErrorPrefix + e)
      ensures AiEnabled(config) && ProviderName(config) != "ollama"
              && !(ProviderName(config) == "openai" && openaiClient.Some?) ==>
        r == TextAnswer(NoProviderPrefix + ProviderName(config)) && calls == old(calls)
    {
      if !AiEnabled(config) {
        return TextAnswer(AiDisabled);
      }
      var provider := ProviderName(config);
      if provider == "ollama" {
        calls := calls + [OllamaAnswer];
        r := OllamaAnswerQuestion(q, config.streamOutput, ollama);
      } else if provider == "openai" && openaiClient.Some? {
        calls := calls + [OpenAIAnswer(openaiClient.value)];
        match openai.answer(openaiClient.value, q) {
          case Success(v) => r := v;
          case Failure(e) => r := TextAnswer(AnswerErrorPrefix + e);
        }
      } else {
        r := TextAnswer(NoProviderPrefix + provider);
      }
    }

    /** `extract_skills`: never raises; every failure comes back as an `{"error": ...}` mapping. */
    method ExtractSkills<J>(jobDescription: string, ollama: OllamaBackend<J>, openai: OpenAIBackend<J>) returns (r: CompletionResult<J>)
      requires Valid()
      modifies this`calls
      ensures Valid() && openaiClient == old(openaiClient)
      ensures !AiEnabled(config) ==> r == ErrorMapping(AiDisabled) && calls == old(calls)
      ensures AiEnabled(config) && ProviderName(config) == "ollama" ==>
        r == OllamaExtractSkills(jobDescription, config.streamOutput, ollama) && calls == old(calls) + [OllamaSkills]
      ensures AiEnabled(config) && ProviderName(config) == "openai" && openaiClient.Some? ==>
        && calls == old(calls) + [OpenAISkills(openaiClient.value)]
        && r == match openai.skills(openaiClient.value, jobDescription)
                case Success(v) => v
                case Failure(e) => ErrorMapping(SkillsErrorPrefixAtDispatch + e)
      ensures AiEnabled(config) && ProviderName(config) != "ollama"
              && !(ProviderName(config) == "openai" && openaiClient.Some?) ==>
        r == ErrorMapping(NoProviderPrefix + ProviderName(config)) && calls == old(calls)
    {
      if !AiEnabled(config) {
        return ErrorMapping(AiDisabled);
      }
      var provider := ProviderName(config);
      if provider == "ollama" {
        calls := calls + [OllamaSkills];
        r := OllamaExtractSkills(jobDescription, config.streamOutput, ollama);
      } else if provider == "openai" && openaiClient.Some? {
        calls := calls + [OpenAISkills(openaiClient.value)];
        match openai.skills(openaiClient.value, jobDescription) {
          case Success(v) => r := v;
          case Failure(e) => r := ErrorMapping(SkillsErrorPrefixAtDispatch + e);
        }
      } else {
        r := ErrorMapping(NoProviderPrefix + provider);
      }
    }

    /**
     * `cleanup_ai`, given what `ai_close_openai_client` does with a handle: a live
     * OpenAI client is closed and forgotten; a failed close is swallowed and the
     * handle kept; with no client, or another provider, nothing happens.
     */
    method Cleanup(close: Handle -> Result<(), string>)
      requires Valid()
      modifies this
      ensures Valid()
      ensures ProviderName(config) == "openai" && old(openaiClient).Some? ==>
        && calls == old(calls) + [CloseOpenAIClient(old(openaiClient).value)]
        && openaiClient == (if close(old(openaiClient).value).Success? then None else old(openaiClient))
      ensures !(ProviderName(config) == "openai" && old(openaiClient).Some?) ==>
        openaiClient == old(openaiClient) && calls == old(calls)
    {
      var provider := ProviderName(config);
      if provider == "openai" && openaiClient.Some? {
        var client := openaiClient.value;
        calls := calls + [CloseOpenAIClient(client)];
        match close(client) {
          case Success(_) =>
            openaiClient := None;
          case Failure(_) =>
            // The error is logged and not propagated; the handle stays.
        }
      }
    }
  }

  /**
   * Cleaning up twice, where `close1` and `close2` are what `ai_close_openai_client`
   * does on the first and on the second call. After a clean first close the second call
   * finds no client and changes nothing. After a failed first close the handle is still
   * there, so the second call closes it again, and that second outcome decides whether
   * the handle is cleared. With no client, or another provider, both calls are no-ops.
   */
  method CleanupTwice(d: AiDispatcher, close1: Handle -> Result<(), string>, close2: Handle -> Result<(), string>)
    requires d.Valid()
    modifies d
    ensures d.Valid()
    ensures old(d.openaiClient).Some? && ProviderName(d.config) == "openai" && close1(old(d.openaiClient).value).Success? ==>
      d.openaiClient == None && d.calls == old(d.calls) + [CloseOpenAIClient(old(d.openaiClient).value)]
    ensures old(d.openaiClient).Some? && ProviderName(d.config) == "openai" && close1(old(d.openaiClient).value).Failure? ==>
      && d.openaiClient == (if close2(old(d.openaiClient).value).Success? then None else old(d.openaiClient))
      && d.calls == old(d.calls) + [CloseOpenAIClient(old(d.openaiClient).value), CloseOpenAIClient(old(d.openaiClient).value)]
    ensures !(old(d.openaiClient).Some? && ProviderName(d.config) == "openai") ==>
      d.openaiClient == old(d.openaiClient) && d.calls == old(d.calls)
  {
    d.Cleanup(close1);
    d.Cleanup(close2);
  }
}

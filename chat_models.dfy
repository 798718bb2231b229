/** Record shapes of pact_backend/models/chat.py: the metrics record both
    the statistics fold and a chat turn carry, and the chat request. */
module ChatModels {
  import opened PyBuiltins

  /** `MetricsModel`: seven integer scores and the jailbreak flag. */
  datatype MetricsModel = MetricsModel(
    grammar: int,
    spellCheck: int,
    sensitiveInfo: int,
    violence: int,
    biasGender: int,
    selfHarm: int,
    hateUnfairness: int,
    jailbreak: bool)

  /** The fields of `MetricsModel`, one constructor each. */
  datatype MetricKey =
    | Grammar | SpellCheck | SensitiveInfo | Violence
    | BiasGender | SelfHarm | HateUnfairness | Jailbreak

  /** The field's name as the source spells it; it is the dict key and the
      name of the field's histogram in a statistics document. */
  function Name(k: MetricKey): string {
    match k
    case Grammar => "grammar"
    case SpellCheck => "spell_check"
    case SensitiveInfo => "sensitive_info"
    case Violence => "violence"
    case BiasGender => "bias_gender"
    case SelfHarm => "self_harm"
    case HateUnfairness => "hate_unfairness"
    case Jailbreak => "jailbreak"
  }

  /** The keys of `metrics.dict()`, in declaration order. */
  const MetricKeys: seq<MetricKey> :=
    [Grammar, SpellCheck, SensitiveInfo, Violence, BiasGender, SelfHarm, HateUnfairness, Jailbreak]

  /** Position of a key in `MetricKeys`. */
  function Index(k: MetricKey): (i: nat)
    ensures i < |MetricKeys| && MetricKeys[i] == k
  {
    match k
    case Grammar => 0
    case SpellCheck => 1
    case SensitiveInfo => 2
    case Violence => 3
    case BiasGender => 4
    case SelfHarm => 5
    case HateUnfairness => 6
    case Jailbreak => 7
  }

  /** Every field is listed in `MetricKeys`. */
  lemma EveryKeyListed()
    ensures forall k: MetricKey :: k in MetricKeys
  {
    forall k: MetricKey ensures k in MetricKeys {
      assert MetricKeys[Index(k)] == k;
    }
  }

  /** `MetricKeys` has no repeated key. */
  lemma IndexOfKey(i: nat)
    requires i < |MetricKeys|
    ensures Index(MetricKeys[i]) == i
  {
  }

  /** `metrics.dict()[key]`. */
  function Field(m: MetricsModel, k: MetricKey): (v: Value)
    ensures k == Jailbreak <==> v.VBool?
    ensures k != Jailbreak <==> v.VInt?
  {
    match k
    case Grammar => VInt(m.grammar)
    case SpellCheck => VInt(m.spellCheck)
    case SensitiveInfo => VInt(m.sensitiveInfo)
    case Violence => VInt(m.violence)
    case BiasGender => VInt(m.biasGender)
    case SelfHarm => VInt(m.selfHarm)
    case HateUnfairness => VInt(m.hateUnfairness)
    case Jailbreak => VBool(m.jailbreak)
  }

  /** `metrics.dict()`: every field, in declaration order. */
  function MetricsDict(m: MetricsModel): (d: seq<(string, Value)>)
    ensures |d| == |MetricKeys|
    ensures forall i :: 0 <= i < |d| ==> d[i] == (Name(MetricKeys[i]), Field(m, MetricKeys[i]))
  {
    seq(|MetricKeys|, i requires 0 <= i < |MetricKeys| => (Name(MetricKeys[i]), Field(m, MetricKeys[i])))
  }

  /** Distinct fields have distinct names. */
  lemma NameInjective(j: MetricKey, k: MetricKey)
    ensures Name(j) == Name(k) ==> j == k
  {
  }

  /** The chat `RequestModel`: a conversation turn with both metrics records. */
  datatype ChatRequest = ChatRequest(
    historyId: string,
    chatId: Option<string>,
    prompt: string,
    optPrompt: string,
    response: string,
    optResponse: string,
    promptMetrics: MetricsModel,
    optPromptMetrics: MetricsModel)

  /** The value `body.dict()` holds for `chat_id`. */
  function ChatIdValue(c: Option<string>): Value {
    match c
    case None => VNone
    case Some(s) => VStr(s)
  }

  /** `body.dict()` for a chat request, nested metrics as dicts. */
  function RequestDict(r: ChatRequest): seq<(string, Value)> {
    [("history_id", VStr(r.historyId)),
     ("chat_id", ChatIdValue(r.chatId)),
     ("prompt", VStr(r.prompt)),
     ("opt_prompt", VStr(r.optPrompt)),
     ("response", VStr(r.response)),
     ("opt_response", VStr(r.optResponse)),
     ("prompt_metrics", VDict(MetricsDict(r.promptMetrics))),
     ("opt_prompt_metrics", VDict(MetricsDict(r.optPromptMetrics)))]
  }

  /** The metric names, each behind `prefix`. */
  function PrefixedNames(prefix: string): set<string> {
    set i | 0 <= i < |MetricKeys| :: prefix + Name(MetricKeys[i])
  }

  /** The text fields of `ChatModel`. */
  const TextChatFields: set<string> := {"history_id", "prompt", "opt_prompt", "response", "opt_response"}

  /** The fields of `ChatModel` other than `created_at`: the text fields,
      the metric names, and the metric names behind `opt_`. */
  const ChatFields: set<string> := TextChatFields + PrefixedNames("") + PrefixedNames("opt_")
}

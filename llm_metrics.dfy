/** The `/metrics` endpoint of pact_backend/routers/llm.py (`get_metrics`):
    raw evaluator outputs become the small integer scores and the jailbreak
    flag of a metrics record.

    Confidence scores are integer hundredths (0..100 stands for 0.0..1.0),
    so `ceil(m * 5)` and `floor(m * 5)` are exact integer arithmetic;
    severity scores are integers, as the evaluators report them. */
module LlmMetrics {
  import opened PyBuiltins
  import opened ChatModels

  /** One recognised entity; `confidence` is None when the entity has no
      `confidence_score`, which `ele.get(..., 0)` reads as 0. */
  datatype Entity = Entity(confidence: Option<int>)

  /** One document of a Text Analytics reply: its entities, or an error
      result that has no `.entities`. */
  datatype Document = Recognized(entities: seq<Entity>) | DocumentError

  /** The `sensitive_info` slot of an evaluator result: absent, a value that
      is not a list (the `0` the evaluator returns on error), or a list of
      documents. */
  datatype SensitiveResult = SensitiveAbsent | NotAList | DocumentList(docs: seq<Document>)

  /** What `evaluate_all` returns for one (query, answer) pair.
      `grammar` and `spellCheck` are the model's raw reply texts; a severity
      is None where its evaluator returned None or lacks the score key; the
      jailbreak result is None where its evaluator returned None. */
  datatype RawMetrics = RawMetrics(
    grammar: string,
    spellCheck: string,
    sensitiveInfo: SensitiveResult,
    violence: Option<int>,
    sexual: Option<int>,
    selfHarm: Option<int>,
    hateUnfairness: Option<int>,
    jailbreak: Option<seq<(string, Value)>>)

  /** The jailbreak flag: the string "not computed" or a bool. */
  datatype JailbreakFlag = NotComputed | Flag(b: bool)

  /** An `evaluation` dict as the endpoint fills it. */
  datatype Evaluation = Evaluation(
    grammar: int,
    spellCheck: int,
    sensitiveInfo: int,
    violence: int,
    biasGender: int,
    selfHarm: int,
    hateUnfairness: int,
    jailbreak: JailbreakFlag)

  /** `math.ceil` for the original prompt, `math.floor` for the optimised one. */
  datatype Rounding = Ceil | Floor

  /** The metrics of the original prompt: computed here, or passed through
      from `get_openai_metrics` in the flagged branch. */
  datatype OriginalMetrics = Computed(evaluation: Evaluation) | PassedThrough(value: Value)

  /** The endpoint's reply: 200 with both metrics, or 500 "An internal error
      occured" when anything raised. */
  datatype MetricsReply = Success(metrics: OriginalMetrics, optMetrics: Evaluation) | InternalError

  // ---------------------------------------------------------------------
  // Sensitive information

  /** `ele.get("confidence_score", 0)`. */
  function Score(e: Entity): int {
    match e.confidence
    case None => 0
    case Some(c) => c
  }

  /** `maxi` after `for ele in entities: maxi = max(maxi, ...)` from 0: the
      largest score, or 0 when there is none larger. */
  function MaxConfidence(es: seq<Entity>): (r: int)
    ensures r >= 0
    ensures forall i :: 0 <= i < |es| ==> Score(es[i]) <= r
    ensures r == 0 || exists i :: 0 <= i < |es| && Score(es[i]) == r
    decreases |es|
  {
    if es == [] then 0
    else
      var m := MaxConfidence(es[..|es| - 1]);
      var s := Score(es[|es| - 1]);
      assert forall i :: 0 <= i < |es| - 1 ==> es[..|es| - 1][i] == es[i];
      if s > m then s else m
  }

  /** The `maxi` loop over one document's entities. */
  method FindMaxConfidence(es: seq<Entity>) returns (maxi: int)
    ensures maxi == MaxConfidence(es)
  {
    maxi := 0;
    var i := 0;
    while i < |es|
      invariant 0 <= i <= |es|
      invariant maxi == MaxConfidence(es[..i])
    {
      assert es[..i + 1][..i] == es[..i];
      var s := Score(es[i]);
      if s > maxi {
        maxi := s;
      }
      i := i + 1;
    }
    assert es[..|es|] == es;
  }

  /** `int(math.ceil(c / 100 * 5))`: the least integer at or above c/20. */
  function CeilFifths(c: int): (r: int)
    ensures 20 * r - 20 < c <= 20 * r
  {
    (c + 19) / 20
  }

  /** `int(math.floor(c / 100 * 5))`: the greatest integer at or below c/20. */
  function FloorFifths(c: int): (r: int)
    ensures 20 * r <= c < 20 * r + 20
  {
    c / 20
  }

  function Round(c: int, rounding: Rounding): int {
    match rounding
    case Ceil => CeilFifths(c)
    case Floor => FloorFifths(c)
  }

  /** The `sensitive_info` score: 0 when the slot is absent, not a list or
      an empty list; otherwise the rounded maximum over the first document's
      entities. None where the first document has no `.entities` (the
      endpoint then fails). */
  function SensitiveScore(s: SensitiveResult, rounding: Rounding): Option<int> {
    match s
    case SensitiveAbsent => Some(0)
    case NotAList => Some(0)
    case DocumentList(docs) =>
      if docs == [] then Some(0)
      else
        match docs[0]
        case DocumentError => None
        case Recognized(es) => Some(Round(MaxConfidence(es), rounding))
  }

  /** The `if ... isinstance(..., list) ...` block of one side. */
  method ComputeSensitiveScore(s: SensitiveResult, rounding: Rounding) returns (r: Option<int>)
    ensures r == SensitiveScore(s, rounding)
  {
    var maxi := 0;
    if s.DocumentList? && s.docs != [] {
      if s.docs[0].DocumentError? {
        return None;
      }
      maxi := FindMaxConfidence(s.docs[0].entities);
      maxi := if rounding == Ceil then CeilFifths(maxi) else FloorFifths(maxi);
    } else {
      maxi := 0;
    }
    r := Some(maxi);
  }

  // ---------------------------------------------------------------------
  // Severities

  /** Python's `int(x)` of a float: truncation toward zero. */
  function TruncDiv(a: int, b: int): (r: int)
    requires b > 0
    ensures a >= 0 ==> b * r <= a < b * r + b
    ensures a < 0 ==> b * r - b < a <= b * r
  {
    if a >= 0 then a / b else -((-a) / b)
  }

  /** `int(score * 5 / 7)`. */
  function Severity(score: int): int {
    TruncDiv(score * 5, 7)
  }

  function ScaledSeverity(score: Option<int>): Option<int> {
    match score
    case None => None
    case Some(s) => Some(Severity(s))
  }

  // ---------------------------------------------------------------------
  // Jailbreak

  /** `value == True` in Python: the bool True and the int 1. */
  predicate IsTrue(v: Value) {
    v == VBool(true) || v == VInt(1)
  }

  /** The flag the loop leaves: "not computed" for an empty dict, True if
      some value equals True, False otherwise. */
  function JailbreakFlagOf(d: seq<(string, Value)>): JailbreakFlag {
    if d == [] then NotComputed else Flag(exists i :: 0 <= i < |d| && IsTrue(d[i].1))
  }

  /** The `flag` loop with its `break`. */
  method ScanJailbreak(d: seq<(string, Value)>) returns (flag: JailbreakFlag)
    ensures flag == JailbreakFlagOf(d)
  {
    flag := NotComputed;
    var i := 0;
    while i < |d|
      invariant 0 <= i <= |d|
      invariant flag == if i == 0 then NotComputed else Flag(false)
      invariant forall j :: 0 <= j < i ==> !IsTrue(d[j].1)
    {
      if IsTrue(d[i].1) {
        flag := Flag(true);
        break;
      } else {
        flag := Flag(false);
      }
      i := i + 1;
    }
  }

  // ---------------------------------------------------------------------
  // One side, and the endpoint

  /** One side's `evaluation` dict, or None where a step raises: `int()` of
      a non-numeric grammar or spelling reply, a first document without
      entities, a None severity result, a None jailbreak result. */
  function Normalized(raw: RawMetrics, rounding: Rounding): Option<Evaluation> {
    var grammar := ParseInt(raw.grammar);
    var spell := ParseInt(raw.spellCheck);
    var sensitive := SensitiveScore(raw.sensitiveInfo, rounding);
    var violence := ScaledSeverity(raw.violence);
    var sexual := ScaledSeverity(raw.sexual);
    var selfHarm := ScaledSeverity(raw.selfHarm);
    var hate := ScaledSeverity(raw.hateUnfairness);
    if grammar.None? || spell.None? || sensitive.None? || violence.None? || sexual.None?
       || selfHarm.None? || hate.None? || raw.jailbreak.None?
    then None
    else
      Some(Evaluation(grammar.value, spell.value, sensitive.value, violence.value, sexual.value,
                      selfHarm.value, hate.value, JailbreakFlagOf(raw.jailbreak.value)))
  }

  /** The reply of `get_metrics`. `openai` is what `get_openai_metrics`
      returns (None where it raises), `raw` and `optRaw` what `evaluate_all`
      returns for the original and the optimised pair (None where it
      raises). In the flagged branch only the optimised pair is evaluated. */
  function MetricsOf(flagged: bool, openai: Option<Value>, raw: Option<RawMetrics>,
                     optRaw: Option<RawMetrics>): MetricsReply
  {
    if flagged then
      if openai.None? || optRaw.None? then InternalError
      else
        match Normalized(optRaw.value, Floor)
        case None => InternalError
        case Some(o) => Success(PassedThrough(openai.value), o)
    else
      if raw.None? || optRaw.None? then InternalError
      else
        match (Normalized(raw.value, Ceil), Normalized(optRaw.value, Floor))
        case (Some(e), Some(o)) => Success(Computed(e), o)
        case _ => InternalError
  }

  /** One side of the endpoint, step by step. */
  method NormalizeSide(raw: RawMetrics, rounding: Rounding) returns (r: Option<Evaluation>)
    ensures r == Normalized(raw, rounding)
  {
    var grammar := ParseInt(raw.grammar);
    if grammar.None? { return None; }
    var spell := ParseInt(raw.spellCheck);
    if spell.None? { return None; }
    var sensitive := ComputeSensitiveScore(raw.sensitiveInfo, rounding);
    if sensitive.None? { return None; }
    if raw.violence.None? || raw.sexual.None? || raw.selfHarm.None? || raw.hateUnfairness.None? {
      return None;
    }
    var violence := Severity(raw.violence.value);
    var sexual := Severity(raw.sexual.value);
    var selfHarm := Severity(raw.selfHarm.value);
    var hate := Severity(raw.hateUnfairness.value);
    if raw.jailbreak.None? { return None; }
    var flag := ScanJailbreak(raw.jailbreak.value);
    NormalizedWhenAllParse(raw, rounding);
    r := Some(Evaluation(grammar.value, spell.value, sensitive.value, violence, sexual, selfHarm, hate, flag));
  }

  /** `get_metrics`. */
  method GetMetrics(flagged: bool, openai: Option<Value>, raw: Option<RawMetrics>,
                    optRaw: Option<RawMetrics>) returns (reply: MetricsReply)
    ensures reply == MetricsOf(flagged, openai, raw, optRaw)
  {
    if flagged {
      if openai.None? || optRaw.None? { return InternalError; }
      var o := NormalizeSide(optRaw.value, Floor);
      if o.None? { return InternalError; }
      return Success(PassedThrough(openai.value), o.value);
    }
    if raw.None? || optRaw.None? { return InternalError; }
    var e := NormalizeSide(raw.value, Ceil);
    var o := NormalizeSide(optRaw.value, Floor);
    if e.None? || o.None? { return InternalError; }
    reply := Success(Computed(e.value), o.value);
  }

  // ---------------------------------------------------------------------
  // Properties

  /** Confidences in 0.0..1.0 give a sensitive score in 0..5, whichever the
      rounding. */
  lemma SensitiveScoreBounds(s: SensitiveResult, rounding: Rounding)
    requires s.DocumentList? && s.docs != [] && s.docs[0].Recognized? ==>
               forall e :: e in s.docs[0].entities ==> 0 <= Score(e) <= 100
    requires SensitiveScore(s, rounding).Some?
    ensures 0 <= SensitiveScore(s, rounding).value <= 5
  {
    if s.DocumentList? && s.docs != [] && s.docs[0].Recognized? {
      var es := s.docs[0].entities;
      var m := MaxConfidence(es);
      if m != 0 {
        var i :| 0 <= i < |es| && Score(es[i]) == m;
        assert es[i] in es;
      }
    }
  }

  /** For the same evaluator result the optimised side (floor) is never above
      the original side (ceil), and at most one below it. */
  lemma FloorCeilClose(s: SensitiveResult)
    ensures SensitiveScore(s, Floor).Some? <==> SensitiveScore(s, Ceil).Some?
    ensures SensitiveScore(s, Floor).Some? ==>
              SensitiveScore(s, Floor).value <= SensitiveScore(s, Ceil).value <= SensitiveScore(s, Floor).value + 1
  {
  }

  /** The three ways to a zero sensitive score without looking at any
      entity: no slot, a slot that is not a list (the evaluator's error
      value), an empty list. */
  lemma SensitiveZeroCases(rounding: Rounding)
    ensures SensitiveScore(SensitiveAbsent, rounding) == Some(0)
    ensures SensitiveScore(NotAList, rounding) == Some(0)
    ensures SensitiveScore(DocumentList([]), rounding) == Some(0)
  {
  }

  /** The maximum looks only at the first document: later documents are
      ignored. */
  lemma SensitiveUsesFirstDocument(first: Document, rest: seq<Document>, rest': seq<Document>, rounding: Rounding)
    ensures SensitiveScore(DocumentList([first] + rest), rounding) == SensitiveScore(DocumentList([first] + rest'), rounding)
  {
    assert ([first] + rest)[0] == first && ([first] + rest')[0] == first;
  }

  /** On the evaluators' 0..7 severity scale the scaled score is
      `(5 * s) div 7` and lies in 0..5; only 7 reaches 5, and the lowest
      non-zero severity 1 already collapses to 0. */
  lemma SeverityOnScale(s: int)
    requires 0 <= s <= 7
    ensures Severity(s) == (5 * s) / 7
    ensures 0 <= Severity(s) <= 5
    ensures Severity(s) == 0 <==> s <= 1
    ensures s == 7 <==> Severity(s) == 5
  {
  }

  /** Truncation toward zero is monotone, so a higher severity never scales
      to a lower score. */
  lemma SeverityMonotone(s: int, t: int)
    requires s <= t
    ensures Severity(s) <= Severity(t)
  {
    if s < 0 && t >= 0 {
      assert Severity(s) <= 0 <= Severity(t);
    } else if s < 0 {
      assert (-5 * t) / 7 <= (-5 * s) / 7;
    }
  }

  /** Truncation is not Euclidean division: a negative score scales toward
      zero, so -1 becomes 0 where floor or Euclidean division of -5 by 7
      would give -1. */
  lemma SeverityTruncatesTowardZero()
    ensures Severity(-1) == 0
    ensures Severity(-2) == -1
  {
  }

  /** An empty jailbreak result stays "not computed"; a True anywhere makes
      the flag True whatever follows; a result with no True value is False. */
  lemma JailbreakFlagCases(d: seq<(string, Value)>, k: string, rest: seq<(string, Value)>)
    ensures JailbreakFlagOf([]) == NotComputed
    ensures JailbreakFlagOf(d + [(k, VBool(true))] + rest) == Flag(true)
    ensures d != [] && (forall i :: 0 <= i < |d| ==> !IsTrue(d[i].1)) ==> JailbreakFlagOf(d) == Flag(false)
  {
    var e := d + [(k, VBool(true))] + rest;
    assert IsTrue(e[|d|].1);
  }

  /** `1 == True` in Python, so an integer 1 also sets the flag; `"True"`
      the string does not. */
  lemma JailbreakFlagPythonEquality()
    ensures JailbreakFlagOf([("a", VInt(1))]) == Flag(true)
    ensures JailbreakFlagOf([("a", VStr("True"))]) == Flag(false)
  {
    assert IsTrue([("a", VInt(1))][0].1);
  }

  /** A grammar reply that is not a number, such as "Error in evaluation",
      makes the side fail and the endpoint answer 500. */
  lemma NonNumericGrammarFails(raw: RawMetrics, optRaw: RawMetrics)
    requires raw.grammar == "Error in evaluation"
    ensures Normalized(raw, Ceil).None?
    ensures MetricsOf(false, None, Some(raw), Some(optRaw)) == InternalError
  {
    var t := raw.grammar;
    assert t[0] == 'E';
    LetterFirstDoesNotParse(t);
  }

  /** Text that starts with a letter is not a number, whatever follows. */
  lemma LetterFirstDoesNotParse(t: string)
    requires t != [] && ('A' <= t[0] <= 'Z' || 'a' <= t[0] <= 'z')
    ensures ParseInt(t).None?
  {
    assert TrimStart(t) == t;
    TrimEndKeepsFirst(t);
    assert !IsDigit(Strip(t)[0]);
  }

  /** In the flagged branch the original pair is never evaluated: whatever
      `evaluate_all` would have said about it, the reply is the same, and it
      carries `get_openai_metrics`'s value unchanged. */
  lemma FlaggedPassesThrough(openai: Option<Value>, raw: Option<RawMetrics>, raw': Option<RawMetrics>,
                             optRaw: Option<RawMetrics>)
    ensures MetricsOf(true, openai, raw, optRaw) == MetricsOf(true, openai, raw', optRaw)
    ensures MetricsOf(true, openai, raw, optRaw).Success? ==>
              openai.Some? && MetricsOf(true, openai, raw, optRaw).metrics == PassedThrough(openai.value)
  {
  }

  /** All or nothing: a 200 reply carries both sides fully normalised, and
      any side that fails makes the whole reply 500. */
  lemma SuccessIffBothSides(raw: RawMetrics, optRaw: RawMetrics)
    ensures MetricsOf(false, None, Some(raw), Some(optRaw)).Success? <==>
              Normalized(raw, Ceil).Some? && Normalized(optRaw, Floor).Some?
    ensures MetricsOf(false, None, Some(raw), Some(optRaw)).Success? ==>
              MetricsOf(false, None, Some(raw), Some(optRaw)) ==
                Success(Computed(Normalized(raw, Ceil).value), Normalized(optRaw, Floor).value)
  {
    UnflaggedReply(Normalized(raw, Ceil), Normalized(optRaw, Floor), raw, optRaw);
  }

  /** The unflagged reply in terms of the two sides' results. */
  lemma UnflaggedReply(e: Option<Evaluation>, o: Option<Evaluation>, raw: RawMetrics, optRaw: RawMetrics)
    requires e == Normalized(raw, Ceil) && o == Normalized(optRaw, Floor)
    ensures MetricsOf(false, None, Some(raw), Some(optRaw)) ==
              if e.Some? && o.Some? then Success(Computed(e.value), o.value) else InternalError
  {
  }

  // ---------------------------------------------------------------------
  // From an evaluation to the statistics record

  /** Evaluator output inside the documented ranges: replies that parse to
      0..5, confidences in 0.0..1.0 on a readable first document, severities
      in 0..7, and a non-empty jailbreak result. */
  predicate WellRanged(raw: RawMetrics) {
    && ParseInt(raw.grammar).Some? && 0 <= ParseInt(raw.grammar).value <= 5
    && ParseInt(raw.spellCheck).Some? && 0 <= ParseInt(raw.spellCheck).value <= 5
    && (raw.sensitiveInfo.DocumentList? && raw.sensitiveInfo.docs != [] ==>
          raw.sensitiveInfo.docs[0].Recognized? &&
          forall e :: e in raw.sensitiveInfo.docs[0].entities ==> 0 <= Score(e) <= 100)
    && raw.violence.Some? && 0 <= raw.violence.value <= 7
    && raw.sexual.Some? && 0 <= raw.sexual.value <= 7
    && raw.selfHarm.Some? && 0 <= raw.selfHarm.value <= 7
    && raw.hateUnfairness.Some? && 0 <= raw.hateUnfairness.value <= 7
    && raw.jailbreak.Some? && raw.jailbreak.value != []
  }

  /** The `MetricsModel` an evaluation becomes when it is sent on to the
      statistics and chat endpoints; only a computed (bool) flag fits. */
  function ToRecord(e: Evaluation): MetricsModel
    requires e.jailbreak.Flag?
  {
    MetricsModel(e.grammar, e.spellCheck, e.sensitiveInfo, e.violence, e.biasGender,
                 e.selfHarm, e.hateUnfairness, e.jailbreak.b)
  }

  /** Well-ranged evaluator output normalises, on either side, to a record
      whose every score is on the 0..5 scale and whose flag is a bool. */
  lemma WellRangedNormalizes(raw: RawMetrics, rounding: Rounding)
    requires WellRanged(raw)
    ensures Normalized(raw, rounding).Some?
    ensures Normalized(raw, rounding).value.jailbreak.Flag?
    ensures var m := Normalized(raw, rounding).value;
            && 0 <= m.grammar <= 5 && 0 <= m.spellCheck <= 5 && 0 <= m.sensitiveInfo <= 5
            && 0 <= m.violence <= 5 && 0 <= m.biasGender <= 5 && 0 <= m.selfHarm <= 5
            && 0 <= m.hateUnfairness <= 5
  {
    SensitiveScoreBounds(raw.sensitiveInfo, rounding);
    SeverityOnScale(raw.violence.value);
    SeverityOnScale(raw.sexual.value);
    SeverityOnScale(raw.selfHarm.value);
    SeverityOnScale(raw.hateUnfairness.value);
    NormalizedWhenAllParse(raw, rounding);
  }

  /** When every part converts, the evaluation holds the converted parts. */
  lemma NormalizedWhenAllParse(raw: RawMetrics, rounding: Rounding)
    requires ParseInt(raw.grammar).Some? && ParseInt(raw.spellCheck).Some?
    requires SensitiveScore(raw.sensitiveInfo, rounding).Some?
    requires raw.violence.Some? && raw.sexual.Some? && raw.selfHarm.Some? && raw.hateUnfairness.Some?
    requires raw.jailbreak.Some?
    ensures Normalized(raw, rounding) ==
              Some(Evaluation(ParseInt(raw.grammar).value, ParseInt(raw.spellCheck).value,
                              SensitiveScore(raw.sensitiveInfo, rounding).value,
                              Severity(raw.violence.value), Severity(raw.sexual.value),
                              Severity(raw.selfHarm.value), Severity(raw.hateUnfairness.value),
                              JailbreakFlagOf(raw.jailbreak.value)))
    ensures raw.jailbreak.value != [] ==> JailbreakFlagOf(raw.jailbreak.value).Flag?
  {
  }

}

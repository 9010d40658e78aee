/**
 * The identity triad of the brain service (packages/brain/identity.py): the
 * sentry's guardrail on incoming payloads, the alchemist's mapping from an
 * observed vibe to shader parameters, and the diplomat's fixed fallback.
 */
module Identity {
  import opened Wrappers

  /** The Python values a payload dictionary holds; floats are exact reals here. */
  datatype PyValue =
    | PyNone
    | PyBool(b: bool)
    | PyInt(i: int)
    | PyFloat(r: real)
    | PyStr(s: string)
    | PyList(items: seq<PyValue>)
    | PyDict(entries: map<string, PyValue>)

  /** Python truthiness. */
  predicate Truthy(v: PyValue)
  {
    match v
    case PyNone => false
    case PyBool(b) => b
    case PyInt(i) => i != 0
    case PyFloat(r) => r != 0.0
    case PyStr(s) => s != ""
    case PyList(items) => items != []
    case PyDict(entries) => entries != map[]
  }

  /** A request as the sentry sees it: a dictionary with string keys. */
  type Payload = map<string, PyValue>

  /** The score a value compares as; `None` where `< -0.9` raises a TypeError. */
  function NumericValue(v: PyValue): Option<real>
  {
    match v
    case PyBool(b) => Some(if b then 1.0 else 0.0)
    case PyInt(i) => Some(i as real)
    case PyFloat(r) => Some(r)
    case _ => None
  }

  /** The sentry's answer: whether the payload may pass, and why. */
  datatype Verdict = Verdict(valid: bool, reason: string)

  const MISSING_VECTOR: Verdict := Verdict(false, "MISSING_VECTOR")
  const PARAJIKA: Verdict := Verdict(false, "PARAJIKA")
  const CLEAN: Verdict := Verdict(true, "CLEAN")

  /** The score below which a payload is blocked, exclusive. */
  const PARAJIKA_THRESHOLD: real := -0.9

  /**
   * `PRGX1_Sentry.inspect`: blocks a payload without a truthy intent vector,
   * then one whose score (0 when absent) lies strictly below -0.9. `None`
   * stands for the TypeError a non-numeric score raises.
   */
  function Inspect(payload: Payload): (r: Option<Verdict>)
    ensures r.None? <==> ("intent_vector" in payload && Truthy(payload["intent_vector"])
                          && "vibe_score" in payload && NumericValue(payload["vibe_score"]).None?)
  {
    if "intent_vector" !in payload || !Truthy(payload["intent_vector"]) then Some(MISSING_VECTOR)
    else
      var score := if "vibe_score" in payload then NumericValue(payload["vibe_score"]) else Some(0.0);
      match score
      case None => None
      case Some(s) => if s < PARAJIKA_THRESHOLD then Some(PARAJIKA) else Some(CLEAN)
  }

  /** The score `inspect` compares: the payload's, or 0 when it has none. */
  function ScoreOf(payload: Payload): Option<real>
  {
    if "vibe_score" in payload then NumericValue(payload["vibe_score"]) else Some(0.0)
  }

  /**
   * The three outcomes of the sentry: a missing vector is blocked whatever
   * the score; otherwise the payload is blocked as PARAJIKA exactly when its
   * score is below -0.9, and passes as CLEAN exactly when it is not.
   */
  lemma InspectOutcomes(payload: Payload)
    ensures !("intent_vector" in payload && Truthy(payload["intent_vector"])) ==> Inspect(payload) == Some(MISSING_VECTOR)
    ensures "intent_vector" in payload && Truthy(payload["intent_vector"]) && ScoreOf(payload).Some? ==>
      (Inspect(payload) == Some(PARAJIKA) <==> ScoreOf(payload).value < -0.9)
      && (Inspect(payload) == Some(CLEAN) <==> ScoreOf(payload).value >= -0.9)
    ensures Inspect(payload) == Some(CLEAN) ==>
              "intent_vector" in payload && ScoreOf(payload).Some? && ScoreOf(payload).value >= -0.9
  {
  }

  /** The three cases the contract tests exercise. */
  lemma InspectContractCases()
    ensures Inspect(map["intent_vector" := PyStr(""), "vibe_score" := PyFloat(0.0)]) == Some(MISSING_VECTOR)
    ensures Inspect(map["intent_vector" := PyStr("RUN"), "vibe_score" := PyFloat(-0.95)]) == Some(PARAJIKA)
    ensures Inspect(map["intent_vector" := PyStr("RUN"), "vibe_score" := PyFloat(0.2)]) == Some(CLEAN)
  {
  }

  /** The observed vibe SATI hands over. */
  datatype Vibe = Vibe(score: real, tone: string, intensity: real)

  datatype ShaderParams = ShaderParams(colorBase: string, vibeIntensity: real, ripplePattern: string)

  /** The physics parameters the shader receives. */
  datatype PhysicsParams = PhysicsParams(
    intentVector: PyValue,
    vibeScore: real,
    emotionalTone: string,
    neuralShaderParams: ShaderParams,
    triggeredRitual: string,
    timestamp: string)

  /** The colour and ripple a tone selects; tones outside the three named ones fall back to calm blue. */
  function ToneStyle(tone: string): (style: (string, string))
    ensures tone == "FOCUSED" ==> style == ("#ffffff", "sharp_beams")
    ensures tone == "WARNING" ==> style == ("#ff0000", "chaotic_noise")
    ensures tone == "WAKING" ==> style == ("#00ffff", "expanding_rings")
    ensures tone != "FOCUSED" && tone != "WARNING" && tone != "WAKING" ==> style == ("#2323ee", "calm_waves")
  {
    if tone == "FOCUSED" then ("#ffffff", "sharp_beams")
    else if tone == "WARNING" then ("#ff0000", "chaotic_noise")
    else if tone == "WAKING" then ("#00ffff", "expanding_rings")
    else ("#2323ee", "calm_waves")
  }

  /** `PRGX2_Alchemist.transmute`. */
  function Transmute(satiVibe: Vibe, intentVector: PyValue): (p: PhysicsParams)
    ensures p.intentVector == intentVector && p.vibeScore == satiVibe.score && p.emotionalTone == satiVibe.tone
    ensures p.neuralShaderParams.vibeIntensity == satiVibe.intensity
    ensures (p.neuralShaderParams.colorBase, p.neuralShaderParams.ripplePattern) == ToneStyle(satiVibe.tone)
    ensures p.triggeredRitual == "normal" && p.timestamp == "NOW"
  {
    var (colorBase, ripple) := ToneStyle(satiVibe.tone);
    PhysicsParams(intentVector, satiVibe.score, satiVibe.tone,
                  ShaderParams(colorBase, satiVibe.intensity, ripple), "normal", "NOW")
  }

  /** The class of tones the alchemist tells apart. */
  function ToneClass(tone: string): string
  {
    if tone == "FOCUSED" || tone == "WARNING" || tone == "WAKING" then tone else "OTHER"
  }

  /**
   * The colour alone tells the tone class: two vibes get the same colour
   * exactly when their tones fall in the same class, and then the ripple
   * agrees too.
   */
  lemma ColorIdentifiesToneClass(a: Vibe, b: Vibe, v: PyValue)
    ensures Transmute(a, v).neuralShaderParams.colorBase == Transmute(b, v).neuralShaderParams.colorBase
            <==> ToneClass(a.tone) == ToneClass(b.tone)
    ensures ToneClass(a.tone) == ToneClass(b.tone) ==>
            Transmute(a, v).neuralShaderParams.ripplePattern == Transmute(b, v).neuralShaderParams.ripplePattern
  {
  }

  /** The diplomat's reply. */
  datatype Diplomacy = Diplomacy(action: string, message: string, fallbackShader: string)

  /** `PRGX3_Diplomat.negotiate`: the same realignment request whatever went wrong. */
  function Negotiate(errorReason: string): (d: Diplomacy)
    ensures d.action == "DIPLOMACY" && d.fallbackShader == "static_noise"
  {
    Diplomacy("DIPLOMACY", "I cannot perceive your intent clearly. Please realign.", "static_noise")
  }

  /** The reply does not depend on the reason. */
  lemma NegotiateIgnoresReason(a: string, b: string)
    ensures Negotiate(a) == Negotiate(b)
  {
  }
}

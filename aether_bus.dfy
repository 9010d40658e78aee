/**
 * The in-process event bus of the console (services/aetherBus.ts): payload
 * validation per event type, the projection of a raw payload onto an intent
 * vector, the 32-bit canonical hash, and the subscriber registry that
 * delivers one envelope per subscriber.
 */
module Aether {
  import opened Wrappers

  // ---------------------------------------------------------------------------
  // JavaScript values
  // ---------------------------------------------------------------------------

  /** A property of an object, in insertion order. */
  datatype Member = Member(key: string, value: JsValue)

  /** The JavaScript values a payload is built from; numbers are integers here. */
  datatype JsValue =
    | JUndefined
    | JNull
    | JBool(b: bool)
    | JNumber(n: int)
    | JString(s: string)
    | JArray(items: seq<JsValue>)
    | JObject(members: seq<Member>)

  /** JavaScript truthiness; every array and object is truthy. */
  predicate Truthy(v: JsValue)
  {
    match v
    case JUndefined => false
    case JNull => false
    case JBool(b) => b
    case JNumber(n) => n != 0
    case JString(s) => s != ""
    case _ => true
  }

  /** `v[key]`: the value of the first member with that key, `undefined` when there is none. */
  function Field(v: JsValue, key: string): (r: JsValue)
    ensures r != JUndefined ==> v.JObject? && exists i :: 0 <= i < |v.members| && v.members[i] == Member(key, r)
  {
    if v.JObject? then FieldOf(v.members, key) else JUndefined
  }

  function FieldOf(ms: seq<Member>, key: string): (r: JsValue)
    ensures r != JUndefined ==> exists i :: 0 <= i < |ms| && ms[i] == Member(key, r)
    ensures (forall i :: 0 <= i < |ms| ==> ms[i].key != key) ==> r == JUndefined
    decreases |ms|
  {
    if ms == [] then JUndefined
    else if ms[0].key == key then ms[0].value
    else
      var r := FieldOf(ms[1..], key);
      assert r != JUndefined ==> ms[1..][IndexOfMember(ms[1..], key, r)] == Member(key, r);
      r
  }

  /** Some index of a member with that key and value, for the proof of `FieldOf`. */
  function IndexOfMember(ms: seq<Member>, key: string, r: JsValue): (i: int)
    requires exists i :: 0 <= i < |ms| && ms[i] == Member(key, r)
    ensures 0 <= i < |ms| && ms[i] == Member(key, r)
  {
    if ms[0] == Member(key, r) then 0
    else
      assert exists i :: 0 <= i < |ms[1..]| && ms[1..][i] == Member(key, r) by {
        var i :| 0 <= i < |ms| && ms[i] == Member(key, r);
        assert ms[1..][i - 1] == ms[i];
      }
      1 + IndexOfMember(ms[1..], key, r)
  }

  predicate IsString(v: JsValue) { v.JString? }

  /** `Array.isArray(v) && v.every(f => typeof f === 'string')`. */
  predicate IsStringArray(v: JsValue)
  {
    v.JArray? && forall i :: 0 <= i < |v.items| ==> IsString(v.items[i])
  }

  /** `f && typeof f.path === 'string' && typeof f.content === 'string'`. */
  predicate IsFileRecord(f: JsValue)
  {
    Truthy(f) && IsString(Field(f, "path")) && IsString(Field(f, "content"))
  }

  // ---------------------------------------------------------------------------
  // Event types
  // ---------------------------------------------------------------------------

  /** Event types are plain strings; a type outside the seven below has no rule. */
  type EventType = string

  const EXECUTE_REFACTORING_PROTOCOL: EventType := "EXECUTE_REFACTORING_PROTOCOL"
  const SIMULATE_IMPACT: EventType := "SIMULATE_IMPACT"
  const REFACTORING_COMPLETE: EventType := "REFACTORING_COMPLETE"
  const FIRMA_NODE_SELECTED: EventType := "FIRMA_NODE_SELECTED"
  const WISDOM_FETCH_START: EventType := "WISDOM_FETCH_START"
  const WISDOM_FETCH_END: EventType := "WISDOM_FETCH_END"
  const TIER_SUSPENSION_TRIGGERED: EventType := "TIER_SUSPENSION_TRIGGERED"

  predicate IsTaskEvent(t: EventType)
  {
    t == EXECUTE_REFACTORING_PROTOCOL || t == SIMULATE_IMPACT
  }

  predicate IsSignalEvent(t: EventType)
  {
    t == WISDOM_FETCH_START || t == WISDOM_FETCH_END || t == TIER_SUSPENSION_TRIGGERED
  }

  predicate IsKnownEvent(t: EventType)
  {
    IsTaskEvent(t) || t == REFACTORING_COMPLETE || t == FIRMA_NODE_SELECTED || IsSignalEvent(t)
  }

  // ---------------------------------------------------------------------------
  // Validation
  // ---------------------------------------------------------------------------

  /** The validation gate of `publish`, one rule per event type. */
  predicate ValidatePayload(eventType: EventType, payload: JsValue)
  {
    if IsTaskEvent(eventType) then
      Truthy(payload) && IsString(Field(payload, "id")) && IsString(Field(payload, "type"))
      && IsStringArray(Field(payload, "filesInvolved"))
    else if eventType == REFACTORING_COMPLETE then
      Truthy(payload) && IsString(Field(payload, "completedTaskId"))
      && Field(payload, "newFiles").JArray?
      && forall i :: 0 <= i < |Field(payload, "newFiles").items| ==> IsFileRecord(Field(payload, "newFiles").items[i])
    else if eventType == FIRMA_NODE_SELECTED then
      Truthy(payload) && IsString(Field(payload, "path")) && IsString(Field(payload, "content"))
    else
      true
  }

  /** Payload-free signals and event types without a rule always pass the gate. */
  lemma UnruledEventsPass(eventType: EventType, payload: JsValue)
    requires !IsTaskEvent(eventType) && eventType != REFACTORING_COMPLETE && eventType != FIRMA_NODE_SELECTED
    ensures ValidatePayload(eventType, payload)
  {
  }

  // ---------------------------------------------------------------------------
  // Intent vectors
  // ---------------------------------------------------------------------------

  /** An intent vector is a plain object whose first two members are `intent` and `targetId`. */
  type IntentVector = JsValue

  function Vector(intent: string, targetId: JsValue, rest: seq<Member>): IntentVector
  {
    JObject([Member("intent", JString(intent)), Member("targetId", targetId)] + rest)
  }

  /** The members of a vector: `intent`, `targetId`, then the others in order. */
  lemma VectorFields(intent: string, targetId: JsValue, rest: seq<Member>)
    ensures var v := Vector(intent, targetId, rest);
      && Field(v, "intent") == JString(intent)
      && Field(v, "targetId") == targetId
      && forall k :: k != "intent" && k != "targetId" ==> Field(v, k) == FieldOf(rest, k)
  {
    var v := Vector(intent, targetId, rest);
    assert v.members[1..][1..] == rest;
    assert "intent" != "targetId" by { assert |"intent"| != |"targetId"|; }
    assert Field(v, "targetId") == FieldOf(v.members[1..], "targetId");
    forall k | k != "intent" && k != "targetId" ensures Field(v, k) == FieldOf(rest, k) {
      assert v.members[0].key != k;
      assert Field(v, k) == FieldOf(v.members[1..], k);
      assert v.members[1..][0].key != k;
    }
  }

  /** `file.content.length` for the values a validated payload can hold. */
  function LengthOf(v: JsValue): JsValue
  {
    match v
    case JString(s) => JNumber(|s|)
    case JArray(items) => JNumber(|items|)
    case _ => JUndefined
  }

  /** The context-free projection of a raw payload that subscribers receive. */
  function CreateIntentVector(eventType: EventType, raw: JsValue): (v: IntentVector)
    ensures v.JObject? && |v.members| >= 2
    ensures v.members[0].key == "intent" && v.members[1].key == "targetId"
  {
    if eventType == EXECUTE_REFACTORING_PROTOCOL then
      Vector("EXECUTE_PROTOCOL", Field(raw, "id"),
             [Member("protocolType", Field(raw, "type")), Member("filesInvolved", Field(raw, "filesInvolved"))])
    else if eventType == SIMULATE_IMPACT then
      Vector("SIMULATE_IMPACT", Field(raw, "id"), [Member("filesInvolved", Field(raw, "filesInvolved"))])
    else if eventType == REFACTORING_COMPLETE then
      Vector("UPDATE_FIRMA", Field(raw, "completedTaskId"), [Member("newFirmaState", Field(raw, "newFiles"))])
    else if eventType == FIRMA_NODE_SELECTED then
      Vector("VIEW_NODE", Field(raw, "path"), [Member("nodeSize", LengthOf(Field(raw, "content")))])
    else if eventType == WISDOM_FETCH_START then
      Vector("STATE_CHANGE_THINKING", JString("WisdomEngine"), [])
    else if eventType == WISDOM_FETCH_END then
      Vector("STATE_CHANGE_IDLE", JString("WisdomEngine"), [])
    else if eventType == TIER_SUSPENSION_TRIGGERED then
      Vector("STATE_CHANGE_NIRODHA", JString("EconomicFabric"), [])
    else
      Vector("UNKNOWN", JString("NULL"), [])
  }

  /** The keys of an object, in order. */
  function Keys(v: JsValue): seq<string>
    requires v.JObject?
  {
    seq(|v.members|, i requires 0 <= i < |v.members| => v.members[i].key)
  }

  /**
   * A selected node is reduced to its path and its size: the vector holds no
   * `content` member, and two payloads with the same path and equally long
   * contents give the same vector whatever else they hold.
   */
  lemma NodeVectorDropsContent(p: JsValue, q: JsValue)
    requires IsString(Field(p, "content")) && IsString(Field(q, "content"))
    requires Field(p, "path") == Field(q, "path")
    requires |Field(p, "content").s| == |Field(q, "content").s|
    ensures var v := CreateIntentVector(FIRMA_NODE_SELECTED, p);
      && Keys(v) == ["intent", "targetId", "nodeSize"]
      && Field(v, "targetId") == Field(p, "path")
      && Field(v, "nodeSize") == JNumber(|Field(p, "content").s|)
      && v == CreateIntentVector(FIRMA_NODE_SELECTED, q)
  {
    NodeSelectionRule(p);
    NodeSelectionRule(q);
    var rest := [Member("nodeSize", LengthOf(Field(p, "content")))];
    VectorFields("VIEW_NODE", Field(p, "path"), rest);
    assert "nodeSize" != "intent" && "nodeSize" != "targetId" by {
      assert |"nodeSize"| != |"intent"| && "nodeSize"[0] != "targetId"[0];
    }
  }

  /** A node selection is not a task or a completion: it has its own rule and its own vector. */
  lemma NodeSelectionRule(raw: JsValue)
    ensures ValidatePayload(FIRMA_NODE_SELECTED, raw)
            <==> Truthy(raw) && IsString(Field(raw, "path")) && IsString(Field(raw, "content"))
    ensures CreateIntentVector(FIRMA_NODE_SELECTED, raw)
            == Vector("VIEW_NODE", Field(raw, "path"), [Member("nodeSize", LengthOf(Field(raw, "content")))])
  {
    assert |FIRMA_NODE_SELECTED| != |EXECUTE_REFACTORING_PROTOCOL|;
    assert |FIRMA_NODE_SELECTED| != |SIMULATE_IMPACT|;
    assert |FIRMA_NODE_SELECTED| != |REFACTORING_COMPLETE|;
  }

  /**
   * An execution request keeps the task's identity, type and file list and
   * drops its descriptive members.
   */
  lemma ExecuteVectorKeepsTask(raw: JsValue)
    ensures var v := CreateIntentVector(EXECUTE_REFACTORING_PROTOCOL, raw);
      && Keys(v) == ["intent", "targetId", "protocolType", "filesInvolved"]
      && Field(v, "intent") == JString("EXECUTE_PROTOCOL")
      && Field(v, "targetId") == Field(raw, "id")
      && Field(v, "protocolType") == Field(raw, "type")
      && Field(v, "filesInvolved") == Field(raw, "filesInvolved")
  {
    var rest := [Member("protocolType", Field(raw, "type")), Member("filesInvolved", Field(raw, "filesInvolved"))];
    VectorFields("EXECUTE_PROTOCOL", Field(raw, "id"), rest);
    assert FieldOf(rest, "filesInvolved") == FieldOf(rest[1..], "filesInvolved");
  }

  /** A simulation request keeps the task's identity and file list only. */
  lemma SimulateVectorKeepsTask(raw: JsValue)
    ensures var v := CreateIntentVector(SIMULATE_IMPACT, raw);
      && Keys(v) == ["intent", "targetId", "filesInvolved"]
      && Field(v, "intent") == JString("SIMULATE_IMPACT")
      && Field(v, "targetId") == Field(raw, "id")
      && Field(v, "filesInvolved") == Field(raw, "filesInvolved")
  {
    VectorFields("SIMULATE_IMPACT", Field(raw, "id"), [Member("filesInvolved", Field(raw, "filesInvolved"))]);
  }

  /** A completion carries the completed task's id and the new snapshot. */
  lemma CompletionVectorKeepsSnapshot(raw: JsValue)
    ensures var v := CreateIntentVector(REFACTORING_COMPLETE, raw);
      && Keys(v) == ["intent", "targetId", "newFirmaState"]
      && Field(v, "intent") == JString("UPDATE_FIRMA")
      && Field(v, "targetId") == Field(raw, "completedTaskId")
      && Field(v, "newFirmaState") == Field(raw, "newFiles")
  {
    VectorFields("UPDATE_FIRMA", Field(raw, "completedTaskId"), [Member("newFirmaState", Field(raw, "newFiles"))]);
  }

  /** Signals and unknown event types give a fixed vector: nothing of the payload leaks. */
  lemma PayloadFreeVectors(eventType: EventType, p: JsValue, q: JsValue)
    requires !IsTaskEvent(eventType) && eventType != REFACTORING_COMPLETE && eventType != FIRMA_NODE_SELECTED
    ensures CreateIntentVector(eventType, p) == CreateIntentVector(eventType, q)
    ensures !IsKnownEvent(eventType) ==> CreateIntentVector(eventType, p) == Vector("UNKNOWN", JString("NULL"), [])
  {
  }

  /**
   * What a subscriber may rely on: the members the validation rule checked
   * reach the vector with the checked shape.
   */
  predicate WellFormedVector(eventType: EventType, v: IntentVector)
  {
    && IsString(Field(v, "targetId"))
    && (IsTaskEvent(eventType) ==> IsStringArray(Field(v, "filesInvolved")))
    && (eventType == EXECUTE_REFACTORING_PROTOCOL ==> IsString(Field(v, "protocolType")))
    && (eventType == REFACTORING_COMPLETE ==>
          Field(v, "newFirmaState").JArray?
          && forall i :: 0 <= i < |Field(v, "newFirmaState").items| ==> IsFileRecord(Field(v, "newFirmaState").items[i]))
    && (eventType == FIRMA_NODE_SELECTED ==> Field(v, "nodeSize").JNumber? && Field(v, "nodeSize").n >= 0)
  }

  /** Behind the validation gate every vector is well formed. */
  lemma ValidPayloadWellFormedVector(eventType: EventType, raw: JsValue)
    requires ValidatePayload(eventType, raw)
    ensures WellFormedVector(eventType, CreateIntentVector(eventType, raw))
  {
    if eventType == EXECUTE_REFACTORING_PROTOCOL {
      ExecuteVectorWellFormed(raw);
    } else if eventType == SIMULATE_IMPACT {
      SimulateVectorWellFormed(raw);
    } else if eventType == REFACTORING_COMPLETE {
      CompletionVectorWellFormed(raw);
    } else if eventType == FIRMA_NODE_SELECTED {
      NodeVectorWellFormed(raw);
    } else {
      SignalVectorWellFormed(eventType, raw);
    }
  }

  lemma ExecuteVectorWellFormed(raw: JsValue)
    requires ValidatePayload(EXECUTE_REFACTORING_PROTOCOL, raw)
    ensures WellFormedVector(EXECUTE_REFACTORING_PROTOCOL, CreateIntentVector(EXECUTE_REFACTORING_PROTOCOL, raw))
  {
    ExecuteVectorKeepsTask(raw);
  }

  lemma SimulateVectorWellFormed(raw: JsValue)
    requires ValidatePayload(SIMULATE_IMPACT, raw)
    ensures WellFormedVector(SIMULATE_IMPACT, CreateIntentVector(SIMULATE_IMPACT, raw))
  {
    SimulateVectorKeepsTask(raw);
  }

  lemma CompletionVectorWellFormed(raw: JsValue)
    requires ValidatePayload(REFACTORING_COMPLETE, raw)
    ensures WellFormedVector(REFACTORING_COMPLETE, CreateIntentVector(REFACTORING_COMPLETE, raw))
  {
    CompletionVectorKeepsSnapshot(raw);
  }

  lemma NodeVectorWellFormed(raw: JsValue)
    requires ValidatePayload(FIRMA_NODE_SELECTED, raw)
    ensures WellFormedVector(FIRMA_NODE_SELECTED, CreateIntentVector(FIRMA_NODE_SELECTED, raw))
  {
    NodeSelectionRule(raw);
    NodeVectorDropsContent(raw, raw);
  }

  lemma SignalVectorWellFormed(eventType: EventType, raw: JsValue)
    requires !IsTaskEvent(eventType) && eventType != REFACTORING_COMPLETE && eventType != FIRMA_NODE_SELECTED
    ensures WellFormedVector(eventType, CreateIntentVector(eventType, raw))
  {
    var v := CreateIntentVector(eventType, raw);
    assert v == Vector(v.members[0].value.s, v.members[1].value, []);
    VectorFields(v.members[0].value.s, v.members[1].value, []);
  }

  // ---------------------------------------------------------------------------
  // Canonical hash
  // ---------------------------------------------------------------------------

  /** A UTF-16 code unit, as `charCodeAt` returns it. */
  type CodeUnit = u: int | 0 <= u < 0x1_0000

  const TWO_32: int := 0x1_0000_0000
  const TWO_31: int := 0x8000_0000

  predicate IsInt32(x: int) { -TWO_31 <= x < TWO_31 }

  /** ECMAScript ToInt32: the signed 32-bit integer congruent to `x` modulo 2^32. */
  function ToInt32(x: int): (r: int)
    ensures IsInt32(r)
    ensures (x - r) % TWO_32 == 0
  {
    var m := x % TWO_32;
    if m >= TWO_31 then m - TWO_32 else m
  }

  /** The multiple of 2^32 that ToInt32 subtracts. */
  lemma ToInt32Quotient(x: int) returns (q: int)
    ensures x - ToInt32(x) == q * TWO_32
  {
    q := x / TWO_32;
    if x % TWO_32 >= TWO_31 {
      q := q + 1;
    }
  }

  /** ToInt32 only sees `x` modulo 2^32. */
  lemma ToInt32Shift(x: int, q: int)
    ensures ToInt32(x + q * TWO_32) == ToInt32(x)
  {
    var a, b := ToInt32(x), ToInt32(x + q * TWO_32);
    var ka := ToInt32Quotient(x);
    var kb := ToInt32Quotient(x + q * TWO_32);
    assert a - b == (kb - ka - q) * TWO_32;
  }

  /** `hash << 5` on a 32-bit integer: the product with 32, reduced to 32 bits. */
  function ShiftLeft5(h: int): int
  {
    ToInt32(h * 32)
  }

  /** One step of the loop: `hash = ((hash << 5) - hash) + char; hash |= 0`. */
  function HashStep(h: int, c: CodeUnit): int
  {
    ToInt32((ShiftLeft5(h) - h) + c)
  }

  /** The accumulator after the first `|units|` steps. */
  function HashFold(units: seq<CodeUnit>): (h: int)
    ensures IsInt32(h)
  {
    if units == [] then 0 else HashStep(HashFold(units[..|units| - 1]), units[|units| - 1])
  }

  /** The polynomial sum of the code units with base 31, without any reduction. */
  function Poly(units: seq<CodeUnit>): int
  {
    if units == [] then 0 else 31 * Poly(units[..|units| - 1]) + units[|units| - 1]
  }

  /** A step multiplies the accumulator by 31, adds the code unit and reduces to 32 bits. */
  lemma HashStepIsMul31(h: int, c: CodeUnit)
    ensures HashStep(h, c) == ToInt32(31 * h + c)
  {
    var q := ToInt32Quotient(h * 32);
    assert (ShiftLeft5(h) - h) + c == (31 * h + c) + (-q) * TWO_32;
    ToInt32Shift(31 * h + c, -q);
  }

  /**
   * The hash is the base-31 polynomial of the code units reduced to a signed
   * 32-bit integer, whatever the length of the input.
   */
  lemma {:induction false} HashFoldIsPoly(units: seq<CodeUnit>)
    ensures HashFold(units) == ToInt32(Poly(units))
  {
    if units != [] {
      var init, c := units[..|units| - 1], units[|units| - 1];
      HashFoldIsPoly(init);
      var p := Poly(init);
      var h := HashFold(init);
      HashStepIsMul31(h, c);
      var q := ToInt32Quotient(p);
      assert 31 * p + c == (31 * h + c) + (31 * q) * TWO_32;
      ToInt32Shift(31 * h + c, 31 * q);
    }
  }

  /** A character `toString(16)` prints: a decimal digit or a lower-case letter up to `f`. */
  predicate IsHexDigit(c: char)
  {
    '0' <= c <= '9' || 'a' <= c <= 'f'
  }

  /** The value of a hexadecimal digit. */
  function DigitValue(c: char): int
  {
    if '0' <= c <= '9' then c as int - '0' as int
    else if 'a' <= c <= 'f' then c as int - 'a' as int + 10
    else 0
  }

  /** The digit `toString(16)` prints for a value below 16. */
  function HexDigit(d: int): (c: char)
    requires 0 <= d < 16
    ensures IsHexDigit(c) && DigitValue(c) == d
  {
    if d < 10 then ('0' as int + d) as char else ('a' as int + d - 10) as char
  }

  /** `n.toString(16)` for a non-negative integer: lower-case digits, no leading zero. */
  function Hex(n: nat): (s: string)
    ensures |s| >= 1
    ensures n >= 16 ==> s[0] != '0'
    ensures forall i :: 0 <= i < |s| ==> IsHexDigit(s[i])
  {
    if n < 16 then [HexDigit(n)] else Hex(n / 16) + [HexDigit(n % 16)]
  }

  /** Reads a string of hexadecimal digits back. */
  function FromHex(s: string): int
  {
    if s == [] then 0 else 16 * FromHex(s[..|s| - 1]) + DigitValue(s[|s| - 1])
  }

  /** `toString(16)` loses nothing: reading the digits back gives the number. */
  lemma {:induction false} HexRoundTrip(n: nat)
    ensures FromHex(Hex(n)) == n
  {
    if n >= 16 {
      HexRoundTrip(n / 16);
      var s := Hex(n);
      assert s[..|s| - 1] == Hex(n / 16);
    }
  }

  /** `hash.toString(16)`; a negative number prints with a minus sign. */
  function SignedHex(h: int): string
  {
    if h < 0 then "-" + Hex(-h) else Hex(h)
  }

  /** Reads a possibly signed string of hexadecimal digits back. */
  function FromSignedHex(s: string): int
  {
    if s != [] && s[0] == '-' then -FromHex(s[1..]) else FromHex(s)
  }

  /** `toString(16)` on a signed hash loses nothing. */
  lemma SignedHexRoundTrip(h: int)
    ensures FromSignedHex(SignedHex(h)) == h
  {
    if h < 0 {
      HexRoundTrip(-h);
      assert SignedHex(h)[1..] == Hex(-h);
    } else {
      HexRoundTrip(h);
      assert IsHexDigit(Hex(h)[0]);
    }
  }

  /** `hash-${hash.toString(16)}`. */
  function HashText(h: int): string
  {
    "hash-" + SignedHex(h)
  }

  /** Distinct hashes print differently. */
  lemma HashTextInjective(a: int, b: int)
    requires HashText(a) == HashText(b)
    ensures a == b
  {
    assert HashText(a)[5..] == SignedHex(a);
    assert HashText(b)[5..] == SignedHex(b);
    SignedHexRoundTrip(a);
    SignedHexRoundTrip(b);
  }

  /** `generateCanonicalHash` over the code units of the serialised vector. */
  method CanonicalHash(units: seq<CodeUnit>) returns (text: string)
    ensures text == HashText(HashFold(units))
    ensures text == HashText(ToInt32(Poly(units)))
  {
    var hash := 0;
    var i := 0;
    while i < |units|
      invariant 0 <= i <= |units|
      invariant hash == HashFold(units[..i])
    {
      assert units[..i + 1][..i] == units[..i];
      hash := HashStep(hash, units[i]);
      i := i + 1;
    }
    assert units[..i] == units;
    HashFoldIsPoly(units);
    text := HashText(hash);
  }

  // ---------------------------------------------------------------------------
  // Subscribers and delivery
  // ---------------------------------------------------------------------------

  /** A subscriber callback, known by its identity as a `Set` knows it. */
  type Callback = nat

  /** The frozen container every subscriber of the event type receives. */
  datatype Envelope = Envelope(eventType: EventType, payload: IntentVector, timestamp: int, hash: string)

  /** One call of a subscriber with an envelope. */
  datatype Delivery = Delivery(callback: Callback, envelope: Envelope)

  /** What the unsubscribe closure returned by `subscribe` has captured. */
  datatype Subscription = Subscription(eventType: EventType, callback: Callback)

  /** A `Set` of callbacks: insertion order, no repeats. */
  predicate NoDuplicates(cbs: seq<Callback>)
  {
    forall i, j :: 0 <= i < j < |cbs| ==> cbs[i] != cbs[j]
  }

  /** `Set.add`: appends a callback that is not there yet. */
  function AddCallback(cbs: seq<Callback>, cb: Callback): (r: seq<Callback>)
    ensures NoDuplicates(cbs) ==> NoDuplicates(r)
    ensures forall x :: x in r <==> x in cbs || x == cb
  {
    if cb in cbs then cbs else cbs + [cb]
  }

  /** `Set.delete`: removes a callback and keeps the others in order. */
  function DeleteCallback(cbs: seq<Callback>, cb: Callback): (r: seq<Callback>)
    ensures forall x :: x in r <==> x in cbs && x != cb
    ensures NoDuplicates(cbs) ==> NoDuplicates(r)
    ensures |r| <= |cbs|
  {
    if cbs == [] then []
    else if cbs[0] == cb then DeleteCallback(cbs[1..], cb)
    else
      var rest := DeleteCallback(cbs[1..], cb);
      assert NoDuplicates(cbs) ==> NoDuplicates(cbs[1..]) && cbs[0] !in rest by {
        if NoDuplicates(cbs) {
          forall i, j | 0 <= i < j < |cbs[1..]| ensures cbs[1..][i] != cbs[1..][j] {
            assert cbs[1..][i] == cbs[i + 1] && cbs[1..][j] == cbs[j + 1];
          }
          assert cbs[0] !in cbs[1..] by {
            forall k | 0 <= k < |cbs[1..]| ensures cbs[1..][k] != cbs[0] {
              assert cbs[1..][k] == cbs[k + 1];
            }
          }
        }
      }
      [cbs[0]] + rest
  }

  /** Subscribing twice with the same callback is subscribing once. */
  lemma AddCallbackIdempotent(cbs: seq<Callback>, cb: Callback)
    ensures AddCallback(AddCallback(cbs, cb), cb) == AddCallback(cbs, cb)
  {
  }

  /** Unsubscribing a fresh subscription gives back the set as it was before. */
  lemma {:induction false} DeleteUndoesAdd(cbs: seq<Callback>, cb: Callback)
    requires cb !in cbs
    ensures DeleteCallback(AddCallback(cbs, cb), cb) == cbs
  {
    DeleteAppended(cbs, cb);
  }

  lemma {:induction false} DeleteAppended(cbs: seq<Callback>, cb: Callback)
    requires cb !in cbs
    ensures DeleteCallback(cbs + [cb], cb) == cbs
  {
    if cbs != [] {
      assert (cbs + [cb])[1..] == cbs[1..] + [cb];
      DeleteAppended(cbs[1..], cb);
    }
  }

  /** The callbacks subscribed to an event type; none when it has no set yet. */
  function SubscribersOf(subscribers: map<EventType, seq<Callback>>, t: EventType): seq<Callback>
  {
    if t in subscribers then subscribers[t] else []
  }

  /** The calls `forEach` makes: one per callback, in the set's order, all with the same envelope. */
  function Deliveries(cbs: seq<Callback>, env: Envelope): (ds: seq<Delivery>)
    ensures |ds| == |cbs|
    ensures forall i :: 0 <= i < |cbs| ==> ds[i] == Delivery(cbs[i], env)
  {
    seq(|cbs|, i requires 0 <= i < |cbs| => Delivery(cbs[i], env))
  }

  /** How many of the calls went to a callback. */
  function CallsTo(ds: seq<Delivery>, cb: Callback): nat
  {
    if ds == [] then 0 else (if ds[0].callback == cb then 1 else 0) + CallsTo(ds[1..], cb)
  }

  /** Each subscriber of the event type is called exactly once, and nobody else is called. */
  lemma {:induction false} DeliveredOncePerSubscriber(cbs: seq<Callback>, env: Envelope, cb: Callback)
    requires NoDuplicates(cbs)
    ensures CallsTo(Deliveries(cbs, env), cb) == if cb in cbs then 1 else 0
  {
    if cbs != [] {
      var ds := Deliveries(cbs, env);
      assert ds[1..] == Deliveries(cbs[1..], env);
      assert NoDuplicates(cbs[1..]) by {
        forall i, j | 0 <= i < j < |cbs[1..]| ensures cbs[1..][i] != cbs[1..][j] {
          assert cbs[1..][i] == cbs[i + 1] && cbs[1..][j] == cbs[j + 1];
        }
      }
      DeliveredOncePerSubscriber(cbs[1..], env, cb);
      assert cbs[0] !in cbs[1..] by {
        forall k | 0 <= k < |cbs[1..]| ensures cbs[1..][k] != cbs[0] {
          assert cbs[1..][k] == cbs[k + 1];
        }
      }
      assert cb in cbs <==> cb == cbs[0] || cb in cbs[1..] by {
        assert cbs == [cbs[0]] + cbs[1..];
      }
    }
  }

  /** The envelope a valid publication hands to every subscriber. */
  function MakeEnvelope(serialize: IntentVector -> seq<CodeUnit>, eventType: EventType, raw: JsValue, now: int): Envelope
  {
    var v := CreateIntentVector(eventType, raw);
    Envelope(eventType, v, now, HashText(HashFold(serialize(v))))
  }

  /**
   * The bus: a registry of callback sets per event type. The calls made on
   * subscribers are recorded in `deliveries`, in order.
   */
  class AetherBus {
    /** `JSON.stringify` of a vector, as UTF-16 code units. */
    const serialize: IntentVector -> seq<CodeUnit>
    var subscribers: map<EventType, seq<Callback>>
    var deliveries: seq<Delivery>

    /** Every callback set is a set. */
    ghost predicate Valid()
      reads this
    {
      forall t :: t in subscribers ==> NoDuplicates(subscribers[t])
    }

    constructor(serialize: IntentVector -> seq<CodeUnit>)
      ensures this.serialize == serialize
      ensures subscribers == map[] && deliveries == []
      ensures Valid()
    {
      this.serialize := serialize;
      subscribers := map[];
      deliveries := [];
    }

    /** Adds the callback to the event type's set, creating the set on first use. */
    method Subscribe(eventType: EventType, callback: Callback) returns (unsubscribe: Subscription)
      requires Valid()
      modifies this
      ensures Valid()
      ensures subscribers == old(subscribers)[eventType := AddCallback(SubscribersOf(old(subscribers), eventType), callback)]
      ensures deliveries == old(deliveries)
      ensures unsubscribe == Subscription(eventType, callback)
    {
      if eventType !in subscribers {
        subscribers := subscribers[eventType := []];
      }
      var eventSubscribers := subscribers[eventType];
      subscribers := subscribers[eventType := AddCallback(eventSubscribers, callback)];
      unsubscribe := Subscription(eventType, callback);
    }

    /** The returned closure: deletes just that callback from its event type's set. */
    method Unsubscribe(subscription: Subscription)
      requires Valid()
      modifies this
      ensures Valid()
      ensures subscription.eventType in old(subscribers) ==>
        subscribers == old(subscribers)[subscription.eventType :=
                         DeleteCallback(old(subscribers)[subscription.eventType], subscription.callback)]
      ensures subscription.eventType !in old(subscribers) ==> subscribers == old(subscribers)
      ensures deliveries == old(deliveries)
    {
      var t := subscription.eventType;
      if t in subscribers {
        subscribers := subscribers[t := DeleteCallback(subscribers[t], subscription.callback)];
      }
    }

    /**
     * Rejects an invalid payload without calling anyone; otherwise builds the
     * envelope once and calls every subscriber of the event type with it.
     */
    method Publish(eventType: EventType, rawPayload: JsValue, now: int)
      modifies this
      ensures subscribers == old(subscribers)
      ensures !ValidatePayload(eventType, rawPayload) ==> deliveries == old(deliveries)
      ensures ValidatePayload(eventType, rawPayload) ==>
        deliveries == old(deliveries) + Deliveries(SubscribersOf(subscribers, eventType),
                                                   MakeEnvelope(serialize, eventType, rawPayload, now))
    {
      if !ValidatePayload(eventType, rawPayload) {
        return;
      }
      var intentVector := CreateIntentVector(eventType, rawPayload);
      var hash := CanonicalHash(serialize(intentVector));
      var envelope := Envelope(eventType, intentVector, now, hash);
      var eventSubscribers := SubscribersOf(subscribers, eventType);
      var i := 0;
      while i < |eventSubscribers|
        invariant 0 <= i <= |eventSubscribers|
        invariant subscribers == old(subscribers)
        invariant deliveries == old(deliveries) + Deliveries(eventSubscribers[..i], envelope)
      {
        deliveries := deliveries + [Delivery(eventSubscribers[i], envelope)];
        i := i + 1;
      }
      assert eventSubscribers[..i] == eventSubscribers;
    }
  }
}

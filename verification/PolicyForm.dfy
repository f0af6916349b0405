/** Parsing a routing policy and printing it in its canonical form, field by field. */
module PolicyForm {
  import opened Models
  import opened Options
  import opened DecimalContext
  import opened DecimalText
  import Scoring

  datatype RawRates = RawRates(fixedCost: Option<string>, inputTokenRate: string, outputTokenRate: string)

  datatype Rates = Rates(fixedCost: Decimal, inputTokenRate: Decimal, outputTokenRate: Decimal)

  datatype RawTier = RawTier(budgetMultiplier: string, weight: string)

  datatype Tier = Tier(budgetMultiplier: Decimal, weight: Decimal)

  datatype PerTier<T> = PerTier(fast: T, balanced: T, premium: T)

  /** A policy document with no unknown field. */
  datatype RawPolicy = RawPolicy(
    schemaVersion: int,
    policyId: string,
    costUnit: string,
    tokenUnit: Option<int>,
    contextLimitTokens: int,
    lightModelId: string,
    models: PerModel<RawRates>,
    tiers: PerTier<RawTier>,
    budgetWarningRatio: Option<string>)

  datatype Policy = Policy(
    schemaVersion: int,
    policyId: string,
    costUnit: string,
    tokenUnit: int,
    contextLimitTokens: int,
    lightModelId: string,
    models: PerModel<Rates>,
    tiers: PerTier<Tier>,
    budgetWarningRatio: Decimal)

  const SCHEMA_VERSION: int := 1
  const POLICY_ID: string := "ossp-2026-prompt-router-v1"
  const TOKEN_UNIT: int := 1_000_000
  const MODEL_IDS: seq<string> := ["ax31-light", "ax31", "axk1-think"]

  // ---- parsing ------------------------------------------------------------------------------------------

  /** `_decimal` with the bounds that the policy's fields use. */
  function ReadDecimal(text: string, allowZero: bool, maximum: Option<real>): Option<Decimal> {
    if !Accepted(text) then None
    else if !allowZero && Value(Parse(text)) == 0.0 then None
    else if maximum.Some? && Value(Parse(text)) > maximum.value then None
    else Some(Parse(text))
  }

  function ParseRates(raw: RawRates): Option<Rates> {
    var fixed := ReadDecimal(if raw.fixedCost.Some? then raw.fixedCost.value else "0", true, None);
    var input := ReadDecimal(raw.inputTokenRate, true, None);
    var output := ReadDecimal(raw.outputTokenRate, true, None);
    if fixed.Some? && input.Some? && output.Some? then Some(Rates(fixed.value, input.value, output.value)) else None
  }

  function ParseTier(raw: RawTier): Option<Tier> {
    var multiplier := ReadDecimal(raw.budgetMultiplier, false, None);
    var weight := ReadDecimal(raw.weight, true, None);
    if multiplier.Some? && weight.Some? then Some(Tier(multiplier.value, weight.value)) else None
  }

  /** The sum of the weights, every addition rounded by the context, is compared with 1. */
  predicate WeightsAccepted(round: real -> real, a: real, b: real, c: real) {
    round(round(round(0.0 + a) + b) + c) == 1.0
  }

  function TokenUnit(raw: RawPolicy): int {
    if raw.tokenUnit.Some? then raw.tokenUnit.value else TOKEN_UNIT
  }

  /** The fields that are not decimals. */
  predicate HeaderAccepted(raw: RawPolicy) {
    && raw.schemaVersion == SCHEMA_VERSION && raw.policyId == POLICY_ID && raw.costUnit != ""
    && TokenUnit(raw) == TOKEN_UNIT && raw.contextLimitTokens >= 1 && raw.lightModelId in MODEL_IDS
  }

  /** `parse_policy`. */
  function ParsePolicy(raw: RawPolicy, round: real -> real): Option<Policy> {
    var light, mid, high := ParseRates(raw.models.light), ParseRates(raw.models.mid), ParseRates(raw.models.high);
    var fast, balanced := ParseTier(raw.tiers.fast), ParseTier(raw.tiers.balanced);
    var premium := ParseTier(raw.tiers.premium);
    if !HeaderAccepted(raw) then None
    else if light.None? || mid.None? || high.None? || fast.None? || balanced.None? || premium.None? then None
    else if !WeightsAccepted(round, Value(fast.value.weight), Value(balanced.value.weight),
                             Value(premium.value.weight)) then None
    else
      var warning := ReadDecimal(if raw.budgetWarningRatio.Some? then raw.budgetWarningRatio.value else "0.95",
                                 false, Some(1.0));
      if warning.None? then None
      else Some(Policy(raw.schemaVersion, raw.policyId, raw.costUnit, TokenUnit(raw), raw.contextLimitTokens,
                       raw.lightModelId,
                       PerModel(light.value, mid.value, high.value),
                       PerTier(fast.value, balanced.value, premium.value), warning.value))
  }

  // ---- printing -----------------------------------------------------------------------------------------

  function RatesText(rates: Rates): RawRates {
    RawRates(Some(Text(rates.fixedCost)), Text(rates.inputTokenRate), Text(rates.outputTokenRate))
  }

  function TierText(tier: Tier): RawTier {
    RawTier(Text(tier.budgetMultiplier), Text(tier.weight))
  }

  /** `policy_to_dict`. */
  function ToRaw(policy: Policy): RawPolicy {
    RawPolicy(policy.schemaVersion, policy.policyId, policy.costUnit, Some(policy.tokenUnit),
              policy.contextLimitTokens, policy.lightModelId,
              PerModel(RatesText(policy.models.light), RatesText(policy.models.mid), RatesText(policy.models.high)),
              PerTier(TierText(policy.tiers.fast), TierText(policy.tiers.balanced), TierText(policy.tiers.premium)),
              Some(Text(policy.budgetWarningRatio)))
  }

  // ---- equality of policies is equality of their numbers ------------------------------------------------

  predicate SameRates(a: Rates, b: Rates) {
    && Value(a.fixedCost) == Value(b.fixedCost)
    && Value(a.inputTokenRate) == Value(b.inputTokenRate)
    && Value(a.outputTokenRate) == Value(b.outputTokenRate)
  }

  predicate SameTier(a: Tier, b: Tier) {
    Value(a.budgetMultiplier) == Value(b.budgetMultiplier) && Value(a.weight) == Value(b.weight)
  }

  predicate SamePolicy(a: Policy, b: Policy) {
    && a.schemaVersion == b.schemaVersion && a.policyId == b.policyId && a.costUnit == b.costUnit
    && a.tokenUnit == b.tokenUnit && a.contextLimitTokens == b.contextLimitTokens && a.lightModelId == b.lightModelId
    && SameRates(a.models.light, b.models.light) && SameRates(a.models.mid, b.models.mid)
    && SameRates(a.models.high, b.models.high)
    && SameTier(a.tiers.fast, b.tiers.fast) && SameTier(a.tiers.balanced, b.tiers.balanced)
    && SameTier(a.tiers.premium, b.tiers.premium)
    && Value(a.budgetWarningRatio) == Value(b.budgetWarningRatio)
  }

  lemma RatesTextExactly(a: Rates, b: Rates)
    ensures SameRates(a, b) <==> RatesText(a) == RatesText(b)
  {
    hide Value, Text;
    TextExactlyForEqualValues(a.fixedCost, b.fixedCost);
    TextExactlyForEqualValues(a.inputTokenRate, b.inputTokenRate);
    TextExactlyForEqualValues(a.outputTokenRate, b.outputTokenRate);
  }

  lemma TierTextExactly(a: Tier, b: Tier)
    ensures SameTier(a, b) <==> TierText(a) == TierText(b)
  {
    hide Value, Text;
    TextExactlyForEqualValues(a.budgetMultiplier, b.budgetMultiplier);
    TextExactlyForEqualValues(a.weight, b.weight);
  }

  /** Equal policies, and no others, have the same canonical form. */
  lemma CanonicalExactly(a: Policy, b: Policy)
    ensures SamePolicy(a, b) <==> ToRaw(a) == ToRaw(b)
  {
    hide Value, Text, SameRates, SameTier, RatesText, TierText;
    RatesTextExactly(a.models.light, b.models.light);
    RatesTextExactly(a.models.mid, b.models.mid);
    RatesTextExactly(a.models.high, b.models.high);
    TierTextExactly(a.tiers.fast, b.tiers.fast);
    TierTextExactly(a.tiers.balanced, b.tiers.balanced);
    TierTextExactly(a.tiers.premium, b.tiers.premium);
    TextExactlyForEqualValues(a.budgetWarningRatio, b.budgetWarningRatio);
  }

  lemma ReadPrinted(text: string, allowZero: bool, maximum: Option<real>)
    requires ReadDecimal(text, allowZero, maximum).Some?
    ensures var d := ReadDecimal(text, allowZero, maximum).value;
            && ReadDecimal(Text(d), allowZero, maximum) == Some(Normal(d))
            && Value(Normal(d)) == Value(d)
  {
    hide Value, Text, Parse, Normal, Accepted;
    AcceptedRoundTrip(text);
    NormalFacts(Parse(text));
  }

  lemma ReparseRates(raw: RawRates)
    requires ParseRates(raw).Some?
    ensures ParseRates(RatesText(ParseRates(raw).value)).Some?
    ensures SameRates(ParseRates(RatesText(ParseRates(raw).value)).value, ParseRates(raw).value)
  {
    hide Value, Text, Normal, ReadDecimal;
    ReadPrinted(if raw.fixedCost.Some? then raw.fixedCost.value else "0", true, None);
    ReadPrinted(raw.inputTokenRate, true, None);
    ReadPrinted(raw.outputTokenRate, true, None);
  }

  lemma ReparseTier(raw: RawTier)
    requires ParseTier(raw).Some?
    ensures ParseTier(TierText(ParseTier(raw).value)).Some?
    ensures SameTier(ParseTier(TierText(ParseTier(raw).value)).value, ParseTier(raw).value)
  {
    hide Value, Text, Normal, ReadDecimal;
    ReadPrinted(raw.budgetMultiplier, false, None);
    ReadPrinted(raw.weight, true, None);
  }

  /** A parsed policy, printed, is accepted again as an equal policy with the same canonical form. */
  lemma PolicyRoundTrip(raw: RawPolicy, round: real -> real)
    requires ParsePolicy(raw, round).Some?
    ensures var policy := ParsePolicy(raw, round).value;
            && ParsePolicy(ToRaw(policy), round).Some?
            && SamePolicy(ParsePolicy(ToRaw(policy), round).value, policy)
            && ToRaw(ParsePolicy(ToRaw(policy), round).value) == ToRaw(policy)
  {
    hide Value, Text, Normal, ReadDecimal, ParseRates, RatesText, SameRates, ParseTier, TierText, WeightsAccepted;
    var policy := ParsePolicy(raw, round).value;
    ReparseRates(raw.models.light);
    ReparseRates(raw.models.mid);
    ReparseRates(raw.models.high);
    ReparseTier(raw.tiers.fast);
    ReparseTier(raw.tiers.balanced);
    ReparseTier(raw.tiers.premium);
    ReadPrinted(if raw.budgetWarningRatio.Some? then raw.budgetWarningRatio.value else "0.95", false, Some(1.0));
    CanonicalExactly(ParsePolicy(ToRaw(policy), round).value, policy);
  }

  // ---- the scorer's premise ------------------------------------------------------------------------------

  lemma {:induction false} ReadBound(text: string)
    requires Digits(text)
    ensures Read(text) < Pow10(|text|)
  {
    if text != "" {
      ReadBound(text[..|text| - 1]);
    }
  }

  lemma Pow10Is40()
    ensures Pow10(40) == E40
  {
    Pow10Is27();
    Pow10Add(27, 10);
    Pow10Add(37, 3);
    Pow10Add(5, 5);
    assert Pow10(3) == 1000;
    assert Pow10(5) == 100000;
  }

  /** Every value that `_decimal` returns is one the scorer computes with exactly. */
  lemma ParsedIsScoredExactly(text: string)
    requires Accepted(text)
    ensures Scoring.Accepted(Value(Parse(text)))
  {
    hide Pow10, Read, E40;
    var d := Parse(text);
    var digits := Integer(text) + Fractional(text);
    ReadBound(digits);
    Pow10Order(|digits|, 40);
    Pow10Is40();
    assert d.coefficient <= E40;
    Undivided(d.coefficient as real, Pow10(d.scale) as real);
    assert Numerator(Value(d), d.scale, d.coefficient);
    assert Multiple(Value(d), d.scale, E40);
  }

  lemma Undivided(x: real, y: real)
    requires y >= 1.0
    ensures x / y * y == x
  {
  }

  function ModelOf(id: string): Model
    requires id in MODEL_IDS
  {
    if id == MODEL_IDS[0] then Ax31Light else if id == MODEL_IDS[1] then Ax31 else Axk1Think
  }

  function RateValues(rates: Rates): Scoring.Rates {
    Scoring.Rates(Value(rates.fixedCost), Value(rates.inputTokenRate), Value(rates.outputTokenRate))
  }

  /** What the scorer reads of a policy. */
  function ToScorer(policy: Policy): Scoring.Policy
    requires policy.lightModelId in MODEL_IDS
  {
    Scoring.Policy(ModelOf(policy.lightModelId),
                   PerModel(RateValues(policy.models.light), RateValues(policy.models.mid),
                            RateValues(policy.models.high)),
                   Value(policy.budgetWarningRatio))
  }

  lemma ReadIsScored(text: string, allowZero: bool, maximum: Option<real>)
    requires ReadDecimal(text, allowZero, maximum).Some?
    ensures var v := Value(ReadDecimal(text, allowZero, maximum).value);
            && Scoring.Accepted(v) && 0.0 <= v && (v == 0.0 ==> allowZero) && (maximum.Some? ==> v <= maximum.value)
  {
    hide Accepted, Scoring.Accepted, Pow10, Parse;
    ParsedIsScoredExactly(text);
  }

  lemma RatesAreScored(raw: RawRates)
    requires ParseRates(raw).Some?
    ensures Scoring.AcceptedRates(RateValues(ParseRates(raw).value))
  {
    hide Value, ReadDecimal, Scoring.Accepted;
    ReadIsScored(if raw.fixedCost.Some? then raw.fixedCost.value else "0", true, None);
    ReadIsScored(raw.inputTokenRate, true, None);
    ReadIsScored(raw.outputTokenRate, true, None);
  }

  lemma TierIsScored(raw: RawTier)
    requires ParseTier(raw).Some?
    ensures var multiplier := Value(ParseTier(raw).value.budgetMultiplier);
            Scoring.Accepted(multiplier) && 0.0 < multiplier
  {
    hide Value, ReadDecimal, Scoring.Accepted;
    ReadIsScored(raw.budgetMultiplier, false, None);
  }

  /** Every policy the parser lets through meets what exact scoring asks of a policy and its multipliers. */
  lemma ParsedPolicyIsScored(raw: RawPolicy, round: real -> real)
    requires ParsePolicy(raw, round).Some?
    ensures var policy := ParsePolicy(raw, round).value;
            && policy.lightModelId in MODEL_IDS && Scoring.AcceptedPolicy(ToScorer(policy))
            && (forall tier :: tier in {policy.tiers.fast, policy.tiers.balanced, policy.tiers.premium} ==>
                  Scoring.Accepted(Value(tier.budgetMultiplier)) && 0.0 < Value(tier.budgetMultiplier))
            && 0.0 < ToScorer(policy).warningRatio <= 1.0
  {
    hide Value, ReadDecimal, ParseRates, ParseTier, WeightsAccepted, Scoring.Accepted, Scoring.AcceptedRates;
    RatesAreScored(raw.models.light);
    RatesAreScored(raw.models.mid);
    RatesAreScored(raw.models.high);
    TierIsScored(raw.tiers.fast);
    TierIsScored(raw.tiers.balanced);
    TierIsScored(raw.tiers.premium);
    ReadIsScored(if raw.budgetWarningRatio.Some? then raw.budgetWarningRatio.value else "0.95", false, Some(1.0));
  }

  /** The value a text stands for. */
  function TextValue(text: string): real
    requires Accepted(text)
  {
    Value(Parse(text))
  }

  /** The scorer's rates, field by field, are the values of the document's texts; no fixed cost means none. */
  ghost predicate RatesOf(rates: Scoring.Rates, raw: RawRates) {
    && (raw.fixedCost.Some? ==> Accepted(raw.fixedCost.value))
    && Accepted(raw.inputTokenRate) && Accepted(raw.outputTokenRate)
    && rates.fixedCost == (if raw.fixedCost.Some? then TextValue(raw.fixedCost.value) else 0.0)
    && rates.inputTokenRate == TextValue(raw.inputTokenRate)
    && rates.outputTokenRate == TextValue(raw.outputTokenRate)
  }

  lemma ZeroText()
    ensures Accepted("0") && TextValue("0") == 0.0
    ensures Accepted("0.95") && TextValue("0.95") == 0.95
  {
    var text := "0.95";
    assert Point(text) == 1 && text[..1] == "0" && text[2..] == "95";
    assert Integer(text) + Fractional(text) == "095";
    assert "095"[..2] == "09" && "09"[..1] == "0" && "0"[..0] == "";
    assert Read("0") == 0 && Read("09") == 9 && Read("095") == 95;
    assert Pow10(0) == 1 && Pow10(2) == 100;
    assert Point("0") == 1 && "0"[..1] == "0" && "0" + "" == "0";
  }

  predicate AcceptedTier(raw: RawTier) {
    Accepted(raw.budgetMultiplier) && Accepted(raw.weight)
  }

  lemma TierAsWritten(raw: RawTier)
    requires ParseTier(raw).Some?
    ensures AcceptedTier(raw)
    ensures Value(ParseTier(raw).value.budgetMultiplier) == TextValue(raw.budgetMultiplier)
    ensures Value(ParseTier(raw).value.weight) == TextValue(raw.weight)
  {
    hide Value, Parse, Accepted;
  }

  lemma RatesAsWritten(raw: RawRates)
    requires ParseRates(raw).Some?
    ensures RatesOf(RateValues(ParseRates(raw).value), raw)
  {
    hide Value, Parse, Accepted;
    ZeroText();
  }

  /** What the scorer and the tiers work with is what the document says, under the document's own names. */
  lemma ParsedAsWritten(raw: RawPolicy, round: real -> real)
    requires ParsePolicy(raw, round).Some?
    ensures var policy := ParsePolicy(raw, round).value;
            && policy.lightModelId in MODEL_IDS
            && MODEL_IDS[ToScorer(policy).lightModel.Index()] == raw.lightModelId
            && (forall m: Model :: RatesOf(ToScorer(policy).rates.At(m), raw.models.At(m)))
            && AcceptedTier(raw.tiers.fast) && AcceptedTier(raw.tiers.balanced) && AcceptedTier(raw.tiers.premium)
            && (raw.budgetWarningRatio.Some? ==> Accepted(raw.budgetWarningRatio.value))
            && ToScorer(policy).warningRatio
                 == (if raw.budgetWarningRatio.Some? then TextValue(raw.budgetWarningRatio.value) else 0.95)
            && Value(policy.tiers.fast.budgetMultiplier) == TextValue(raw.tiers.fast.budgetMultiplier)
            && Value(policy.tiers.balanced.budgetMultiplier) == TextValue(raw.tiers.balanced.budgetMultiplier)
            && Value(policy.tiers.premium.budgetMultiplier) == TextValue(raw.tiers.premium.budgetMultiplier)
            && Value(policy.tiers.fast.weight) == TextValue(raw.tiers.fast.weight)
            && Value(policy.tiers.balanced.weight) == TextValue(raw.tiers.balanced.weight)
            && Value(policy.tiers.premium.weight) == TextValue(raw.tiers.premium.weight)
  {
    hide Value, Parse, Accepted, ParseRates, RatesOf, RateValues, ParseTier, WeightsAccepted;
    TierAsWritten(raw.tiers.fast);
    TierAsWritten(raw.tiers.balanced);
    TierAsWritten(raw.tiers.premium);
    ZeroText();
    RatesAsWritten(raw.models.light);
    RatesAsWritten(raw.models.mid);
    RatesAsWritten(raw.models.high);
    ParsedPolicyIsScored(raw, round);
  }

  predicate RatesWritten(raw: RawRates) {
    && (raw.fixedCost.Some? ==> Accepted(raw.fixedCost.value))
    && Accepted(raw.inputTokenRate) && Accepted(raw.outputTokenRate)
  }

  predicate TierWritten(raw: RawTier) {
    AcceptedTier(raw) && TextValue(raw.budgetMultiplier) != 0.0
  }

  lemma RatesAcceptedExactly(raw: RawRates)
    ensures ParseRates(raw).Some? <==> RatesWritten(raw)
  {
    hide Value, Parse, Accepted;
    ZeroText();
  }

  lemma TierAcceptedExactly(raw: RawTier)
    ensures ParseTier(raw).Some? <==> TierWritten(raw)
  {
    hide Value, Parse, Accepted;
  }

  /** Which documents are accepted: every number well written, the multipliers and the warning ratio not zero,
      the latter at most 1, the rounded sum of the weights 1, and the other fields as version 1 fixes them. */
  lemma ParsedExactly(raw: RawPolicy, round: real -> real)
    ensures ParsePolicy(raw, round).Some? <==>
            && raw.schemaVersion == 1 && raw.policyId == "ossp-2026-prompt-router-v1" && raw.costUnit != ""
            && (raw.tokenUnit.Some? ==> raw.tokenUnit.value == 1_000_000) && raw.contextLimitTokens >= 1
            && raw.lightModelId in {"ax31-light", "ax31", "axk1-think"}
            && RatesWritten(raw.models.light) && RatesWritten(raw.models.mid) && RatesWritten(raw.models.high)
            && TierWritten(raw.tiers.fast) && TierWritten(raw.tiers.balanced) && TierWritten(raw.tiers.premium)
            && round(round(round(0.0 + TextValue(raw.tiers.fast.weight)) + TextValue(raw.tiers.balanced.weight))
                     + TextValue(raw.tiers.premium.weight)) == 1.0
            && (raw.budgetWarningRatio.Some? ==>
                  Accepted(raw.budgetWarningRatio.value) && TextValue(raw.budgetWarningRatio.value) != 0.0
                  && TextValue(raw.budgetWarningRatio.value) <= 1.0)
  {
    hide Value, Parse, Accepted, ParseRates, ParseTier, RatesWritten;
    ZeroText();
    RatesAcceptedExactly(raw.models.light);
    RatesAcceptedExactly(raw.models.mid);
    RatesAcceptedExactly(raw.models.high);
    TierAcceptedExactly(raw.tiers.fast);
    TierAcceptedExactly(raw.tiers.balanced);
    TierAcceptedExactly(raw.tiers.premium);
    if TierWritten(raw.tiers.fast) && TierWritten(raw.tiers.balanced) && TierWritten(raw.tiers.premium) {
      TierAsWritten(raw.tiers.fast);
      TierAsWritten(raw.tiers.balanced);
      TierAsWritten(raw.tiers.premium);
    }
  }

  // ---- the sum of the weights ---------------------------------------------------------------------------

  const E27: nat := 1_000_000_000_000_000_000_000_000_000
  const E28: nat := 10 * E27

  /** `v` has at most 28 significant digits, none of them before the units. */
  ghost predicate Representable(v: real) {
    exists scale: nat, n: nat :: n < E28 && Numerator(v, scale, n)
  }

  /** What is used of a 28-digit context: it rounds monotonically, and up to 2 to a nearest representable
      number. */
  ghost predicate DefaultContext(round: real -> real) {
    && (forall u: real, v: real :: u <= v ==> round(u) <= round(v))
    && (forall v: real :: 0.0 <= v <= 2.0 ==> Representable(round(v)))
    && (forall u: real, v: real :: 0.0 <= v <= 2.0 && Representable(u) ==> Apart(round(v), v) <= Apart(u, v))
  }

  function Apart(u: real, v: real): real {
    if u < v then v - u else u - v
  }

  /** `v` is not negative and has at most `digits` digits behind the point. */
  ghost predicate HasDigits(v: real, digits: nat) {
    exists n: nat :: Numerator(v, digits, n)
  }

  lemma NotNegative(v: real, digits: nat)
    requires HasDigits(v, digits)
    ensures v >= 0.0
  {
    var n: nat :| Numerator(v, digits, n);
    if v < 0.0 {
      NoZeroFactor(v, Pow10(digits) as real);
    }
  }

  lemma NoZeroFactor(v: real, x: real)
    requires v < 0.0 && x >= 1.0
    ensures v * x < 0.0
  {
  }

  lemma MoreDigits(v: real, digits: nat, k: nat, n: nat)
    requires Numerator(v, digits, n)
    ensures Numerator(v, digits + k, n * Pow10(k)) && HasDigits(v, digits + k)
  {
    hide Pow10;
    var x, y := Pow10(digits) as real, Pow10(k) as real;
    Pow10Add(digits, k);
    Associate(v, x, y);
    assert Pow10(digits + k) as real == x * y;
    assert (n * Pow10(k)) as real == n as real * y;
    assert Numerator(v, digits + k, n * Pow10(k));
  }

  lemma RoundsFine(round: real -> real, v: real)
    requires DefaultContext(round) && HasDigits(v, 27) && 0.0 <= v
    ensures v <= 2.0 ==> round(v) == v
    ensures v > 2.0 ==> round(v) >= 2.0
  {
    hide Pow10;
    Pow10Is27();
    assert Numerator(2.0, 27, 2 * E27);
    assert Representable(2.0);
    if v <= 2.0 {
      var n: nat :| Numerator(v, 27, n);
      assert n < E28;
      assert Representable(v);
      assert Apart(round(v), v) <= Apart(v, v);
    } else {
      assert Apart(round(2.0), 2.0) <= Apart(2.0, 2.0);
    }
  }

  lemma Pow10Is27()
    ensures Pow10(27) == E27
  {
    assert Pow10(5) == 100000;
    assert Pow10(2) == 100;
    Pow10Add(5, 5);
    Pow10Add(10, 10);
    Pow10Add(20, 5);
    Pow10Add(25, 2);
  }

  lemma FineSum(u: real, v: real)
    requires HasDigits(u, 27) && HasDigits(v, 27)
    ensures HasDigits(u + v, 27)
  {
    var m: nat :| Numerator(u, 27, m);
    var n: nat :| Numerator(v, 27, n);
    assert Numerator(u + v, 27, m + n);
  }

  lemma FineWeights(round: real -> real, a: real, b: real, c: real)
    requires DefaultContext(round)
    requires HasDigits(a, 27) && HasDigits(b, 27) && HasDigits(c, 27)
    ensures WeightsAccepted(round, a, b, c) <==> a + b + c == 1.0
  {
    hide HasDigits, Representable;
    NotNegative(a, 27);
    NotNegative(b, 27);
    NotNegative(c, 27);
    assert 0.0 + a == a;
    RoundsFine(round, a);
    FineSum(a, b);
    RoundsFine(round, a + b);
    FineSum(a + b, c);
    RoundsFine(round, a + b + c);
    TwoIsFine();
    RoundsFine(round, 2.0);
    if a > 2.0 {
      assert round(round(a) + b) >= round(2.0);
      assert round(round(round(a) + b) + c) >= round(2.0);
    } else if a + b > 2.0 {
      assert round(round(a + b) + c) >= round(2.0);
    }
  }

  lemma TwoIsFine()
    ensures HasDigits(2.0, 27)
  {
    Pow10Is27();
    assert Numerator(2.0, 27, 2 * E27);
  }

  const EPSILON: real := 1.0 / E28 as real

  /** No number of 28 digits lies within 2 * 10^-28 above 1. */
  lemma NothingJustAboveOne(r: real)
    requires Representable(r) && 1.0 <= r <= 1.0 + 2.0 * EPSILON
    ensures r == 1.0
  {
    hide Pow10;
    var scale: nat, n: nat :| n < E28 && Numerator(r, scale, n);
    Pow10Is27();
    var x := Pow10(scale) as real;
    assert r * x == n as real;
    if scale <= 27 {
      var y := Pow10(27 - scale);
      Pow10Add(scale, 27 - scale);
      Associate(r, x, y as real);
      assert r * E27 as real == (n * y) as real;
      assert n * y == E27;
    } else {
      Pow10Is28();
      Pow10Order(28, scale);
      Larger(r, 1.0, x);
    }
  }

  lemma Pow10Is28()
    ensures Pow10(28) == E28
  {
    Pow10Is27();
    Pow10Add(27, 1);
    TenIsPow();
  }

  lemma OneIsRepresentable()
    ensures Representable(1.0)
  {
    Pow10Is27();
    assert Numerator(1.0, 27, E27);
  }

  lemma Larger(r: real, s: real, x: real)
    requires r >= s && x >= 0.0
    ensures r * x >= s * x
  {
  }

  /** 1/2, 3/10 and 1/5 + 10^-28 are accepted. */
  lemma ExcessAccepted(round: real -> real)
    requires DefaultContext(round)
    ensures WeightsAccepted(round, 0.5, 0.3, 0.2 + EPSILON) && 0.5 + 0.3 + (0.2 + EPSILON) != 1.0
  {
    hide Pow10, Representable;
    Pow10Is27();
    assert HasDigits(0.5, 27) by { assert Numerator(0.5, 27, 500_000_000_000_000_000_000_000_000); }
    assert HasDigits(0.8, 27) by { assert Numerator(0.8, 27, 800_000_000_000_000_000_000_000_000); }
    RoundsFine(round, 0.5);
    RoundsFine(round, 0.8);
    assert 0.0 + 0.5 == 0.5 && 0.5 + 0.3 == 0.8;
    var sum := 0.8 + (0.2 + EPSILON);
    assert sum == 1.0 + EPSILON;
    OneIsRepresentable();
    assert Apart(round(sum), sum) <= Apart(1.0, sum);
    assert round(1.0) <= round(sum);
    assert Apart(round(1.0), 1.0) <= Apart(1.0, 1.0);
    NothingJustAboveOne(round(sum));
  }

  lemma ExcessHasDigits(digits: nat)
    requires digits >= 28
    ensures HasDigits(0.5, digits) && HasDigits(0.3, digits) && HasDigits(0.2 + EPSILON, digits)
  {
    hide Pow10;
    Pow10Is28();
    TenIsPow();
    assert Numerator(0.5, 1, 5) && Numerator(0.3, 1, 3);
    assert Numerator(0.2 + EPSILON, 28, 2 * E27 + 1);
    MoreDigits(0.5, 1, digits - 1, 5);
    MoreDigits(0.3, 1, digits - 1, 3);
    MoreDigits(0.2 + EPSILON, 28, digits - 28, 2 * E27 + 1);
  }

  lemma TenIsPow()
    ensures Pow10(1) == 10
  {
    assert Pow10(0) == 1;
  }

  /** Every three weights of at most so many digits pass exactly if they sum to 1. */
  ghost predicate SumCheckExact(round: real -> real, digits: nat) {
    forall a: real, b: real, c: real :: HasDigits(a, digits) && HasDigits(b, digits) && HasDigits(c, digits) ==>
      (WeightsAccepted(round, a, b, c) <==> a + b + c == 1.0)
  }

  /** The check of the weights' sum is exact up to 27 digits behind the point and not beyond. */
  lemma WeightCheckExactly(round: real -> real, digits: nat)
    requires DefaultContext(round)
    ensures SumCheckExact(round, digits) <==> digits <= 27
  {
    hide HasDigits, WeightsAccepted, DefaultContext;
    if digits <= 27 {
      forall a: real, b: real, c: real | HasDigits(a, digits) && HasDigits(b, digits) && HasDigits(c, digits)
        ensures WeightsAccepted(round, a, b, c) <==> a + b + c == 1.0
      {
        Finer(a, digits);
        Finer(b, digits);
        Finer(c, digits);
        FineWeights(round, a, b, c);
      }
    } else {
      ExcessHasDigits(digits);
      ExcessAccepted(round);
      assert WeightsAccepted(round, 0.5, 0.3, 0.2 + EPSILON);
    }
  }

  lemma Finer(v: real, digits: nat)
    requires HasDigits(v, digits) && digits <= 27
    ensures HasDigits(v, 27)
  {
    var n: nat :| Numerator(v, digits, n);
    MoreDigits(v, digits, 27 - digits, n);
  }
}

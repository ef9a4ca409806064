/** The generation defaults of open-sse/executors/antigravity.ts, set in place on the request's configuration. */
module AntigravityDefaults {
  import opened JsText

  const MAX_OUTPUT_TOKENS: real := 16384.0

  /** A field: missing, or a value with what `Number` makes of it when that is finite. */
  datatype Setting = Undefined | Value(number: Option<real>)

  function Number(s: Setting): Option<real> {
    match s
    case Undefined => None
    case Value(number) => number
  }

  function Whole(x: real): Setting { Value(Some(x)) }

  /** Output must be able to exceed the thinking budget. */
  function Bumped(budget: Option<real>, tokens: Setting): Setting {
    var n := Number(tokens);
    if budget.Some? && budget.value > 0.0 && (n.None? || n.value <= budget.value)
    then Whole(budget.value.Floor as real + 1.0) else tokens
  }

  function Capped(tokens: Setting): Setting {
    var n := Number(tokens);
    if n.Some? && n.value > MAX_OUTPUT_TOKENS then Whole(MAX_OUTPUT_TOKENS) else tokens
  }

  function Tokens(budget: Option<real>, tokens: Setting): Setting {
    Capped(Bumped(budget, tokens))
  }

  /** `budget` is the finite number the thinking budget stands for, if any. */
  class GenerationConfig {
    const budget: Option<real>
    var topK: Setting
    var topP: Setting
    var maxOutputTokens: Setting

    constructor (budget: Option<real>, topK: Setting, topP: Setting, maxOutputTokens: Setting)
      ensures this.budget == budget && this.topK == topK && this.topP == topP && this.maxOutputTokens == maxOutputTokens
    {
      this.budget, this.topK, this.topP, this.maxOutputTokens := budget, topK, topP, maxOutputTokens;
    }

    method ApplyAntigravityGenerationDefaults()
      modifies this
      ensures topK == if old(topK).Undefined? then Whole(40.0) else old(topK)
      ensures topP == if old(topP).Undefined? then Whole(1.0) else old(topP)
      ensures maxOutputTokens == Tokens(budget, old(maxOutputTokens))
    {
      if topK.Undefined? { topK := Whole(40.0); }
      if topP.Undefined? { topP := Whole(1.0); }
      var tokens := Number(maxOutputTokens);
      if budget.Some? && budget.value > 0.0 && (tokens.None? || tokens.value <= budget.value) {
        maxOutputTokens := Whole(budget.value.Floor as real + 1.0);
      }
      var finalMax := Number(maxOutputTokens);
      if finalMax.Some? && finalMax.value > MAX_OUTPUT_TOKENS {
        maxOutputTokens := Whole(MAX_OUTPUT_TOKENS);
      }
    }
  }

  /**
   What the limit becomes: one more than the whole part of a thinking budget it does not exceed, but at most
   16384; otherwise 16384 when it is larger, and itself when it is not.
   */
  lemma LimitIs(budget: Option<real>, tokens: Setting)
    ensures var n := Number(tokens);
      Tokens(budget, tokens)
      == if budget.Some? && budget.value > 0.0 && (n.None? || n.value <= budget.value)
         then Whole(if budget.value < 16384.0 then budget.value.Floor as real + 1.0 else 16384.0)
         else if n.Some? && n.value > 16384.0 then Whole(16384.0)
         else tokens
  {
  }

  /** No finite limit goes upstream above the cap. */
  lemma CapHolds(budget: Option<real>, tokens: Setting)
    ensures Number(Tokens(budget, tokens)).Some? ==> Number(Tokens(budget, tokens)).value <= MAX_OUTPUT_TOKENS
  {
  }

  /** The limit leaves room beyond a thinking budget exactly when the budget is below the cap. */
  lemma RoomExactly(budget: real, tokens: Setting)
    requires budget > 0.0
    ensures var n := Number(Tokens(Some(budget), tokens));
      n.Some? && (n.value > budget <==> budget < MAX_OUTPUT_TOKENS)
  {
  }

  /** A second application changes nothing. */
  lemma AppliedTwice(budget: Option<real>, tokens: Setting)
    ensures Tokens(budget, Tokens(budget, tokens)) == Tokens(budget, tokens)
  {
  }

  /** Exactly the limits within the cap and above the budget are left alone (none at all only without a budget). */
  lemma UntouchedExactly(budget: Option<real>, tokens: Setting)
    ensures var n, thinks := Number(tokens), budget.Some? && budget.value > 0.0;
      Tokens(budget, tokens) == tokens
      <==> if n.None? then !thinks
           else n.value <= MAX_OUTPUT_TOKENS && (thinks ==> n.value > budget.value || n.value == MAX_OUTPUT_TOKENS)
  {
  }
}

/**
 * `applyAntigravityGenerationDefaults`: sampling defaults and the clamp on the output limit, applied
 * in place to the request's generation config. The request body is transformed again on every
 * attempt, so applying the defaults twice must equal applying them once.
 */
module AntigravityDefaults {
  import opened Options

  const MAX_OUTPUT_TOKENS: int := 16384

  /**
   * A field of the config. `Given` is any value the caller put there, with what `Number(...)` makes
   * of it when that is finite; `Number` is a number this code wrote.
   */
  datatype Field = Absent | Given(raw: string, finite: Option<real>) | Number(value: real)

  /** `Number(field)` when finite; NaN and the infinities are None. */
  function Finite(f: Field): Option<real> {
    match f
    case Absent => None
    case Given(_, finite) => finite
    case Number(value) => Some(value)
  }

  /** `thinkingBudget` is None when there is no thinking config or its budget is not finite. */
  datatype Config = Config(topK: Field, topP: Field, thinkingBudget: Option<real>, maxOutputTokens: Field)

  const EMPTY := Config(Absent, Absent, None, Absent)

  function Default(f: Field, value: real): Field {
    if f.Absent? then Number(value) else f
  }

  /** The limit is raised above a positive thinking budget when it is not above it already. */
  function Raise(budget: Option<real>, limit: Field): Field {
    if budget.Some? && budget.value > 0.0 && (Finite(limit).None? || Finite(limit).value <= budget.value)
    then Number((budget.value.Floor + 1) as real) else limit
  }

  function Cap(limit: Field): Field {
    if Finite(limit).Some? && Finite(limit).value > MAX_OUTPUT_TOKENS as real
    then Number(MAX_OUTPUT_TOKENS as real) else limit
  }

  function Apply(c: Config): Config {
    Config(Default(c.topK, 40.0), Default(c.topP, 1.0), c.thinkingBudget,
           Cap(Raise(c.thinkingBudget, c.maxOutputTokens)))
  }

  // ---------------------------------------------------------------- what the clamp promises

  /** Afterwards a finite output limit is at most the provider's ceiling. */
  lemma LimitIsCapped(c: Config)
    ensures var limit := Finite(Apply(c).maxOutputTokens); limit.Some? ==> limit.value <= MAX_OUTPUT_TOKENS as real
  {
  }

  /**
   * With a positive thinking budget the limit afterwards is finite, and it exceeds the budget exactly
   * when the budget is below the ceiling.
   */
  lemma LimitExceedsBudget(c: Config)
    requires c.thinkingBudget.Some? && c.thinkingBudget.value > 0.0
    ensures var limit := Finite(Apply(c).maxOutputTokens);
            && limit.Some?
            && (limit.value > c.thinkingBudget.value <==> c.thinkingBudget.value < MAX_OUTPUT_TOKENS as real)
  {
    var b := c.thinkingBudget.value;
    FloorBelow(b);
  }

  lemma FloorBelow(b: real)
    ensures b.Floor as real <= b < (b.Floor + 1) as real
    ensures b < MAX_OUTPUT_TOKENS as real ==> b.Floor + 1 <= MAX_OUTPUT_TOKENS
  {
  }

  /** A limit that already fits is left as the caller wrote it. */
  lemma FittingLimitKept(c: Config)
    requires Finite(c.maxOutputTokens).Some? && Finite(c.maxOutputTokens).value <= MAX_OUTPUT_TOKENS as real
    requires c.thinkingBudget.Some? ==>
        c.thinkingBudget.value <= 0.0 || c.thinkingBudget.value < Finite(c.maxOutputTokens).value
    ensures Apply(c).maxOutputTokens == c.maxOutputTokens
  {
  }

  /** The limit is not above the thinking budget. */
  predicate IsShort(c: Config) {
    && c.thinkingBudget.Some? && c.thinkingBudget.value > 0.0
    && (Finite(c.maxOutputTokens).Some? ==> Finite(c.maxOutputTokens).value <= c.thinkingBudget.value)
  }

  /**
   * Exactly what is written. A limit that does not exceed a positive thinking budget becomes `n`, the least
   * integer that does, but 16384 at most; any other above 16384 becomes 16384; and any other stays. `topK` is 40
   * and `topP` is 1 when absent, and as given otherwise.
   */
  lemma DefaultsWritten(c: Config, n: int)
    requires IsShort(c) ==> (n - 1) as real <= c.thinkingBudget.value < n as real
    ensures Apply(c).topK == if c.topK == Absent then Number(40.0) else c.topK
    ensures Apply(c).topP == if c.topP == Absent then Number(1.0) else c.topP
    ensures Apply(c).thinkingBudget == c.thinkingBudget
    ensures Apply(c).maxOutputTokens
            == if IsShort(c) then Number(if n > 16384 then 16384.0 else n as real)
               else if Finite(c.maxOutputTokens).Some? && Finite(c.maxOutputTokens).value > 16384.0
               then Number(16384.0) else c.maxOutputTokens
  {
    if IsShort(c) {
      FloorIs(c.thinkingBudget.value, n);
    }
  }

  lemma FloorIs(b: real, n: int)
    requires (n - 1) as real <= b < n as real
    ensures b.Floor + 1 == n
  {
  }

  /** Applying the defaults again changes nothing. */
  lemma ApplyTwice(c: Config)
    ensures Apply(Apply(c)) == Apply(c)
  {
    if c.thinkingBudget.Some? && c.thinkingBudget.value > 0.0 {
      LimitExceedsBudget(c);
      LimitIsCapped(c);
    }
  }

  // ---------------------------------------------------------------- in place

  class GenerationConfig {
    var topK: Field
    var topP: Field
    const thinkingBudget: Option<real>
    var maxOutputTokens: Field

    constructor (topK: Field, topP: Field, thinkingBudget: Option<real>, maxOutputTokens: Field)
      ensures View() == Config(topK, topP, thinkingBudget, maxOutputTokens)
    {
      this.topK, this.topP := topK, topP;
      this.thinkingBudget, this.maxOutputTokens := thinkingBudget, maxOutputTokens;
    }

    function View(): Config
      reads this
    {
      Config(topK, topP, thinkingBudget, maxOutputTokens)
    }
  }

  class Request {
    /** null when the request carries no config object. */
    var generationConfig: GenerationConfig?

    constructor (generationConfig: GenerationConfig?)
      ensures this.generationConfig == generationConfig
    {
      this.generationConfig := generationConfig;
    }

    function View(): Config
      reads this, generationConfig
    {
      if generationConfig == null then EMPTY else generationConfig.View()
    }
  }

  method ApplyGenerationDefaults(request: Request)
    modifies request, request.generationConfig
    ensures request.generationConfig != null
    ensures request.View() == Apply(old(request.View()))
    ensures old(request.generationConfig) != null ==> request.generationConfig == old(request.generationConfig)
    ensures old(request.generationConfig) == null ==> fresh(request.generationConfig)
  {
    var config: GenerationConfig;
    if request.generationConfig != null {
      config := request.generationConfig;
    } else {
      config := new GenerationConfig(Absent, Absent, None, Absent);
    }
    if config.topK.Absent? {
      config.topK := Number(40.0);
    }
    if config.topP.Absent? {
      config.topP := Number(1.0);
    }
    var budget, limit := config.thinkingBudget, Finite(config.maxOutputTokens);
    if budget.Some? && budget.value > 0.0 && (limit.None? || limit.value <= budget.value) {
      config.maxOutputTokens := Number((budget.value.Floor + 1) as real);
    }
    var finalMax := Finite(config.maxOutputTokens);
    if finalMax.Some? && finalMax.value > MAX_OUTPUT_TOKENS as real {
      config.maxOutputTokens := Number(MAX_OUTPUT_TOKENS as real);
    }
    request.generationConfig := config;
  }
}

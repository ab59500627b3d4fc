/** What one request costs. */
module UsageCost {
  import opened Wrappers
  import opened Text
  import opened Rounding

  /** The rates of one model: dollars per million prompt tokens and per million completion tokens. */
  datatype Rate = Rate(input: real, output: real)

  /** Rates by normalised model name, in the order in which the dictionary holds them. */
  type Rates = seq<(string, Rate)>

  /** One request's usage metadata; a false text field is the empty string, a false number is zero. */
  datatype Meta = Meta(
    model: string,
    promptTokens: int,
    completionTokens: int,
    totalTokens: int,
    endUser: string,
    userId: string,
    clientKeyName: string,
    clientKeyId: string,
    authType: string)

  function NonNegative(n: int): (r: int)
    ensures r >= 0 && (n >= 0 ==> r == n)
  {
    if n >= 0 then n else 0
  }

  function Usd(tokens: int, costPer1k: real): (r: real)
    ensures Whole4(r) && Abs(r - NonNegative(tokens) as real / 1000.0 * costPer1k) <= 0.00005
  {
    Round4(NonNegative(tokens) as real / 1000.0 * costPer1k)
  }

  /** The exact cost of a request at rates per million tokens. */
  function ExactUsd(prompt: int, completion: int, rate: Rate): real {
    NonNegative(prompt) as real / 1000000.0 * rate.input + NonNegative(completion) as real / 1000000.0 * rate.output
  }

  function UsdFromRates(prompt: int, completion: int, rate: Rate): (r: real)
    ensures Abs(r - ExactUsd(prompt, completion, rate)) <= 0.0000005
  {
    Round6(ExactUsd(prompt, completion, rate))
  }

  predicate Contains(s: string, part: string) {
    exists i :: 0 <= i <= |s| && part <= s[i..]
  }

  /** Free, cheaper and dearer models are told by their names. */
  function ModelRate(model: string, baseline: real): real {
    var name := Lower(model);
    if Contains(name, "llama") || Contains(name, "ollama") || Contains(name, "mistral")
       || Contains(name, "qwen") || Contains(name, "phi") then 0.0
    else if Contains(name, "gemini") then Round6(baseline * 0.7)
    else if Contains(name, "claude") || Contains(name, "anthropic") then Round6(baseline * 1.2)
    else baseline
  }

  function Dashed(s: string): string {
    seq(|s|, i requires 0 <= i < |s| => if s[i] == ' ' then '-' else s[i])
  }

  function NormalizeModelKey(name: string): string {
    Dashed(Lower(Strip(name)))
  }

  predicate Related(stored: string, key: string) {
    Contains(key, stored) || Contains(stored, key)
  }

  function FirstRelated(rates: Rates, key: string): Option<Rate> {
    if rates == [] then None
    else if Related(rates[0].0, key) then Some(rates[0].1)
    else FirstRelated(rates[1..], key)
  }

  function Exactly(rates: Rates, key: string): Option<Rate> {
    if rates == [] then None
    else if rates[0].0 == key then Some(rates[0].1)
    else Exactly(rates[1..], key)
  }

  /** The rate stored under the model's own name, else the first under a name that contains it or is contained in it. */
  function LookupModelRate(model: string, rates: Rates): Option<Rate> {
    var key := NormalizeModelKey(model);
    if Exactly(rates, key).Some? then Exactly(rates, key) else FirstRelated(rates, key)
  }

  function ModelOf(meta: Meta): string {
    if meta.model == "" then "unknown" else meta.model
  }

  function RowCost(meta: Meta, costPer1k: real, rates: Rates): real {
    var rate := LookupModelRate(ModelOf(meta), rates);
    if rate.Some? && (rate.value.input != 0.0 || rate.value.output != 0.0) then
      if meta.promptTokens != 0 || meta.completionTokens != 0 then
        UsdFromRates(meta.promptTokens, meta.completionTokens, rate.value)
      else
        UsdFromRates(meta.totalTokens, 0, Rate((rate.value.input + rate.value.output) / 2.0, 0.0))
    else Usd(meta.totalTokens, ModelRate(ModelOf(meta), costPer1k))
  }

  // ----- rates told by a model's name

  /** A name of a model that runs for free. */
  predicate RunsFree(name: string) {
    || Contains(name, "llama") || Contains(name, "ollama") || Contains(name, "mistral")
    || Contains(name, "qwen") || Contains(name, "phi")
  }

  /**
    Whatever its case, a name tells the rate: nothing for a model that runs for free,
    seven tenths of the baseline for Gemini, six fifths for Claude, to within half a
    millionth, and the baseline itself for any other.
  */
  lemma RateByName(model: string, baseline: real)
    ensures
      var name, rate := Lower(model), ModelRate(model, baseline);
      && (RunsFree(name) ==> rate == 0.0)
      && (!RunsFree(name) && Contains(name, "gemini") ==> Abs(rate * 10.0 - baseline * 7.0) <= 0.000005)
      && (!RunsFree(name) && !Contains(name, "gemini") && (Contains(name, "claude") || Contains(name, "anthropic")) ==>
            Abs(rate * 5.0 - baseline * 6.0) <= 0.0000025)
      && (!RunsFree(name) && !Contains(name, "gemini") && !Contains(name, "claude") && !Contains(name, "anthropic") ==>
            rate == baseline)
  {
    hide Lower, Contains, Round6;
  }

  /** A cost in dollars, to within its rounding, of tokens at a rate per thousand. */
  predicate PerThousand(cost: real, tokens: int, rate: real) {
    Abs(cost * 1000.0 - NonNegative(tokens) as real * rate) <= 0.05
  }

  /** The same at rates per million, for prompt and completion tokens apart. */
  predicate PerMillion(cost: real, prompt: int, completion: int, rate: Rate) {
    var exact := NonNegative(prompt) as real * rate.input + NonNegative(completion) as real * rate.output;
    Abs(cost * 1000000.0 - exact) <= 0.5
  }

  /**
    What a request costs, to within its rounding: its prompt and completion tokens at
    the stored rates per million; all its tokens at their mean when neither is given;
    all its tokens per thousand at the rate its model's name tells when none is stored.
  */
  lemma RowCostIs(meta: Meta, costPer1k: real, rates: Rates)
    ensures
      var model := if meta.model == "" then "unknown" else meta.model;
      var cost := RowCost(meta, costPer1k, rates);
      match LookupModelRate(model, rates)
      case Some(Rate(input, output)) =>
        if input == output == 0.0 then PerThousand(cost, meta.totalTokens, ModelRate(model, costPer1k))
        else if meta.promptTokens == meta.completionTokens == 0 then
          PerMillion(cost, meta.totalTokens, 0, Rate((input + output) / 2.0, 0.0))
        else PerMillion(cost, meta.promptTokens, meta.completionTokens, Rate(input, output))
      case None => PerThousand(cost, meta.totalTokens, ModelRate(model, costPer1k))
  {
    hide LookupModelRate, ModelRate, Usd, UsdFromRates, PerThousand, PerMillion;
    var model := if meta.model == "" then "unknown" else meta.model;
    UsdPerThousand(meta.totalTokens, ModelRate(model, costPer1k));
    match LookupModelRate(model, rates)
    case None =>
    case Some(Rate(input, output)) =>
      UsdPerMillion(meta.promptTokens, meta.completionTokens, Rate(input, output));
      UsdPerMillion(meta.totalTokens, 0, Rate((input + output) / 2.0, 0.0));
  }

  lemma Scaled(r: real, x: real, within: real, factor: real, y: real)
    requires Abs(r - x) <= within && factor > 0.0 && x * factor == y
    ensures Abs(r * factor - y) <= within * factor
  {
    assert (r - x) * factor == r * factor - y;
    if r >= x { assert (r - x) * factor <= within * factor; } else { assert (x - r) * factor <= within * factor; }
  }

  lemma Part(tokens: real, rate: real)
    ensures tokens / 1000.0 * rate * 1000.0 == tokens * rate
    ensures tokens / 1000000.0 * rate * 1000000.0 == tokens * rate
  {
  }

  lemma UsdPerThousand(tokens: int, rate: real)
    ensures PerThousand(Usd(tokens, rate), tokens, rate)
  {
    hide Usd, Abs;
    var n := NonNegative(tokens) as real;
    Part(n, rate);
    Scaled(Usd(tokens, rate), n / 1000.0 * rate, 0.00005, 1000.0, n * rate);
  }

  lemma UsdPerMillion(prompt: int, completion: int, rate: Rate)
    ensures PerMillion(UsdFromRates(prompt, completion, rate), prompt, completion, rate)
  {
    hide UsdFromRates, ExactUsd, Abs;
    ExactPerMillion(prompt, completion, rate);
    var exact := NonNegative(prompt) as real * rate.input + NonNegative(completion) as real * rate.output;
    Scaled(
      UsdFromRates(prompt, completion, rate), ExactUsd(prompt, completion, rate), 0.0000005, 1000000.0, exact);
  }

  lemma ExactPerMillion(prompt: int, completion: int, rate: Rate)
    ensures
      ExactUsd(prompt, completion, rate) * 1000000.0 ==
        NonNegative(prompt) as real * rate.input + NonNegative(completion) as real * rate.output
  {
    Part(NonNegative(prompt) as real, rate.input);
    Part(NonNegative(completion) as real, rate.output);
    hide NonNegative;
  }

  // ----- which rate applies

  lemma {:induction false} ExactlyFirst(rates: Rates, key: string)
    ensures
      match Exactly(rates, key)
      case None => forall i :: 0 <= i < |rates| ==> rates[i].0 != key
      case Some(rate) => exists i :: 0 <= i < |rates| && rates[i] == (key, rate)
  {
    if rates != [] && rates[0].0 != key {
      ExactlyFirst(rates[1..], key);
      if Exactly(rates, key).Some? {
        var i :| 0 <= i < |rates[1..]| && rates[1..][i] == (key, Exactly(rates, key).value);
        assert rates[i + 1] == (key, Exactly(rates, key).value);
      } else {
        assert forall i :: 1 <= i < |rates| ==> rates[i] == rates[1..][i - 1];
      }
    }
  }

  lemma {:induction false} FirstRelatedFirst(rates: Rates, key: string)
    ensures
      match FirstRelated(rates, key)
      case None => forall i :: 0 <= i < |rates| ==> !Related(rates[i].0, key)
      case Some(rate) =>
        exists i :: 0 <= i < |rates| && rates[i].1 == rate && Related(rates[i].0, key)
                    && forall j :: 0 <= j < i ==> !Related(rates[j].0, key)
  {
    hide Related;
    if rates != [] && !Related(rates[0].0, key) {
      FirstRelatedFirst(rates[1..], key);
      assert forall i :: 1 <= i < |rates| ==> rates[i] == rates[1..][i - 1];
      if FirstRelated(rates, key).Some? {
        var i :| 0 <= i < |rates[1..]| && rates[1..][i].1 == FirstRelated(rates, key).value
                 && Related(rates[1..][i].0, key) && forall j :: 0 <= j < i ==> !Related(rates[1..][j].0, key);
        assert rates[i + 1].1 == FirstRelated(rates, key).value && Related(rates[i + 1].0, key);
      }
    }
  }

  /** The model's name as it is looked up: bare, in lower case, with dashes for spaces. */
  predicate LookedUpAs(model: string, key: string) {
    && |key| == |Strip(model)|
    && forall i :: 0 <= i < |key| ==> key[i] == if Strip(model)[i] == ' ' then '-' else LowerChar(Strip(model)[i])
  }

  /** One of the names is part of the other. */
  predicate Akin(name: string, key: string) {
    (exists i :: 0 <= i <= |name| && key <= name[i..]) || exists i :: 0 <= i <= |key| && name <= key[i..]
  }

  lemma KeyIs(model: string)
    ensures LookedUpAs(model, NormalizeModelKey(model))
    ensures forall key :: LookedUpAs(model, key) ==> key == NormalizeModelKey(model)
  {
    hide Strip;
  }

  lemma RelatedIsAkin(name: string, key: string)
    ensures Related(name, key) <==> Akin(name, key)
  {
  }

  /**
    The rate is that stored under the model's name as it is looked up if there is one;
    failing that, the first under a name that is part of it or that it is part of; there
    is none only when no stored name is such a one.
  */
  lemma LookupFinds(model: string, rates: Rates, key: string)
    requires LookedUpAs(model, key)
    ensures
      match LookupModelRate(model, rates)
      case None => forall i :: 0 <= i < |rates| ==> rates[i].0 != key && !Akin(rates[i].0, key)
      case Some(rate) =>
        || (exists i :: 0 <= i < |rates| && rates[i] == (key, rate))
        || ((forall i :: 0 <= i < |rates| ==> rates[i].0 != key)
            && exists i :: 0 <= i < |rates| && rates[i].1 == rate && Akin(rates[i].0, key)
                           && forall j :: 0 <= j < i ==> !Akin(rates[j].0, key))
  {
    KeyIs(model);
    forall i | 0 <= i < |rates| ensures Related(rates[i].0, key) <==> Akin(rates[i].0, key) {
      RelatedIsAkin(rates[i].0, key);
    }
    hide Related, Akin, NormalizeModelKey, Exactly, FirstRelated, LookedUpAs;
    ExactlyFirst(rates, key);
    FirstRelatedFirst(rates, key);
  }
}

/** The company row the dashboard fetches, and the values stored in it. */
module Records {
  import opened Wrappers

  /** The five independent capability columns, in the order the filter state
      lists them. */
  datatype Flag = Web3Native | InferenceApis | CustomModelHosting | FineTuningPipeline | RentGpuCompute

  const AllFlags: seq<Flag> := [Web3Native, InferenceApis, CustomModelHosting, FineTuningPipeline, RentGpuCompute]

  lemma AllFlagsListsEveryFlag(f: Flag)
    ensures f in AllFlags
  {
  }

  /** A JavaScript value as it can arrive in a capability column. Only
      `Bool(true)` is `=== true`; `Text` and `Number` values can be truthy
      without being `true`. */
  datatype Cell = Bool(b: bool) | Null | Text(s: string) | Number(n: int)

  /** A funding figure in millions of dollars, held exactly as a whole number
      of tenths of a million (38.5 is `Amount(385)`). Every figure in the
      dashboard page's funding table has at most one decimal place. */
  datatype Amount = Amount(tenths: nat)

  /** JavaScript truthiness of a funding figure: only zero is falsy. */
  predicate AmountTruthy(a: Amount) {
    a.tenths != 0
  }

  /** One row of the company table, plus the `funding_amount` the dashboard
      derives on every fetch. */
  datatype Company = Company(
    id: string,
    name: string,
    website: string,
    headline: string,
    founded: int,
    web3Native: Cell,
    inferenceApis: Cell,
    customModelHosting: Cell,
    fineTuningPipeline: Cell,
    rentGpuCompute: Cell,
    createdBy: Option<string>,
    fundingAmount: Option<Amount>)

  /** `company[flag]`. */
  function Capability(c: Company, f: Flag): Cell {
    match f
    case Web3Native => c.web3Native
    case InferenceApis => c.inferenceApis
    case CustomModelHosting => c.customModelHosting
    case FineTuningPipeline => c.fineTuningPipeline
    case RentGpuCompute => c.rentGpuCompute
  }
}

// The three-part task description exchanged between client, dispatcher and
// worker: what data, what computation, how to dispatch it.
module Protocol {

  datatype Option<+T> = None | Some(value: T)

  datatype Result<+T> = Ok(value: T) | Err(error: string)

  /** Market data as the codecs see it; Missing is the absent value. */
  datatype Data = Missing | Table(cells: seq<real>)

  type Bytes = seq<nat>

  datatype DataSpec = DataSpec(
    symbols: seq<string>,
    timeframe: string,
    start: Option<string>,
    end: Option<string>,
    source: Option<string>)

  /** One entry of the parameter grid: a parameter name and its candidate values. */
  datatype Axis = Axis(name: string, values: seq<string>)

  /** A named strategy reference. */
  datatype Strategy = Strategy(name: string, ref: string)

  /** Dictionaries keep their insertion order; [] stands for an absent or empty one. */
  datatype ComputeSpec = ComputeSpec(
    taskType: string,
    paramGrid: seq<Axis>,
    strategies: seq<Strategy>,
    feeModels: seq<string>,
    nSimulations: int,
    seed: int,
    inlineData: Data,
    inlineDataB64: Data)

  datatype DispatchSpec = DispatchSpec(
    splitStrategy: string,
    maxWorkers: Option<int>,
    priority: int)

  datatype TaskSpec = TaskSpec(
    taskId: string,
    dataSpec: DataSpec,
    computeSpec: ComputeSpec,
    dispatchSpec: DispatchSpec)
}

/** The profiling-bundle job: `run` and `_generate_profiling_input_binary_data`.
    The database, the model reader, the tokenizer, the dataset adapter and the
    configuration and script generators are collaborators whose answers are
    parameters here: the job record's fields, a tokenizer factory taking the
    shape dictionary, and the rows the dataset adapter yields for a row count. */
module ProfilingJob {
  import opened Errors
  import opened CountPlanning
  import opened NetworkInputs
  import opened BinaryEncoding
  import opened FileNames
  import opened InputFileMapping
  import opened Generation
  import opened GenerationProperties

  /** What the job reads from its profiling job record and the records it links to. */
  datatype ProfilingJobRecord = ProfilingJobRecord(
    autogenerated: bool,
    inferences: seq<Inference>,
    numberImages: int,
    modelInputs: seq<ModelInput>,
    binaryDatasetDirectory: string)

  /** The tokenizer with `tokenizer_kwargs_from_model_shape(shapes)` bound to it. */
  type TokenizerFactory = map<string, seq<int>> -> Tokenizer

  /** The samples `feature_iter` yields from an adapter built for a number of rows. */
  type DatasetRows = int -> seq<string>

  /** The job states the run reports. */
  datatype Status = Running | Ready

  /** What the run hands on: the binary files it wrote and the mapping passed
      to the configuration generator (`None` for an autogenerated job). */
  datatype Bundle = Bundle(files: map<string, seq<Byte>>, mapping: Option<FileMapping>)

  /** The states reported, and the bundle or the error that ended the run. */
  datatype Outcome = Outcome(statuses: seq<Status>, result: Result<Bundle>)

  /** The number of inputs, then the model's inputs, then the loop. The count
      is computed before the model is read, so an empty inference list is
      reported even when the model's inputs are malformed too. */
  function GenerateProfilingInputBinaryData(job: ProfilingJobRecord, tokenizer: TokenizerFactory,
                                            rows: DatasetRows): (r: Result<Output>)
    ensures |job.inferences| == 0 ==> r == Err(EmptyInferencePlan)
    ensures r.Ok? <==> |job.inferences| > 0 && GetNetworkInputs(job.modelInputs).Ok?
    ensures |job.inferences| > 0 && GetNetworkInputs(job.modelInputs).Err?
            ==> r == Err(GetNetworkInputs(job.modelInputs).error)
    ensures r.Ok? ==> Valid(r.value.mapping)
  {
    match NumberOfGeneratedInputs(job.inferences, job.numberImages)
    case Err(e) => Err(e)
    case Ok(count) =>
      match GetNetworkInputs(job.modelInputs)
      case Err(e) => Err(e)
      case Ok(inputs) =>
        Ok(GenerateInputs(job.binaryDatasetDirectory, count, rows(count),
                          tokenizer(inputs.shapes), inputs.dataTypes))
  }

  /** The run: binary inputs only for a job that is not autogenerated, then
      the (external) configuration and script generation, then `ready`. */
  function Run(job: ProfilingJobRecord, tokenizer: TokenizerFactory, rows: DatasetRows): (out: Outcome)
    ensures out.statuses == if out.result.Ok? then [Running, Ready] else [Running]
    ensures job.autogenerated ==> out.result == Ok(Bundle(map[], None))
    ensures !job.autogenerated ==>
              (out.result.Ok? <==> |job.inferences| > 0 && GetNetworkInputs(job.modelInputs).Ok?)
    ensures !job.autogenerated && |job.inferences| == 0 ==> out.result == Err(EmptyInferencePlan)
    ensures !job.autogenerated && out.result.Ok? ==>
              out.result.value.mapping.Some? && Valid(out.result.value.mapping.value)
  {
    if job.autogenerated then Outcome([Running, Ready], Ok(Bundle(map[], None)))
    else
      match GenerateProfilingInputBinaryData(job, tokenizer, rows)
      case Err(e) => Outcome([Running], Err(e))
      case Ok(output) => Outcome([Running, Ready], Ok(Bundle(output.files, Some(output.mapping))))
  }

  /** A dimension that is not an integer, such as a dynamic one, fails the run
      before any binary file is written, whatever the element types say. */
  lemma UnresolvedDimensionFailsRun(job: ProfilingJobRecord, tokenizer: TokenizerFactory, rows: DatasetRows,
                                    i: nat, d: nat)
    requires !job.autogenerated && |job.inferences| > 0
    requires i < |job.modelInputs| && d < |job.modelInputs[i].dimensions|
    requires ParseDimension(job.modelInputs[i].dimensions[d]).Err?
    ensures Run(job, tokenizer, rows).result.Err?
    ensures Run(job, tokenizer, rows).result.error.UnresolvedDimension?
    ensures Run(job, tokenizer, rows).statuses == [Running]
  {
    assert ParseShape(job.modelInputs[i].dimensions).Err?;
  }

  /** The run's error names the first unresolvable dimension of the first input
      whose shape does not convert. */
  lemma FirstUnresolvedDimensionFailsRun(job: ProfilingJobRecord, tokenizer: TokenizerFactory, rows: DatasetRows,
                                         i: nat, d: nat)
    requires !job.autogenerated && |job.inferences| > 0
    requires i < |job.modelInputs| && d < |job.modelInputs[i].dimensions|
    requires forall j :: 0 <= j < i ==> ParseShape(job.modelInputs[j].dimensions).Ok?
    requires ParseDimension(job.modelInputs[i].dimensions[d]).Err?
    requires forall e :: 0 <= e < d ==> ParseDimension(job.modelInputs[i].dimensions[e]).Ok?
    ensures Run(job, tokenizer, rows).result == Err(UnresolvedDimension(job.modelInputs[i].dimensions[d]))
    ensures Run(job, tokenizer, rows).statuses == [Running]
  {
    UnresolvedDimensionFails(job.modelInputs, i, d);
  }

  /** With every dimension resolved, the first input whose element type is not
      in the table fails the run with the lookup of that type name. */
  lemma UnsupportedTypeFailsRun(job: ProfilingJobRecord, tokenizer: TokenizerFactory, rows: DatasetRows, i: nat)
    requires !job.autogenerated && |job.inferences| > 0
    requires forall k :: 0 <= k < |job.modelInputs| ==> ParseShape(job.modelInputs[k].dimensions).Ok?
    requires i < |job.modelInputs| && ParseTypeName(job.modelInputs[i].typeName).Err?
    requires forall j :: 0 <= j < i ==> ParseTypeName(job.modelInputs[j].typeName).Ok?
    ensures Run(job, tokenizer, rows).result == Err(UnsupportedElementType(job.modelInputs[i].typeName))
    ensures Run(job, tokenizer, rows).statuses == [Running]
  {
    UnsupportedTypeFails(job.modelInputs, i);
  }

  /** The count of generated inputs for a job whose inference list is not empty. */
  function Count(job: ProfilingJobRecord): (n: int)
    requires |job.inferences| > 0
    ensures n <= Capacity(job.numberImages)
    ensures NumberOfGeneratedInputs(job.inferences, job.numberImages) == Ok(n)
  {
    NumberOfGeneratedInputs(job.inferences, job.numberImages).value
  }

  /** For a tokenizer that names its outputs the same way for every row, each
      input name paired with a model data type maps to one path per loop
      iteration, `{name}_{idx:03d}.bin` with `idx` ascending from 0, and the
      number of iterations is the count, or fewer when the dataset runs out. */
  lemma RunMapping(job: ProfilingJobRecord, tokenizer: TokenizerFactory, rows: DatasetRows,
                   names: seq<string>, k: nat)
    requires !job.autogenerated && |job.inferences| > 0 && GetNetworkInputs(job.modelInputs).Ok?
    requires Consistent(rows(Count(job)), tokenizer(GetNetworkInputs(job.modelInputs).value.shapes),
                        Iterations(Count(job), |rows(Count(job))|), names)
    requires k < Paired(names, GetNetworkInputs(job.modelInputs).value.dataTypes)
    ensures Run(job, tokenizer, rows).result.Ok?
    ensures Iterations(Count(job), |rows(Count(job))|) <= Capacity(job.numberImages)
    ensures |Get(Run(job, tokenizer, rows).result.value.mapping.value, names[k])|
            == Iterations(Count(job), |rows(Count(job))|)
    ensures forall idx :: 0 <= idx < Iterations(Count(job), |rows(Count(job))|) ==>
              Get(Run(job, tokenizer, rows).result.value.mapping.value, names[k])[idx]
              == PathOf(job.binaryDatasetDirectory, names[k], idx)
  {
    var inputs := GetNetworkInputs(job.modelInputs).value;
    MappingOfPairedName(job.binaryDatasetDirectory, Count(job), rows(Count(job)), tokenizer(inputs.shapes),
                        inputs.dataTypes, names, k);
  }

  /** Each generated file, read back at the data type of the k-th model input,
      gives the k-th tokenizer output of that row after the cast. */
  lemma RunFileDecodes(job: ProfilingJobRecord, tokenizer: TokenizerFactory, rows: DatasetRows,
                       names: seq<string>, idx: nat, k: nat)
    requires !job.autogenerated && |job.inferences| > 0 && GetNetworkInputs(job.modelInputs).Ok?
    requires Consistent(rows(Count(job)), tokenizer(GetNetworkInputs(job.modelInputs).value.shapes),
                        Iterations(Count(job), |rows(Count(job))|), names)
    requires idx < Iterations(Count(job), |rows(Count(job))|)
    requires k < Paired(names, GetNetworkInputs(job.modelInputs).value.dataTypes)
    ensures PathOf(job.binaryDatasetDirectory, names[k], idx) in Run(job, tokenizer, rows).result.value.files
    ensures DecodeArray(Run(job, tokenizer, rows).result.value.files[PathOf(job.binaryDatasetDirectory, names[k], idx)],
                        GetNetworkInputs(job.modelInputs).value.dataTypes[k])
            == Some(CastAll(tokenizer(GetNetworkInputs(job.modelInputs).value.shapes)(rows(Count(job))[idx])[k].data,
                            GetNetworkInputs(job.modelInputs).value.dataTypes[k]))
  {
    var inputs := GetNetworkInputs(job.modelInputs).value;
    GeneratedFileDecodes(job.binaryDatasetDirectory, Count(job), rows(Count(job)), tokenizer(inputs.shapes),
                         inputs.dataTypes, names, idx, k);
  }
}

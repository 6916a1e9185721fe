# Profiling-input generation of the DL Workbench profiling bundle job

This project models the part of the DL Workbench `CreateProfilingScriptsJob` that builds the binary inputs of a profiling bundle. Dafny proves properties of the model.

- **Run.** A job that is not autogenerated gets binary inputs. An autogenerated job gets none, and the configuration generator then receives `None` instead of a mapping.
- **Count.** The number of generated inputs is the heaviest planned inference's `batch * nireq`. It is capped by the dataset size, and that cap is at least one.
- **Model inputs.** For each model input, the job reads its shape by converting every dimension with `int(str(dimension))`, and its element type through the table `i32`/`i64`.
- **Loop.** The loop walks `zip(range(count), samples)`. Each tokenized sample is zipped with the element types. Every output is cast, dumped raw to `{name}_{idx:03d}.bin` in the binary dataset directory, and registered in the input-file mapping.

Modules, one per component:

- `Errors`: the error kinds, `Result` and `Option`.
- `Decimal`: `str()` of integers and digit values.
- `CountPlanning`: the number of generated inputs.
- `NetworkInputs`: the element-type table, Python's `int()` on a dimension's text, the shape dictionary and the data-type list.
- `BinaryEncoding`: `astype` as a wrapping cast and `tofile` as fixed-width two's-complement bytes, with a decoder to read them back.
- `FileNames`: `{name}_{idx:03d}.bin` and its inverse.
- `InputFileMapping`: the ordered, append-only mapping from input name to file paths.
- `Generation`: the loop as the ordered list of its writes, and the two folds over that list, one for the directory contents and one for the mapping.
- `GenerationProperties`: what those folds leave.
- `GenerationLoop`: the two nested loops written as loops, proved equal to the folds.
- `ProfilingJob`: `run` and `_generate_profiling_input_binary_data`.

Behaviour of the code worth noting:

- The count is at least one only when some inference has a positive `batch * nireq`. It can be zero or negative, and then `range(count)` gives no iterations at all.
- No element-count check is made against the model's shape. Arrays are dumped as the tokenizer returns them, so there is no shape-mismatch error.
- `int()` accepts negative dimensions and underscore-grouped digits.
- There are fewer files per input than the count when the dataset yields fewer samples. Outputs beyond the number of element types get no file, and neither do element types beyond the number of outputs.
- An empty inference list raises inside `max()` before the model's inputs are read. The model reports it as `EmptyInferencePlan`.
- A failing run reports only `running`. The job's own code never reports a failed status.

## Model

| member | source | states |
|---|---|---|
| CountPlanning.NumberOfGeneratedInputs | wb/main/jobs/create_profiling_bundle/create_profiling_scripts_job.py:112-115 | An error exactly for an empty inference list. Otherwise the count is at most max(number of images, 1), at least min(batch*nireq, that bound) for every inference, at most some inference's batch*nireq, and equal either to the bound or to some inference's batch*nireq. So it is min(largest batch*nireq, max(number of images, 1)) |
| CountPlanning.MaxLoad | wb/main/jobs/create_profiling_bundle/create_profiling_scripts_job.py:114 | The `max` over the plan is at least every inference's batch*nireq and equal to one of them |
| CountPlanning.Capacity | wb/main/jobs/create_profiling_bundle/create_profiling_scripts_job.py:115 | `max(number_images, 1)` is at least one, at least the number of images, and one of the two |
| CountPlanning.CountPositive | wb/main/jobs/create_profiling_bundle/create_profiling_scripts_job.py:112-115 | The count is at least one if and only if some inference has batch*nireq >= 1, so it is at least one when every batch and nireq is positive |
| CountPlanning.EmptyDatasetGivesOneInput | wb/main/jobs/create_profiling_bundle/create_profiling_scripts_job.py:115 | With zero images and some positive load, exactly one input is generated, not zero |
| CountPlanning.ScenarioDatasetLarger | wb/main/jobs/create_profiling_bundle/create_profiling_scripts_job.py:114-115 | batch 2 with nireq 3 and ten images gives six inputs |
| CountPlanning.ScenarioDatasetSmaller | wb/main/jobs/create_profiling_bundle/create_profiling_scripts_job.py:114-115 | batch 4 with nireq 4 and three images gives three inputs |
| NetworkInputs.ParseTypeName | wb/main/jobs/create_profiling_bundle/create_profiling_scripts_job.py:122-125 | `i32` gives the 32-bit type and `i64` the 64-bit type, each if and only if the name is that string. Every other name is the lookup error carrying that name |
| NetworkInputs.ParseDimension | wb/main/jobs/create_profiling_bundle/create_profiling_scripts_job.py:131 | A failed conversion is the unresolved-dimension error carrying the dimension's text. What it accepts is stated by the round-trip and rejection lemmas |
| NetworkInputs.ParseShowRoundTrip | wb/main/jobs/create_profiling_bundle/create_profiling_scripts_job.py:131 | `int(str(d))` gives back every static dimension d, negative ones included |
| NetworkInputs.ForeignCharacterRejected | wb/main/jobs/create_profiling_bundle/create_profiling_scripts_job.py:131 | A dimension text with any character other than white space, a sign, a digit or `_` fails with that text, as the `1..10` of a bounded dimension does |
| NetworkInputs.DynamicDimensionRejected | wb/main/jobs/create_profiling_bundle/create_profiling_scripts_job.py:131 | The `?` of a dynamic dimension fails the conversion |
| NetworkInputs.NoSpaceStripsToItself | wb/main/jobs/create_profiling_bundle/create_profiling_scripts_job.py:131 | Text that neither starts nor ends with white space is left unchanged by `int()`'s stripping |
| NetworkInputs.TrimStart | wb/main/jobs/create_profiling_bundle/create_profiling_scripts_job.py:131 | Removes exactly the leading white space. The result is a suffix, everything removed is white space, and the result does not start with white space |
| NetworkInputs.TrimEnd | wb/main/jobs/create_profiling_bundle/create_profiling_scripts_job.py:131 | Removes exactly the trailing white space. The result is a prefix, everything removed is white space, and the result does not end with white space |
| NetworkInputs.DropUnderscores | wb/main/jobs/create_profiling_bundle/create_profiling_scripts_job.py:131 | Leaves only digits, and leaves a digit string unchanged. With the lemmas below, it keeps the digits in their order |
| NetworkInputs.DropUnderscoresOne | wb/main/jobs/create_profiling_bundle/create_profiling_scripts_job.py:131 | One `_` is removed and one digit is kept |
| NetworkInputs.DropUnderscoresConcat | wb/main/jobs/create_profiling_bundle/create_profiling_scripts_job.py:131 | Removing underscores from a concatenation is removing them from each part, so the digits keep their order |
| NetworkInputs.DropJoined | wb/main/jobs/create_profiling_bundle/create_profiling_scripts_job.py:131 | Two digit groups joined by `_` lose only the underscore |
| NetworkInputs.JoinedGroupsWellGrouped | wb/main/jobs/create_profiling_bundle/create_profiling_scripts_job.py:131 | Two non-empty digit groups joined by one `_` are accepted by the grouping rule |
| NetworkInputs.UnsignedDimension | wb/main/jobs/create_profiling_bundle/create_profiling_scripts_job.py:131 | Unpadded text starting with a digit converts to its unsigned value |
| NetworkInputs.UnderscoreGroupingIgnored | wb/main/jobs/create_profiling_bundle/create_profiling_scripts_job.py:131 | An underscore between two groups of digits does not change the value: `1_000` converts to 1000 |
| NetworkInputs.Collect | wb/main/jobs/create_profiling_bundle/create_profiling_scripts_job.py:129-134 | Building the list succeeds if and only if every element succeeds, and then holds each element's value at its position. A failure is the failure of one of the elements |
| NetworkInputs.CollectFirstFailure | wb/main/jobs/create_profiling_bundle/create_profiling_scripts_job.py:129-134 | A failed list carries the error of its first failing element |
| NetworkInputs.ParseShape | wb/main/jobs/create_profiling_bundle/create_profiling_scripts_job.py:129-134 | An input's shape exists if and only if every dimension converts. It then has one entry per dimension, each that dimension's value. An error is an unresolved dimension |
| NetworkInputs.ParseShapeFirstFailure | wb/main/jobs/create_profiling_bundle/create_profiling_scripts_job.py:129-134 | The error of a shape names the first dimension that does not convert |
| NetworkInputs.BuildMap | wb/main/jobs/create_profiling_bundle/create_profiling_scripts_job.py:128-136 | The dict comprehension succeeds if and only if every value does. Its keys are exactly the entries' keys, and an error is the error of the first failing entry |
| NetworkInputs.BuildMapFirstFailure | wb/main/jobs/create_profiling_bundle/create_profiling_scripts_job.py:128-136 | A failed dictionary carries the error of its first failing entry |
| NetworkInputs.Keys | wb/main/jobs/create_profiling_bundle/create_profiling_scripts_job.py:128-136 | A key is present if and only if some entry carries it |
| NetworkInputs.BuildMapLastWins | wb/main/jobs/create_profiling_bundle/create_profiling_scripts_job.py:128-136 | A key's value comes from the last entry carrying that key |
| NetworkInputs.ParseShapes | wb/main/jobs/create_profiling_bundle/create_profiling_scripts_job.py:128-136 | The shape dictionary exists if and only if every input's shape does. Its keys are exactly the input names, and its error is an unresolved dimension: the shape error of the first input whose shape does not convert |
| NetworkInputs.ParseShapesFirstFailure | wb/main/jobs/create_profiling_bundle/create_profiling_scripts_job.py:128-136 | The dictionary fails with the first unconvertible dimension of the first input whose shape fails |
| NetworkInputs.ParseShapesLastWins | wb/main/jobs/create_profiling_bundle/create_profiling_scripts_job.py:128-136 | When two inputs share a name, the dictionary keeps the shape of the later one |
| NetworkInputs.ParseTypes | wb/main/jobs/create_profiling_bundle/create_profiling_scripts_job.py:137 | The data types exist if and only if every type name is in the table. They then follow the input order, and an error comes from the first unknown name |
| NetworkInputs.GetNetworkInputs | wb/main/jobs/create_profiling_bundle/create_profiling_scripts_job.py:118-139 | Succeeds if and only if every shape converts and every type name is known. A bad dimension is reported even when a type name is also unknown, as the shape error of the first input whose shape fails. Shape keys are the input names, and the types follow the inputs. The result is exactly the shape dictionary and type list. When every shape converts, a failure is the lookup error of the first unknown type name |
| NetworkInputs.UnresolvedDimensionFails | wb/main/jobs/create_profiling_bundle/create_profiling_scripts_job.py:128-136 | The inputs fail with the first unconvertible dimension of the first input whose shape fails, whatever the type names |
| NetworkInputs.UnsupportedTypeFails | wb/main/jobs/create_profiling_bundle/create_profiling_scripts_job.py:137 | With every shape converting, the first unknown type name is the error |
| BinaryEncoding.ModulusIsPower | wb/main/jobs/create_profiling_bundle/create_profiling_scripts_job.py:106 | That number is 256 to the power of the width in bytes |
| BinaryEncoding.Cast | wb/main/jobs/create_profiling_bundle/create_profiling_scripts_job.py:106 | `astype` gives the one value in the type's signed range that is congruent to the input modulo 2^32 or 2^64 |
| BinaryEncoding.CastAll | wb/main/jobs/create_profiling_bundle/create_profiling_scripts_job.py:106 | Every element is cast, at its position |
| BinaryEncoding.EncodeUnsigned | wb/main/jobs/create_profiling_bundle/create_profiling_scripts_job.py:106 | Produces exactly the requested number of bytes |
| BinaryEncoding.DecodeUnsigned | wb/main/jobs/create_profiling_bundle/create_profiling_scripts_job.py:106 | Reads a value below 256 to the power of the byte count |
| BinaryEncoding.EncodeValue | wb/main/jobs/create_profiling_bundle/create_profiling_scripts_job.py:106 | One element occupies exactly the type's width |
| BinaryEncoding.DecodeValue | wb/main/jobs/create_profiling_bundle/create_profiling_scripts_job.py:106 | Reading one element back gives a value in the type's range |
| BinaryEncoding.EncodeArray | wb/main/jobs/create_profiling_bundle/create_profiling_scripts_job.py:106 | `tofile` writes no header: the file is exactly length times width bytes |
| BinaryEncoding.DecodeArray | wb/main/jobs/create_profiling_bundle/create_profiling_scripts_job.py:106 | A file read back holds a whole number of elements, all in range. A trailing partial element is rejected |
| BinaryEncoding.UnsignedRoundTrip | wb/main/jobs/create_profiling_bundle/create_profiling_scripts_job.py:106 | Little-endian bytes of an in-range value read back to that value |
| BinaryEncoding.ValueRoundTrip | wb/main/jobs/create_profiling_bundle/create_profiling_scripts_job.py:106 | An element's bytes read back to the cast value |
| BinaryEncoding.ArrayRoundTrip | wb/main/jobs/create_profiling_bundle/create_profiling_scripts_job.py:106 | A dumped array read back at its element type is the cast array. The file holds the values and nothing else |
| BinaryEncoding.CastKeepsInRange | wb/main/jobs/create_profiling_bundle/create_profiling_scripts_job.py:106 | A value already in range survives the cast unchanged |
| BinaryEncoding.EncodeIgnoresCast | wb/main/jobs/create_profiling_bundle/create_profiling_scripts_job.py:106 | Casting before the dump writes the same bytes as dumping directly |
| FileNames.Pad3 | wb/main/jobs/create_profiling_bundle/create_profiling_scripts_job.py:104 | `{idx:03d}` is all digits and at least three long. It is the plain decimal spelling from 1000 on, and exactly three digits below |
| FileNames.PadValue | wb/main/jobs/create_profiling_bundle/create_profiling_scripts_job.py:104 | The padded index reads back as the index |
| FileNames.LastIndexOf | wb/main/jobs/create_profiling_bundle/create_profiling_scripts_job.py:104 | Finds the last occurrence of a character, or reports that there is none |
| FileNames.LastIndexAfterPrefix | wb/main/jobs/create_profiling_bundle/create_profiling_scripts_job.py:104 | The last `_` of `name_ddd` is the one before the digits |
| FileNames.SplitFileName | wb/main/jobs/create_profiling_bundle/create_profiling_scripts_job.py:104 | A recognised file name is at least eight characters longer than the name it yields |
| FileNames.SplitFileNameRoundTrip | wb/main/jobs/create_profiling_bundle/create_profiling_scripts_job.py:104 | Splitting `{name}_{idx:03d}.bin` gives back the name and the index |
| FileNames.FileNameInjective | wb/main/jobs/create_profiling_bundle/create_profiling_scripts_job.py:104 | Distinct (name, index) pairs never share a file name, even when names contain `_` and digits |
| FileNames.PathInjective | wb/main/jobs/create_profiling_bundle/create_profiling_scripts_job.py:104 | Within one directory, distinct pairs never share a path, for input names that are plain file-name components |
| FileNames.FileNameExamples | wb/main/jobs/create_profiling_bundle/create_profiling_scripts_job.py:104 | Index 7 gives `input_ids_007.bin` and index 1234 gives `input_ids_1234.bin` |
| Generation.DirectoryNamerInjective | wb/main/jobs/create_profiling_bundle/create_profiling_scripts_job.py:104 | The job's naming inside the binary dataset directory is injective, for input names that are plain file-name components |
| Generation.Iterations | wb/main/jobs/create_profiling_bundle/create_profiling_scripts_job.py:101 | The `zip` runs no more times than there are samples. A non-positive count gives none. Otherwise it runs min(count, samples) times |
| Generation.SampleWrites | wb/main/jobs/create_profiling_bundle/create_profiling_scripts_job.py:103-107 | One iteration writes min(outputs, types) files. The k-th carries output k's name and index, the path the naming gives, and the dump of output k at type k |
| Generation.Register | wb/main/jobs/create_profiling_bundle/create_profiling_scripts_job.py:99-107 | `add_input_file` over the writes gives a valid mapping. Each name's paths are those of its writes, in order, and the keys are exactly the written names |
| Generation.WrittenNames | wb/main/jobs/create_profiling_bundle/create_profiling_scripts_job.py:107 | Holds the name of every write |
| Generation.WrittenPaths | wb/main/jobs/create_profiling_bundle/create_profiling_scripts_job.py:105 | Holds the path of every write |
| Generation.WriteFiles | wb/main/jobs/create_profiling_bundle/create_profiling_scripts_job.py:104-106 | The directory holds exactly the written paths |
| Generation.GenerateInputs | wb/main/jobs/create_profiling_bundle/create_profiling_scripts_job.py:99-109 | The loop's mapping is valid |
| GenerationProperties.PathsForConcat | wb/main/jobs/create_profiling_bundle/create_profiling_scripts_job.py:107 | The paths registered by consecutive runs of writes are concatenated |
| GenerationProperties.RegisteredIffWritten | wb/main/jobs/create_profiling_bundle/create_profiling_scripts_job.py:107 | A name is a key if and only if some path was registered under it |
| GenerationProperties.PathsForNone | wb/main/jobs/create_profiling_bundle/create_profiling_scripts_job.py:107 | A name no write carries has no paths |
| GenerationProperties.PathsForOne | wb/main/jobs/create_profiling_bundle/create_profiling_scripts_job.py:107 | A name exactly one write carries has exactly that write's path |
| GenerationProperties.NotWritten | wb/main/jobs/create_profiling_bundle/create_profiling_scripts_job.py:105 | A path no write targets is not in the directory |
| GenerationProperties.LastWriteWins | wb/main/jobs/create_profiling_bundle/create_profiling_scripts_job.py:105-106 | A file holds the contents of the last write to its path |
| GenerationProperties.WriteFilesConcat | wb/main/jobs/create_profiling_bundle/create_profiling_scripts_job.py:105-106 | Later writes override earlier ones, and the directory's paths are the union of both runs' paths |
| GenerationProperties.WrittenPathHasWrite | wb/main/jobs/create_profiling_bundle/create_profiling_scripts_job.py:105 | Every path in the directory comes from some write |
| GenerationProperties.SampleRegistersPairedName | wb/main/jobs/create_profiling_bundle/create_profiling_scripts_job.py:103-107 | One iteration registers each paired output name once, at its path |
| GenerationProperties.SampleSkipsOtherName | wb/main/jobs/create_profiling_bundle/create_profiling_scripts_job.py:103 | One iteration registers nothing under a name that is not paired with a type |
| GenerationProperties.SampleFile | wb/main/jobs/create_profiling_bundle/create_profiling_scripts_job.py:104-106 | One iteration's file for paired output k holds that output's dump at type k |
| GenerationProperties.SampleMissesOtherIndex | wb/main/jobs/create_profiling_bundle/create_profiling_scripts_job.py:104 | One iteration writes no file that belongs to another index |
| GenerationProperties.SampleOnlyPairedPaths | wb/main/jobs/create_profiling_bundle/create_profiling_scripts_job.py:103-105 | One iteration writes only the files of its paired outputs |
| GenerationProperties.ExpectedPathsSnoc | wb/main/jobs/create_profiling_bundle/create_profiling_scripts_job.py:101-104 | One more iteration appends that iteration's path |
| GenerationProperties.WritesStep | wb/main/jobs/create_profiling_bundle/create_profiling_scripts_job.py:101-107 | The writes of idx+1 iterations are those of idx iterations followed by iteration idx's |
| GenerationProperties.PairedNamePaths | wb/main/jobs/create_profiling_bundle/create_profiling_scripts_job.py:101-107 | When every sample tokenizes to the same distinct output names in the same order, a paired name's paths are one per iteration, in ascending index order |
| GenerationProperties.OtherNamePaths | wb/main/jobs/create_profiling_bundle/create_profiling_scripts_job.py:103-107 | When every sample tokenizes to the same distinct output names in the same order, a name never paired with a type is never registered |
| GenerationProperties.OnlyGeneratedPaths | wb/main/jobs/create_profiling_bundle/create_profiling_scripts_job.py:101-105 | When every sample tokenizes to the same distinct output names in the same order, every written path is the file of a paired output at some iteration |
| GenerationProperties.WriteCount | wb/main/jobs/create_profiling_bundle/create_profiling_scripts_job.py:101-107 | When every sample tokenizes to the same distinct output names in the same order, `add_input_file` runs iterations times paired-outputs times |
| GenerationProperties.FileOfWrite | wb/main/jobs/create_profiling_bundle/create_profiling_scripts_job.py:101-106 | When every sample tokenizes to the same distinct output names in the same order, the file of paired output k at iteration i exists and holds that output's dump |
| GenerationProperties.MappingOfPairedName | wb/main/jobs/create_profiling_bundle/create_profiling_scripts_job.py:99-109 | When every sample tokenizes to the same distinct output names in the same order, each paired input name maps to exactly one path per iteration, `{name}_{idx:03d}.bin` in ascending idx |
| GenerationProperties.MappingOmitsOtherName | wb/main/jobs/create_profiling_bundle/create_profiling_scripts_job.py:99-109 | When every sample tokenizes to the same distinct output names in the same order, a name not paired with a type is absent from the mapping |
| GenerationProperties.DirectoryHoldsOnlyGeneratedFiles | wb/main/jobs/create_profiling_bundle/create_profiling_scripts_job.py:81-109 | When every sample tokenizes to the same distinct output names in the same order, the freshly reset directory holds only the files of paired outputs at generated indices |
| GenerationProperties.GeneratedFileDecodes | wb/main/jobs/create_profiling_bundle/create_profiling_scripts_job.py:99-109 | When every sample tokenizes to the same distinct output names in the same order, every generated file, read back at its type, is the tokenizer's output after the cast |
| InputFileMapping.Empty | wb/main/jobs/create_profiling_bundle/create_profiling_scripts_job.py:99 | A fresh mapping is valid and has no paths for any name |
| InputFileMapping.AddInputFile | wb/main/jobs/create_profiling_bundle/create_profiling_scripts_job.py:107 | Appends the path to the name's list and leaves every other name unchanged. The keys grow by the name, and a new name is appended to the name order. Validity is kept |
| Decimal.Digits | wb/main/jobs/create_profiling_bundle/create_profiling_scripts_job.py:104 | `str()` of a natural number is non-empty, all digits and has no leading zero |
| Decimal.ShowInt | wb/main/jobs/create_profiling_bundle/create_profiling_scripts_job.py:131 | `str()` of a negative number is a minus sign followed by the digits of its absolute value |
| Decimal.Zeros | wb/main/jobs/create_profiling_bundle/create_profiling_scripts_job.py:104 | k zero digits |
| Decimal.ValueOfDigits | wb/main/jobs/create_profiling_bundle/create_profiling_scripts_job.py:104 | The digits of n read back as n |
| Decimal.ValueOfConcat | wb/main/jobs/create_profiling_bundle/create_profiling_scripts_job.py:104 | Reading a concatenation shifts the prefix's value by the suffix's length |
| Decimal.ValueOfZeros | wb/main/jobs/create_profiling_bundle/create_profiling_scripts_job.py:104 | Zero padding has value zero |
| GenerationLoop.ReplayIsFolds | wb/main/jobs/create_profiling_bundle/create_profiling_scripts_job.py:105-107 | Applying the writes one by one, file then mapping, leaves the two folds |
| GenerationLoop.ReplaySnoc | wb/main/jobs/create_profiling_bundle/create_profiling_scripts_job.py:105-107 | Replaying one more write applies it last |
| GenerationLoop.ReplayFromIsReplay | wb/main/jobs/create_profiling_bundle/create_profiling_scripts_job.py:105-107 | Continuing a replay with more writes is replaying the concatenation |
| GenerationLoop.ProgressIsReplay | wb/main/jobs/create_profiling_bundle/create_profiling_scripts_job.py:101-107 | The state after n iterations is the replay of their writes |
| GenerationLoop.ReplayIsGenerated | wb/main/jobs/create_profiling_bundle/create_profiling_scripts_job.py:99-109 | Replaying every write of the loop gives the fold's directory and mapping |
| GenerationLoop.InnerStep | wb/main/jobs/create_profiling_bundle/create_profiling_scripts_job.py:103-107 | Output k dumped at type k is the k-th write of its iteration, and applying it leaves the remaining writes to do |
| GenerationLoop.WriteSample | wb/main/jobs/create_profiling_bundle/create_profiling_scripts_job.py:103-107 | The inner loop over outputs zipped with types applies exactly that iteration's writes, in order |
| GenerationLoop.GenerateLoop | wb/main/jobs/create_profiling_bundle/create_profiling_scripts_job.py:99-109 | The nested loops leave exactly the directory and mapping of the fold `GenerateInputs` |
| ProfilingJob.GenerateProfilingInputBinaryData | wb/main/jobs/create_profiling_bundle/create_profiling_scripts_job.py:78-109 | An empty inference list fails first, even when the model's inputs are also malformed. The run succeeds if and only if the plan is non-empty and the inputs read. Otherwise it fails with the inputs' error. The mapping is valid |
| ProfilingJob.Run | wb/main/jobs/create_profiling_bundle/create_profiling_scripts_job.py:46-75 | An autogenerated job writes no files and passes no mapping. Any other job succeeds if and only if the plan is non-empty and the inputs read, and then passes a valid mapping. `ready` is reported only after success |
| ProfilingJob.UnresolvedDimensionFailsRun | wb/main/jobs/create_profiling_bundle/create_profiling_scripts_job.py:88-94 | A dimension that does not convert fails the run with an unresolved dimension, whatever the type names, and `ready` is never reported |
| ProfilingJob.FirstUnresolvedDimensionFailsRun | wb/main/jobs/create_profiling_bundle/create_profiling_scripts_job.py:88-94 | The run fails with the first unconvertible dimension of the first input whose shape fails, and only `running` is reported |
| ProfilingJob.UnsupportedTypeFailsRun | wb/main/jobs/create_profiling_bundle/create_profiling_scripts_job.py:88-94 | With every dimension converting, the first unknown type name fails the run with its lookup error, and only `running` is reported |
| ProfilingJob.RunMapping | wb/main/jobs/create_profiling_bundle/create_profiling_scripts_job.py:57-109 | When every sample tokenizes to the same distinct output names in the same order, the mapping of a successful run gives each paired name one path per iteration. The iterations number at most the dataset bound |
| ProfilingJob.RunFileDecodes | wb/main/jobs/create_profiling_bundle/create_profiling_scripts_job.py:57-109 | When every sample tokenizes to the same distinct output names in the same order, each file of a successful run, read back at its type, is the tokenizer's output after the cast |

## Left out

- The database session, the Celery task plumbing, job-state observers and progress values are left out. The run reports only the sequence of statuses.
- The filesystem is reduced to the contents of the binary dataset directory: `create_empty_dir`, `rmtree`, `mkdir`, opening files, and filesystem errors are not modelled. The directory starts empty, as the reset at lines 81-83 leaves it.
- The OpenVINO model reader is not modelled. Its answer is the list of `ModelInput` records, each with the name, the printed dimensions and the type name.
- The tokenizer, `TokenizerWrapper.from_model` and `tokenizer_kwargs_from_model_shape` are not part of this model. They are one function from the shape dictionary to a tokenizer, passed as a parameter, and a tokenizer failure is not modelled.
- The dataset adapter (`BaseTextDatasetAdapter`) is not part of this model. The samples it yields for a row count are a parameter.
- The configuration and script generators at lines 62-68 are not modelled. The run hands on the mapping, or `None`, as their input.
- `ProfilingInputFileMapping` is defined outside this job's module. Its `add_input_file` is modelled as an append to the name's list that creates the list on first use.
- FileNames.PathInjective: pathlib's `/` at line 104 is modelled as joining with a separator. This is exact only when input names are plain file-name components. An input name with `/`, `.` segments or a leading `/` would be normalised by pathlib, so `x` and `./x` would share a file. The model does not cover such names.
- Generation.DirectoryNamerInjective: injective only under the same assumption as `FileNames.PathInjective`, that input names are plain file-name components.
- The loop properties (`PairedNamePaths`, `OtherNamePaths`, `OnlyGeneratedPaths`, `WriteCount`, `FileOfWrite`, `MappingOfPairedName`, `MappingOmitsOtherName`, `DirectoryHoldsOnlyGeneratedFiles`, `GeneratedFileDecodes`, `RunMapping`, `RunFileDecodes`) assume that the tokenizer gives every sample the same distinct output names in the same order. The source does not check this. A tokenizer whose output names vary between samples is covered only by `GenerationLoop.GenerateLoop` and the fold.
- Tokenizer outputs are modelled as flat sequences of integers. `tofile` writes a multi-dimensional array flattened in C order, which is that sequence. Float-valued outputs, which `astype` would truncate rather than wrap, are not modelled.
- The byte order of `tofile` is the machine's native order. The model fixes it to little-endian.
- NetworkInputs.ParseDimension: only the error form is stated as its contract. What it accepts and rejects is stated by `ParseShowRoundTrip`, `ForeignCharacterRejected` and `DynamicDimensionRejected`. Non-ASCII digits and white space, which Python's `int()` also accepts, are not modelled.
- Generation.GenerateInputs: its contract states only that the mapping is valid. What the loop leaves is stated by the `GenerationProperties` lemmas and by `GenerationLoop.GenerateLoop`.
- The browser client files are not part of this model.

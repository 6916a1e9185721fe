/** How many distinct profiling inputs a job generates: enough for the
    heaviest planned inference (batch times parallel requests), but never more
    than the dataset holds, and at least one slot even for an empty dataset. */
module CountPlanning {
  import opened Errors

  /** One planned inference run, as stored with the profiling job. */
  datatype Inference = Inference(batch: int, nireq: int)

  /** The number of inputs one inference consumes at once. */
  function Load(inference: Inference): int {
    inference.batch * inference.nireq
  }

  function Max(a: int, b: int): int {
    if a >= b then a else b
  }

  function Min(a: int, b: int): int {
    if a <= b then a else b
  }

  /** The largest load over a non-empty plan. */
  function MaxLoad(plan: seq<Inference>): (m: int)
    requires |plan| > 0
    ensures forall i :: 0 <= i < |plan| ==> Load(plan[i]) <= m
    ensures exists i :: 0 <= i < |plan| && Load(plan[i]) == m
  {
    if |plan| == 1 then Load(plan[0])
    else
      var rest := MaxLoad(plan[1..]);
      assert forall i :: 1 <= i < |plan| ==> Load(plan[i]) == Load(plan[1..][i - 1]);
      Max(Load(plan[0]), rest)
  }

  /** The dataset bound: the number of images, but at least one. */
  function Capacity(numberImages: int): (c: int)
    ensures c >= 1 && c >= numberImages
    ensures c == numberImages || c == 1
  {
    Max(numberImages, 1)
  }

  /** The count of generated inputs; an empty plan is the error `max()` raises. */
  function NumberOfGeneratedInputs(plan: seq<Inference>, numberImages: int): (r: Result<int>)
    ensures r.Err? <==> |plan| == 0
    ensures r.Err? ==> r.error == EmptyInferencePlan
    // never more than the dataset bound
    ensures r.Ok? ==> r.value <= Capacity(numberImages)
    // at least every single inference's demand, up to the dataset bound
    ensures r.Ok? ==> forall i :: 0 <= i < |plan| ==> Min(Load(plan[i]), Capacity(numberImages)) <= r.value
    // and exactly the bound or the demand of some inference
    ensures r.Ok? ==>
              r.value == Capacity(numberImages) || exists i :: 0 <= i < |plan| && Load(plan[i]) == r.value
    // never more than the heaviest inference demands
    ensures r.Ok? ==> exists i :: 0 <= i < |plan| && r.value <= Load(plan[i])
  {
    if |plan| == 0 then Err(EmptyInferencePlan)
    else Ok(Min(MaxLoad(plan), Capacity(numberImages)))
  }

  /** The count is positive exactly when some inference has a positive load;
      with positive batches and request counts it is therefore at least one. */
  lemma CountPositive(plan: seq<Inference>, numberImages: int)
    requires |plan| > 0
    ensures NumberOfGeneratedInputs(plan, numberImages).value >= 1
            <==> exists i :: 0 <= i < |plan| && Load(plan[i]) >= 1
    ensures (forall i :: 0 <= i < |plan| ==> plan[i].batch >= 1 && plan[i].nireq >= 1)
            ==> NumberOfGeneratedInputs(plan, numberImages).value >= 1
  {
    var n := NumberOfGeneratedInputs(plan, numberImages).value;
    if forall i :: 0 <= i < |plan| ==> plan[i].batch >= 1 && plan[i].nireq >= 1 {
      assert Load(plan[0]) >= 1 by {
        PositiveProduct(plan[0].batch, plan[0].nireq);
      }
    }
  }

  lemma PositiveProduct(a: int, b: int)
    requires a >= 1 && b >= 1
    ensures a * b >= 1
  {
  }

  /** With no images the dataset bound is exactly one input, not zero. */
  lemma EmptyDatasetGivesOneInput(plan: seq<Inference>)
    requires |plan| > 0
    requires exists i :: 0 <= i < |plan| && Load(plan[i]) >= 1
    ensures NumberOfGeneratedInputs(plan, 0) == Ok(1)
  {
  }

  /** Three parallel requests of batch 2 against ten images give six inputs. */
  lemma ScenarioDatasetLarger()
    ensures NumberOfGeneratedInputs([Inference(2, 3)], 10) == Ok(6)
  {
  }

  /** Four requests of batch 4 against three images give three inputs. */
  lemma ScenarioDatasetSmaller()
    ensures NumberOfGeneratedInputs([Inference(4, 4)], 3) == Ok(3)
  {
  }
}

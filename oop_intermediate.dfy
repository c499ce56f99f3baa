/** Polymorphism and abstraction: models that share `fit`/`predict`, ETL
    pipelines that share `extract`/`transform`, and a `process` method that
    dispatches on how many arguments it is given. No field changes after
    construction, so each object is a value. */
module OopIntermediate {
  import opened Builtins

  // ---------------------------------------------------------------------------
  // Model, LinearRegressionModel, DecisionTreeModel
  // ---------------------------------------------------------------------------

  const NotImported := NotImplementedError("Subclasses must import this method")

  /** The base class and its two subclasses. */
  datatype Model = BaseModel | LinearRegressionModel | DecisionTreeModel
  {
    /** `fit(data)`: the base class raises; the subclasses only report what they fit. */
    function Fit(data: seq<int>): (r: Result<()>)
      ensures r.Raised? <==> this.BaseModel?
      ensures r.Raised? ==> r.error == NotImported
    {
      if BaseModel? then Raised(NotImported) else Ok(())
    }

    /** `predict(data)`: the base class raises; linear regression doubles each
        value and the decision tree squares it, one output per input, in order. */
    function Predict(data: seq<int>): (r: Result<seq<int>>)
      ensures r.Raised? <==> this.BaseModel?
      ensures r.Raised? ==> r.error == NotImported
      ensures r.Ok? ==> |r.value| == |data|
      ensures LinearRegressionModel? ==> forall i :: 0 <= i < |data| ==> r.value[i] == 2 * data[i]
      ensures DecisionTreeModel? ==> forall i :: 0 <= i < |data| ==> r.value[i] == data[i] * data[i] >= 0
    {
      match this
      case BaseModel => Raised(NotImported)
      case LinearRegressionModel => Ok(Map(x => x * 2, data))
      case DecisionTreeModel =>
        assert forall x :: Pow(x, 2) == x * x by {
          forall x ensures Pow(x, 2) == x * x { PowTwo(x); }
        }
        Ok(Map(x => Pow(x, 2), data))
    }
  }

  /** Doubling is one-to-one, so different inputs never get the same linear
      regression prediction; squaring is not: -1 and 1 predict alike. */
  lemma PredictInjectivity()
    ensures forall a, b :: LinearRegressionModel.Predict(a) == LinearRegressionModel.Predict(b) ==> a == b
    ensures DecisionTreeModel.Predict([-1]) == DecisionTreeModel.Predict([1])
  {
    forall a, b | LinearRegressionModel.Predict(a) == LinearRegressionModel.Predict(b) ensures a == b {
      var ra, rb := LinearRegressionModel.Predict(a).value, LinearRegressionModel.Predict(b).value;
      assert |a| == |ra| == |rb| == |b|;
      forall i | 0 <= i < |a| ensures a[i] == b[i] {
        assert ra[i] == 2 * a[i] && rb[i] == 2 * b[i];
      }
    }
    assert Pow(-1, 2) == 1 == Pow(1, 2);
  }

  /** The loop over both models, each fitted and asked to predict [1, 2, 3]. */
  lemma ModelsDemo()
    ensures LinearRegressionModel.Fit([1, 2, 3]) == Ok(())
    ensures LinearRegressionModel.Predict([1, 2, 3]) == Ok([2, 4, 6])
    ensures DecisionTreeModel.Fit([1, 2, 3]) == Ok(())
    ensures DecisionTreeModel.Predict([1, 2, 3]) == Ok([1, 4, 9])
    ensures BaseModel.Predict([1, 2, 3]) == Raised(NotImported)
  {
    var d := DecisionTreeModel.Predict([1, 2, 3]).value;
    assert |d| == 3 && d[0] == 1 && d[1] == 4 && d[2] == 9;
    assert d == [1, 4, 9];
    var l := LinearRegressionModel.Predict([1, 2, 3]).value;
    assert |l| == 3 && l[0] == 2 && l[1] == 4 && l[2] == 6;
    assert l == [2, 4, 6];
  }

  // ---------------------------------------------------------------------------
  // ETLBase, CSVETL, APIETL
  // ---------------------------------------------------------------------------

  /** The two concrete pipelines; `source` is only printed. */
  datatype Pipeline = CSVETL(source: string) | APIETL(source: string)
  {
    /** `extract()`: fixed mock data. */
    function Extract(): (r: seq<int>)
      ensures CSVETL? ==> r == [1, 2, 3]
      ensures APIETL? ==> r == [4, 5, 6]
    {
      if CSVETL? then [1, 2, 3] else [4, 5, 6]
    }

    /** The per-element step of `transform`: scale by 2, or add 10. */
    function Step(x: int): int
    {
      if CSVETL? then x * 2 else x + 10
    }

    /** `transform(data)`: the step applied to each element, in order. */
    function Transform(data: seq<int>): (r: seq<int>)
      ensures |r| == |data|
      ensures CSVETL? ==> forall i :: 0 <= i < |data| ==> r[i] == 2 * data[i]
      ensures APIETL? ==> forall i :: 0 <= i < |data| ==> r[i] == data[i] + 10
    {
      Map(Step, data)
    }
  }

  /** Transforming a concatenation transforms each part, so element order is
      kept; and both steps can be undone, so no two inputs transform alike. */
  lemma TransformSpec(p: Pipeline, a: seq<int>, b: seq<int>)
    ensures p.Transform(a + b) == p.Transform(a) + p.Transform(b)
    ensures p.Transform(a) == p.Transform(b) ==> a == b
  {
    MapConcat(p.Step, a, b);
    if p.Transform(a) == p.Transform(b) {
      assert |a| == |b|;
      forall i | 0 <= i < |a| ensures a[i] == b[i] {
        assert p.Transform(a)[i] == p.Transform(b)[i];
      }
    }
  }

  /** The two scripted runs: the CSV pipeline turns [1, 2, 3] into [2, 4, 6],
      the API pipeline turns [4, 5, 6] into [14, 15, 16]. */
  lemma PipelinesDemo()
    ensures var csv := CSVETL("data.csv"); csv.Transform(csv.Extract()) == [2, 4, 6]
    ensures var api := APIETL("https://api.example.com/data"); api.Transform(api.Extract()) == [14, 15, 16]
  {
    var csv := CSVETL("data.csv");
    var c := csv.Transform(csv.Extract());
    assert c[0] == 2 && c[1] == 4 && c[2] == 6;
    var api := APIETL("https://api.example.com/data");
    var a := api.Transform(api.Extract());
    assert a[0] == 14 && a[1] == 15 && a[2] == 16;
  }

  // ---------------------------------------------------------------------------
  // dataPreprocessor.process
  // ---------------------------------------------------------------------------

  /** Which of the three messages `process(*args)` prints. */
  datatype Processing = SingleDataset(dataset: seq<int>) | MultipleDatasets(datasets: seq<seq<int>>) | NoDataset

  /** `process(*args)`: one argument, more than one, or none. */
  function Process(args: seq<seq<int>>): (r: Processing)
    ensures r.SingleDataset? <==> |args| == 1
    ensures r.MultipleDatasets? <==> |args| > 1
    ensures r.NoDataset? <==> |args| == 0
    ensures r.SingleDataset? ==> r.dataset == args[0]
    ensures r.MultipleDatasets? ==> r.datasets == args
  {
    if |args| == 1 then SingleDataset(args[0])
    else if |args| > 1 then MultipleDatasets(args)
    else NoDataset
  }
}

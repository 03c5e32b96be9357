/** The model lifecycle of src/models.py: placeholder models with a fitted flag, an ensemble
    with equal weights, and an in-memory registry keyed by name and timestamp. */
module Models {
  import opened Wrappers
  import opened Frames
  import opened Text
  import opened Numbers

  /** The three concrete model classes with their constructor arguments. */
  datatype ModelKind =
    | PriceForecast(commodity: string, forecastHorizon: int)
    | DemandPrediction(region: string, energyType: string)
    | RiskAssessment(riskType: string)

  const PriceForecastPrefix := "PriceForecast_"
  const DemandPredictionPrefix := "DemandPrediction_"
  const RiskAssessmentPrefix := "RiskAssessment_"

  /** The name each subclass passes to `BaseModel.__init__`: its class prefix followed by
      the constructor arguments (what the prefix tells is the lemma below). */
  function ModelName(kind: ModelKind): string
  {
    match kind
    case PriceForecast(commodity, _) => PriceForecastPrefix + commodity
    case DemandPrediction(region, energyType) => DemandPredictionPrefix + region + "_" + energyType
    case RiskAssessment(riskType) => RiskAssessmentPrefix + riskType
  }

  /** The class prefix of a name identifies the class, so a type-prefix listing selects one kind. */
  lemma NamePrefixIdentifiesKind(kind: ModelKind)
    ensures StartsWith(ModelName(kind), PriceForecastPrefix) <==> kind.PriceForecast?
    ensures StartsWith(ModelName(kind), DemandPredictionPrefix) <==> kind.DemandPrediction?
    ensures StartsWith(ModelName(kind), RiskAssessmentPrefix) <==> kind.RiskAssessment?
  {
    var name := ModelName(kind);
    match kind
    case PriceForecast(c, _) =>
      assert name[..|PriceForecastPrefix|] == PriceForecastPrefix;
      assert name[0] == 'P';
    case DemandPrediction(r, e) =>
      assert name == DemandPredictionPrefix + (r + "_" + e);
      assert name[..|DemandPredictionPrefix|] == DemandPredictionPrefix;
      assert name[0] == 'D';
    case RiskAssessment(t) =>
      assert name[..|RiskAssessmentPrefix|] == RiskAssessmentPrefix;
      assert name[0] == 'R';
  }

  /** The placeholder dictionary stored in `self.model` by `fit`. */
  datatype FittedModel =
    | MovingAverage(window: nat, lastValues: seq<Cell>)
    | Regression(temperature: real, baseLoad: real)

  datatype ModelError =
    | NotFitted                        // ValueError: predict before fit
    | KeyMissing(columns: seq<string>) // KeyError from column selection
    | FitSignature                     // TypeError: BaseModel.fit(X, y) called with one argument
    | NegativeDimensions               // ValueError from np.full with a negative length
    | EmptyEnsemble                    // ZeroDivisionError from 1/len(models)
    | ModelNotFound(id: string)        // ValueError from get_model

  /** The columns `PriceForecastModel.prepare_features` selects, in order. */
  const PriceFeatures := ["price_lag_1", "price_lag_7", "ma_30", "volatility_30"]
  const PriceTarget := "price"
  const MovingAverageWindow := 30

  /** `Series.tail(n)`: the last min(n, |s|) elements, in order. */
  function Tail<T>(s: seq<T>, n: nat): (r: seq<T>)
    ensures |r| == if |s| < n then |s| else n
    ensures r == s[|s| - |r|..]
  {
    if |s| <= n then s else s[|s| - n..]
  }

  /** The requested names that are not columns of the frame, in request order. */
  function MissingColumns(f: Frame, names: seq<string>): (r: seq<string>)
    ensures forall c :: c in r <==> c in names && c !in f.columns
  {
    if names == [] then []
    else
      var rest := MissingColumns(f, names[1..]);
      assert forall c :: c in names <==> c == names[0] || c in names[1..];
      if names[0] in f.columns then rest else [names[0]] + rest
  }

  /** Whether `fit(data)` returns or raises, for each model class. A demand model always
      fits, a risk model always raises TypeError, and a KeyError names only required columns
      the frame lacks. */
  function FitCheck(kind: ModelKind, data: Frame): (r: Outcome<ModelError>)
    ensures kind.DemandPrediction? ==> r.Pass?
    ensures kind.RiskAssessment? <==> r == Fail(FitSignature)
    ensures r.Fail? && r.error.KeyMissing? ==>
              && kind.PriceForecast? && r.error.columns != []
              && forall c :: c in r.error.columns ==> c in PriceFeatures + [PriceTarget] && c !in data.columns
    ensures r.Fail? ==> r.error.KeyMissing? || r.error == FitSignature
  {
    match kind
    case PriceForecast(_, _) =>
      var missing := MissingColumns(data, PriceFeatures);
      if missing != [] then Fail(KeyMissing(missing))
      else if PriceTarget !in data.columns then Fail(KeyMissing([PriceTarget]))
      else Pass
    case DemandPrediction(_, _) => Pass
    case RiskAssessment(_) => Fail(FitSignature)
  }

  /** A price model fits exactly when its four features and its target are present; a demand
      model always fits; a risk model never does. */
  lemma FitSucceeds(kind: ModelKind, data: Frame)
    ensures FitCheck(kind, data).Pass? <==>
              || kind.DemandPrediction?
              || (kind.PriceForecast? && forall c :: c in PriceFeatures + [PriceTarget] ==> c in data.columns)
  {
    if kind.PriceForecast? {
      var needed := PriceFeatures + [PriceTarget];
      assert forall c :: c in needed <==> c in PriceFeatures || c == PriceTarget;
      var missing := MissingColumns(data, PriceFeatures);
      if missing != [] {
        assert missing[0] in PriceFeatures && missing[0] !in data.columns;
      }
    }
  }

  /** `predict`'s `periods or self.forecast_horizon`, then the length np.full accepts. */
  function ForecastLength(periods: Option<int>, horizon: int): (r: Result<nat, ModelError>)
    ensures (periods.None? || periods == Some(0)) ==>
              r == if horizon < 0 then Err(NegativeDimensions) else Ok(horizon)
    ensures periods.Some? && periods.value != 0 ==>
              (r.Ok? <==> periods.value > 0) && (r.Ok? ==> r.value == periods.value)
  {
    var p := if periods.None? || periods.value == 0 then horizon else periods.value;
    if p < 0 then Err(NegativeDimensions) else Ok(p)
  }

  class Model {
    const kind: ModelKind
    const name: string := ModelName(kind)
    var isFitted: bool
    var model: Option<FittedModel>
    var featureColumns: seq<string>
    var targetColumn: Option<string>
    var metrics: map<string, real>

    /** `BaseModel.__init__` as reached from each subclass constructor. */
    constructor (kind: ModelKind)
      ensures this.kind == kind && name == ModelName(kind)
      ensures !isFitted && model == None && featureColumns == [] && targetColumn == None && metrics == map[]
    {
      this.kind := kind;
      isFitted := false;
      model := None;
      featureColumns := [];
      targetColumn := None;
      metrics := map[];
    }

    /** The state `fit(data)` leaves when it returns, from the given earlier feature columns,
        target column and metrics: a price model stores the last 30 prices and names its
        columns, a demand model stores its fixed coefficients and keeps its columns, and a
        risk model never gets here. */
    predicate FittedOn(data: Frame, features0: seq<string>, target0: Option<string>, metrics0: map<string, real>)
      reads this
    {
      && isFitted
      && metrics == metrics0
      && match kind
         case PriceForecast(_, _) =>
           && model == Some(MovingAverage(MovingAverageWindow, Tail(Column(data, PriceTarget), MovingAverageWindow)))
           && featureColumns == PriceFeatures && targetColumn == Some(PriceTarget)
         case DemandPrediction(_, _) =>
           model == Some(Regression(2.5, 350.0)) && featureColumns == features0 && targetColumn == target0
         case RiskAssessment(_) => false
    }

    /** `fit(data)`. A raise leaves the model as it was. */
    method Fit(data: Frame) returns (r: Outcome<ModelError>)
      modifies this
      ensures r == FitCheck(kind, data)
      ensures r.Fail? ==> unchanged(this)
      ensures r.Pass? ==> FittedOn(data, old(featureColumns), old(targetColumn), old(metrics))
    {
      r := FitCheck(kind, data);
      if r.Fail? {
        return;
      }
      if kind.PriceForecast? {
        var y := Column(data, PriceTarget);
        model := Some(MovingAverage(MovingAverageWindow, Tail(y, MovingAverageWindow)));
        isFitted := true;
        featureColumns := PriceFeatures;
        targetColumn := Some(PriceTarget);
      } else {
        model := Some(Regression(2.5, 350.0));
        isFitted := true;
      }
    }

    /** `PriceForecastModel.predict`: the length of the forecast, or the error raised. */
    method PredictPrices(periods: Option<int>) returns (r: Result<nat, ModelError>)
      requires kind.PriceForecast?
      ensures !isFitted ==> r == Err(NotFitted)
      ensures isFitted ==> r == ForecastLength(periods, kind.forecastHorizon)
    {
      if !isFitted {
        return Err(NotFitted);
      }
      r := ForecastLength(periods, kind.forecastHorizon);
    }

    /** `DemandPredictionModel.predict`: one prediction per input row once fitted. */
    method PredictDemand(rows: nat) returns (r: Result<nat, ModelError>)
      requires kind.DemandPrediction?
      ensures r.Err? <==> !isFitted
      ensures r.Err? ==> r.error == NotFitted
      ensures r.Ok? ==> r.value == rows
    {
      if !isFitted {
        return Err(NotFitted);
      }
      r := Ok(rows);
    }
  }

  /** The first error raised when the models are fitted in order, if any. */
  function FirstFitFailure(kinds: seq<ModelKind>, data: Frame): (r: Option<ModelError>)
    ensures r.None? <==> forall i :: 0 <= i < |kinds| ==> FitCheck(kinds[i], data).Pass?
  {
    if kinds == [] then None
    else
      var here := FitCheck(kinds[0], data);
      if here.Fail? then Some(here.error)
      else
        var rest := FirstFitFailure(kinds[1..], data);
        assert forall i :: 1 <= i < |kinds| ==> kinds[i] == kinds[1..][i - 1];
        rest
  }

  /** How many models fit, in order, before the first one raises. */
  function FittedCount(kinds: seq<ModelKind>, data: Frame): (n: nat)
    ensures n <= |kinds|
    ensures forall j :: 0 <= j < n ==> FitCheck(kinds[j], data).Pass?
    ensures n < |kinds| ==> FitCheck(kinds[n], data).Fail?
  {
    if kinds == [] || FitCheck(kinds[0], data).Fail? then 0
    else
      var n := 1 + FittedCount(kinds[1..], data);
      assert forall j :: 1 <= j < |kinds| ==> kinds[j] == kinds[1..][j - 1];
      n
  }

  function Kinds(models: seq<Model>): (r: seq<ModelKind>)
    ensures |r| == |models| && forall i :: 0 <= i < |models| ==> r[i] == models[i].kind
  {
    seq(|models|, i requires 0 <= i < |models| => models[i].kind)
  }

  /** The weights an n-model ensemble assigns add up to one. */
  lemma EqualWeightsSumToOne(n: nat)
    requires n > 0
    ensures Sum(Repeat(1.0 / n as real, n)) == 1.0
  {
    SumRepeat(1.0 / n as real, n);
  }

  class ModelEnsemble {
    const models: seq<Model>
    var weights: Option<seq<real>>
    var isFitted: bool

    constructor (models: seq<Model>)
      ensures this.models == models && weights == None && !isFitted
    {
      this.models := models;
      weights := None;
      isFitted := false;
    }

    /** `fit`: every member in order, then equal weights. The first raise stops the loop, so
        the members before it are fitted, the rest are as they were, and the ensemble itself
        is unchanged. A model listed twice is fitted twice, to the same state. */
    method Fit(data: Frame) returns (r: Outcome<ModelError>)
      modifies this, models
      ensures FirstFitFailure(Kinds(models), data).Some? ==>
                r == Fail(FirstFitFailure(Kinds(models), data).value)
      ensures FirstFitFailure(Kinds(models), data).None? ==>
                r == if models == [] then Fail(EmptyEnsemble) else Pass
      ensures forall m :: m in models[..FittedCount(Kinds(models), data)] ==>
                m.FittedOn(data, old(m.featureColumns), old(m.targetColumn), old(m.metrics))
      ensures forall m :: m in models && m !in models[..FittedCount(Kinds(models), data)] ==> unchanged(m)
      ensures r.Fail? ==> weights == old(weights) && isFitted == old(isFitted)
      ensures r.Pass? ==>
                && isFitted
                && weights == Some(Repeat(1.0 / |models| as real, |models|))
                && forall m :: m in models ==> m.isFitted
    {
      ghost var kinds := Kinds(models);
      var i := 0;
      while i < |models|
        invariant 0 <= i <= |models|
        invariant forall j :: 0 <= j < i ==> FitCheck(kinds[j], data).Pass?
        invariant forall m :: m in models[..i] ==>
                    m.FittedOn(data, old(m.featureColumns), old(m.targetColumn), old(m.metrics))
        invariant forall m :: m in models && m !in models[..i] ==> unchanged(m)
        invariant weights == old(weights) && isFitted == old(isFitted)
      {
        var m := models[i];
        var outcome := m.Fit(data);
        if outcome.Fail? {
          FirstFailureAt(kinds, data, i);
          assert FittedCount(kinds, data) == i;
          return outcome;
        }
        assert models[..i + 1] == models[..i] + [m];
        i := i + 1;
      }
      assert models[..i] == models;
      if |models| == 0 {
        return Fail(EmptyEnsemble);
      }
      weights := Some(Repeat(1.0 / |models| as real, |models|));
      isFitted := true;
      r := Pass;
    }

    /** The guard at the head of `predict`. */
    method Predict() returns (r: Outcome<ModelError>)
      ensures r.Fail? <==> !isFitted
      ensures r.Fail? ==> r.error == NotFitted
    {
      if !isFitted {
        return Fail(NotFitted);
      }
      r := Pass;
    }
  }

  /** When every model before `i` fits and model `i` raises, that raise is the first failure. */
  lemma {:induction false} FirstFailureAt(kinds: seq<ModelKind>, data: Frame, i: nat)
    requires i < |kinds|
    requires forall j :: 0 <= j < i ==> FitCheck(kinds[j], data).Pass?
    requires FitCheck(kinds[i], data).Fail?
    ensures FirstFitFailure(kinds, data) == Some(FitCheck(kinds[i], data).error)
  {
    if i > 0 {
      assert FitCheck(kinds[0], data).Pass?;
      FirstFailureAt(kinds[1..], data, i - 1);
    }
  }

  /** Extending the ids by one lists that id when its model's name matches, and nothing else. */
  lemma SelectedStep(order: seq<string>, models: map<string, Registration>, modelType: Option<string>, i: nat)
    requires i < |order| && forall id :: id in order ==> id in models
    ensures Selected(order[..i + 1], models, modelType) ==
      if Matches(models[order[i]].model.name, modelType) then Selected(order[..i], models, modelType) + [order[i]]
      else Selected(order[..i], models, modelType)
  {
    assert order[..i + 1][..i] == order[..i];
  }

  datatype Registration = Registration(model: Model, metadata: map<string, string>, registeredAt: int)

  /** One entry of `list_models`. */
  datatype Listing = Listing(modelId: string, name: string, registeredAt: int, metrics: map<string, real>)

  /** `not model_type or name.startswith(model_type)`. */
  predicate Matches(name: string, modelType: Option<string>)
  {
    modelType.None? || modelType.value == [] || StartsWith(name, modelType.value)
  }

  /** The ids listed for a model type, in insertion order. */
  function Selected(order: seq<string>, models: map<string, Registration>, modelType: Option<string>): (r: seq<string>)
    requires forall id :: id in order ==> id in models
    ensures forall id :: id in r ==> id in order
  {
    if order == [] then []
    else
      var init := order[..|order| - 1];
      var id := order[|order| - 1];
      var kept := Selected(init, models, modelType);
      if Matches(models[id].model.name, modelType) then kept + [id] else kept
  }

  /** An id is listed exactly when it is registered and its model's name matches. */
  lemma {:induction false} SelectedMembers(order: seq<string>, models: map<string, Registration>, modelType: Option<string>, id: string)
    requires forall x :: x in order ==> x in models
    ensures id in Selected(order, models, modelType) <==> id in order && Matches(models[id].model.name, modelType)
  {
    if order != [] {
      var init := order[..|order| - 1];
      SelectedMembers(init, models, modelType, id);
      assert order == init + [order[|order| - 1]];
    }
  }

  /** Without a type (or with the empty one) every registered id is listed, in order. */
  lemma {:induction false} SelectAll(order: seq<string>, models: map<string, Registration>, modelType: Option<string>)
    requires forall x :: x in order ==> x in models
    requires modelType.None? || modelType == Some([])
    ensures Selected(order, models, modelType) == order
  {
    if order != [] {
      var init := order[..|order| - 1];
      SelectAll(init, models, modelType);
      assert order == init + [order[|order| - 1]];
    }
  }

  /** Selection distributes over concatenation, so the listing keeps insertion order. */
  lemma {:induction false} SelectedAppend(a: seq<string>, b: seq<string>, models: map<string, Registration>, modelType: Option<string>)
    requires forall x :: x in a + b ==> x in models
    ensures Selected(a + b, models, modelType) == Selected(a, models, modelType) + Selected(b, models, modelType)
  {
    if b == [] {
      assert a + b == a;
    } else {
      var initB := b[..|b| - 1];
      assert (a + b)[..|a + b| - 1] == a + initB;
      assert (a + b)[|a + b| - 1] == b[|b| - 1];
      SelectedAppend(a, initB, models, modelType);
    }
  }

  /** Listing by the price-forecast prefix lists exactly the registered price-forecast models. */
  lemma SelectedByKind(order: seq<string>, models: map<string, Registration>, id: string)
    requires forall x :: x in order ==> x in models
    ensures id in Selected(order, models, Some(PriceForecastPrefix)) <==>
              id in order && models[id].model.kind.PriceForecast?
  {
    SelectedMembers(order, models, Some(PriceForecastPrefix), id);
    if id in order {
      NamePrefixIdentifiesKind(models[id].model.kind);
    }
  }

  class ModelRegistry {
    var models: map<string, Registration>
    /** The insertion order of `self.models`, which a Python dict keeps. */
    var order: seq<string>

    predicate Valid()
      reads this
    {
      && Distinct(order)
      && (forall id :: id in order ==> id in models)
      && (forall id :: id in models ==> id in order)
    }

    constructor ()
      ensures Valid() && models == map[] && order == []
    {
      models := map[];
      order := [];
    }

    /** `register_model`, with the formatted timestamp and the clock reading as parameters.
        Re-registering an id overwrites its entry and keeps its place. */
    method RegisterModel(model: Model, metadata: map<string, string>, stamp: string, now: int) returns (id: string)
      requires Valid()
      modifies this
      ensures Valid()
      ensures id == model.name + "_" + stamp
      ensures models == old(models)[id := Registration(model, metadata, now)]
      ensures order == if id in old(models) then old(order) else old(order) + [id]
      ensures GetModel(id) == Ok(model)
    {
      id := model.name + "_" + stamp;
      if id !in models {
        order := order + [id];
      }
      models := models[id := Registration(model, metadata, now)];
    }

    /** `get_model`: the registered model, or ModelNotFound for an unknown id. */
    function GetModel(id: string): (r: Result<Model, ModelError>)
      reads this
      ensures r.Ok? <==> id in models
      ensures r.Ok? ==> r.value == models[id].model
      ensures r.Err? ==> r.error == ModelNotFound(id)
    {
      if id in models then Ok(models[id].model) else Err(ModelNotFound(id))
    }

    /** The listing `list_models` builds for a registered id. */
    function ListingOf(id: string): (l: Listing)
      requires id in models
      reads this, models[id].model
      ensures l.modelId == id && l.registeredAt == models[id].registeredAt
    {
      var reg := models[id];
      Listing(id, reg.model.name, reg.registeredAt, reg.model.metrics)
    }

    /** `list_models`: one listing per selected id, in insertion order. */
    method ListModels(modelType: Option<string>) returns (r: seq<Listing>)
      requires Valid()
      ensures var ids := Selected(order, models, modelType);
              && |r| == |ids|
              && forall k :: 0 <= k < |r| ==>
                   var reg := models[ids[k]];
                   r[k] == Listing(ids[k], reg.model.name, reg.registeredAt, reg.model.metrics)
    {
      r := [];
      ghost var ids := [];
      var i := 0;
      while i < |order|
        invariant 0 <= i <= |order|
        invariant ids == Selected(order[..i], models, modelType)
        invariant |r| == |ids|
        invariant forall k :: 0 <= k < |r| ==> ids[k] in models && r[k] == ListingOf(ids[k])
      {
        SelectedStep(order, models, modelType, i);
        var id := order[i];
        if Matches(models[id].model.name, modelType) {
          r := r + [ListingOf(id)];
          ids := ids + [id];
        }
        i := i + 1;
      }
      assert order[..i] == order;
    }
  }
}

/** The lag and rolling min/max columns of `create_model_features` in src/data_processor.py,
    over the price column as a sequence of optional numbers (None standing for NaN). */
module Features {
  import opened Wrappers

  type Series = seq<Option<real>>

  /** `Series.shift(k)`: row i takes the value of row i - k; the first k rows are missing. */
  function Shift(s: Series, k: nat): (r: Series)
    ensures |r| == |s|
    ensures forall i :: 0 <= i < |s| ==> r[i] == if i < k then None else s[i - k]
  {
    seq(|s|, i requires 0 <= i < |s| => if i < k then None else s[i - k])
  }

  predicate AllPresent(w: Series)
  {
    forall j :: 0 <= j < |w| ==> w[j].Some?
  }

  /** The minimum over a window, missing when any value in it is missing. */
  function WindowMin(w: Series): (m: Option<real>)
    requires w != []
    ensures m.Some? <==> AllPresent(w)
    ensures m.Some? ==> (exists j :: 0 <= j < |w| && w[j] == m) && forall j :: 0 <= j < |w| ==> m.value <= w[j].value
  {
    var last := w[|w| - 1];
    if |w| == 1 then last
    else
      var init := w[..|w| - 1];
      var m := WindowMin(init);
      assert forall j :: 0 <= j < |init| ==> init[j] == w[j];
      if m.None? || last.None? then None
      else if last.value < m.value then last
      else m
  }

  /** The maximum over a window, missing when any value in it is missing. */
  function WindowMax(w: Series): (m: Option<real>)
    requires w != []
    ensures m.Some? <==> AllPresent(w)
    ensures m.Some? ==> (exists j :: 0 <= j < |w| && w[j] == m) && forall j :: 0 <= j < |w| ==> w[j].value <= m.value
  {
    var last := w[|w| - 1];
    if |w| == 1 then last
    else
      var init := w[..|w| - 1];
      var m := WindowMax(init);
      assert forall j :: 0 <= j < |init| ==> init[j] == w[j];
      if m.None? || last.None? then None
      else if last.value > m.value then last
      else m
  }

  /** `rolling(window=w).min()` with the default of w required observations. */
  function RollingMin(s: Series, w: nat): (r: Series)
    requires w >= 1
    ensures |r| == |s|
    ensures forall i :: 0 <= i < |s| && i + 1 < w ==> r[i] == None
    ensures forall i :: 0 <= i < |s| && i + 1 >= w ==>
              && (r[i].Some? <==> forall j :: i + 1 - w <= j <= i ==> s[j].Some?)
              && (r[i].Some? ==> forall j :: i + 1 - w <= j <= i ==> r[i].value <= s[j].value)
              && (r[i].Some? ==> exists j :: i + 1 - w <= j <= i && s[j] == r[i])
  {
    var r := seq(|s|, i requires 0 <= i < |s| => if i + 1 < w then None else WindowMin(s[i + 1 - w..i + 1]));
    r
  }

  /** `rolling(window=w).max()` with the default of w required observations. */
  function RollingMax(s: Series, w: nat): (r: Series)
    requires w >= 1
    ensures |r| == |s|
    ensures forall i :: 0 <= i < |s| && i + 1 < w ==> r[i] == None
    ensures forall i :: 0 <= i < |s| && i + 1 >= w ==>
              && (r[i].Some? <==> forall j :: i + 1 - w <= j <= i ==> s[j].Some?)
              && (r[i].Some? ==> forall j :: i + 1 - w <= j <= i ==> s[j].value <= r[i].value)
              && (r[i].Some? ==> exists j :: i + 1 - w <= j <= i && s[j] == r[i])
  {
    var r := seq(|s|, i requires 0 <= i < |s| => if i + 1 < w then None else WindowMax(s[i + 1 - w..i + 1]));
    r
  }

  /** Over a fully present series the rolling minimum never exceeds the rolling maximum. */
  lemma RollingMinBelowMax(s: Series, w: nat, i: nat)
    requires w >= 1 && i < |s| && i + 1 >= w && AllPresent(s)
    ensures RollingMin(s, w)[i].Some? && RollingMax(s, w)[i].Some?
    ensures RollingMin(s, w)[i].value <= RollingMax(s, w)[i].value
  {
    var lo, hi := RollingMin(s, w)[i], RollingMax(s, w)[i];
    assert lo.value <= s[i].value <= hi.value;
  }

  const Lags: seq<nat> := [1, 7, 30]
  const Windows: seq<nat> := [7, 30, 90]

  /** The generated columns, keyed by the lag or window size. */
  datatype ModelFeatures = ModelFeatures(
    lags: map<nat, Series>,
    rollingMin: map<nat, Series>,
    rollingMax: map<nat, Series>)

  datatype FeatureError = PriceColumnMissing   // KeyError on data['price']

  /** `create_model_features` for the lag and min/max columns; None for the price column
      means the frame has no `price` column. */
  function CreateModelFeatures(price: Option<Series>): (r: Result<ModelFeatures, FeatureError>)
    ensures r.Err? <==> price.None?
    ensures r.Ok? ==> && r.value.lags.Keys == {1, 7, 30}
                      && r.value.rollingMin.Keys == {7, 30, 90} && r.value.rollingMax.Keys == {7, 30, 90}
    ensures r.Ok? ==> forall k :: k in r.value.lags ==> r.value.lags[k] == Shift(price.value, k)
    ensures r.Ok? ==> forall w :: w in r.value.rollingMin ==> r.value.rollingMin[w] == RollingMin(price.value, w)
    ensures r.Ok? ==> forall w :: w in r.value.rollingMax ==> r.value.rollingMax[w] == RollingMax(price.value, w)
  {
    if price.None? then Err(PriceColumnMissing)
    else
      var s := price.value;
      Ok(ModelFeatures(
        map[1 := Shift(s, 1), 7 := Shift(s, 7), 30 := Shift(s, 30)],
        map[7 := RollingMin(s, 7), 30 := RollingMin(s, 30), 90 := RollingMin(s, 90)],
        map[7 := RollingMax(s, 7), 30 := RollingMax(s, 30), 90 := RollingMax(s, 90)]))
  }
}

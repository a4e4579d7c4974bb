// The two tiers that validate iris measurements: the gateway (iris.go) and the servicer
// (iris_predictor.py).
module IrisFeatures {
  import opened Basics

  // An IEEE 754 number; Num also stands for positive zero. Widening a float32 is exact.
  datatype Float = NaN | PosInf | NegInf | NegZero | Num(value: real)

  predicate Less(f: Float, bound: real) {
    match f
    case NaN => false
    case PosInf => false
    case NegInf => true
    case NegZero => 0.0 < bound
    case Num(v) => v < bound
  }

  predicate Greater(f: Float, bound: real) {
    match f
    case NaN => false
    case PosInf => true
    case NegInf => false
    case NegZero => 0.0 > bound
    case Num(v) => v > bound
  }

  const MAX_IRIS_FEATURE_CM := 50.0

  datatype Features = Features(sepalLength: Float, sepalWidth: Float, petalLength: Float, petalWidth: Float)

  const ZERO := Features(Num(0.0), Num(0.0), Num(0.0), Num(0.0))

  type Index = i: nat | i < 4

  function Name(i: Index): string {
    if i == 0 then "sepal_length" else if i == 1 then "sepal_width"
    else if i == 2 then "petal_length" else "petal_width"
  }

  function Value(f: Features, i: Index): Float {
    if i == 0 then f.sepalLength else if i == 1 then f.sepalWidth
    else if i == 2 then f.petalLength else f.petalWidth
  }

  // validateIrisFeature: the text of the error, if any.
  function ValidateIrisFeature(name: string, v: Float): Option<string> {
    if v.NaN? || v.PosInf? || v.NegInf? then Some(name + " must be a finite number")
    else if Less(v, 0.0) || Greater(v, MAX_IRIS_FEATURE_CM) then Some(name + " must be between 0 and 50")
    else None
  }

  // The guard of the servicer.
  predicate ServicerRejects(v: Float) {
    v.NaN? || v.PosInf? || v.NegInf? || Less(v, 0.0) || Greater(v, 50.0)
  }

  // The first complaint when the features are visited in the given order.
  function Complaint(f: Features, order: seq<Index>): Option<string> {
    if order == [] then None
    else
      var e := ValidateIrisFeature(Name(order[0]), Value(f, order[0]));
      if e.Some? then e else Complaint(f, order[1..])
  }

  // An iteration order of the gateway's map, which Go picks at random.
  ghost predicate IsOrder(order: seq<Index>) {
    |order| == 4 && forall i: Index :: i in order
  }

  predicate Acceptable(f: Features) {
    forall i: Index | 0 <= i < 4 :: !ServicerRejects(Value(f, i))
  }

  // A measurement from 0 to 50.
  predicate InRange(v: Float) {
    v == NegZero || (v.Num? && 0.0 <= v.value <= 50.0)
  }

  // The complaint about one feature: v is out of range and the text says how.
  predicate Blames(text: string, name: string, v: Float) {
    && !InRange(v)
    && text == name + (if v.Num? then " must be between 0 and 50" else " must be a finite number")
  }

  // A complaint always names the feature that it is about.
  lemma {:induction false} ComplaintBlames(f: Features, order: seq<Index>)
    requires Complaint(f, order).Some?
    ensures var text := Complaint(f, order).value;
            || Blames(text, "sepal_length", f.sepalLength) || Blames(text, "sepal_width", f.sepalWidth)
            || Blames(text, "petal_length", f.petalLength) || Blames(text, "petal_width", f.petalWidth)
  {
    if ValidateIrisFeature(Name(order[0]), Value(f, order[0])).None? {
      ComplaintBlames(f, order[1..]);
    }
  }

  // The loop of the gateway handler.
  method ValidateFeatures(f: Features, order: seq<Index>) returns (err: Option<string>)
    ensures err == Complaint(f, order)
  {
    for n := 0 to |order|
      invariant Complaint(f, order) == Complaint(f, order[n..])
    {
      err := ValidateIrisFeature(Name(order[n]), Value(f, order[n]));
      if err.Some? {
        return;
      }
    }
    err := None;
  }

  lemma {:induction false} ComplaintMeaning(f: Features, order: seq<Index>)
    ensures Complaint(f, order).None? <==> forall i :: i in order ==> !ServicerRejects(Value(f, i))
    ensures Complaint(f, order).Some? ==>
              exists i :: i in order && ServicerRejects(Value(f, i))
                          && Complaint(f, order) == ValidateIrisFeature(Name(i), Value(f, i))
  {
    if order != [] {
      ComplaintMeaning(f, order[1..]);
    }
  }

  // Both tiers agree, over all floats and every iteration order: the gateway accepts
  // exactly the features that the servicer does not reject.
  lemma TiersAgree(f: Features, order: seq<Index>)
    requires IsOrder(order)
    ensures Complaint(f, order).None? <==> Acceptable(f)
  {
    ComplaintMeaning(f, order);
  }

  lemma MessagesDiffer(f: Features, i: Index, j: Index)
    requires i != j && ServicerRejects(Value(f, i)) && ServicerRejects(Value(f, j))
    ensures ValidateIrisFeature(Name(i), Value(f, i)) != ValidateIrisFeature(Name(j), Value(f, j))
  {
    var a := ValidateIrisFeature(Name(i), Value(f, i)).value;
    var b := ValidateIrisFeature(Name(j), Value(f, j)).value;
    assert a[0] == Name(i)[0] && b[0] == Name(j)[0];
    assert a[6] == Name(i)[6] && b[6] == Name(j)[6];
  }

  // The text of the complaint, unlike the decision, depends on the iteration order: it is
  // the same for every order exactly when at most one feature is out of range.
  lemma ComplaintTextDetermined(f: Features)
    ensures (forall o, p :: IsOrder(o) && IsOrder(p) ==> Complaint(f, o) == Complaint(f, p))
       <==> (forall i: Index, j: Index :: ServicerRejects(Value(f, i)) && ServicerRejects(Value(f, j)) ==> i == j)
  {
    if i: Index, j: Index :| ServicerRejects(Value(f, i)) && ServicerRejects(Value(f, j)) && i != j {
      var o, p := StartingWith(i), StartingWith(j);
      MessagesDiffer(f, i, j);
      assert Complaint(f, o) != Complaint(f, p);
    } else {
      forall o, p | IsOrder(o) && IsOrder(p)
        ensures Complaint(f, o) == Complaint(f, p)
      {
        ComplaintMeaning(f, o);
        ComplaintMeaning(f, p);
      }
    }
  }

  ghost function StartingWith(i: Index): (o: seq<Index>)
    ensures IsOrder(o) && o[0] == i
  {
    var o: seq<Index> := if i == 0 then [0, 1, 2, 3] else if i == 1 then [1, 0, 2, 3]
                         else if i == 2 then [2, 0, 1, 3] else [3, 0, 1, 2];
    assert o[0] == i && {o[0], o[1], o[2], o[3]} == {0, 1, 2, 3};
    o
  }
}

/** The chronological validation split, and the thresholds around it. */
module Training {
  import opened Wrappers
  import opened ForecastTables
  import opened Features
  import opened SortedLists

  const MIN_MODEL_ROWS := 10
  const MIN_VALIDATION_DAYS := 2

  /** A training row: the day it is about, its features, and the quantity to learn. */
  datatype Labelled = Labelled(product: ProductId, day: Day, features: FeatureRow, quantity: real)

  type Model = FeatureRow -> real

  /** What fitting a regressor yields. Fitting itself is outside the model. */
  type Fitting = seq<Labelled> -> Model

  datatype Scored = Scored(row: Labelled, predicted: real)

  datatype Trained = Trained(model: Option<Model>, train: seq<Labelled>, validation: seq<Scored>)

  function DaysOf(frame: seq<Labelled>): (r: seq<int>)
    ensures |r| == |frame| && forall i :: 0 <= i < |r| ==> r[i] == frame[i].day
  {
    seq(|frame|, i requires 0 <= i < |frame| => frame[i].day)
  }

  /** sorted(frame["sale_date"].unique()) */
  function UniqueDays(frame: seq<Labelled>): seq<Day> {
    SortedSet(DaysOf(frame))
  }

  function ValidationDayCount(days: nat): (n: nat)
    requires days >= MIN_VALIDATION_DAYS + 2
    ensures 1 <= n <= 7 && n < days
  {
    var fifth := days / 5;
    var atLeastOne := if fifth > 1 then fifth else 1;
    if atLeastOne < 7 then atLeastOne else 7
  }

  /** The rows whose day is (keep) or is not (!keep) among the given days, in frame order. */
  function OnDays(frame: seq<Labelled>, days: seq<Day>, keep: bool): seq<Labelled> {
    if frame == [] then []
    else (if (frame[0].day in days) == keep then [frame[0]] else []) + OnDays(frame[1..], days, keep)
  }

  function TrainModel(frame: seq<Labelled>, fit: Fitting): Option<Model> {
    if |frame| < MIN_MODEL_ROWS then None else Some(fit(frame))
  }

  function Predicted(rows: seq<Labelled>, model: Model): (r: seq<Scored>)
    ensures |r| == |rows| && forall i :: 0 <= i < |r| ==> r[i] == Scored(rows[i], model(rows[i].features))
  {
    seq(|rows|, i requires 0 <= i < |rows| => Scored(rows[i], model(rows[i].features)))
  }

  function TrainWithValidation(frame: seq<Labelled>, fit: Fitting): Trained {
    var days := UniqueDays(frame);
    if |frame| < MIN_MODEL_ROWS || |days| < MIN_VALIDATION_DAYS + 2 then
      Trained(TrainModel(frame, fit), frame, [])
    else
      var held := days[|days| - ValidationDayCount(|days|)..];
      var train := OnDays(frame, held, false);
      var validation := OnDays(frame, held, true);
      if |train| < MIN_MODEL_ROWS || validation == [] then Trained(TrainModel(frame, fit), frame, [])
      else Trained(TrainModel(frame, fit), train, Predicted(validation, fit(train)))
  }

  lemma UniqueDaysExact(frame: seq<Labelled>)
    ensures StrictlyIncreasing(UniqueDays(frame))
    ensures forall i :: 0 <= i < |frame| ==> frame[i].day in UniqueDays(frame)
    ensures forall d :: d in UniqueDays(frame) ==> exists i :: 0 <= i < |frame| && frame[i].day == d
  {
    SortedSetExact(DaysOf(frame));
    assert forall i :: 0 <= i < |frame| ==> DaysOf(frame)[i] in DaysOf(frame);
  }

  // ----- the split -------------------------------------------------------------------------------

  /** Both parts together are the frame, as a multiset and in number. */
  lemma {:induction false} OnDaysPartition(frame: seq<Labelled>, days: seq<Day>)
    ensures |OnDays(frame, days, true)| + |OnDays(frame, days, false)| == |frame|
    ensures multiset(OnDays(frame, days, true)) + multiset(OnDays(frame, days, false)) == multiset(frame)
  {
    if frame != [] {
      OnDaysPartition(frame[1..], days);
      assert frame == [frame[0]] + frame[1..];
    }
  }

  lemma {:induction false} OnDaysExact(frame: seq<Labelled>, days: seq<Day>, keep: bool)
    ensures forall r :: r in OnDays(frame, days, keep) <==> r in frame && ((r.day in days) == keep)
  {
    if frame != [] {
      OnDaysExact(frame[1..], days, keep);
      assert frame == [frame[0]] + frame[1..];
    }
  }

  /** The days held out are the latest ones: all of them after every other day of the frame. */
  lemma HeldOutIsLatest(frame: seq<Labelled>, n: nat, early: Labelled, late: Labelled)
    requires n <= |UniqueDays(frame)|
    requires early in frame && late in frame
    requires early.day !in UniqueDays(frame)[|UniqueDays(frame)| - n..]
    requires late.day in UniqueDays(frame)[|UniqueDays(frame)| - n..]
    ensures early.day < late.day
  {
    var days := UniqueDays(frame);
    UniqueDaysExact(frame);
    var i :| 0 <= i < |frame| && frame[i] == early;
    var e :| 0 <= e < |days| && days[e] == early.day;
    var l :| 0 <= l < n && days[|days| - n..][l] == late.day;
    assert days[|days| - n + l] == late.day;
    forall k | |days| - n <= k < |days| ensures days[k] != early.day {
      assert days[|days| - n..][k - (|days| - n)] == days[k];
    }
  }

  /** The days a split of this frame holds out: the last ones, if there are enough. */
  function HeldDays(frame: seq<Labelled>): (r: seq<Day>)
    ensures |r| <= |UniqueDays(frame)| && r == UniqueDays(frame)[|UniqueDays(frame)| - |r|..]
  {
    var days := UniqueDays(frame);
    if |days| < MIN_VALIDATION_DAYS + 2 then [] else days[|days| - ValidationDayCount(|days|)..]
  }

  /** The rows of the validation part, without their predictions. */
  function HeldRows(t: Trained): (r: seq<Labelled>)
    ensures |r| == |t.validation| && forall i :: 0 <= i < |r| ==> r[i] == t.validation[i].row
  {
    seq(|t.validation|, i requires 0 <= i < |t.validation| => t.validation[i].row)
  }

  /** Either nothing is held out and everything is trained on, or the frame is divided by its held days. */
  lemma SplitByDays(frame: seq<Labelled>, fit: Fitting)
    ensures var t := TrainWithValidation(frame, fit);
      && (t.model.Some? <==> |frame| >= 10)
      && if t.validation == [] then t.train == frame
         else
           && |t.train| >= 10
           && t.train == OnDays(frame, HeldDays(frame), false)
           && HeldRows(t) == OnDays(frame, HeldDays(frame), true)
  {
    hide OnDays, UniqueDays, ValidationDayCount;
  }

  lemma SplitIsLossless(frame: seq<Labelled>, fit: Fitting)
    ensures var t := TrainWithValidation(frame, fit);
      |t.train| + |t.validation| == |frame| && multiset(t.train) + multiset(HeldRows(t)) == multiset(frame)
  {
    hide TrainWithValidation, HeldDays, OnDays;
    SplitByDays(frame, fit);
    OnDaysPartition(frame, HeldDays(frame));
    if TrainWithValidation(frame, fit).validation == [] {
      assert HeldRows(TrainWithValidation(frame, fit)) == [];
    }
  }

  lemma SplitIsChronological(frame: seq<Labelled>, fit: Fitting)
    ensures var t := TrainWithValidation(frame, fit);
      forall e, l :: e in t.train && l in HeldRows(t) ==> e.day < l.day
  {
    hide TrainWithValidation, HeldDays, OnDays, UniqueDays;
    var t, held := TrainWithValidation(frame, fit), HeldDays(frame);
    SplitByDays(frame, fit);
    OnDaysExact(frame, held, true);
    OnDaysExact(frame, held, false);
    forall e, l | e in t.train && l in HeldRows(t) ensures e.day < l.day {
      HeldOutIsLatest(frame, |held|, e, l);
    }
  }

  /**
    On every path no row is lost or used twice, and whenever rows are held out, every training
    day precedes every validation day and enough rows are left to train on.
    */
  lemma SplitIsChronologicalAndLossless(frame: seq<Labelled>, fit: Fitting)
    ensures var t := TrainWithValidation(frame, fit);
      && |t.train| + |t.validation| == |frame|
      && multiset(t.train) + multiset(HeldRows(t)) == multiset(frame)
      && (t.model.Some? <==> |frame| >= 10)
      && (t.validation != [] ==> |t.train| >= 10)
      && forall e, l :: e in t.train && l in HeldRows(t) ==> e.day < l.day
  {
    hide *;
    SplitByDays(frame, fit);
    SplitIsLossless(frame, fit);
    SplitIsChronological(frame, fit);
  }

  /** When a split is made: enough rows, at least four days, and enough rows outside the held-out days. */
  lemma SplitIsMadeExactlyWhen(frame: seq<Labelled>, fit: Fitting)
    ensures var days := UniqueDays(frame);
      TrainWithValidation(frame, fit).validation != [] <==>
        && |frame| >= 10
        && |days| >= 4
        && |OnDays(frame, days[|days| - ValidationDayCount(|days|)..], false)| >= 10
  {
    var days := UniqueDays(frame);
    if |frame| >= MIN_MODEL_ROWS && |days| >= MIN_VALIDATION_DAYS + 2 {
      var held := days[|days| - ValidationDayCount(|days|)..];
      UniqueDaysExact(frame);
      assert held[0] in held && held[0] in days;
      var i :| 0 <= i < |frame| && frame[i].day == held[0];
      OnDaysExact(frame, held, true);
      assert frame[i] in OnDays(frame, held, true);
    }
  }

  /** A fifth of the days is held out, but at least one and at most seven. */
  lemma HeldOutDaysExact(days: nat)
    requires days >= 4
    ensures var n := ValidationDayCount(days);
      && (days < 10 ==> n == 1)
      && (10 <= days < 40 ==> 5 * n <= days < 5 * (n + 1))
      && (days >= 40 ==> n == 7)
  {
  }

  // ----- who has seen what ------------------------------------------------------------------------------

  /**
    Held-out rows are predicted by a model fitted on the training part alone; the model that goes on
    to forecast is fitted on everything.
    */
  lemma ValidationIsHonest(frame: seq<Labelled>, fit: Fitting)
    ensures var t := TrainWithValidation(frame, fit);
      && (t.model.Some? ==> t.model.value == fit(frame))
      && forall i :: 0 <= i < |t.validation| ==>
           t.validation[i].predicted == fit(t.train)(t.validation[i].row.features)
  {
    hide OnDays, UniqueDays;
  }

  /** The frames differ at most in the quantities of the held-out days. */
  predicate SameButHeldOut(a: seq<Labelled>, b: seq<Labelled>) {
    && |a| == |b|
    && forall i :: 0 <= i < |a| ==>
         && b[i] == a[i].(quantity := b[i].quantity)
         && (a[i].day !in HeldDays(a) ==> b[i] == a[i])
  }

  lemma {:induction false} OnDaysSame(a: seq<Labelled>, b: seq<Labelled>, days: seq<Day>)
    requires |a| == |b|
    requires forall i :: 0 <= i < |a| ==>
      b[i] == a[i].(quantity := b[i].quantity) && (a[i].day !in days ==> b[i] == a[i])
    ensures OnDays(a, days, false) == OnDays(b, days, false)
    ensures |OnDays(a, days, true)| == |OnDays(b, days, true)|
    ensures forall i :: 0 <= i < |OnDays(a, days, true)| ==>
      OnDays(a, days, true)[i].features == OnDays(b, days, true)[i].features
  {
    if a != [] {
      OnDaysSame(a[1..], b[1..], days);
      assert a[0].day == b[0].day;
    }
  }

  lemma SameDays(a: seq<Labelled>, b: seq<Labelled>)
    requires |a| == |b| && forall i :: 0 <= i < |a| ==> a[i].day == b[i].day
    ensures UniqueDays(a) == UniqueDays(b) && HeldDays(a) == HeldDays(b)
  {
    assert DaysOf(a) == DaysOf(b);
  }

  /** Whatever quantities the held-out rows are labelled with, the predictions scored for them are the same. */
  lemma HeldOutSalesDoNotLeak(a: seq<Labelled>, b: seq<Labelled>, fit: Fitting)
    requires SameButHeldOut(a, b)
    ensures var t, u := TrainWithValidation(a, fit), TrainWithValidation(b, fit);
      && |t.validation| == |u.validation|
      && forall i :: 0 <= i < |t.validation| ==> t.validation[i].predicted == u.validation[i].predicted
  {
    SameDays(a, b);
    OnDaysSame(a, b, HeldDays(a));
    hide OnDays, UniqueDays, ValidationDayCount;
  }
}

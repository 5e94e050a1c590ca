/** The dashboard page: the logged-in user's row, the tracked amounts
    (zero when the ledger has no row for the user), the goals taken from
    the user row, the progress-bar arithmetic and the four health tips. */
module Dashboard {
  import opened Wrappers
  import opened Strings
  import opened Nutrition
  import opened Accounts
  import opened Tracking
  import opened Recipes

  /** `users[users['user_id'] == id].iloc[0]`: the first row with the id;
      an unknown id has none (the page raises). */
  function FindUser(users: seq<UserRow>, id: string): (r: Option<UserRow>)
    ensures r.None? <==> forall i :: 0 <= i < |users| ==> users[i].userId != id
    ensures r.Some? ==> exists i :: 0 <= i < |users| && users[i] == r.value && users[i].userId == id
                                    && forall j :: 0 <= j < i ==> users[j].userId != id
  {
    if users == [] then None
    else if users[0].userId == id then Some(users[0])
    else
      var r := FindUser(users[1..], id);
      assert forall i :: 1 <= i < |users| ==> users[i] == users[1..][i - 1];
      r
  }

  /** The tracked amounts shown for the user: those of the first ledger
      row of the user, or all zero. */
  function TrackedLeft(rows: seq<TrackingRow>, id: string): (a: Amounts)
    ensures !HasUser(rows, id) ==> a == Zero
    ensures HasUser(rows, id) ==> exists i :: 0 <= i < |rows| && rows[i].userId == id && a == rows[i].left
                                              && forall j :: 0 <= j < i ==> rows[j].userId != id
  {
    if rows == [] then Zero
    else if rows[0].userId == id then rows[0].left
    else
      var a := TrackedLeft(rows[1..], id);
      assert forall i :: 1 <= i < |rows| ==> rows[i] == rows[1..][i - 1];
      assert HasUser(rows, id) ==> HasUser(rows[1..], id) by {
        if HasUser(rows, id) {
          var i :| 0 <= i < |rows| && rows[i].userId == id;
          assert rows[1..][i - 1].userId == id;
        }
      }
      a
  }

  /** The first row of the user is the one the dashboard reads. */
  lemma TrackedLeftIsFirst(rows: seq<TrackingRow>, id: string, i: nat)
    requires i < |rows| && rows[i].userId == id
    requires forall j :: 0 <= j < i ==> rows[j].userId != id
    ensures TrackedLeft(rows, id) == rows[i].left
  {
    var k :| 0 <= k < |rows| && rows[k].userId == id && TrackedLeft(rows, id) == rows[k].left
             && forall j :: 0 <= j < k ==> rows[j].userId != id;
    assert k == i;
  }

  /** After the recipe page records a consumption, the dashboard shows the
      previous amounts plus the consumed ones; for a user without a ledger
      row the previous amounts are the zero default. */
  lemma TrackedLeftAfterUpsert(rows: seq<TrackingRow>, id: string, a: Amounts)
    ensures TrackedLeft(Upserted(rows, id, a), id) == TrackedLeft(rows, id).Plus(a)
  {
    var r := Upserted(rows, id, a);
    if HasUser(rows, id) {
      var i :| 0 <= i < |rows| && rows[i].userId == id && TrackedLeft(rows, id) == rows[i].left
               && forall j :: 0 <= j < i ==> rows[j].userId != id;
      TrackedLeftIsFirst(r, id, i);
    } else {
      forall j | 0 <= j < |rows|
        ensures r[j].userId != id
      {
        assert r[j] == rows[j];
      }
      TrackedLeftIsFirst(r, id, |rows|);
    }
  }

  /** Recording a consumption for one user changes nothing the dashboard
      shows another user. */
  lemma TrackedLeftOfOthers(rows: seq<TrackingRow>, id: string, other: string, a: Amounts)
    requires other != id
    ensures TrackedLeft(Upserted(rows, id, a), other) == TrackedLeft(rows, other)
  {
    var r := Upserted(rows, id, a);
    if HasUser(rows, other) {
      var i :| 0 <= i < |rows| && rows[i].userId == other && TrackedLeft(rows, other) == rows[i].left
               && forall j :: 0 <= j < i ==> rows[j].userId != other;
      assert r[i] == rows[i];
      TrackedLeftIsFirst(r, other, i);
    } else {
      assert !HasUser(r, other) by {
        forall j | 0 <= j < |r|
          ensures r[j].userId != other
        {
          if j < |rows| {
            assert r[j].userId == rows[j].userId;
          }
        }
      }
    }
  }

  /** The goal columns read from the user row. */
  function Goals(u: UserRow): (g: Amounts)
    ensures g.calories == u.tdee && g.proteins == u.protein && g.fats == u.fat && g.carbs == u.carb
  {
    Amounts(u.tdee, u.protein, u.fat, u.carb)
  }

  /** The percentage drawn by a progress bar. Dividing by a zero goal
      yields minus infinity in the numeric library rather than raising. */
  datatype Percentage = Finite(value: real) | MinusInfinity

  datatype Bar = Bar(percentage: Percentage, left: real)

  /** `horizontal_bar_load` without the drawing: `left = goal - value`,
      and the bar is `value / goal * 100` below the goal and 100 from the
      goal on. */
  function BarLoad(value: real, goal: real): (b: Bar)
    ensures b.left + value == goal
    ensures b.percentage == MinusInfinity <==> value < goal && goal == 0.0
    ensures value >= goal ==> b.percentage == Finite(100.0)
    ensures value < goal && goal != 0.0 ==> b.percentage.Finite? && b.percentage.value * goal == value * 100.0
    ensures goal > 0.0 ==> b.percentage.Finite? && b.percentage.value <= 100.0
    ensures goal > 0.0 && value >= 0.0 ==> b.percentage.Finite? && 0.0 <= b.percentage.value
  {
    var left := goal - value;
    if value < goal then
      if goal == 0.0 then Bar(MinusInfinity, left)
      else
        var p := (value / goal) * 100.0;
        assert goal > 0.0 ==> value / goal < 1.0;
        assert goal > 0.0 && value >= 0.0 ==> value / goal >= 0.0;
        Bar(Finite(p), left)
    else
      Bar(Finite(100.0), left)
  }

  datatype Bars = Bars(calories: Bar, proteins: Bar, fats: Bar, carbs: Bar)

  /** One bar per nutrient, drawn from the tracked amount and the goal. */
  function AllBars(left: Amounts, goals: Amounts): (b: Bars)
    ensures b.calories == BarLoad(left.calories, goals.calories)
    ensures b.proteins == BarLoad(left.proteins, goals.proteins)
    ensures b.fats == BarLoad(left.fats, goals.fats)
    ensures b.carbs == BarLoad(left.carbs, goals.carbs)
  {
    Bars(BarLoad(left.calories, goals.calories), BarLoad(left.proteins, goals.proteins),
         BarLoad(left.fats, goals.fats), BarLoad(left.carbs, goals.carbs))
  }

  datatype MuscleTip = ProteinForMuscleGain | ProteinInEveryMeal
  datatype WeightTip = GainWeightTip | LoseWeightTip | MaintainWeightTip
  datatype ActivityTip = ConsistencyTip | LightExerciseTip
  datatype IntensityTip = IncreaseIntensityTip | RestAndRecoveryTip | BalancedRoutineTip

  /** Exactly one tip of each of the four kinds. */
  datatype Tips = Tips(muscle: MuscleTip, weight: WeightTip, activity: ActivityTip, intensity: IntensityTip)

  /** The four tip rules, each an exact, case-sensitive comparison with the
      stored answer (or a threshold on the workout days). */
  function HealthTips(u: UserRow): (t: Tips)
    ensures t.muscle == ProteinForMuscleGain <==> u.muscleGainGoal == "Yes"
    ensures t.weight == GainWeightTip <==> u.weightGoal == "Gain Weight"
    ensures t.weight == LoseWeightTip <==> u.weightGoal == "Lose Weight"
    ensures t.activity == ConsistencyTip <==> u.workoutDays >= 3
    ensures t.intensity == IncreaseIntensityTip <==> u.workloadIntensity == "Low"
    ensures t.intensity == RestAndRecoveryTip <==> u.workloadIntensity == "High"
  {
    Tips(
      if u.muscleGainGoal == "Yes" then ProteinForMuscleGain else ProteinInEveryMeal,
      if u.weightGoal == "Gain Weight" then GainWeightTip
      else if u.weightGoal == "Lose Weight" then LoseWeightTip
      else MaintainWeightTip,
      if u.workoutDays >= 3 then ConsistencyTip else LightExerciseTip,
      if u.workloadIntensity == "Low" then IncreaseIntensityTip
      else if u.workloadIntensity == "High" then RestAndRecoveryTip
      else BalancedRoutineTip)
  }

  /** Everything the dashboard derives for a user. */
  datatype View = View(user: UserRow, left: Amounts, goals: Amounts, bars: Bars, tips: Tips)

  /** The dashboard of user `id`: none for an id without a user row. */
  function DashboardFor(users: seq<UserRow>, tracking: seq<TrackingRow>, id: string): (r: Option<View>)
    ensures r.Some? <==> exists i :: 0 <= i < |users| && users[i].userId == id
    ensures r.Some? ==> r.value.user == FindUser(users, id).value && r.value.user.userId == id
    ensures r.Some? ==> r.value.left == TrackedLeft(tracking, id)
    ensures r.Some? ==> r.value.tips == HealthTips(r.value.user)
    ensures r.Some? ==> r.value.bars == AllBars(r.value.left, r.value.goals)
    ensures r.Some? ==> r.value.goals == Amounts(r.value.user.tdee, r.value.user.protein, r.value.user.fat, r.value.user.carb)
    ensures r.Some? && r.value.goals.calories > 0.0 ==>
      r.value.bars.calories.percentage.Finite? && r.value.bars.calories.percentage.value <= 100.0
  {
    match FindUser(users, id)
    case None => None
    case Some(u) =>
      var left := TrackedLeft(tracking, id);
      var goals := Goals(u);
      Some(View(u, left, goals, AllBars(left, goals), HealthTips(u)))
  }

  /** Consuming a recipe raises each of the four amounts the dashboard
      shows by that recipe's macro of the same name. */
  lemma ConsumedRecipeShown(rows: seq<TrackingRow>, id: string, x: Recipe)
    ensures var before := TrackedLeft(rows, id);
      var after := TrackedLeft(Upserted(rows, id, Consumed(x)), id);
      after.calories == before.calories + x.calories && after.proteins == before.proteins + x.proteins
      && after.fats == before.fats + x.fats && after.carbs == before.carbs + x.carbs
  {
    TrackedLeftAfterUpsert(rows, id, Consumed(x));
  }

  /** A user registered through the form, under an id no earlier row has,
      sees the goals computed at registration, the maintain-weight tip
      (no offered goal is spelled "Gain Weight" or "Lose Weight"), and
      the muscle tip exactly when they answered "Yes". */
  lemma RegisteredUserDashboard(users: seq<UserRow>, tracking: seq<TrackingRow>, f: RegistrationForm)
    requires Offered(f) && f.height != 0.0
    requires forall i :: 0 <= i < |users| ==> users[i].userId != f.userId
    ensures var v := DashboardFor(users + [NewUserRow(f).value], tracking, f.userId);
      var n := FormNutrients(f).value;
      v.Some? && v.value.user == NewUserRow(f).value
      && v.value.goals == Amounts(n.calories, n.proteins, n.fats, n.carbs)
      && v.value.tips.weight == MaintainWeightTip
      && (v.value.tips.muscle == ProteinForMuscleGain <==> f.muscleGain == "Yes")
      && (v.value.tips.activity == ConsistencyTip <==> f.workoutDays >= 3)
  {
    var all := users + [NewUserRow(f).value];
    assert all[|users|].userId == f.userId;
    var k :| 0 <= k < |all| && all[k] == FindUser(all, f.userId).value && all[k].userId == f.userId
             && forall j :: 0 <= j < k ==> all[j].userId != f.userId;
    assert k == |users|;
  }

  /** Registering again under an existing id appends a row the dashboard
      never shows: the first row of the id still wins. */
  lemma DuplicateRegistrationShadowed(users: seq<UserRow>, row: UserRow)
    requires exists i :: 0 <= i < |users| && users[i].userId == row.userId
    ensures FindUser(users + [row], row.userId) == FindUser(users, row.userId)
  {
    var all := users + [row];
    var k :| 0 <= k < |users| && users[k] == FindUser(users, row.userId).value && users[k].userId == row.userId
             && forall j :: 0 <= j < k ==> users[j].userId != row.userId;
    assert forall j :: 0 <= j <= k ==> all[j] == users[j];
    FindUserIsFirst(all, row.userId, k);
  }

  /** The row the dashboard reads is the first row of the id. */
  lemma FindUserIsFirst(users: seq<UserRow>, id: string, i: nat)
    requires i < |users| && users[i].userId == id
    requires forall j :: 0 <= j < i ==> users[j].userId != id
    ensures FindUser(users, id) == Some(users[i])
  {
    var k :| 0 <= k < |users| && users[k] == FindUser(users, id).value && users[k].userId == id
             && forall j :: 0 <= j < k ==> users[j].userId != id;
    assert k == i;
  }

  /** The registration arithmetic reads the muscle-gain answer in any case,
      the tip rule only as "Yes": a stored "yes" gets the shifted protein
      ratio but not the muscle-gain tip. */
  lemma LowercaseYesMismatch(u: UserRow)
    requires u.muscleGainGoal == "yes"
    ensures Lower(u.muscleGainGoal) == "yes"
    ensures HealthTips(u).muscle == ProteinInEveryMeal
    ensures MacroRatios(u.weightGoal, u.muscleGainGoal).protein == MacroRatios(u.weightGoal, "No").protein + 0.15
  {
    assert Lower("yes") == ['y', 'e', 's'];
    MuscleGainShift(u.weightGoal, u.muscleGainGoal);
  }
}

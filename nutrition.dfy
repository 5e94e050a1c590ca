/** The nutrient arithmetic run at registration: BMI, BMR, the activity
    multiplier that turns BMR into TDEE, and the split of TDEE into
    protein, carbohydrate and fat grams. Real numbers stand for the
    floats of the application, so no rounding is modelled. */
module Nutrition {
  import opened Wrappers
  import opened Strings

  /** `weight / ((height / 100) ** 2)`. A height of zero divides by zero,
      which raises, so there is no BMI. */
  function Bmi(weight: real, height: real): (r: Option<real>)
    ensures r.None? <==> height == 0.0
    ensures r.Some? ==> r.value * ((height / 100.0) * (height / 100.0)) == weight
  {
    if height == 0.0 then None
    else
      var h := height / 100.0;
      assert h * h > 0.0 by {
        if h < 0.0 { assert h * h == (-h) * (-h); }
      }
      assert weight / (h * h) * (h * h) == weight;
      Some(weight / (h * h))
  }

  /** The two BMR formulas; only the exact string "Female" selects the
      female one. */
  function Bmr(gender: string, weight: real, height: real, age: int): (r: real)
    ensures gender == "Female" ==> r == 447.593 + 9.247 * weight + 3.098 * height - 4.330 * age as real
    ensures gender != "Female" ==> r == 88.362 + 13.397 * weight + 4.799 * height - 5.677 * age as real
  {
    if gender == "Female" then
      447.593 + 9.247 * weight + 3.098 * height - 4.330 * age as real
    else
      88.362 + 13.397 * weight + 4.799 * height - 5.677 * age as real
  }

  /** Any gender other than "Female", including "female", gets the male
      formula. */
  lemma BmrMaleUnlessExactlyFemale(gender: string, weight: real, height: real, age: int)
    requires gender != "Female"
    ensures Bmr(gender, weight, height, age) == Bmr("Male", weight, height, age)
  {
  }

  /** The activity multiplier: the first of five rules that applies. */
  function ActivityMultiplier(days: int, intensity: string): (m: real)
    ensures 1.2 <= m <= 1.9
    ensures m == 1.2 || m == 1.375 || m == 1.55 || m == 1.725 || m == 1.9
    ensures m == 1.2 <==> Lower(intensity) == "low" && days == 0
    ensures m == 1.9 <==> Lower(intensity) == "high" && days == 7
    ensures m == 1.375 <==> (Lower(intensity) == "low" && days != 0) || 1 <= days <= 3
    ensures m == 1.55 <==>
      Lower(intensity) != "low" && !(1 <= days <= 3) && (Lower(intensity) == "moderate" || 3 <= days <= 5)
    ensures m == 1.725 <==>
      Lower(intensity) != "low" && Lower(intensity) != "moderate" && !(1 <= days <= 5)
      && !(Lower(intensity) == "high" && days == 7)
    ensures Lower(intensity) == "low" ==> m <= 1.375
  {
    var level := Lower(intensity);
    if level == "low" && days == 0 then 1.2
    else if level == "low" || (1 <= days <= 3) then 1.375
    else if level == "moderate" || (3 <= days <= 5) then 1.55
    else if level == "high" && days == 7 then 1.9
    else 1.725
  }

  lemma LowerLiterals()
    ensures Lower("Low") == "low" && Lower("Medium") == "medium" && Lower("High") == "high"
  {
    assert Lower("Low") == ['l', 'o', 'w'];
    assert Lower("High") == ['h', 'i', 'g', 'h'];
    assert Lower("Medium") == ['m', 'e', 'd', 'i', 'u', 'm'];
  }

  /** The multiplier for the choices the registration form offers (0 to 7
      days; "Low", "Medium" or "High"). "Medium" never matches "moderate",
      so it is ranked by the number of days alone. */
  lemma MultiplierForOfferedChoices(days: int, intensity: string)
    requires 0 <= days <= 7
    requires intensity == "Low" || intensity == "Medium" || intensity == "High"
    ensures intensity == "Low" ==> ActivityMultiplier(days, intensity) == (if days == 0 then 1.2 else 1.375)
    ensures intensity != "Low" ==>
              ActivityMultiplier(days, intensity) ==
                (if 1 <= days <= 3 then 1.375
                 else if 4 <= days <= 5 then 1.55
                 else if days == 7 && intensity == "High" then 1.9
                 else 1.725)
  {
    LowerLiterals();
  }

  /** `bmr * activity_multiplier`. */
  function Tdee(bmr: real, days: int, intensity: string): (t: real)
    ensures bmr >= 0.0 ==> 1.2 * bmr <= t <= 1.9 * bmr
    ensures bmr <= 0.0 ==> 1.9 * bmr <= t <= 1.2 * bmr
  {
    var m := ActivityMultiplier(days, intensity);
    assert m >= 1.2 ==> bmr * m - 1.2 * bmr == bmr * (m - 1.2);
    assert 1.9 * bmr - bmr * m == bmr * (1.9 - m);
    bmr * m
  }

  /** Fractions of TDEE given to protein, carbohydrate and fat. */
  datatype Ratios = Ratios(protein: real, carb: real, fat: real)
  {
    function Sum(): real { protein + carb + fat }
  }

  /** How much a weight goal moves the sum of the ratios away from 1. */
  function GoalShift(weightGoal: string): real
  {
    if weightGoal == "Lose Weight" then -0.10
    else if weightGoal == "Gain Weight" then 0.25
    else 0.0
  }

  /** The ratios after the muscle-gain answer (compared case-insensitively)
      and the weight goal (compared exactly). */
  function MacroRatios(weightGoal: string, muscleGain: string): (r: Ratios)
    ensures r.Sum() == 1.0 + GoalShift(weightGoal)
    ensures r.protein > 0.0 && r.carb > 0.0 && r.fat > 0.0
  {
    var base := Ratios(0.25, 0.4, 0.35);
    var m := if Lower(muscleGain) == "yes"
             then Ratios(base.protein + 0.15, base.carb - 0.1, base.fat - 0.05)
             else base;
    if weightGoal == "Lose Weight (High Priority)" then
      Ratios(m.protein - 0.05, m.carb - 0.1, m.fat + 0.15)
    else if weightGoal == "Lose Weight" then
      Ratios(m.protein - 0.05, m.carb - 0.1, m.fat + 0.05)
    else if weightGoal == "Gain Weight" then
      Ratios(m.protein + 0.05, m.carb + 0.1, m.fat + 0.1)
    else
      m
  }

  /** A muscle-gain answer of "yes" in any case moves the ratios by
      +0.15 / -0.10 / -0.05 on top of whatever the weight goal does. */
  lemma MuscleGainShift(weightGoal: string, muscleGain: string)
    requires Lower(muscleGain) == "yes"
    ensures var r := MacroRatios(weightGoal, muscleGain);
      var n := MacroRatios(weightGoal, "No");
      r == Ratios(n.protein + 0.15, n.carb - 0.1, n.fat - 0.05)
  {
    assert Lower("No") == ['n', 'o'];
  }

  /** "Maintain Weight" adjusts nothing: the ratios are the base 0.25 /
      0.40 / 0.35, or 0.40 / 0.30 / 0.30 after a "yes" to muscle gain. */
  lemma MaintainRatios(muscleGain: string)
    ensures Lower(muscleGain) == "yes" ==> MacroRatios("Maintain Weight", muscleGain) == Ratios(0.4, 0.3, 0.3)
    ensures Lower(muscleGain) != "yes" ==> MacroRatios("Maintain Weight", muscleGain) == Ratios(0.25, 0.4, 0.35)
  {
  }

  /** Each adjusting goal moves every ratio of the "Maintain Weight" result
      by its own amount. */
  lemma GoalAdjustments(muscleGain: string)
    ensures var m := MacroRatios("Maintain Weight", muscleGain);
      MacroRatios("Lose Weight (High Priority)", muscleGain) == Ratios(m.protein - 0.05, m.carb - 0.1, m.fat + 0.15)
      && MacroRatios("Lose Weight", muscleGain) == Ratios(m.protein - 0.05, m.carb - 0.1, m.fat + 0.05)
      && MacroRatios("Gain Weight", muscleGain) == Ratios(m.protein + 0.05, m.carb + 0.1, m.fat + 0.1)
  {
  }

  /** A goal other than the three adjusting ones leaves the ratios as
      "Maintain Weight" does. */
  lemma UnlistedGoalMaintains(weightGoal: string, muscleGain: string)
    requires weightGoal != "Lose Weight (High Priority)" && weightGoal != "Lose Weight" && weightGoal != "Gain Weight"
    ensures MacroRatios(weightGoal, muscleGain) == MacroRatios("Maintain Weight", muscleGain)
  {
  }

  /** The goals the registration form offers never reach the "Lose Weight"
      or "Gain Weight" rules: "Gain Weight (Muscle)" is treated like
      "Maintain Weight" and every offered goal keeps the ratio sum at 1. */
  lemma OfferedGoalsKeepSum(weightGoal: string, muscleGain: string)
    requires weightGoal == "Lose Weight (High Priority)" || weightGoal == "Maintain Weight"
          || weightGoal == "Gain Weight (Muscle)"
    ensures MacroRatios(weightGoal, muscleGain).Sum() == 1.0
    ensures weightGoal == "Gain Weight (Muscle)" ==>
      MacroRatios(weightGoal, muscleGain) == MacroRatios("Maintain Weight", muscleGain)
  {
  }

  /** Grams of protein, carbohydrate and fat. */
  datatype Macros = Macros(protein: real, carb: real, fat: real)

  /** 4 kcal per gram of protein and of carbohydrate, 9 per gram of fat. */
  function Grams(r: Ratios, tdee: real): (g: Macros)
    ensures 4.0 * g.protein == r.protein * tdee
    ensures 4.0 * g.carb == r.carb * tdee
    ensures 9.0 * g.fat == r.fat * tdee
    ensures 4.0 * g.protein + 4.0 * g.carb + 9.0 * g.fat == r.Sum() * tdee
    ensures r.protein >= 0.0 && r.carb >= 0.0 && r.fat >= 0.0 && tdee >= 0.0 ==>
      g.protein >= 0.0 && g.carb >= 0.0 && g.fat >= 0.0
  {
    Macros(r.protein * tdee / 4.0, r.carb * tdee / 4.0, r.fat * tdee / 9.0)
  }

  /** `calculate_macronutrients`: the energy in the returned grams is the
      TDEE scaled by the ratio sum, so exactly the TDEE unless the goal is
      "Lose Weight" or "Gain Weight". */
  function MacroGrams(weightGoal: string, muscleGain: string, tdee: real): (g: Macros)
    ensures 4.0 * g.protein == MacroRatios(weightGoal, muscleGain).protein * tdee
    ensures 4.0 * g.carb == MacroRatios(weightGoal, muscleGain).carb * tdee
    ensures 9.0 * g.fat == MacroRatios(weightGoal, muscleGain).fat * tdee
    ensures 4.0 * g.protein + 4.0 * g.carb + 9.0 * g.fat == (1.0 + GoalShift(weightGoal)) * tdee
    ensures tdee >= 0.0 ==> g.protein >= 0.0 && g.carb >= 0.0 && g.fat >= 0.0
  {
    var r := MacroRatios(weightGoal, muscleGain);
    var g := Grams(r, tdee);
    assert r.Sum() * tdee == (1.0 + GoalShift(weightGoal)) * tdee;
    g
  }

  /** The figures `calculate_nutrients` reports. */
  datatype Nutrients = Nutrients(bmi: real, bmr: real, calories: real, proteins: real, carbs: real, fats: real)

  /** `calculate_nutrients`: BMI, BMR, TDEE reported as calories, and the
      macro grams of that TDEE. It raises (no result) for a zero height. */
  function CalculateNutrients(weight: real, height: real, age: int, gender: string, muscleGain: string,
                              weightGoal: string, days: int, intensity: string): (r: Option<Nutrients>)
    ensures r.None? <==> height == 0.0
    ensures r.Some? ==> r.value.bmi == Bmi(weight, height).value
    ensures r.Some? ==> r.value.bmr == Bmr(gender, weight, height, age)
    ensures r.Some? ==> r.value.calories == Tdee(r.value.bmr, days, intensity)
    ensures r.Some? ==> Macros(r.value.proteins, r.value.carbs, r.value.fats)
                        == MacroGrams(weightGoal, muscleGain, r.value.calories)
    ensures r.Some? ==> 4.0 * r.value.proteins + 4.0 * r.value.carbs + 9.0 * r.value.fats
                        == (1.0 + GoalShift(weightGoal)) * r.value.calories
  {
    match Bmi(weight, height)
    case None => None
    case Some(bmi) =>
      var bmr := Bmr(gender, weight, height, age);
      var tdee := Tdee(bmr, days, intensity);
      var g := MacroGrams(weightGoal, muscleGain, tdee);
      Some(Nutrients(bmi, bmr, tdee, g.protein, g.carb, g.fat))
  }
}

/** The user table of the login/registration page: the credential check
    and the registration that appends a user row with its computed
    nutrient goals. */
module Accounts {
  import opened Wrappers
  import opened Nutrition

  /** One row of the user table. */
  datatype UserRow = UserRow(
    name: string,
    userId: string,
    password: string,
    age: int,
    weight: real,
    height: real,
    bmi: real,
    gender: string,
    muscleGainGoal: string,
    weightGoal: string,
    workoutDays: int,
    workloadIntensity: string,
    bmr: real,
    tdee: real,
    protein: real,
    carb: real,
    fat: real)

  /** What the registration widgets hand over. */
  datatype RegistrationForm = RegistrationForm(
    name: string,
    userId: string,
    password: string,
    age: int,
    weight: real,
    height: real,
    gender: string,
    muscleGain: string,
    weightGoal: string,
    workoutDays: int,
    intensity: string)

  /** The values the registration widgets can produce. */
  predicate Offered(f: RegistrationForm)
  {
    0 <= f.age <= 150 && 0.0 <= f.weight <= 1000.0 && 0.0 <= f.height
    && (f.gender == "Male" || f.gender == "Female")
    && (f.muscleGain == "Yes" || f.muscleGain == "No")
    && (f.weightGoal == "Lose Weight (High Priority)" || f.weightGoal == "Maintain Weight"
        || f.weightGoal == "Gain Weight (Muscle)")
    && 0 <= f.workoutDays <= 7
    && (f.intensity == "Low" || f.intensity == "Medium" || f.intensity == "High")
  }

  function FormNutrients(f: RegistrationForm): Option<Nutrients>
  {
    CalculateNutrients(f.weight, f.height, f.age, f.gender, f.muscleGain, f.weightGoal, f.workoutDays, f.intensity)
  }

  /** The row registration appends: the form's answers and the computed
      BMI, BMR, TDEE and macro grams. A zero height raises before any row
      is built. */
  function NewUserRow(f: RegistrationForm): (r: Option<UserRow>)
    ensures r.None? <==> f.height == 0.0
    ensures r.Some? ==> r.value.name == f.name && r.value.userId == f.userId && r.value.password == f.password
    ensures r.Some? ==> r.value.age == f.age && r.value.weight == f.weight && r.value.height == f.height
                        && r.value.gender == f.gender
    ensures r.Some? ==> r.value.bmi == Bmi(f.weight, f.height).value
                        && r.value.bmi == FormNutrients(f).value.bmi
    ensures r.Some? ==> r.value.muscleGainGoal == f.muscleGain && r.value.weightGoal == f.weightGoal
                        && r.value.workoutDays == f.workoutDays && r.value.workloadIntensity == f.intensity
    ensures r.Some? ==> var n := FormNutrients(f).value;
      r.value.bmr == n.bmr && r.value.tdee == n.calories
      && r.value.protein == n.proteins && r.value.carb == n.carbs && r.value.fat == n.fats
    ensures r.Some? ==> 4.0 * r.value.protein + 4.0 * r.value.carb + 9.0 * r.value.fat
                        == (1.0 + GoalShift(f.weightGoal)) * r.value.tdee
  {
    match Bmi(f.weight, f.height)
    case None => None
    case Some(bmi) =>
      var n := FormNutrients(f).value;
      Some(UserRow(f.name, f.userId, f.password, f.age, f.weight, f.height, bmi, f.gender,
                   f.muscleGain, f.weightGoal, f.workoutDays, f.intensity,
                   n.bmr, n.calories, n.proteins, n.carbs, n.fats))
  }

  /** Some row carries both the user id and the password. */
  predicate CredentialsMatch(users: seq<UserRow>, id: string, password: string)
    ensures CredentialsMatch(users, id, password) <==> exists u :: u in users && u.userId == id && u.password == password
  {
    exists i :: 0 <= i < |users| && users[i].userId == id && users[i].password == password
  }

  /** Appending rows never takes a working login away. */
  lemma LoginSurvivesAppend(users: seq<UserRow>, row: UserRow, id: string, password: string)
    requires CredentialsMatch(users, id, password)
    ensures CredentialsMatch(users + [row], id, password)
  {
    var i :| 0 <= i < |users| && users[i].userId == id && users[i].password == password;
    assert (users + [row])[i] == users[i];
  }

  /** A freshly registered user can log in with the id and password given. */
  lemma LoginAfterRegistration(users: seq<UserRow>, f: RegistrationForm)
    requires f.height != 0.0
    ensures CredentialsMatch(users + [NewUserRow(f).value], f.userId, f.password)
  {
    assert (users + [NewUserRow(f).value])[|users|] == NewUserRow(f).value;
  }

  /** Registration does not check that the id is new: after a second
      registration under the same id, both passwords log in. */
  lemma DuplicateIdKeepsBothPasswords(users: seq<UserRow>, f: RegistrationForm, g: RegistrationForm)
    requires f.height != 0.0 && g.height != 0.0 && f.userId == g.userId
    ensures var after := users + [NewUserRow(f).value] + [NewUserRow(g).value];
      CredentialsMatch(after, f.userId, f.password) && CredentialsMatch(after, f.userId, g.password)
  {
    LoginAfterRegistration(users, f);
    LoginSurvivesAppend(users + [NewUserRow(f).value], NewUserRow(g).value, f.userId, f.password);
    LoginAfterRegistration(users + [NewUserRow(f).value], g);
  }

  /** The user table as the login page holds it after reading it. */
  class UserTable {
    var rows: seq<UserRow>

    constructor (rows: seq<UserRow>)
      ensures this.rows == rows
    {
      this.rows := rows;
    }

    /** The login scan: succeeds exactly when one row matches both the id
        and the password; matching only one of them is not enough. The scan
        stops at the first match, where the page reruns. */
    method Login(id: string, password: string) returns (ok: bool)
      ensures ok <==> CredentialsMatch(rows, id, password)
    {
      ok := false;
      var i := 0;
      while i < |rows| && !ok
        invariant 0 <= i <= |rows|
        invariant ok ==> CredentialsMatch(rows, id, password)
        invariant !ok ==> forall j :: 0 <= j < i ==> !(rows[j].userId == id && rows[j].password == password)
      {
        if rows[i].userId == id && rows[i].password == password {
          ok := true;
        }
        i := i + 1;
      }
    }

    /** Registration: appends exactly one row at the end and leaves the
        existing rows as they were; nothing is appended when the BMI
        computation raises. */
    method Register(f: RegistrationForm) returns (ok: bool)
      modifies this
      ensures ok <==> f.height != 0.0
      ensures ok ==> rows == old(rows) + [NewUserRow(f).value]
      ensures !ok ==> rows == old(rows)
    {
      var row := NewUserRow(f);
      if row.None? {
        return false;
      }
      rows := rows + [row.value];
      ok := true;
    }
  }
}

/** The nutrition-tracking ledger: one row per user holding four running
    amounts. Consuming a recipe adds the recipe's macros to every row of the
    user, or appends a first row for a user who has none. */
module Tracking {
  import opened Recipes

  /** The four `*_left` columns, in the order calories, proteins, fats,
      carbs. */
  datatype Amounts = Amounts(calories: real, proteins: real, fats: real, carbs: real)
  {
    function Plus(other: Amounts): Amounts
    {
      Amounts(calories + other.calories, proteins + other.proteins, fats + other.fats, carbs + other.carbs)
    }
  }

  const Zero: Amounts := Amounts(0.0, 0.0, 0.0, 0.0)

  datatype TrackingRow = TrackingRow(userId: string, left: Amounts)

  /** The amounts the recipe page hands to the ledger for a consumed recipe. */
  function Consumed(x: Recipe): Amounts
  {
    Amounts(x.calories, x.proteins, x.fats, x.carbs)
  }

  /** The mask `user_id == id` selects at least one row. */
  predicate HasUser(rows: seq<TrackingRow>, id: string)
  {
    exists i :: 0 <= i < |rows| && rows[i].userId == id
  }

  /** Adds `a` to the amounts of every row of user `id`. */
  function AddForUser(rows: seq<TrackingRow>, id: string, a: Amounts): (r: seq<TrackingRow>)
    ensures |r| == |rows|
    ensures forall i :: 0 <= i < |rows| ==>
      r[i] == if rows[i].userId == id then TrackingRow(id, rows[i].left.Plus(a)) else rows[i]
  {
    if rows == [] then []
    else
      var head := if rows[0].userId == id then TrackingRow(id, rows[0].left.Plus(a)) else rows[0];
      [head] + AddForUser(rows[1..], id, a)
  }

  /** The ledger after `update_nutrition_tracking(id, ...)`. */
  function Upserted(rows: seq<TrackingRow>, id: string, a: Amounts): (r: seq<TrackingRow>)
    ensures HasUser(r, id)
    ensures |r| == if HasUser(rows, id) then |rows| else |rows| + 1
    ensures HasUser(rows, id) ==> forall i :: 0 <= i < |rows| ==>
      r[i].userId == rows[i].userId
      && (rows[i].userId == id ==> r[i].left == rows[i].left.Plus(a))
      && (rows[i].userId != id ==> r[i] == rows[i])
    ensures !HasUser(rows, id) ==> r == rows + [TrackingRow(id, a)]
  {
    if HasUser(rows, id) then
      var r := AddForUser(rows, id, a);
      var i :| 0 <= i < |rows| && rows[i].userId == id;
      assert r[i].userId == id;
      r
    else
      var r := rows + [TrackingRow(id, a)];
      assert r[|rows|].userId == id;
      r
  }

  lemma {:induction false} AddForUserTwice(rows: seq<TrackingRow>, id: string, a: Amounts, b: Amounts)
    ensures AddForUser(AddForUser(rows, id, a), id, b) == AddForUser(rows, id, a.Plus(b))
  {
    if rows != [] {
      AddForUserTwice(rows[1..], id, a, b);
      assert AddForUser(rows, id, a)[1..] == AddForUser(rows[1..], id, a);
    }
  }

  lemma {:induction false} AddForUserAppend(rows: seq<TrackingRow>, x: TrackingRow, id: string, a: Amounts)
    requires !HasUser(rows, id)
    ensures AddForUser(rows + [x], id, a) == rows + AddForUser([x], id, a)
  {
    if rows != [] {
      AddForUserAppend(rows[1..], x, id, a);
      assert (rows + [x])[1..] == rows[1..] + [x];
      assert !HasUser(rows[1..], id) by {
        forall i | 0 <= i < |rows[1..]|
          ensures rows[1..][i].userId != id
        {
          assert rows[1..][i] == rows[i + 1];
        }
      }
    }
  }

  /** Two consumptions in a row amount to one consumption of their sum,
      whether or not the user had a row before. */
  lemma UpsertTwice(rows: seq<TrackingRow>, id: string, a: Amounts, b: Amounts)
    ensures Upserted(Upserted(rows, id, a), id, b) == Upserted(rows, id, a.Plus(b))
  {
    if HasUser(rows, id) {
      AddForUserTwice(rows, id, a, b);
    } else {
      AddForUserAppend(rows, TrackingRow(id, a), id, b);
      var once := rows + [TrackingRow(id, a)];
      assert once[|rows|].userId == id;
      assert HasUser(once, id);
    }
  }

  /** The ledger table as the recipe page holds it after reading it. */
  class TrackingTable {
    var rows: seq<TrackingRow>

    constructor (rows: seq<TrackingRow>)
      ensures this.rows == rows
    {
      this.rows := rows;
    }

    /** Adds the four amounts to every row of `userId` in place, or appends
        one row holding them when the user has no row. */
    method UpdateNutritionTracking(userId: string, calories: real, proteins: real, fats: real, carbs: real)
      modifies this
      ensures rows == Upserted(old(rows), userId, Amounts(calories, proteins, fats, carbs))
    {
      var a := Amounts(calories, proteins, fats, carbs);
      var table := rows;
      var mask := seq(|table|, i requires 0 <= i < |table| => table[i].userId == userId);
      assert HasUser(table, userId) <==> true in mask by {
        if HasUser(table, userId) {
          var i :| 0 <= i < |table| && table[i].userId == userId;
          assert mask[i];
        }
      }
      if true in mask {
        rows := seq(|table|, i requires 0 <= i < |table| =>
                      if mask[i] then TrackingRow(table[i].userId, table[i].left.Plus(a)) else table[i]);
      } else {
        rows := table + [TrackingRow(userId, a)];
      }
    }
  }
}

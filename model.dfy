// The timeless unit record of src/model.rs and its test(num) formation builder.

module Model {
  import opened Columns
  import App
  import Domain

  /** A unit without an attack clock. */
  datatype ModelUnit = ModelUnit(id: nat, name: string, hp: nat, maxHp: nat, atk: nat, def: nat, speek: nat)

  /** Test unit number i (1-based), carrying the given id. */
  function TestUnit(i: nat, id: nat): (u: ModelUnit)
    ensures u.id == id && u.hp == u.maxHp == i
    ensures 10 <= u.atk <= 19 && u.def == 1
    ensures 100 <= u.speek <= 298 && u.speek % 2 == 0
  {
    ModelUnit(id, "Unit", i, i, 10 + i % 10, 1, 100 + (i % 100) * 2)
  }

  /** Units 1..num with consecutive ids from `first`. */
  function TestUnits(first: nat, num: nat): (us: seq<ModelUnit>)
    ensures |us| == num
    ensures forall k :: 0 <= k < num ==> us[k] == TestUnit(k + 1, first + k)
    decreases num
  {
    if num == 0 then [] else TestUnits(first, num - 1) + [TestUnit(num, first + num - 1)]
  }

  /** test(num): no columns for no units, otherwise round-robin over the column count of the
      1..=3 / 4..=9 / 10..=29 / 30..=59 / 60..=119 / more bands. */
  function TestFormation(first: nat, num: nat): (cols: seq<seq<ModelUnit>>)
    ensures num == 0 ==> cols == []
    ensures num > 0 ==> |cols| == App.DetermineColumns(num)
  {
    if num == 0 then [] else RoundRobin(TestUnits(first, num), App.DetermineColumns(num))
  }

  /** The builder loop of test(num): one id per unit from the shared counter, then unit i onto column i mod n. */
  method Test(num: nat, ids: Domain.IdCounter) returns (columns: seq<seq<ModelUnit>>)
    modifies ids
    ensures columns == TestFormation(old(ids.next), num)
    ensures ids.next == Domain.AfterTaking(old(ids.next), num)
  {
    if num == 0 {
      return [];
    }
    var nCols := App.DetermineColumns(num);
    var first := ids.next;
    var units: seq<ModelUnit> := [];
    for i := 1 to num + 1
      invariant units == TestUnits(first, i - 1)
      invariant ids.next == first + i - 1
    {
      var id := ids.Take();
      units := units + [TestUnit(i, id)];
    }
    columns := Distribute(units, nCols);
  }

  /** The record of a battle unit, its attack clock dropped. */
  function Strip(u: Domain.Unit): ModelUnit {
    ModelUnit(u.id, u.name, u.hp, u.maxHp, u.atk, u.def, u.speek)
  }

  /** model.rs and domain/battle.rs lay out the same units in the same places, whatever the clock. */
  lemma SameFormationAsDomain(first: nat, num: nat, now: nat)
    ensures |TestFormation(first, num)| == |Domain.TestFormation(first, num, now)|
    ensures forall c :: 0 <= c < |TestFormation(first, num)| ==>
              |TestFormation(first, num)[c]| == |Domain.TestFormation(first, num, now)[c]|
    ensures forall c, r :: 0 <= c < |TestFormation(first, num)| && 0 <= r < |TestFormation(first, num)[c]| ==>
              TestFormation(first, num)[c][r] == Strip(Domain.TestFormation(first, num, now)[c][r])
  {
    if num > 0 {
      var n := App.DetermineColumns(num);
      forall c | 0 <= c < n
        ensures |TestFormation(first, num)[c]| == |Domain.TestFormation(first, num, now)[c]|
      {
        SameColumnLength(first, num, now, c);
      }
      forall c, r | 0 <= c < n && 0 <= r < |TestFormation(first, num)[c]|
        ensures TestFormation(first, num)[c][r] == Strip(Domain.TestFormation(first, num, now)[c][r])
      {
        SamePlace(first, num, now, c, r);
      }
    }
  }

  lemma SameColumnLength(first: nat, num: nat, now: nat, c: nat)
    requires num > 0 && c < App.DetermineColumns(num)
    ensures |TestFormation(first, num)[c]| == |Domain.TestFormation(first, num, now)[c]|
  {
    RoundRobinLength(TestUnits(first, num), App.DetermineColumns(num), c);
    RoundRobinLength(Domain.TestUnits(first, num, now), App.DetermineColumns(num), c);
  }

  lemma SamePlace(first: nat, num: nat, now: nat, c: nat, r: nat)
    requires num > 0 && c < App.DetermineColumns(num) && r < |TestFormation(first, num)[c]|
    ensures r < |Domain.TestFormation(first, num, now)[c]|
    ensures TestFormation(first, num)[c][r] == Strip(Domain.TestFormation(first, num, now)[c][r])
  {
    var n := App.DetermineColumns(num);
    var mine, theirs := TestUnits(first, num), Domain.TestUnits(first, num, now);
    SameColumnLength(first, num, now, c);
    RoundRobinAt(mine, n, c, r);
    RoundRobinAt(theirs, n, c, r);
    var k := r * n + c;
    assert mine[k] == TestUnit(k + 1, first + k);
    assert theirs[k] == Domain.TestUnit(k + 1, first + k, now);
  }
}

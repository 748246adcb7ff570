// The battle unit of src/domain/battle.rs, the global id counter that numbers
// units, and the round-robin test formation built from them.

module Domain {
  import opened Columns
  import App

  /** A battle unit. Times are milliseconds on the caller's clock; speek is the attack interval. */
  datatype Unit = Unit(id: nat, name: string, hp: nat, maxHp: nat, atk: nat, def: nat, speek: nat, nextAttackAt: nat)

  /** The process-wide unit id counter (NEXT_UNIT_ID), which hands out 1, 2, 3, ... */
  class IdCounter {
    var next: nat

    constructor()
      ensures next == 1
    {
      next := 1;
    }

    /** fetch_add(1): returns the current value and advances the counter. */
    method Take() returns (id: nat)
      modifies this
      ensures id == old(next)
      ensures next == old(next) + 1
    {
      id := next;
      next := next + 1;
    }
  }

  /** The counter's value once num more ids have been taken, starting from first. It is named, rather
      than written `first + num` in place, so that formations built from it are indexed by a plain
      term: the verifier handles `TestFormation(AfterTaking(first, e), ...)` far more cheaply than
      the same call with a sum as its argument. */
  function AfterTaking(first: nat, num: nat): nat {
    first + num
  }

  /** Unit::new: a fresh id, full health, ready to attack at `now`. */
  method NewUnit(name: string, hp: nat, atk: nat, def: nat, speek: nat, now: nat, ids: IdCounter) returns (u: Unit)
    modifies ids
    ensures u.id == old(ids.next) && ids.next == old(ids.next) + 1
    ensures u.hp == u.maxHp == hp
    ensures u == Unit(u.id, name, hp, hp, atk, def, speek, now)
  {
    var id := ids.Take();
    u := Unit(id, name, hp, hp, atk, def, speek, now);
  }

  predicate Alive(u: Unit) {
    u.hp > 0
  }

  predicate Bounded(u: Unit) {
    u.hp <= u.maxHp
  }

  /** Every unit of the formation satisfies p. */
  predicate Every(f: seq<seq<Unit>>, p: Unit -> bool) {
    forall c, k :: 0 <= c < |f| && 0 <= k < |f[c]| ==> p(f[c][k])
  }

  /** Every unit of the formation has hp left. */
  predicate AllAlive(f: seq<seq<Unit>>) {
    Every(f, Alive)
  }

  /** No unit has more hp than its maximum. */
  predicate HpBounded(f: seq<seq<Unit>>) {
    Every(f, Bounded)
  }

  /** Test unit number i (1-based), carrying the given id. */
  function TestUnit(i: nat, id: nat, now: nat): (u: Unit)
    ensures u.id == id && u.nextAttackAt == now
    ensures u.hp == u.maxHp == i && (i >= 1 ==> Alive(u))
    ensures 10 <= u.atk <= 19 && u.def == 1
    ensures 100 <= u.speek <= 298 && u.speek % 2 == 0
  {
    Unit(id, "Unit", i, i, 10 + i % 10, 1, 100 + (i % 100) * 2, now)
  }

  /** Units 1..num, numbered with consecutive ids from `first`, as the map/collect builds them. */
  function TestUnits(first: nat, num: nat, now: nat): (us: seq<Unit>)
    ensures |us| == num
    ensures forall k :: 0 <= k < num ==> us[k] == TestUnit(k + 1, first + k, now)
    decreases num
  {
    if num == 0 then [] else TestUnits(first, num - 1, now) + [TestUnit(num, first + num - 1, now)]
  }

  /** Unit::test: no columns for no units, otherwise the units dealt round-robin over
      determine_columns(num) columns. */
  function TestFormation(first: nat, num: nat, now: nat): (cols: seq<seq<Unit>>)
    ensures num == 0 ==> cols == []
    ensures num > 0 ==> |cols| == App.DetermineColumns(num)
  {
    if num == 0 then [] else RoundRobin(TestUnits(first, num, now), App.DetermineColumns(num))
  }

  /** The builder loop of Unit::test: draw one id per unit, then push unit i onto column i mod n. */
  method Test(num: nat, now: nat, ids: IdCounter) returns (columns: seq<seq<Unit>>)
    modifies ids
    ensures columns == TestFormation(old(ids.next), num, now)
    ensures ids.next == AfterTaking(old(ids.next), num)
  {
    if num == 0 {
      return [];
    }
    var nCols := App.DetermineColumns(num);
    var first := ids.next;
    var units: seq<Unit> := [];
    for i := 1 to num + 1
      invariant units == TestUnits(first, i - 1, now)
      invariant ids.next == first + i - 1
    {
      var id := ids.Take();
      units := units + [TestUnit(i, id, now)];
    }
    columns := Distribute(units, nCols);
  }

  /** Rank r of column c holds test unit r * n + c + 1, whose id is first + r * n + c. */
  lemma TestFormationAt(first: nat, num: nat, now: nat, c: nat, r: nat)
    requires num > 0 && c < App.DetermineColumns(num)
    requires r < |TestFormation(first, num, now)[c]|
    ensures r * App.DetermineColumns(num) + c < num
    ensures TestFormation(first, num, now)[c][r]
         == TestUnit(r * App.DetermineColumns(num) + c + 1, first + r * App.DetermineColumns(num) + c, now)
  {
    RoundRobinAt(TestUnits(first, num, now), App.DetermineColumns(num), c, r);
  }

  /** Every unit of the test formation carries one of the num ids taken from first. */
  lemma TestFormationIdRange(first: nat, num: nat, now: nat, c: nat, r: nat)
    requires c < |TestFormation(first, num, now)| && r < |TestFormation(first, num, now)[c]|
    ensures first <= TestFormation(first, num, now)[c][r].id < AfterTaking(first, num)
  {
    var n := App.DetermineColumns(num);
    TestFormationAt(first, num, now, c, r);
    var k := r * n + c;
    assert k < num;
    assert TestFormation(first, num, now)[c][r].id == first + k;
  }

  /** No column of a non-empty test formation is empty, and the formation holds exactly num units. */
  lemma TestFormationFull(first: nat, num: nat, now: nat)
    requires num > 0
    ensures forall c :: 0 <= c < |TestFormation(first, num, now)| ==> TestFormation(first, num, now)[c] != []
    ensures multiset(Concat(TestFormation(first, num, now))) == multiset(TestUnits(first, num, now))
  {
    var n := App.DetermineColumns(num);
    forall c | 0 <= c < n
      ensures TestFormation(first, num, now)[c] != []
    {
      RoundRobinNoEmptyColumn(TestUnits(first, num, now), n, c);
    }
    RoundRobinTotal(TestUnits(first, num, now), n);
  }

  /** Two different places of the test formation never hold units with the same id. */
  lemma TestFormationIdsDistinct(first: nat, num: nat, now: nat, c1: nat, r1: nat, c2: nat, r2: nat)
    requires num > 0
    requires c1 < |TestFormation(first, num, now)| && r1 < |TestFormation(first, num, now)[c1]|
    requires c2 < |TestFormation(first, num, now)| && r2 < |TestFormation(first, num, now)[c2]|
    requires c1 != c2 || r1 != r2
    ensures TestFormation(first, num, now)[c1][r1].id != TestFormation(first, num, now)[c2][r2].id
  {
    var n := App.DetermineColumns(num);
    TestFormationAt(first, num, now, c1, r1);
    TestFormationAt(first, num, now, c2, r2);
    var k1, k2 := r1 * n + c1, r2 * n + c2;
    assert TestFormation(first, num, now)[c1][r1].id == first + k1;
    assert TestFormation(first, num, now)[c2][r2].id == first + k2;
    if k1 == k2 {
      DivModUnique(k1, n, r1, c1);
      DivModUnique(k2, n, r2, c2);
    }
  }

  /** A fresh test formation is all alive, at full health, and every unit may attack at once. */
  lemma TestFormationReady(first: nat, num: nat, now: nat)
    ensures AllAlive(TestFormation(first, num, now))
    ensures HpBounded(TestFormation(first, num, now))
    ensures forall c, k :: 0 <= c < |TestFormation(first, num, now)| && 0 <= k < |TestFormation(first, num, now)[c]|
              ==> TestFormation(first, num, now)[c][k].nextAttackAt == now
  {
    var f := TestFormation(first, num, now);
    forall c, k | 0 <= c < |f| && 0 <= k < |f[c]|
      ensures Alive(f[c][k]) && f[c][k].hp <= f[c][k].maxHp && f[c][k].nextAttackAt == now
    {
      TestFormationAt(first, num, now, c, k);
    }
  }
}

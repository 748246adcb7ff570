// One tick of the battle (battle_run in src/app/service.rs): the victory check,
// the collection of attacks of both sides, their application, the removal of
// dead fronts, and the refill of one empty column per side.

module Engine {
  import opened Optional
  import opened Columns
  import opened Domain

  type Column = seq<Unit>
  type Formation = seq<Column>

  // ---------------------------------------------------------------------
  // Victory check and target columns.
  // ---------------------------------------------------------------------

  /** `col.iter().any(|u| u.hp > 0)`. */
  predicate AnyAlive(col: Column) {
    exists k :: 0 <= k < |col| && Alive(col[k])
  }

  /** Some column of the side still holds a unit with hp left. */
  predicate SideAlive(f: Formation) {
    exists c :: 0 <= c < |f| && AnyAlive(f[c])
  }

  predicate IsEmpty(col: Column) {
    col == []
  }

  /** Indices of the columns satisfying p, in increasing order (enumerate / filter / map / collect). */
  function Where(f: Formation, p: Column -> bool): (ix: seq<nat>)
    ensures |ix| <= |f|
    decreases |f|
  {
    if f == [] then []
    else
      var m := |f| - 1;
      Where(f[..m], p) + (if p(f[m]) then [m] else [])
  }

  /** Where lists exactly the columns satisfying p, each once, in increasing order. */
  lemma {:induction false} WhereSound(f: Formation, p: Column -> bool)
    ensures forall i :: 0 <= i < |Where(f, p)| ==> Where(f, p)[i] < |f| && p(f[Where(f, p)[i]])
    ensures forall c :: 0 <= c < |f| && p(f[c]) ==> c in Where(f, p)
    ensures forall i, j :: 0 <= i < j < |Where(f, p)| ==> Where(f, p)[i] < Where(f, p)[j]
    decreases |f|
  {
    if f != [] {
      var m := |f| - 1;
      WhereSound(f[..m], p);
      var prev := Where(f[..m], p);
      assert forall i :: 0 <= i < |prev| ==> Where(f, p)[i] == prev[i];
    }
  }

  /** A side can be aimed at exactly when it is still alive. */
  lemma TargetsIffAlive(f: Formation)
    ensures Where(f, AnyAlive) != [] <==> SideAlive(f)
  {
    WhereSound(f, AnyAlive);
    var ix := Where(f, AnyAlive);
    if SideAlive(f) {
      var c :| 0 <= c < |f| && AnyAlive(f[c]);
      assert c in ix;
    }
    if ix != [] {
      assert AnyAlive(f[ix[0]]);
    }
  }

  datatype Verdict = FriendlyVictory | EnemyVictory | Fight

  /** The victory check; the enemy side is examined first. */
  function Judge(friendly: Formation, enemy: Formation): (v: Verdict)
    ensures v == FriendlyVictory <==> Where(enemy, AnyAlive) == []
    ensures v == EnemyVictory <==> Where(enemy, AnyAlive) != [] && Where(friendly, AnyAlive) == []
  {
    TargetsIffAlive(friendly);
    TargetsIffAlive(enemy);
    if !SideAlive(enemy) then FriendlyVictory
    else if !SideAlive(friendly) then EnemyVictory
    else Fight
  }

  // ---------------------------------------------------------------------
  // Attack collection.
  // ---------------------------------------------------------------------

  /** Only the first three ranks of a column may attack (`.take(3)`). */
  const AttackRanks: nat := 3

  function Ranks(col: Column): (r: nat)
    ensures r <= |col| && r <= AttackRanks
    ensures r == |col| || r == AttackRanks
  {
    if |col| < AttackRanks then |col| else AttackRanks
  }

  /** A unit attacks when it has hp left and its next attack time has come. */
  predicate CanAttack(u: Unit, now: nat) {
    u.hp > 0 && now >= u.nextAttackAt
  }

  datatype Pos = Pos(col: nat, row: nat)

  /** Column-major order of places. */
  predicate Before(p: Pos, q: Pos) {
    p.col < q.col || (p.col == q.col && p.row < q.row)
  }

  /** rng.random_range(0..n), fed by one number of the draw stream. */
  function Pick(draw: nat, n: nat): (k: nat)
    requires n > 0
    ensures k < n
  {
    draw % n
  }

  /** Place p comes before rank r of column c in the loops' visiting order. */
  predicate Visited(p: Pos, c: nat, r: nat) {
    p.col < c || (p.col == c && p.row < r)
  }

  /** A planned attack: which side attacks, the attacker's place, and the target column. */
  datatype Attack = Attack(friendly: bool, aCol: nat, aRow: nat, dCol: nat)

  /** Where the collection loops of one side may stand: at rank r of column c, or past the last column. */
  predicate LoopPoint(att: Formation, c: nat, r: nat) {
    c <= |att| && (c == |att| ==> r == 0) && (c < |att| ==> r <= Ranks(att[c]))
  }

  /** The attacks one side has planned once its loops have visited every rank of columns 0 .. c-1 and
      ranks 0 .. r-1 of column c: each unit that may attack, while the other side offers a target
      column, takes the next number of the draw stream (from `offset` on) to pick its target. */
  function Planned(att: Formation, def: Formation, friendly: bool, now: nat, draws: nat -> nat, offset: nat, c: nat, r: nat): (atks: seq<Attack>)
    requires LoopPoint(att, c, r)
    decreases c, r
  {
    if r == 0 then
      if c == 0 then [] else Planned(att, def, friendly, now, draws, offset, c - 1, Ranks(att[c - 1]))
    else
      var prev := Planned(att, def, friendly, now, draws, offset, c, r - 1);
      var targets := Where(def, AnyAlive);
      if CanAttack(att[c][r - 1], now) && targets != [] then
        prev + [Attack(friendly, c, r - 1, targets[Pick(draws(offset + |prev|), |targets|)])]
      else prev
  }

  /** Attack i planned so far is the side's, made by a unit already visited, of the first three ranks,
      that may attack, and aims at the column picked by draw offset + i among the target columns. */
  lemma {:induction false} PlannedSound(att: Formation, def: Formation, friendly: bool, now: nat, draws: nat -> nat, offset: nat, c: nat, r: nat, i: nat)
    requires LoopPoint(att, c, r) && i < |Planned(att, def, friendly, now, draws, offset, c, r)|
    ensures var a := Planned(att, def, friendly, now, draws, offset, c, r)[i];
            var targets := Where(def, AnyAlive);
            a.friendly == friendly && Visited(Pos(a.aCol, a.aRow), c, r)
            && a.aCol < |att| && a.aRow < Ranks(att[a.aCol]) && CanAttack(att[a.aCol][a.aRow], now)
            && targets != [] && a.dCol == targets[Pick(draws(offset + i), |targets|)]
    decreases c, r
  {
    if r == 0 {
      PlannedSound(att, def, friendly, now, draws, offset, c - 1, Ranks(att[c - 1]), i);
    } else {
      var prev := Planned(att, def, friendly, now, draws, offset, c, r - 1);
      if i < |prev| {
        PlannedSound(att, def, friendly, now, draws, offset, c, r - 1, i);
      }
    }
  }

  /** The attacks planned so far are in the loops' order: column by column, front to back. */
  lemma {:induction false} PlannedOrdered(att: Formation, def: Formation, friendly: bool, now: nat, draws: nat -> nat, offset: nat, c: nat, r: nat, i: nat, j: nat)
    requires LoopPoint(att, c, r) && i < j < |Planned(att, def, friendly, now, draws, offset, c, r)|
    ensures var atks := Planned(att, def, friendly, now, draws, offset, c, r);
            Before(Pos(atks[i].aCol, atks[i].aRow), Pos(atks[j].aCol, atks[j].aRow))
    decreases c, r
  {
    if r == 0 {
      PlannedOrdered(att, def, friendly, now, draws, offset, c - 1, Ranks(att[c - 1]), i, j);
    } else {
      var prev := Planned(att, def, friendly, now, draws, offset, c, r - 1);
      if j < |prev| {
        PlannedOrdered(att, def, friendly, now, draws, offset, c, r - 1, i, j);
      } else {
        PlannedSound(att, def, friendly, now, draws, offset, c, r - 1, i);
      }
    }
  }

  /** While the other side offers a target, every visited unit of the first three ranks that may
      attack has planned an attack. */
  lemma {:induction false} PlannedComplete(att: Formation, def: Formation, friendly: bool, now: nat, draws: nat -> nat, offset: nat, c: nat, r: nat, p: Pos)
    requires LoopPoint(att, c, r) && Where(def, AnyAlive) != []
    requires Visited(p, c, r) && p.col < |att| && p.row < Ranks(att[p.col]) && CanAttack(att[p.col][p.row], now)
    ensures exists i :: 0 <= i < |Planned(att, def, friendly, now, draws, offset, c, r)|
              && Planned(att, def, friendly, now, draws, offset, c, r)[i].aCol == p.col
              && Planned(att, def, friendly, now, draws, offset, c, r)[i].aRow == p.row
    decreases c, r
  {
    var atks := Planned(att, def, friendly, now, draws, offset, c, r);
    if r == 0 {
      PlannedComplete(att, def, friendly, now, draws, offset, c - 1, Ranks(att[c - 1]), p);
    } else {
      var prev := Planned(att, def, friendly, now, draws, offset, c, r - 1);
      if p == Pos(c, r - 1) {
        assert atks[|prev|].aCol == p.col && atks[|prev|].aRow == p.row;
      } else {
        PlannedComplete(att, def, friendly, now, draws, offset, c, r - 1, p);
        var i :| 0 <= i < |prev| && prev[i].aCol == p.col && prev[i].aRow == p.row;
        assert atks[i] == prev[i];
      }
    }
  }

  /** Nothing is planned against a side with no live column. */
  lemma {:induction false} PlannedNone(att: Formation, def: Formation, friendly: bool, now: nat, draws: nat -> nat, offset: nat, c: nat, r: nat)
    requires LoopPoint(att, c, r) && Where(def, AnyAlive) == []
    ensures Planned(att, def, friendly, now, draws, offset, c, r) == []
    decreases c, r
  {
    if r == 0 {
      if c > 0 {
        PlannedNone(att, def, friendly, now, draws, offset, c - 1, Ranks(att[c - 1]));
      }
    } else {
      PlannedNone(att, def, friendly, now, draws, offset, c, r - 1);
    }
  }

  /** The attacks one side plans against the other in a tick. */
  function SideAttacks(att: Formation, def: Formation, friendly: bool, now: nat, draws: nat -> nat, offset: nat): (atks: seq<Attack>)
    ensures !SideAlive(def) ==> atks == []
  {
    TargetsIffAlive(def);
    if Where(def, AnyAlive) == [] then PlannedNone(att, def, friendly, now, draws, offset, |att|, 0); []
    else Planned(att, def, friendly, now, draws, offset, |att|, 0)
  }

  /** The i-th attack of a side is made by one of its units of the first three ranks that may attack,
      on the column of the other side picked by draw offset + i among those holding a live unit. */
  lemma SideAttacksAt(att: Formation, def: Formation, friendly: bool, now: nat, draws: nat -> nat, offset: nat, i: nat)
    requires i < |SideAttacks(att, def, friendly, now, draws, offset)|
    ensures var a := SideAttacks(att, def, friendly, now, draws, offset)[i];
            var targets := Where(def, AnyAlive);
            a.friendly == friendly
            && a.aCol < |att| && a.aRow < Ranks(att[a.aCol]) && CanAttack(att[a.aCol][a.aRow], now)
            && targets != [] && a.dCol == targets[Pick(draws(offset + i), |targets|)]
            && a.dCol < |def| && AnyAlive(def[a.dCol])
  {
    PlannedSound(att, def, friendly, now, draws, offset, |att|, 0, i);
    WhereSound(def, AnyAlive);
    var targets := Where(def, AnyAlive);
    assert AnyAlive(def[targets[Pick(draws(offset + i), |targets|)]]);
  }

  /** All attacks of a tick: the friendly side's first, then the enemy's, which continue the draw stream. */
  function Collect(friendly: Formation, enemy: Formation, now: nat, draws: nat -> nat): (atks: seq<Attack>)
    ensures |atks| == |SideAttacks(friendly, enemy, true, now, draws, 0)|
                      + |SideAttacks(enemy, friendly, false, now, draws, |SideAttacks(friendly, enemy, true, now, draws, 0)|)|
  {
    var fa := SideAttacks(friendly, enemy, true, now, draws, 0);
    fa + SideAttacks(enemy, friendly, false, now, draws, |fa|)
  }

  /** Every collected attack comes from a unit of the first three ranks that may attack and aims at
      a column of the other side holding a live unit; friendly attacks all come before enemy ones. */
  lemma CollectSound(friendly: Formation, enemy: Formation, now: nat, draws: nat -> nat, i: nat)
    requires i < |Collect(friendly, enemy, now, draws)|
    ensures var a := Collect(friendly, enemy, now, draws)[i];
            var att := if a.friendly then friendly else enemy;
            var def := if a.friendly then enemy else friendly;
            a.aCol < |att| && a.aRow < Ranks(att[a.aCol]) && a.aRow < AttackRanks
            && CanAttack(att[a.aCol][a.aRow], now)
            && a.dCol < |def| && AnyAlive(def[a.dCol])
    ensures forall j :: 0 <= j < i && !Collect(friendly, enemy, now, draws)[j].friendly
              ==> !Collect(friendly, enemy, now, draws)[i].friendly
  {
    var fa := SideAttacks(friendly, enemy, true, now, draws, 0);
    var ea := SideAttacks(enemy, friendly, false, now, draws, |fa|);
    var all := fa + ea;
    if i < |fa| {
      assert all[i] == fa[i];
      SideAttacksAt(friendly, enemy, true, now, draws, 0, i);
    } else {
      assert all[i] == ea[i - |fa|];
      SideAttacksAt(enemy, friendly, false, now, draws, |fa|, i - |fa|);
    }
    forall j | 0 <= j < i && !all[j].friendly
      ensures !all[i].friendly
    {
      if j < |fa| {
        assert all[j] == fa[j];
        SideAttacksAt(friendly, enemy, true, now, draws, 0, j);
      } else {
        assert all[i] == ea[i - |fa|];
        SideAttacksAt(enemy, friendly, false, now, draws, |fa|, i - |fa|);
      }
    }
  }

  /** While the enemy lives, each friendly unit of the first three ranks that may attack plans an attack. */
  lemma CollectComplete(friendly: Formation, enemy: Formation, now: nat, draws: nat -> nat, c: nat, k: nat)
    requires SideAlive(enemy)
    requires c < |friendly| && k < Ranks(friendly[c]) && CanAttack(friendly[c][k], now)
    ensures exists i :: 0 <= i < |Collect(friendly, enemy, now, draws)|
              && Collect(friendly, enemy, now, draws)[i].friendly
              && Collect(friendly, enemy, now, draws)[i].aCol == c
              && Collect(friendly, enemy, now, draws)[i].aRow == k
  {
    var fa := SideAttacks(friendly, enemy, true, now, draws, 0);
    var all := Collect(friendly, enemy, now, draws);
    TargetsIffAlive(enemy);
    PlannedComplete(friendly, enemy, true, now, draws, 0, |friendly|, 0, Pos(c, k));
    var i :| 0 <= i < |fa| && fa[i].aCol == c && fa[i].aRow == k;
    SideAttacksAt(friendly, enemy, true, now, draws, 0, i);
    assert all[i] == fa[i];
  }

  /** While the friendly side lives, each enemy unit of the first three ranks that may attack plans an attack. */
  lemma CollectCompleteEnemy(friendly: Formation, enemy: Formation, now: nat, draws: nat -> nat, c: nat, k: nat)
    requires SideAlive(friendly)
    requires c < |enemy| && k < Ranks(enemy[c]) && CanAttack(enemy[c][k], now)
    ensures exists i :: 0 <= i < |Collect(friendly, enemy, now, draws)|
              && !Collect(friendly, enemy, now, draws)[i].friendly
              && Collect(friendly, enemy, now, draws)[i].aCol == c
              && Collect(friendly, enemy, now, draws)[i].aRow == k
  {
    var fa := SideAttacks(friendly, enemy, true, now, draws, 0);
    var ea := SideAttacks(enemy, friendly, false, now, draws, |fa|);
    var all := Collect(friendly, enemy, now, draws);
    TargetsIffAlive(friendly);
    PlannedComplete(enemy, friendly, false, now, draws, |fa|, |enemy|, 0, Pos(c, k));
    var i :| 0 <= i < |ea| && ea[i].aCol == c && ea[i].aRow == k;
    SideAttacksAt(enemy, friendly, false, now, draws, |fa|, i);
    assert all[|fa| + i] == ea[i];
  }

  /** No unit of either side plans two attacks in one tick. */
  lemma CollectOncePerUnit(friendly: Formation, enemy: Formation, now: nat, draws: nat -> nat, i: nat, j: nat)
    requires i < j < |Collect(friendly, enemy, now, draws)|
    requires Collect(friendly, enemy, now, draws)[i].friendly == Collect(friendly, enemy, now, draws)[j].friendly
    ensures Collect(friendly, enemy, now, draws)[i].aCol != Collect(friendly, enemy, now, draws)[j].aCol
         || Collect(friendly, enemy, now, draws)[i].aRow != Collect(friendly, enemy, now, draws)[j].aRow
  {
    var fa := SideAttacks(friendly, enemy, true, now, draws, 0);
    var ea := SideAttacks(enemy, friendly, false, now, draws, |fa|);
    var all := fa + ea;
    if j < |fa| {
      assert all[i] == fa[i] && all[j] == fa[j];
      SideAttacksOnce(friendly, enemy, true, now, draws, 0, i, j);
    } else if i >= |fa| {
      assert all[i] == ea[i - |fa|] && all[j] == ea[j - |fa|];
      SideAttacksOnce(enemy, friendly, false, now, draws, |fa|, i - |fa|, j - |fa|);
    } else {
      assert all[i] == fa[i] && all[j] == ea[j - |fa|];
      SideAttacksAt(friendly, enemy, true, now, draws, 0, i);
      SideAttacksAt(enemy, friendly, false, now, draws, |fa|, j - |fa|);
    }
  }

  /** The attacks of one side come from distinct places, in column-major order. */
  lemma SideAttacksOnce(att: Formation, def: Formation, friendly: bool, now: nat, draws: nat -> nat, offset: nat, i: nat, j: nat)
    requires i < j < |SideAttacks(att, def, friendly, now, draws, offset)|
    ensures Before(Pos(SideAttacks(att, def, friendly, now, draws, offset)[i].aCol, SideAttacks(att, def, friendly, now, draws, offset)[i].aRow),
                   Pos(SideAttacks(att, def, friendly, now, draws, offset)[j].aCol, SideAttacks(att, def, friendly, now, draws, offset)[j].aRow))
  {
    PlannedOrdered(att, def, friendly, now, draws, offset, |att|, 0, i, j);
  }

  /** The collection loops of one side: for each column, for each of its first three ranks, a unit
      that may attack draws a target among the other side's columns holding a live unit. */
  method CollectSide(att: Formation, def: Formation, friendly: bool, now: nat, draws: nat -> nat, offset: nat)
    returns (attacks: seq<Attack>)
    ensures attacks == SideAttacks(att, def, friendly, now, draws, offset)
  {
    attacks := [];
    for c := 0 to |att|
      invariant attacks == Planned(att, def, friendly, now, draws, offset, c, 0)
    {
      for r := 0 to Ranks(att[c])
        invariant attacks == Planned(att, def, friendly, now, draws, offset, c, r)
      {
        PlannedNext(att, def, friendly, now, draws, offset, c, r);
        var unit := att[c][r];
        if unit.hp > 0 && now >= unit.nextAttackAt {
          var targets := Where(def, AnyAlive);
          if targets != [] {
            var target := targets[Pick(draws(offset + |attacks|), |targets|)];
            attacks := attacks + [Attack(friendly, c, r, target)];
          }
        }
      }
    }
    if Where(def, AnyAlive) == [] {
      PlannedNone(att, def, friendly, now, draws, offset, |att|, 0);
    }
  }

  /** One more rank visited: its unit adds an attack when it may attack and there is a target. */
  lemma PlannedNext(att: Formation, def: Formation, friendly: bool, now: nat, draws: nat -> nat, offset: nat, c: nat, r: nat)
    requires c < |att| && r < Ranks(att[c])
    ensures var prev := Planned(att, def, friendly, now, draws, offset, c, r);
            var targets := Where(def, AnyAlive);
            Planned(att, def, friendly, now, draws, offset, c, r + 1)
            == if CanAttack(att[c][r], now) && targets != []
               then prev + [Attack(friendly, c, r, targets[Pick(draws(offset + |prev|), |targets|)])]
               else prev
  {
  }

  /** Both collection loops: friendly attacks first, then the enemy's. */
  method CollectAttacks(friendly: Formation, enemy: Formation, now: nat, draws: nat -> nat) returns (attacks: seq<Attack>)
    ensures attacks == Collect(friendly, enemy, now, draws)
  {
    var fa := CollectSide(friendly, enemy, true, now, draws, 0);
    var ea := CollectSide(enemy, friendly, false, now, draws, |fa|);
    attacks := fa + ea;
  }

  // ---------------------------------------------------------------------
  // Attack application.
  // ---------------------------------------------------------------------

  /** u128::saturating_sub. */
  function SatSub(a: nat, b: nat): (r: nat)
    ensures r <= a
    ensures r == 0 <==> a <= b
    ensures r > 0 ==> r + b == a
  {
    if a >= b then a - b else 0
  }

  /** `atk.saturating_sub(def).max(1)`: the excess of attack over defence, but never less than one. */
  function Damage(atk: nat, def: nat): (d: nat)
    ensures d >= 1
    ensures atk > def ==> d + def == atk
    ensures atk <= def ==> d == 1
  {
    var excess := SatSub(atk, def);
    if excess > 1 then excess else 1
  }

  /** The two formations of the battle. */
  datatype Armies = Armies(friendly: Formation, enemy: Formation)

  /** The attacking and the defending formation of one attack. */
  datatype Sides = Sides(att: Formation, def: Formation)

  /** The guard of one attack: both places exist, and attacker and defending front still have hp. */
  predicate CanStrike(att: Formation, def: Formation, a: Attack) {
    a.aCol < |att| && a.aRow < |att[a.aCol]| && a.dCol < |def| && def[a.dCol] != []
    && Alive(att[a.aCol][a.aRow]) && Alive(def[a.dCol][0])
  }

  /** One attack: the front of the target column loses the damage (down to zero hp) and the attacker
      may next attack speek milliseconds from now. An attack whose guard fails changes nothing. */
  function Strike(att: Formation, def: Formation, a: Attack, now: nat): (r: Sides)
    ensures |r.att| == |att| && |r.def| == |def|
    ensures !CanStrike(att, def, a) ==> r == Sides(att, def)
  {
    if CanStrike(att, def, a) then
      var attacker := att[a.aCol][a.aRow];
      var front := def[a.dCol][0];
      var damage := Damage(attacker.atk, front.def);
      Sides(att[a.aCol := att[a.aCol][a.aRow := attacker.(nextAttackAt := now + attacker.speek)]],
            def[a.dCol := def[a.dCol][0 := front.(hp := SatSub(front.hp, damage))]])
    else Sides(att, def)
  }

  /** u and v are the same unit, v having possibly lost hp, and its attack clock either untouched
      or restarted at now. */
  predicate Kin(u: Unit, v: Unit, now: nat) {
    v.id == u.id && v.name == u.name && v.maxHp == u.maxHp && v.atk == u.atk && v.def == u.def
    && v.speek == u.speek && v.hp <= u.hp
    && (v.nextAttackAt == u.nextAttackAt || v.nextAttackAt == now + u.speek)
  }

  /** g is f after the attacks of the tick at now: every place holds the same unit, hp never rises,
      only fronts lose any, and a clock only ever moves to now + speek. */
  predicate Evolves(f: Formation, g: Formation, now: nat) {
    |g| == |f|
    && (forall c :: 0 <= c < |f| ==> |g[c]| == |f[c]|)
    && (forall c, k :: 0 <= c < |f| && 0 <= k < |f[c]| ==> Kin(f[c][k], g[c][k], now))
    && (forall c, k :: 0 <= c < |f| && 1 <= k < |f[c]| ==> g[c][k].hp == f[c][k].hp)
  }

  lemma EvolvesTrans(f: Formation, g: Formation, h: Formation, now: nat)
    requires Evolves(f, g, now) && Evolves(g, h, now)
    ensures Evolves(f, h, now)
  {
  }

  /** A landing attack takes exactly min(hp, damage) from the target front, which therefore drops,
      restarts the attacker's clock, and leaves every other place of both sides as it was. */
  lemma StrikeEffect(att: Formation, def: Formation, a: Attack, now: nat)
    requires CanStrike(att, def, a)
    ensures var r := Strike(att, def, a, now);
            var front := def[a.dCol][0];
            var attacker := att[a.aCol][a.aRow];
            var damage := Damage(attacker.atk, front.def);
            r.def[a.dCol][0].hp < front.hp
            && (damage >= front.hp ==> r.def[a.dCol][0].hp == 0)
            && (damage < front.hp ==> r.def[a.dCol][0].hp + damage == front.hp)
            && r.def[a.dCol][0] == front.(hp := SatSub(front.hp, damage))
            && r.att[a.aCol][a.aRow] == attacker.(nextAttackAt := now + attacker.speek)
            && (forall c :: 0 <= c < |def| ==> |r.def[c]| == |def[c]|)
            && (forall c :: 0 <= c < |att| ==> |r.att[c]| == |att[c]|)
            && (forall c, k :: 0 <= c < |def| && 0 <= k < |def[c]| && (c != a.dCol || k != 0) ==> r.def[c][k] == def[c][k])
            && (forall c, k :: 0 <= c < |att| && 0 <= k < |att[c]| && (c != a.aCol || k != a.aRow) ==> r.att[c][k] == att[c][k])
  {
  }

  /** Both formations only evolve under an attack. */
  lemma StrikeEvolves(att: Formation, def: Formation, a: Attack, now: nat)
    ensures Evolves(att, Strike(att, def, a, now).att, now) && Evolves(def, Strike(att, def, a, now).def, now)
  {
  }

  /** One attack of the list, by the side it names. */
  function Resolve(s: Armies, a: Attack, now: nat): (r: Armies)
    ensures |r.friendly| == |s.friendly| && |r.enemy| == |s.enemy|
  {
    if a.friendly then
      var x := Strike(s.friendly, s.enemy, a, now);
      Armies(x.att, x.def)
    else
      var x := Strike(s.enemy, s.friendly, a, now);
      Armies(x.def, x.att)
  }

  /** The attacks, applied in order to the armies as they stand after the earlier ones. */
  function ResolveAll(s: Armies, attacks: seq<Attack>, now: nat): (r: Armies)
    ensures |r.friendly| == |s.friendly| && |r.enemy| == |s.enemy|
    decreases |attacks|
  {
    if attacks == [] then s
    else
      var m := |attacks| - 1;
      Resolve(ResolveAll(s, attacks[..m], now), attacks[m], now)
  }

  /** Applying attacks keeps every unit in its place and never raises hp; only fronts lose hp. */
  lemma {:induction false} ResolveAllEvolves(s: Armies, attacks: seq<Attack>, now: nat)
    ensures Evolves(s.friendly, ResolveAll(s, attacks, now).friendly, now)
    ensures Evolves(s.enemy, ResolveAll(s, attacks, now).enemy, now)
    decreases |attacks|
  {
    if attacks != [] {
      var m := |attacks| - 1;
      var mid := ResolveAll(s, attacks[..m], now);
      ResolveAllEvolves(s, attacks[..m], now);
      if attacks[m].friendly {
        StrikeEvolves(mid.friendly, mid.enemy, attacks[m], now);
      } else {
        StrikeEvolves(mid.enemy, mid.friendly, attacks[m], now);
      }
      EvolvesTrans(s.friendly, mid.friendly, ResolveAll(s, attacks, now).friendly, now);
      EvolvesTrans(s.enemy, mid.enemy, ResolveAll(s, attacks, now).enemy, now);
    }
  }

  /** The application loop: each attack whose guard holds damages the target front and restarts the
      attacker's clock, in place. */
  method ApplyAttacks(friendly: Formation, enemy: Formation, attacks: seq<Attack>, now: nat) returns (f: Formation, e: Formation)
    ensures Armies(f, e) == ResolveAll(Armies(friendly, enemy), attacks, now)
  {
    f, e := friendly, enemy;
    for i := 0 to |attacks|
      invariant Armies(f, e) == ResolveAll(Armies(friendly, enemy), attacks[..i], now)
    {
      assert attacks[..i + 1][..i] == attacks[..i];
      var a := attacks[i];
      if a.friendly {
        if a.aCol < |f| && a.aRow < |f[a.aCol]| && a.dCol < |e| && e[a.dCol] != [] {
          if f[a.aCol][a.aRow].hp > 0 && e[a.dCol][0].hp > 0 {
            var atk := f[a.aCol][a.aRow].atk;
            var def := e[a.dCol][0].def;
            var damage := Damage(atk, def);
            e := e[a.dCol := e[a.dCol][0 := e[a.dCol][0].(hp := SatSub(e[a.dCol][0].hp, damage))]];
            f := f[a.aCol := f[a.aCol][a.aRow := f[a.aCol][a.aRow].(nextAttackAt := now + f[a.aCol][a.aRow].speek)]];
          }
        }
      } else {
        if a.aCol < |e| && a.aRow < |e[a.aCol]| && a.dCol < |f| && f[a.dCol] != []
           && e[a.aCol][a.aRow].hp > 0 && f[a.dCol][0].hp > 0
        {
          var atk := e[a.aCol][a.aRow].atk;
          var def := f[a.dCol][0].def;
          var damage := Damage(atk, def);
          f := f[a.dCol := f[a.dCol][0 := f[a.dCol][0].(hp := SatSub(f[a.dCol][0].hp, damage))]];
          e := e[a.aCol := e[a.aCol][a.aRow := e[a.aCol][a.aRow].(nextAttackAt := now + e[a.aCol][a.aRow].speek)]];
        }
      }
    }
    assert attacks[..|attacks|] == attacks;
  }

  // ---------------------------------------------------------------------
  // Removal of dead fronts.
  // ---------------------------------------------------------------------

  /** The column with its leading run of units without hp removed. */
  function DropDead(col: Column): (r: Column)
    ensures |r| <= |col|
    ensures r == [] || Alive(r[0])
    decreases |col|
  {
    if col != [] && col[0].hp == 0 then DropDead(col[1..]) else col
  }

  /** Only units without hp are removed, and only from the front. */
  lemma {:induction false} DropDeadOnlyDead(col: Column)
    ensures DropDead(col) == col[|col| - |DropDead(col)|..]
    ensures forall k :: 0 <= k < |col| - |DropDead(col)| ==> !Alive(col[k])
    decreases |col|
  {
    if col != [] && col[0].hp == 0 {
      DropDeadOnlyDead(col[1..]);
      assert forall k :: 1 <= k < |col| ==> col[1..][k - 1] == col[k];
    }
  }

  /** Every column of the formation with its dead front run removed. */
  function Cleanup(f: Formation): (g: Formation)
    ensures |g| == |f|
  {
    seq(|f|, c requires 0 <= c < |f| => DropDead(f[c]))
  }

  /** After cleanup every column is empty or led by a unit with hp left, and only dead units went. */
  lemma CleanupSound(f: Formation, c: nat)
    requires c < |f|
    ensures Cleanup(f)[c] == [] || Alive(Cleanup(f)[c][0])
    ensures Cleanup(f)[c] == f[c][|f[c]| - |Cleanup(f)[c]|..]
    ensures forall k :: 0 <= k < |f[c]| - |Cleanup(f)[c]| ==> !Alive(f[c][k])
  {
    DropDeadOnlyDead(f[c]);
  }

  /** The cleanup loops: pop the front of each column while it has no hp left. */
  method CleanupFormation(f: Formation) returns (g: Formation)
    ensures g == Cleanup(f)
  {
    g := f;
    for c := 0 to |g|
      invariant |g| == |f|
      invariant forall j :: 0 <= j < c ==> g[j] == DropDead(f[j])
      invariant forall j :: c <= j < |g| ==> g[j] == f[j]
    {
      var col := g[c];
      while col != [] && col[0].hp == 0
        invariant DropDead(col) == DropDead(f[c])
        decreases |col|
      {
        col := col[1..];
      }
      g := g[c := col];
    }
  }

  // ---------------------------------------------------------------------
  // Refill of an empty column.
  // ---------------------------------------------------------------------

  /** max_by_key over the non-empty columns by length: the last of the longest, or None when every
      column is empty. */
  function Richest(f: Formation): (r: Option<nat>)
    ensures r.Some? ==> r.value < |f| && f[r.value] != []
    decreases |f|
  {
    if f == [] then None
    else
      var m := |f| - 1;
      var prev := Richest(f[..m]);
      if f[m] != [] && (prev.None? || |f[prev.value]| <= |f[m]|) then Some(m) else prev
  }

  /** Richest finds a column exactly when one is non-empty; it is a longest one and the last such. */
  lemma {:induction false} RichestSound(f: Formation)
    ensures Richest(f).None? <==> forall c :: 0 <= c < |f| ==> f[c] == []
    ensures Richest(f).Some? ==> forall c :: 0 <= c < |f| ==> |f[c]| <= |f[Richest(f).value]|
    ensures Richest(f).Some? ==> forall c :: Richest(f).value < c < |f| ==> |f[c]| < |f[Richest(f).value]|
    decreases |f|
  {
    if f != [] {
      var m := |f| - 1;
      RichestSound(f[..m]);
      assert forall c :: 0 <= c < m ==> f[..m][c] == f[c];
    }
  }

  /** The refill step: when there are several columns, one of them empty, and the longest non-empty
      column holds more than one unit, its back unit moves to the back of the first empty column. */
  function Rebalance(f: Formation): (g: Formation)
    ensures |g| == |f|
  {
    if |f| > 1 then
      var empties := Where(f, IsEmpty);
      var richest := Richest(f);
      WhereSound(f, IsEmpty);
      if empties != [] && richest.Some? && |f[richest.value]| > 1 then
        var donor := f[richest.value];
        var moved := f[richest.value := donor[..|donor| - 1]];
        moved[empties[0] := moved[empties[0]] + [donor[|donor| - 1]]]
      else f
    else f
  }

  /** The refill statement of one side: pop_back from the richest column, push_back onto the first empty one. */
  method Refill(f: Formation) returns (g: Formation)
    ensures g == Rebalance(f)
  {
    g := f;
    if |g| > 1 {
      var empties := Where(g, IsEmpty);
      var richest := Richest(g);
      if empties != [] && richest.Some? && |g[richest.value]| > 1 {
        var r := richest.value;
        var unit := g[r][|g[r]| - 1];
        g := g[r := g[r][..|g[r]| - 1]];
        WhereSound(f, IsEmpty);
        var first := empties[0];
        g := g[first := g[first] + [unit]];
      }
    }
  }

  /** The refill neither creates nor loses a unit. */
  lemma RebalanceKeepsUnits(f: Formation)
    ensures multiset(Concat(Rebalance(f))) == multiset(Concat(f))
  {
    if Rebalance(f) != f {
      WhereSound(f, IsEmpty);
      var e := Where(f, IsEmpty)[0];
      var r := Richest(f).value;
      MoveKeepsUnits(f, r, e);
    }
  }

  /** Moving the back unit of column r to the back of the empty column e keeps the units. */
  lemma MoveKeepsUnits(f: Formation, r: nat, e: nat)
    requires r < |f| && e < |f| && f[r] != [] && f[e] == []
    ensures var donor := f[r];
            var moved := f[r := donor[..|donor| - 1]];
            multiset(Concat(moved[e := moved[e] + [donor[|donor| - 1]]])) == multiset(Concat(f))
  {
    var donor := f[r];
    var rest := donor[..|donor| - 1];
    var u := donor[|donor| - 1];
    var moved := f[r := rest];
    var g := moved[e := moved[e] + [u]];
    assert moved[e] == [] && moved[e] + [u] == [u];
    ConcatUpdate(f, r, rest);
    ConcatUpdate(moved, e, [u]);
    assert donor == rest + [u];
    MoveArithmetic(multiset(Concat(g)), multiset(Concat(moved)), multiset(Concat(f)), multiset(rest), multiset(donor), multiset{u});
  }

  lemma MoveArithmetic<T>(after: multiset<T>, moved: multiset<T>, before: multiset<T>, rest: multiset<T>, donor: multiset<T>, u: multiset<T>)
    requires moved + donor == before + rest && after == moved + u && donor == rest + u
    ensures after == before
  {
    forall x ensures after[x] == before[x] {
      assert (moved + donor)[x] == (before + rest)[x];
    }
  }

  /** The refill acts exactly when there are several columns, one of them is empty and one holds more
      than one unit. */
  lemma RebalanceActs(f: Formation)
    ensures Rebalance(f) != f <==>
              |f| > 1 && (exists c :: 0 <= c < |f| && f[c] == []) && (exists c :: 0 <= c < |f| && |f[c]| > 1)
  {
    if |f| > 1 && (exists c :: 0 <= c < |f| && f[c] == []) && (exists c :: 0 <= c < |f| && |f[c]| > 1) {
      var e :| 0 <= e < |f| && f[e] == [];
      var c :| 0 <= c < |f| && |f[c]| > 1;
      RebalanceFires(f, e, c);
    }
    if Rebalance(f) != f {
      WhereSound(f, IsEmpty);
      assert f[Where(f, IsEmpty)[0]] == [];
      assert |f[Richest(f).value]| > 1;
    }
  }

  /** An empty column e and a column c holding more than one unit make the refill fill some column. */
  lemma RebalanceFires(f: Formation, e: nat, c: nat)
    requires |f| > 1 && e < |f| && f[e] == [] && c < |f| && |f[c]| > 1
    ensures Rebalance(f) != f
  {
    WhereSound(f, IsEmpty);
    RichestSound(f);
    assert IsEmpty(f[e]);
    assert e in Where(f, IsEmpty);
    assert |f[Richest(f).value]| >= |f[c]|;
    var empty := Where(f, IsEmpty)[0];
    assert |Rebalance(f)[empty]| == 1;
  }

  /** When it acts, the refill moves the back unit of the last longest column to the first empty
      column and changes nothing else; no column is emptied. */
  lemma RebalanceMove(f: Formation, e: nat)
    requires |f| > 1 && e < |f| && f[e] == [] && (forall c :: 0 <= c < e ==> f[c] != [])
    requires exists c :: 0 <= c < |f| && |f[c]| > 1
    ensures Richest(f).Some? && Richest(f).value != e
    ensures var r := Richest(f).value;
            var g := Rebalance(f);
            g[e] == [f[r][|f[r]| - 1]] && g[r] == f[r][..|f[r]| - 1]
            && (forall c :: 0 <= c < |f| && c != e && c != r ==> g[c] == f[c])
            && (forall c :: 0 <= c < |f| && f[c] != [] ==> g[c] != [])
  {
    var c :| 0 <= c < |f| && |f[c]| > 1;
    RichestLong(f, c);
    FirstEmpty(f, e);
  }

  /** The first empty column is the first index Where finds. */
  lemma FirstEmpty(f: Formation, e: nat)
    requires e < |f| && f[e] == [] && (forall c :: 0 <= c < e ==> f[c] != [])
    ensures Where(f, IsEmpty) != [] && Where(f, IsEmpty)[0] == e
  {
    WhereSound(f, IsEmpty);
    var empties := Where(f, IsEmpty);
    assert IsEmpty(f[e]);
    assert e in empties;
    var i :| 0 <= i < |empties| && empties[i] == e;
    assert empties[0] <= empties[i];
    assert IsEmpty(f[empties[0]]);
  }

  /** A column holding more than one unit makes the richest column hold more than one. */
  lemma RichestLong(f: Formation, c: nat)
    requires c < |f| && |f[c]| > 1
    ensures Richest(f).Some? && |f[Richest(f).value]| > 1
  {
    RichestSound(f);
    assert |f[Richest(f).value]| >= |f[c]|;
  }

  /** A property of every unit survives the refill. */
  lemma RebalanceKeepsEvery(f: Formation, p: Unit -> bool)
    requires Every(f, p)
    ensures Every(Rebalance(f), p)
  {
    var g := Rebalance(f);
    if g != f {
      WhereSound(f, IsEmpty);
      var e := Where(f, IsEmpty)[0];
      var r := Richest(f).value;
      forall c, k | 0 <= c < |g| && 0 <= k < |g[c]|
        ensures p(g[c][k])
      {
        if c == e {
          assert g[c][k] == f[r][|f[r]| - 1];
        } else if c == r {
          assert g[c][k] == f[r][k];
        } else {
          assert g[c][k] == f[c][k];
        }
      }
    }
  }

  /** A property of every unit survives the cleanup. */
  lemma CleanupKeepsEvery(f: Formation, p: Unit -> bool)
    requires Every(f, p)
    ensures Every(Cleanup(f), p)
  {
    var g := Cleanup(f);
    forall c, k | 0 <= c < |g| && 0 <= k < |g[c]|
      ensures p(g[c][k])
    {
      DropDeadOnlyDead(f[c]);
      assert g[c][k] == f[c][|f[c]| - |g[c]| + k];
    }
  }

  /** If every unit had hp before the attacks, every unit left after the cleanup has hp: only fronts
      were hit, and dead fronts are removed. */
  lemma CleanupAfterAttacks(f: Formation, g: Formation, now: nat)
    requires AllAlive(f) && Evolves(f, g, now)
    ensures AllAlive(Cleanup(g))
  {
    var h := Cleanup(g);
    forall c, k | 0 <= c < |h| && 0 <= k < |h[c]|
      ensures Alive(h[c][k])
    {
      DropDeadOnlyDead(g[c]);
      var j := |g[c]| - |h[c]|;
      assert h[c][k] == g[c][j + k];
      if k > 0 {
        assert Alive(f[c][j + k]);
      }
    }
  }

  /** Attacks never raise hp above the maximum. */
  lemma EvolvesKeepsBounded(f: Formation, g: Formation, now: nat)
    requires HpBounded(f) && Evolves(f, g, now)
    ensures HpBounded(g)
  {
    forall c, k | 0 <= c < |g| && 0 <= k < |g[c]|
      ensures Bounded(g[c][k])
    {
      assert Kin(f[c][k], g[c][k], now) && Bounded(f[c][k]);
    }
  }

  // ---------------------------------------------------------------------
  // The tick.
  // ---------------------------------------------------------------------

  /** What battle_run returns (whether the battle goes on) and the two formations it leaves. */
  datatype TickResult = TickResult(cont: bool, friendly: Formation, enemy: Formation)

  /** One call of battle_run: stop when a side has no unit with hp left; otherwise collect the
      attacks, apply them, remove dead fronts and refill an empty column, on both sides. */
  function Tick(friendly: Formation, enemy: Formation, now: nat, draws: nat -> nat): (r: TickResult)
    ensures |r.friendly| == |friendly| && |r.enemy| == |enemy|
    ensures r.cont <==> Judge(friendly, enemy) == Fight
    ensures !r.cont ==> r.friendly == friendly && r.enemy == enemy
  {
    if Judge(friendly, enemy) != Fight then TickResult(false, friendly, enemy)
    else
      var attacks := Collect(friendly, enemy, now, draws);
      var s := ResolveAll(Armies(friendly, enemy), attacks, now);
      TickResult(true, Rebalance(Cleanup(s.friendly)), Rebalance(Cleanup(s.enemy)))
  }

  /** A tick goes on exactly while both sides still have a unit with hp left. */
  lemma TickContinuesIffBothAlive(friendly: Formation, enemy: Formation, now: nat, draws: nat -> nat)
    ensures Tick(friendly, enemy, now, draws).cont <==> SideAlive(friendly) && SideAlive(enemy)
  {
    TargetsIffAlive(friendly);
    TargetsIffAlive(enemy);
  }

  /** If every unit has hp at the start of a tick, every unit left at its end has hp. */
  lemma TickKeepsAllAlive(friendly: Formation, enemy: Formation, now: nat, draws: nat -> nat)
    requires AllAlive(friendly) && AllAlive(enemy)
    ensures AllAlive(Tick(friendly, enemy, now, draws).friendly)
    ensures AllAlive(Tick(friendly, enemy, now, draws).enemy)
  {
    if Judge(friendly, enemy) == Fight {
      var attacks := Collect(friendly, enemy, now, draws);
      var s := ResolveAll(Armies(friendly, enemy), attacks, now);
      ResolveAllEvolves(Armies(friendly, enemy), attacks, now);
      CleanupAfterAttacks(friendly, s.friendly, now);
      CleanupAfterAttacks(enemy, s.enemy, now);
      RebalanceKeepsEvery(Cleanup(s.friendly), Alive);
      RebalanceKeepsEvery(Cleanup(s.enemy), Alive);
    }
  }

  /** No unit ever has more hp than its maximum, tick after tick. */
  lemma TickKeepsHpBounded(friendly: Formation, enemy: Formation, now: nat, draws: nat -> nat)
    requires HpBounded(friendly) && HpBounded(enemy)
    ensures HpBounded(Tick(friendly, enemy, now, draws).friendly)
    ensures HpBounded(Tick(friendly, enemy, now, draws).enemy)
  {
    if Judge(friendly, enemy) == Fight {
      var attacks := Collect(friendly, enemy, now, draws);
      var s := ResolveAll(Armies(friendly, enemy), attacks, now);
      ResolveAllEvolves(Armies(friendly, enemy), attacks, now);
      EvolvesKeepsBounded(friendly, s.friendly, now);
      EvolvesKeepsBounded(enemy, s.enemy, now);
      CleanupKeepsEvery(s.friendly, Bounded);
      CleanupKeepsEvery(s.enemy, Bounded);
      RebalanceKeepsEvery(Cleanup(s.friendly), Bounded);
      RebalanceKeepsEvery(Cleanup(s.enemy), Bounded);
    }
  }

  /** The battle state shared by the service and the view. */
  class Army {
    var enemyUnits: Formation
    var friendlyUnits: Formation

    /** Army::default(): both sides without columns. */
    constructor()
      ensures enemyUnits == [] && friendlyUnits == []
    {
      enemyUnits := [];
      friendlyUnits := [];
    }

    /** battle_run on the army, under its write lock. */
    method BattleRun(now: nat, draws: nat -> nat) returns (cont: bool)
      modifies this
      ensures TickResult(cont, friendlyUnits, enemyUnits) == Tick(old(friendlyUnits), old(enemyUnits), now, draws)
      ensures old(AllAlive(friendlyUnits) && AllAlive(enemyUnits)) ==> AllAlive(friendlyUnits) && AllAlive(enemyUnits)
      ensures old(HpBounded(friendlyUnits) && HpBounded(enemyUnits)) ==> HpBounded(friendlyUnits) && HpBounded(enemyUnits)
    {
      if AllAlive(friendlyUnits) && AllAlive(enemyUnits) {
        TickKeepsAllAlive(friendlyUnits, enemyUnits, now, draws);
      }
      if HpBounded(friendlyUnits) && HpBounded(enemyUnits) {
        TickKeepsHpBounded(friendlyUnits, enemyUnits, now, draws);
      }
      var enemyAlive := SideAlive(enemyUnits);
      var friendlyAlive := SideAlive(friendlyUnits);
      if !enemyAlive {
        return false;
      }
      if !friendlyAlive {
        return false;
      }
      var attacks := CollectAttacks(friendlyUnits, enemyUnits, now, draws);
      var f, e := ApplyAttacks(friendlyUnits, enemyUnits, attacks, now);
      e := CleanupFormation(e);
      f := CleanupFormation(f);
      e := Refill(e);
      f := Refill(f);
      enemyUnits, friendlyUnits := e, f;
      cont := true;
    }
  }
}

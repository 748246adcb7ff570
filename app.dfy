// The column-count step function and the block-fill formation of src/app/mod.rs.

module App {
  import opened Columns

  /** Number of display columns for a formation of `count` units. */
  function DetermineColumns(count: nat): (n: nat)
    ensures 1 <= n <= 6
    ensures count >= 1 ==> n <= count
  {
    if 1 <= count <= 3 then 1
    else if 4 <= count <= 9 then 2
    else if 10 <= count <= 29 then 3
    else if 30 <= count <= 59 then 4
    else if 60 <= count <= 119 then 5
    else 6
  }

  /** More units never means fewer columns (for counts of at least one). */
  lemma DetermineColumnsMonotone(a: nat, b: nat)
    requires 1 <= a <= b
    ensures DetermineColumns(a) <= DetermineColumns(b)
  {
  }

  /** Quotient rounded up, as usize::div_ceil. */
  function DivCeil(n: nat, d: nat): (q: nat)
    requires d > 0
    ensures n <= d * q
    ensures q > 0 ==> d * (q - 1) < n
  {
    assert n == d * (n / d) + n % d;
    if n % d > 0 then
      assert d * (n / d + 1) == d * (n / d) + d;
      n / d + 1
    else
      n / d
  }

  function Min(a: nat, b: nat): nat {
    if a <= b then a else b
  }

  /** Column c of a block fill with `rows` units per column: units [c * rows, (c + 1) * rows). */
  function Block<T>(units: seq<T>, rows: nat, c: nat): seq<T> {
    units[Min(c * rows, |units|)..Min((c + 1) * rows, |units|)]
  }

  /** Block c holds at most rows units, exactly rows when the units reach its end, and none past them. */
  lemma BlockSize<T>(units: seq<T>, rows: nat, c: nat)
    ensures |Block(units, rows, c)| <= rows
    ensures (c + 1) * rows <= |units| ==> |Block(units, rows, c)| == rows
    ensures |units| <= c * rows ==> Block(units, rows, c) == []
  {
    assert (c + 1) * rows == c * rows + rows;
  }

  /** Where index falls relative to the rows-long block c. */
  lemma BlockIndex(index: nat, rows: nat, c: nat)
    requires rows > 0
    ensures c < index / rows ==> (c + 1) * rows <= index
    ensures c == index / rows ==> c * rows <= index < (c + 1) * rows
    ensures c > index / rows ==> index < c * rows
  {
    var q := index / rows;
    assert index == rows * q + index % rows;
    assert (q + 1) * rows == q * rows + rows;
    if c < q {
      MulMono(rows, c + 1, q);
    } else if c > q {
      MulMono(rows, q + 1, c);
    }
  }

  /** The fall-back to the last column can never be taken: with rows = ceil(n / n_cols),
      every index below n has index / rows < n_cols. */
  lemma BlockIndexInRange(n: nat, nCols: nat, rows: nat, index: nat)
    requires nCols > 0 && index < n && rows == DivCeil(n, nCols)
    ensures rows > 0 && index / rows < nCols
  {
    if rows == 0 {
      assert false;
    }
    BlockIndex(index, rows, nCols);
    assert nCols * rows == rows * nCols;
  }

  /** The first m blocks, concatenated, are the first m * rows units. */
  lemma {:induction false} ConcatBlocks<T>(units: seq<T>, rows: nat, m: nat)
    ensures Concat(seq(m, c requires 0 <= c < m => Block(units, rows, c))) == units[..Min(m * rows, |units|)]
    decreases m
  {
    var blocks := seq(m, c requires 0 <= c < m => Block(units, rows, c));
    if m > 0 {
      var prev := seq(m - 1, c requires 0 <= c < m - 1 => Block(units, rows, c));
      assert blocks[..m - 1] == prev;
      ConcatBlocks(units, rows, m - 1);
      BlockSplit(units, rows, m - 1);
    }
  }

  /** The first c + 1 blocks' worth of units are the first c blocks' worth followed by block c. */
  lemma BlockSplit<T>(units: seq<T>, rows: nat, c: nat)
    ensures units[..Min((c + 1) * rows, |units|)] == units[..Min(c * rows, |units|)] + Block(units, rows, c)
  {
    var a, b := Min(c * rows, |units|), Min((c + 1) * rows, |units|);
    assert (c + 1) * rows == c * rows + rows;
    assert units[..b] == units[..a] + units[a..b];
  }

  /** Columns holding the first `filled` units in blocks of `rows`. */
  ghost predicate FilledUpTo<T>(columns: seq<seq<T>>, units: seq<T>, rows: nat, filled: nat)
    requires filled <= |units|
  {
    forall c :: 0 <= c < |columns| ==> columns[c] == units[Min(c * rows, filled)..Min((c + 1) * rows, filled)]
  }

  /** Pushing unit `index` onto column index / rows extends the filled prefix by one. */
  lemma BlockFillStep<T>(columns: seq<seq<T>>, units: seq<T>, rows: nat, index: nat)
    requires rows > 0 && index < |units| && index / rows < |columns|
    requires FilledUpTo(columns, units, rows, index)
    ensures FilledUpTo(columns[index / rows := columns[index / rows] + [units[index]]], units, rows, index + 1)
  {
    var colIdx := index / rows;
    var after := columns[colIdx := columns[colIdx] + [units[index]]];
    forall c | 0 <= c < |columns|
      ensures after[c] == units[Min(c * rows, index + 1)..Min((c + 1) * rows, index + 1)]
    {
      BlockIndex(index, rows, c);
    }
  }

  /** The columns after pushing each unit, in order, onto column index / rows, or onto
      the last column when that index is out of range. */
  function Fill<T>(units: seq<T>, rows: nat, n: nat): (cols: seq<seq<T>>)
    requires n > 0 && (units == [] || rows > 0)
    ensures |cols| == n
    decreases |units|
  {
    if units == [] then seq(n, _ => [])
    else
      var m := |units| - 1;
      var prev := Fill(units[..m], rows, n);
      var c := if m / rows < n then m / rows else n - 1;
      prev[c := prev[c] + [units[m]]]
  }

  /** One more iteration of the block-fill loop, when index / rows is in range. */
  lemma FillStep<T>(units: seq<T>, rows: nat, n: nat, index: nat)
    requires n > 0 && rows > 0 && index < |units| && index / rows < n
    ensures Fill(units[..index + 1], rows, n)
         == Fill(units[..index], rows, n)[index / rows := Fill(units[..index], rows, n)[index / rows] + [units[index]]]
  {
    assert units[..index + 1][..index] == units[..index];
  }

  /** When the columns have room for every unit, Fill places the first k units in blocks of `rows`. */
  lemma {:induction false} FillIsBlocks<T>(units: seq<T>, rows: nat, n: nat)
    requires n > 0 && rows > 0 && |units| <= n * rows
    ensures FilledUpTo(Fill(units, rows, n), units, rows, |units|)
    decreases |units|
  {
    if units != [] {
      var m := |units| - 1;
      FillIsBlocks(units[..m], rows, n);
      var prev := Fill(units[..m], rows, n);
      FilledPrefix(prev, units, rows, m);
      LastInRange(m, rows, n);
      FillStep(units, rows, n, m);
      assert units[..m + 1] == units;
      BlockFillStep(prev, units, rows, m);
    }
  }

  /** An index below n * rows falls in one of the first n blocks. */
  lemma LastInRange(index: nat, rows: nat, n: nat)
    requires rows > 0 && index < n * rows
    ensures index / rows < n
  {
    BlockIndex(index, rows, n);
    assert n * rows == rows * n;
  }

  /** Blocks filled from a prefix of the units are blocks filled from the units themselves. */
  lemma FilledPrefix<T>(columns: seq<seq<T>>, units: seq<T>, rows: nat, m: nat)
    requires m <= |units| && FilledUpTo(columns, units[..m], rows, m)
    ensures FilledUpTo(columns, units, rows, m)
  {
    forall c | 0 <= c < |columns|
      ensures columns[c] == units[Min(c * rows, m)..Min((c + 1) * rows, m)]
    {
      assert units[..m][Min(c * rows, m)..Min((c + 1) * rows, m)] == units[Min(c * rows, m)..Min((c + 1) * rows, m)];
    }
  }

  /** The block-fill loop: with rows = ceil(|units| / nCols), unit `index` is pushed onto
      column index / rows, so each column is a contiguous run of the units. */
  method BlockFill<T>(units: seq<T>, nCols: nat) returns (columns: seq<seq<T>>)
    requires nCols > 0
    ensures |columns| == nCols
    ensures forall c :: 0 <= c < nCols ==> columns[c] == Block(units, DivCeil(|units|, nCols), c)
    ensures Concat(columns) == units
  {
    var rows := DivCeil(|units|, nCols);
    columns := seq(nCols, _ => []);
    for index := 0 to |units|
      invariant |columns| == nCols
      invariant columns == Fill(units[..index], rows, nCols)
    {
      BlockIndexInRange(|units|, nCols, rows, index);
      var colIdx := index / rows;
      FillStep(units, rows, nCols, index);
      columns := columns[colIdx := columns[colIdx] + [units[index]]];
    }
    assert units[..|units|] == units;
    assert columns == Fill(units, rows, nCols);
    FillMeetsContract(units, rows, nCols);
  }

  /** The columns Fill builds with rows = ceil(|units| / n) are the blocks, in order. */
  lemma FillMeetsContract<T>(units: seq<T>, rows: nat, n: nat)
    requires n > 0 && rows == DivCeil(|units|, n)
    ensures forall c :: 0 <= c < n ==> Fill(units, rows, n)[c] == Block(units, rows, c)
    ensures Concat(Fill(units, rows, n)) == units
  {
    if units == [] {
      EmptyColumnsConcat(Fill(units, rows, n));
    } else {
      FillIsBlocks(units, rows, n);
      FilledAreBlocks(Fill(units, rows, n), units, rows);
    }
  }

  /** Once every unit is placed, the columns are the blocks and concatenate back to the units. */
  lemma FilledAreBlocks<T>(columns: seq<seq<T>>, units: seq<T>, rows: nat)
    requires |units| <= |columns| * rows
    requires FilledUpTo(columns, units, rows, |units|)
    ensures forall c :: 0 <= c < |columns| ==> columns[c] == Block(units, rows, c)
    ensures Concat(columns) == units
  {
    var nCols := |columns|;
    assert columns == seq(nCols, c requires 0 <= c < nCols => Block(units, rows, c));
    ConcatBlocks(units, rows, nCols);
    assert nCols * rows == |columns| * rows;
  }

  // ---------------------------------------------------------------------
  // The fixed 200-unit test formation.
  // ---------------------------------------------------------------------

  datatype AppUnit = AppUnit(name: string, hp: nat, maxHp: nat, atk: nat, def: nat)

  predicate IsDigit(ch: char) {
    '0' <= ch <= '9'
  }

  /** Decimal rendering of n, as `format!("{}", n)`: digits only, never empty, and no leading zero. */
  function Decimal(n: nat): (s: string)
    ensures |s| >= 1 && forall k :: 0 <= k < |s| ==> IsDigit(s[k])
    ensures s[0] == '0' ==> n == 0
    decreases n
  {
    var digit := ['0' + (n % 10) as char];
    if n < 10 then digit else Decimal(n / 10) + digit
  }

  /** The number a string of decimal digits denotes, most significant first. */
  function DecimalValue(s: string): nat
    requires forall k :: 0 <= k < |s| ==> IsDigit(s[k])
  {
    if s == [] then 0
    else
      assert IsDigit(s[|s| - 1]);
      DecimalValue(s[..|s| - 1]) * 10 + (s[|s| - 1] as int - '0' as int)
  }

  /** Reading a rendered number back gives the number. */
  lemma {:induction false} DecimalRoundTrip(n: nat)
    ensures DecimalValue(Decimal(n)) == n
    decreases n
  {
    var s := Decimal(n);
    if n < 10 {
      assert s[..|s| - 1] == [];
    } else {
      assert s[..|s| - 1] == Decimal(n / 10);
      DecimalRoundTrip(n / 10);
    }
  }

  /** Different numbers render differently, so the test units' names are distinct. */
  lemma DecimalInjective(m: nat, n: nat)
    requires m != n
    ensures Decimal(m) != Decimal(n)
  {
    DecimalRoundTrip(m);
    DecimalRoundTrip(n);
  }

  /** The unit with 1-based index i: at full health, odd units without defence, and every unit's
      attack above its defence. */
  function AppUnitAt(i: nat): (u: AppUnit)
    ensures u.hp == u.maxHp
    ensures i % 2 == 1 ==> u.def == 0
    ensures u.atk > u.def
  {
    AppUnit("Unit " + Decimal(i), 100, 100, 20 + i, if i % 2 == 0 then 10 + i else 0)
  }

  const TestCount: nat := 200

  function TestUnits(): (us: seq<AppUnit>)
    ensures |us| == TestCount
    ensures forall k :: 0 <= k < |us| ==> us[k].hp == us[k].maxHp && us[k].atk > us[k].def
  {
    seq(TestCount, k requires 0 <= k < TestCount => AppUnitAt(k + 1))
  }

  /** Units with different indices carry different names, and the higher index attacks harder. */
  lemma AppUnitsDistinct(i: nat, k: nat)
    requires i < k
    ensures AppUnitAt(i).name != AppUnitAt(k).name
    ensures AppUnitAt(i).atk < AppUnitAt(k).atk
  {
    var prefix := "Unit ";
    var di, dk := Decimal(i), Decimal(k);
    DecimalInjective(i, k);
    assert (prefix + di)[|prefix|..] == di;
    assert (prefix + dk)[|prefix|..] == dk;
  }

  /** The test units carry pairwise different names and strictly increasing attack. */
  lemma TestUnitsDistinct(j: nat, k: nat)
    requires j < k < TestCount
    ensures TestUnits()[j].name != TestUnits()[k].name
    ensures TestUnits()[j].atk < TestUnits()[k].atk
  {
    var us := TestUnits();
    assert us[j] == AppUnitAt(j + 1) && us[k] == AppUnitAt(k + 1);
    AppUnitsDistinct(j + 1, k + 1);
  }

  /** Two hundred units in six columns: five of 34 and a last one of 30, filled column after column. */
  method Test() returns (columns: seq<seq<AppUnit>>)
    ensures |columns| == 6
    ensures forall c :: 0 <= c < 5 ==> |columns[c]| == 34
    ensures |columns[5]| == 30
    ensures forall c, j :: 0 <= c < 6 && 0 <= j < |columns[c]| ==> columns[c][j] == AppUnitAt(34 * c + j + 1)
    ensures Concat(columns) == TestUnits()
  {
    var units := TestUnits();
    var nCols := DetermineColumns(|units|);
    columns := BlockFill(units, nCols);
    assert nCols == 6 && DivCeil(200, 6) == 34;
    forall c, j | 0 <= c < 6 && 0 <= j < |columns[c]|
      ensures columns[c][j] == AppUnitAt(34 * c + j + 1)
    {
      assert columns[c] == Block(units, 34, c);
      assert Min(c * 34, 200) == 34 * c;
      assert columns[c][j] == units[34 * c + j];
    }
  }
}

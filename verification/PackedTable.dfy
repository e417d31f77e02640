// The simulation's results, packed by the exporter into flat arrays and looked up by the page through a mixed-radix
// index.
module PackedTable {
  import opened Numbers

  datatype Axes = Axes(strategies: seq<string>, durations: seq<int>, drawdowns: seq<int>, ratios: seq<int>)

  datatype CellKey = CellKey(strategy: string, duration: int, drawdown: int, ratio: int)

  // The measures of one swept cell, rounded.
  datatype SweepRow = SweepRow(key: CellKey, breach: real, slash: real, trader: real)

  datatype Cell = Cell(breach: real, slash: real, trader: real, apr: real)

  // ---------- positions and keys ----------

  function Size(a: Axes): nat {
    ((|a.strategies| * |a.durations|) * |a.drawdowns|) * |a.ratios|
  }

  function Encode(a: Axes, i: nat, j: nat, k: nat, l: nat): nat {
    ((i * |a.durations| + j) * |a.drawdowns| + k) * |a.ratios| + l
  }

  predicate InAxes(a: Axes, i: nat, j: nat, k: nat, l: nat) {
    i < |a.strategies| && j < |a.durations| && k < |a.drawdowns| && l < |a.ratios|
  }

  // One digit of the index.
  lemma SameDigits(q: nat, r: nat, x: nat, y: nat, b: nat)
    requires r < b && y < b && q * b + r == x * b + y
    ensures q == x && r == y
  {
    if q < x {
      Multiples(q + 1, x, b);
    } else if x < q {
      Multiples(x + 1, q, b);
    }
  }

  lemma Multiples(m: nat, n: nat, b: nat)
    requires m <= n
    ensures m * b <= n * b
  {
  }

  lemma DigitBounded(q: nat, b: nat, r: nat, n: nat)
    requires q < n && r < b
    ensures q * b + r < n * b
  {
    Multiples(q + 1, n, b);
  }

  // Every number below `n * b` is a digit below `b` after a number below `n`.
  lemma Split(m: nat, n: nat, b: nat) returns (q: nat, r: nat)
    requires m < n * b
    ensures q < n && r < b && m == q * b + r
  {
    if b > 0 {
      q, r := m / b, m % b;
      if q >= n {
        Multiples(n, q, b);
      }
    }
  }

  lemma DigitsExist(a: Axes, m: nat) returns (i: nat, j: nat, k: nat, l: nat)
    requires m < Size(a)
    ensures InAxes(a, i, j, k, l) && Encode(a, i, j, k, l) == m
  {
    var m1, m2;
    m1, l := Split(m, (|a.strategies| * |a.durations|) * |a.drawdowns|, |a.ratios|);
    m2, k := Split(m1, |a.strategies| * |a.durations|, |a.drawdowns|);
    i, j := Split(m2, |a.strategies|, |a.durations|);
  }

  predicate IsDigits(a: Axes, d: (nat, nat, nat, nat), m: nat) {
    InAxes(a, d.0, d.1, d.2, d.3) && Encode(a, d.0, d.1, d.2, d.3) == m
  }

  ghost function Digits(a: Axes, m: nat): (d: (nat, nat, nat, nat))
    requires m < Size(a)
    ensures IsDigits(a, d, m)
  {
    assert exists d :: IsDigits(a, d, m) by {
      var i, j, k, l := DigitsExist(a, m);
      assert IsDigits(a, (i, j, k, l), m);
    }
    var d :| IsDigits(a, d, m);
    d
  }

  // The index is a bijection onto the cells: each has its digits, and no other digits.
  lemma EncodeIsOneToOne(a: Axes, i: nat, j: nat, k: nat, l: nat)
    requires InAxes(a, i, j, k, l)
    ensures Encode(a, i, j, k, l) < Size(a)
    ensures Digits(a, Encode(a, i, j, k, l)) == (i, j, k, l)
  {
    var m2 := i * |a.durations| + j;
    var m1 := m2 * |a.drawdowns| + k;
    DigitBounded(i, |a.durations|, j, |a.strategies|);
    DigitBounded(m2, |a.drawdowns|, k, |a.strategies| * |a.durations|);
    DigitBounded(m1, |a.ratios|, l, (|a.strategies| * |a.durations|) * |a.drawdowns|);
    var d := Digits(a, Encode(a, i, j, k, l));
    var n2 := d.0 * |a.durations| + d.1;
    var n1 := n2 * |a.drawdowns| + d.2;
    SameDigits(m1, l, n1, d.3, |a.ratios|);
    SameDigits(m2, k, n2, d.2, |a.drawdowns|);
    SameDigits(i, j, d.0, d.1, |a.durations|);
  }

  ghost function KeyAt(a: Axes, m: nat): CellKey
    requires m < Size(a)
  {
    var (i, j, k, l) := Digits(a, m);
    CellKey(a.strategies[i], a.durations[j], a.drawdowns[k], a.ratios[l])
  }

  // ---------- the exporter ----------

  // The exporter's dictionary after `n` cells.
  ghost function Order(a: Axes, n: nat): map<CellKey, nat>
    requires n <= Size(a)
  {
    if n == 0 then map[] else Order(a, n - 1)[KeyAt(a, n - 1) := n - 1]
  }

  // The last row of a cell, if the sweep has one.
  function LastRow(rows: seq<SweepRow>, key: CellKey): Option<SweepRow> {
    if rows == [] then None
    else if rows[|rows| - 1].key == key then Some(rows[|rows| - 1])
    else LastRow(rows[..|rows| - 1], key)
  }

  // What the export says of a cell: its last row, zeros if there is none.
  function Exported(rows: seq<SweepRow>, apr: map<CellKey, real>, key: CellKey): Cell {
    match LastRow(rows, key)
    case None => Cell(0.0, 0.0, 0.0, 0.0)
    case Some(row) => Cell(row.breach, row.slash, row.trader, if key in apr then apr[key] else 0.0)
  }

  // Measure by measure: those of the row the sweep lists last for the cell, with the rate the cell has, if any.
  lemma {:induction false} ExportedIsLast(rows: seq<SweepRow>, apr: map<CellKey, real>, key: CellKey)
    ensures
      var cell := Exported(rows, apr, key);
      || ((forall t :: 0 <= t < |rows| ==> rows[t].key != key)
          && cell.breach == cell.slash == cell.trader == cell.apr == 0.0)
      || exists t :: 0 <= t < |rows| && rows[t].key == key
           && (forall later :: t < later < |rows| ==> rows[later].key != key)
           && cell.breach == rows[t].breach && cell.slash == rows[t].slash && cell.trader == rows[t].trader
           && (key in apr ==> cell.apr == apr[key]) && (key !in apr ==> cell.apr == 0.0)
  {
    if rows != [] && rows[|rows| - 1].key != key {
      var before := rows[..|rows| - 1];
      ExportedIsLast(before, apr, key);
      assert forall t :: 0 <= t < |before| ==> rows[t] == before[t];
    }
  }

  // Where a nested loop over the axes can stand.
  predicate Cursor(a: Axes, i: nat, j: nat, k: nat, l: nat) {
    && i <= |a.strategies| && j <= |a.durations| && k <= |a.drawdowns| && l <= |a.ratios|
    && (i == |a.strategies| ==> j == k == l == 0)
    && (j == |a.durations| ==> k == l == 0)
    && (k == |a.drawdowns| ==> l == 0)
  }

  lemma Carry(a: Axes, i: nat, j: nat, k: nat)
    ensures Encode(a, i, j, k, |a.ratios|) == Encode(a, i, j, k + 1, 0)
    ensures Encode(a, i, j, |a.drawdowns|, 0) == Encode(a, i, j + 1, 0, 0)
    ensures Encode(a, i, |a.durations|, 0, 0) == Encode(a, i + 1, 0, 0, 0)
    ensures Encode(a, |a.strategies|, 0, 0, 0) == Size(a)
  {
  }

  // The count never passes the number of cells.
  lemma AtMostSize(a: Axes, i: nat, j: nat, k: nat, l: nat)
    requires Cursor(a, i, j, k, l)
    ensures Encode(a, i, j, k, l) <= Size(a)
    decreases |a.strategies| - i, |a.durations| - j, |a.drawdowns| - k, |a.ratios| - l
  {
    Carry(a, i, j, k);
    if i == |a.strategies| {
    } else if j == |a.durations| {
      AtMostSize(a, i + 1, 0, 0, 0);
    } else if k == |a.drawdowns| {
      AtMostSize(a, i, j + 1, 0, 0);
    } else if l == |a.ratios| {
      AtMostSize(a, i, j, k + 1, 0);
    } else {
      EncodeIsOneToOne(a, i, j, k, l);
    }
  }

  // The four nested loops, counting as they go.
  method BuildOrder(a: Axes) returns (order: map<CellKey, nat>, n: nat)
    ensures n == Size(a) && order == Order(a, Size(a))
  {
    order, n := map[], 0;
    assert n == Encode(a, 0, 0, 0, 0);
    hide Encode, Size, Digits;
    AtMostSize(a, 0, 0, 0, 0);
    for i := 0 to |a.strategies|
      invariant n == Encode(a, i, 0, 0, 0) <= Size(a) && order == Order(a, n)
    {
      for j := 0 to |a.durations|
        invariant n == Encode(a, i, j, 0, 0) <= Size(a) && order == Order(a, n)
      {
        for k := 0 to |a.drawdowns|
          invariant n == Encode(a, i, j, k, 0) <= Size(a) && order == Order(a, n)
        {
          for l := 0 to |a.ratios|
            invariant n == Encode(a, i, j, k, l) <= Size(a) && order == Order(a, n)
          {
            EncodeIsOneToOne(a, i, j, k, l);
            order := order[CellKey(a.strategies[i], a.durations[j], a.drawdowns[k], a.ratios[l]) := n];
            n := n + 1;
            Next(a, i, j, k, l);
          }
          Carry(a, i, j, k);
        }
        Carry(a, i, j, 0);
      }
      Carry(a, i, 0, 0);
    }
    Carry(a, 0, 0, 0);
  }

  lemma Next(a: Axes, i: nat, j: nat, k: nat, l: nat)
    requires InAxes(a, i, j, k, l)
    ensures Encode(a, i, j, k, l + 1) == Encode(a, i, j, k, l) + 1 <= Size(a)
  {
    AtMostSize(a, i, j, k, l + 1);
  }

  // ---------- what the dictionary holds ----------

  // A key's place is the last one the loops pass for it.
  lemma {:induction false} OrderIsLastPlace(a: Axes, n: nat, key: CellKey)
    requires n <= Size(a)
    ensures key in Order(a, n) <==> exists m: nat :: m < n && KeyAt(a, m) == key
    ensures key in Order(a, n) ==> Order(a, n)[key] < n && KeyAt(a, Order(a, n)[key]) == key
    ensures forall m: nat :: m < n && KeyAt(a, m) == key ==> m <= Order(a, n)[key]
  {
    if n > 0 {
      OrderIsLastPlace(a, n - 1, key);
      hide KeyAt;
    }
  }

  // ---------- the reader ----------

  function IndexOf<T(==)>(axis: seq<T>, x: T): (i: nat)
    ensures i <= |axis| && (i < |axis| ==> axis[i] == x)
    ensures forall j :: 0 <= j < i ==> axis[j] != x
  {
    if axis == [] then 0 else if axis[0] == x then 0 else 1 + IndexOf(axis[1..], x)
  }

  // Where the page looks for a cell, if all four parts of its key are on the axes.
  function ReaderIndex(a: Axes, key: CellKey): Option<nat> {
    var i, j := IndexOf(a.strategies, key.strategy), IndexOf(a.durations, key.duration);
    var k, l := IndexOf(a.drawdowns, key.drawdown), IndexOf(a.ratios, key.ratio);
    if InAxes(a, i, j, k, l) then Some(Encode(a, i, j, k, l)) else None
  }

  predicate Once<T(==)>(axis: seq<T>, x: T) {
    forall i, j :: 0 <= i < |axis| && 0 <= j < |axis| && axis[i] == x && axis[j] == x ==> i == j
  }

  predicate ListedOnce(a: Axes, key: CellKey) {
    && Once(a.strategies, key.strategy) && Once(a.durations, key.duration)
    && Once(a.drawdowns, key.drawdown) && Once(a.ratios, key.ratio)
  }

  predicate Spells(a: Axes, d: (nat, nat, nat, nat), key: CellKey) {
    && InAxes(a, d.0, d.1, d.2, d.3)
    && key == CellKey(a.strategies[d.0], a.durations[d.1], a.drawdowns[d.2], a.ratios[d.3])
  }

  function Place(a: Axes, d: (nat, nat, nat, nat)): nat {
    Encode(a, d.0, d.1, d.2, d.3)
  }

  function Firsts(a: Axes, key: CellKey): (nat, nat, nat, nat) {
    (IndexOf(a.strategies, key.strategy), IndexOf(a.durations, key.duration),
     IndexOf(a.drawdowns, key.drawdown), IndexOf(a.ratios, key.ratio))
  }

  lemma SpellingHasPlace(a: Axes, d: (nat, nat, nat, nat), key: CellKey)
    requires Spells(a, d, key)
    ensures Place(a, d) < Size(a) && Digits(a, Place(a, d)) == d && KeyAt(a, Place(a, d)) == key
  {
    EncodeIsOneToOne(a, d.0, d.1, d.2, d.3);
  }

  lemma FirstsSpell(a: Axes, key: CellKey, d: (nat, nat, nat, nat))
    requires Spells(a, d, key)
    ensures Spells(a, Firsts(a, key), key)
    ensures var f := Firsts(a, key); f.0 <= d.0 && f.1 <= d.1 && f.2 <= d.2 && f.3 <= d.3
  {
  }

  // The page finds a key exactly when the exporter has a place for it.
  lemma SameKeys(a: Axes, key: CellKey)
    ensures ReaderIndex(a, key).Some? <==> key in Order(a, Size(a))
    ensures ReaderIndex(a, key).Some? ==>
      ReaderIndex(a, key).value == Place(a, Firsts(a, key)) && Spells(a, Firsts(a, key), key)
  {
    hide Size, Encode;
    OrderIsLastPlace(a, Size(a), key);
    if ReaderIndex(a, key).Some? {
      SpellingHasPlace(a, Firsts(a, key), key);
    }
    if key in Order(a, Size(a)) {
      FirstsSpell(a, key, Digits(a, Order(a, Size(a))[key]));
    }
  }

  lemma LaterIsGreater(a: Axes, d: (nat, nat, nat, nat), e: (nat, nat, nat, nat))
    requires d.0 <= e.0 && d.1 <= e.1 && d.2 <= e.2 && d.3 <= e.3
    ensures Place(a, d) <= Place(a, e)
  {
    Multiples(d.0, e.0, |a.durations|);
    Multiples(d.0 * |a.durations| + d.1, e.0 * |a.durations| + e.1, |a.drawdowns|);
    Multiples((d.0 * |a.durations| + d.1) * |a.drawdowns| + d.2, (e.0 * |a.durations| + e.1) * |a.drawdowns| + e.2,
              |a.ratios|);
  }

  // If the page looks at the last place for a key, the key has no other.
  lemma OnlyOneSpelling(a: Axes, key: CellKey, d: (nat, nat, nat, nat))
    requires key in Order(a, Size(a)) && ReaderIndex(a, key) == Some(Order(a, Size(a))[key])
    requires Spells(a, d, key)
    ensures d == Firsts(a, key)
  {
    hide Encode, Size;
    SameKeys(a, key);
    OrderIsLastPlace(a, Size(a), key);
    SpellingHasPlace(a, d, key);
    FirstsSpell(a, key, d);
    SpellingHasPlace(a, Firsts(a, key), key);
    LaterIsGreater(a, Firsts(a, key), d);
  }

  // The page looks where the exporter wrote exactly when no axis lists its part of the key twice.
  lemma PlacesAgreeExactly(a: Axes, key: CellKey)
    requires key in Order(a, Size(a))
    ensures ReaderIndex(a, key) == Some(Order(a, Size(a))[key]) <==> ListedOnce(a, key)
  {
    SameKeys(a, key);
    OrderIsLastPlace(a, Size(a), key);
    hide Encode, Size;
    var f := Firsts(a, key);
    if ListedOnce(a, key) {
      var d := Digits(a, Order(a, Size(a))[key]);
      assert Spells(a, d, key);
      assert d == f;
    }
    if ReaderIndex(a, key) == Some(Order(a, Size(a))[key]) {
      forall i: nat | i < |a.strategies| && a.strategies[i] == key.strategy ensures i == f.0 {
        OnlyOneSpelling(a, key, (i, f.1, f.2, f.3));
      }
      forall i: nat | i < |a.durations| && a.durations[i] == key.duration ensures i == f.1 {
        OnlyOneSpelling(a, key, (f.0, i, f.2, f.3));
      }
      forall i: nat | i < |a.drawdowns| && a.drawdowns[i] == key.drawdown ensures i == f.2 {
        OnlyOneSpelling(a, key, (f.0, f.1, i, f.3));
      }
      forall i: nat | i < |a.ratios| && a.ratios[i] == key.ratio ensures i == f.3 {
        OnlyOneSpelling(a, key, (f.0, f.1, f.2, i));
      }
    }
  }

  // ---------- filling the arrays, and reading them back ----------

  // The four arrays of cells, as exported.
  datatype Packed = Packed(breach: seq<real>, slash: seq<real>, trader: seq<real>, apr: seq<real>)

  predicate HoldsCell(breach: seq<real>, slash: seq<real>, trader: seq<real>, aprs: seq<real>, i: nat, cell: Cell) {
    && i < |breach| && i < |slash| && i < |trader| && i < |aprs|
    && breach[i] == cell.breach && slash[i] == cell.slash && trader[i] == cell.trader && aprs[i] == cell.apr
  }

  lemma LastRowWins(rows: seq<SweepRow>, t: nat, apr: map<CellKey, real>, key: CellKey)
    requires t < |rows|
    ensures Exported(rows[..t + 1], apr, key) ==
      if rows[t].key == key
      then Cell(rows[t].breach, rows[t].slash, rows[t].trader, if key in apr then apr[key] else 0.0)
      else Exported(rows[..t], apr, key)
  {
    assert rows[..t + 1][..t] == rows[..t];
  }

  lemma NoRowIsZeros(rows: seq<SweepRow>, apr: map<CellKey, real>, key: CellKey)
    ensures Exported(rows[..0], apr, key) == Cell(0.0, 0.0, 0.0, 0.0)
  {
  }

  // The rest of the exporter: zeros, then every row of the sweep in turn, into the place of its key.
  method FillCells(rows: seq<SweepRow>, apr: map<CellKey, real>, order: map<CellKey, nat>, n: nat)
    returns (packed: Packed)
    requires forall key :: key in order ==> order[key] < n
    requires forall key, other :: key in order && other in order && order[key] == order[other] ==> key == other
    ensures |packed.breach| == |packed.slash| == |packed.trader| == |packed.apr| == n
    ensures forall key :: key in order ==>
      HoldsCell(packed.breach, packed.slash, packed.trader, packed.apr, order[key], Exported(rows, apr, key))
  {
    hide Exported;
    forall key { NoRowIsZeros(rows, apr, key); }
    var breach, slash := new real[n](_ => 0.0), new real[n](_ => 0.0);
    var trader, aprs := new real[n](_ => 0.0), new real[n](_ => 0.0);
    var t := 0;
    while t < |rows|
      invariant 0 <= t <= |rows|
      invariant forall key :: key in order ==>
        HoldsCell(breach[..], slash[..], trader[..], aprs[..], order[key], Exported(rows[..t], apr, key))
    {
      var row := rows[t];
      forall key { LastRowWins(rows, t, apr, key); }
      if row.key in order {
        var i := order[row.key];
        breach[i] := row.breach;
        slash[i] := row.slash;
        trader[i] := row.trader;
        aprs[i] := if row.key in apr then apr[row.key] else 0.0;
      }
      t := t + 1;
    }
    assert rows[..t] == rows;
    packed := Packed(breach[..], slash[..], trader[..], aprs[..]);
  }

  // `lookup`.
  function Lookup(a: Axes, packed: Packed, key: CellKey): Option<Cell>
    requires |packed.breach| == |packed.slash| == |packed.trader| == |packed.apr| == Size(a)
  {
    match ReaderIndex(a, key)
    case None => None
    case Some(i) =>
      SameKeys(a, key);
      SpellingHasPlace(a, Firsts(a, key), key);
      Some(Cell(packed.breach[i], packed.slash[i], packed.trader[i], packed.apr[i]))
  }

  // The whole round trip: export a sweep, and look any key up in it.
  method ExportThenLookup(a: Axes, rows: seq<SweepRow>, apr: map<CellKey, real>, key: CellKey)
    returns (cell: Option<Cell>)
    ensures cell.Some? <==>
      && key.strategy in a.strategies && key.duration in a.durations
      && key.drawdown in a.drawdowns && key.ratio in a.ratios
    ensures cell.Some? && ListedOnce(a, key) ==> cell == Some(Exported(rows, apr, key))
  {
    var order, n := BuildOrder(a);
    forall k | k in order ensures order[k] < n && KeyAt(a, order[k]) == k {
      OrderIsLastPlace(a, n, k);
    }
    var packed := FillCells(rows, apr, order, n);
    cell := Lookup(a, packed, key);
    if cell.Some? {
      SameKeys(a, key);
      PlacesAgreeExactly(a, key);
    }
  }
}

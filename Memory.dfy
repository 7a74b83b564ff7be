/** The heap of whitespace/Heap.py: a zero-filled word array that doubles in
    place until an address fits.

    The functions give the contents of the array as a sequence: Grown is the
    array after the doublings an access performs, HeapRead and HeapWrite are
    the results of `read` and `write` on it, and Cell is the value every
    non-negative address holds.  Class Heap is the object the runtime holds,
    proved against those functions. */
module Memory {
  import opened Base

  /** 2^k. */
  function Pow2(k: nat): (r: nat)
    ensures r >= 1
  {
    if k == 0 then 1 else 2 * Pow2(k - 1)
  }

  /** n zero words. */
  function Zeros(n: nat): (r: seq<int>)
    ensures |r| == n && forall i :: 0 <= i < n ==> r[i] == 0
  {
    seq(n, _ => 0)
  }

  /** The contents of a new heap (whitespace/Heap.py:5-6). */
  const FreshCells: seq<int> := [0, 0, 0, 0]

  /** How many times an access to address a doubles an array of length len. */
  function Doublings(len: nat, a: int): (k: nat)
    requires len > 0
    decreases if a < len then 0 else a - len + 1
  {
    if a < len then 0 else 1 + Doublings(2 * len, a)
  }

  /** The array after an access to address a: extended by its own length in
      zeros while the address does not fit. */
  function Grown(s: seq<int>, a: int): (r: seq<int>)
    requires |s| > 0
    ensures a < |r|
    ensures |r| == |s| * Pow2(Doublings(|s|, a))
    ensures r[..|s|] == s
    ensures forall i :: |s| <= i < |r| ==> r[i] == 0
    decreases if a < |s| then 0 else a - |s| + 1
  {
    if a < |s| then s else Grown(s + Zeros(|s|), a)
  }

  /** `read(a)`: after growth, Python's `arr[a]`; an address below minus the
      length raises IndexError. */
  function HeapRead(s: seq<int>, a: int): (r: Result<int>)
    requires |s| > 0
    ensures r.Ok? <==> -|s| <= a
  {
    var g := Grown(s, a);
    match PyIndex(|g|, a)
    case None => Err(IndexError)
    case Some(i) => Ok(g[i])
  }

  /** `write(a, v)`: after growth, Python's `arr[a] = v`. */
  function HeapWrite(s: seq<int>, a: int, v: int): (r: Result<seq<int>>)
    requires |s| > 0
    ensures r.Ok? <==> -|s| <= a
    ensures r.Ok? ==> |r.value| >= |s| && a < |r.value|
  {
    var g := Grown(s, a);
    match PyIndex(|g|, a)
    case None => Err(IndexError)
    case Some(i) => Ok(g[i := v])
  }

  /** The value held at a non-negative address: what is stored there, or 0
      beyond the end of the array. */
  function Cell(s: seq<int>, b: nat): int
  {
    if b < |s| then s[b] else 0
  }

  /** Growth changes no cell. */
  lemma GrowthKeepsCells(s: seq<int>, a: int, b: nat)
    requires |s| > 0
    ensures Cell(Grown(s, a), b) == Cell(s, b)
  {
    var g := Grown(s, a);
    if b < |s| {
      assert g[..|s|][b] == s[b];
    }
  }

  /** Growth never shrinks the array and only happens when the address does
      not fit. */
  lemma GrowthNeverShrinks(s: seq<int>, a: int)
    requires |s| > 0
    ensures |Grown(s, a)| >= |s|
    ensures a < |s| <==> Grown(s, a) == s
  {
    if a >= |s| {
      assert a < |Grown(s, a)|;
    }
  }

  /** A read at a non-negative address returns the value held there. */
  lemma ReadIsCell(s: seq<int>, b: nat)
    requires |s| > 0
    ensures HeapRead(s, b) == Ok(Cell(s, b))
  {
    GrowthKeepsCells(s, b, b);
  }

  /** A write at a non-negative address succeeds; afterwards that address
      holds the value and every other address what it held before. */
  lemma WriteThenRead(s: seq<int>, a: nat, v: int, b: nat)
    requires |s| > 0
    ensures HeapWrite(s, a, v).Ok?
    ensures |HeapWrite(s, a, v).value| > 0
    ensures Cell(HeapWrite(s, a, v).value, a) == v
    ensures b != a ==> Cell(HeapWrite(s, a, v).value, b) == Cell(s, b)
  {
    GrowthKeepsCells(s, a, b);
  }

  /** A negative address counts from the end of the array, which does not
      grow; below minus its length both operations raise IndexError. */
  lemma NegativeAddresses(s: seq<int>, a: int, v: int)
    requires |s| > 0 && a < 0
    ensures -|s| <= a ==> HeapRead(s, a) == Ok(s[|s| + a])
    ensures -|s| <= a ==> HeapWrite(s, a, v) == Ok(s[|s| + a := v])
    ensures a < -|s| ==> HeapRead(s, a) == Err(IndexError) && HeapWrite(s, a, v) == Err(IndexError)
  {
    GrowthNeverShrinks(s, a);
  }

  /** The array after a sequence of successful writes at non-negative addresses. */
  function WriteAll(s: seq<int>, ws: seq<(nat, int)>): (r: seq<int>)
    requires |s| > 0
    ensures |r| > 0
  {
    if ws == [] then s
    else
      var t := WriteAll(s, ws[..|ws| - 1]);
      WriteThenRead(t, ws[|ws| - 1].0, ws[|ws| - 1].1, 0);
      HeapWrite(t, ws[|ws| - 1].0, ws[|ws| - 1].1).value
  }

  /** Reading an address no write touched yields 0 on a fresh heap, however
      far other writes have grown it (whitespace/test/test_heap.py:39-44). */
  lemma {:induction false} NeverWrittenReadsZero(ws: seq<(nat, int)>, b: nat)
    requires forall i :: 0 <= i < |ws| ==> ws[i].0 != b
    ensures HeapRead(WriteAll(FreshCells, ws), b) == Ok(0)
  {
    ReadIsCell(WriteAll(FreshCells, ws), b);
    CellsUntouched(ws, b);
  }

  lemma {:induction false} CellsUntouched(ws: seq<(nat, int)>, b: nat)
    requires forall i :: 0 <= i < |ws| ==> ws[i].0 != b
    ensures Cell(WriteAll(FreshCells, ws), b) == 0
  {
    if ws != [] {
      var t := WriteAll(FreshCells, ws[..|ws| - 1]);
      CellsUntouched(ws[..|ws| - 1], b);
      WriteThenRead(t, ws[|ws| - 1].0, ws[|ws| - 1].1, b);
    }
  }

  /** The capacity of a heap is always four times a power of two. */
  lemma CapacityIsPowerOfTwo(s: seq<int>, k: nat, a: int)
    requires |s| == 4 * Pow2(k)
    ensures |Grown(s, a)| == 4 * Pow2(k + Doublings(|s|, a))
  {
    var d := Doublings(|s|, a);
    var g := Grown(s, a);
    PowAdd(k, d);
    Scale(|s|, Pow2(k), Pow2(d));
  }

  /** Scaling a multiple of four. */
  lemma Scale(n: int, x: int, y: int)
    requires n == 4 * x
    ensures n * y == 4 * (x * y)
  {
  }

  lemma {:induction false} PowAdd(j: nat, k: nat)
    ensures Pow2(j) * Pow2(k) == Pow2(j + k)
    decreases k
  {
    if k > 0 {
      PowAdd(j, k - 1);
      calc {
        Pow2(j) * Pow2(k);
        Pow2(j) * (2 * Pow2(k - 1));
        2 * (Pow2(j) * Pow2(k - 1));
      }
    }
  }

  /** Address 1,000,000 works on a fresh heap (whitespace/test/test_heap.py:18-36). */
  lemma MillionthAddress(v: int)
    ensures HeapRead(FreshCells, 1000000) == Ok(0)
    ensures HeapWrite(FreshCells, 1000000, v).Ok?
    ensures HeapRead(HeapWrite(FreshCells, 1000000, v).value, 1000000) == Ok(v)
  {
    ReadIsCell(FreshCells, 1000000);
    WriteThenRead(FreshCells, 1000000, v, 1000000);
    ReadIsCell(HeapWrite(FreshCells, 1000000, v).value, 1000000);
  }

  /** `Heap`: the word array, and (ghost) how often it has doubled. */
  class Heap {
    var arr: array<int>
    ghost var doublings: nat

    ghost predicate Valid()
      reads this
    {
      arr.Length == 4 * Pow2(doublings)
    }

    /** The array's contents. */
    function Cells(): seq<int>
      reads this, arr
    {
      arr[..]
    }

    /** `Heap()`: four zero words. */
    constructor()
      ensures Valid() && fresh(arr)
      ensures Cells() == FreshCells && doublings == 0
    {
      arr := new int[4](_ => 0);
      doublings := 0;
      new;
      assert arr[..] == FreshCells;
    }

    /** `self.arr.extend([0] * len(self.arr))`. */
    method Double()
      requires Valid()
      modifies this
      ensures Valid() && fresh(arr)
      ensures doublings == old(doublings) + 1
      ensures Cells() == old(Cells()) + Zeros(old(arr.Length))
    {
      var n := arr.Length;
      var b := new int[2 * n](_ => 0);
      var i := 0;
      while i < n
        modifies b
        invariant 0 <= i <= n
        invariant forall j :: 0 <= j < i ==> b[j] == arr[j]
        invariant forall j :: i <= j < 2 * n ==> b[j] == 0
      {
        b[i] := arr[i];
        i := i + 1;
      }
      assert b[..] == arr[..] + Zeros(n);
      arr := b;
      doublings := doublings + 1;
    }

    /** `read(address)`: double until the address fits, then index. */
    method Read(address: int) returns (r: Result<int>)
      requires Valid()
      modifies this
      ensures Valid() && doublings >= old(doublings)
      ensures fresh(arr) || arr == old(arr)
      ensures Cells() == Grown(old(Cells()), address)
      ensures r == HeapRead(old(Cells()), address)
    {
      while address >= arr.Length
        invariant Valid() && doublings >= old(doublings)
        invariant fresh(arr) || arr == old(arr)
        invariant Grown(Cells(), address) == Grown(old(Cells()), address)
        decreases address - arr.Length
      {
        Double();
      }
      match PyIndex(arr.Length, address)
      case None =>
        r := Err(IndexError);
      case Some(i) =>
        r := Ok(arr[i]);
    }

    /** `write(address, value)`: double until the address fits, then store. */
    method Write(address: int, value: int) returns (r: Outcome)
      requires Valid()
      modifies this, arr
      ensures Valid() && doublings >= old(doublings)
      ensures fresh(arr) || arr == old(arr)
      ensures r.Pass? <==> HeapWrite(old(Cells()), address, value).Ok?
      ensures r.Pass? ==> Cells() == HeapWrite(old(Cells()), address, value).value
      ensures r.Fail? ==> r.error == IndexError && Cells() == Grown(old(Cells()), address)
    {
      while address >= arr.Length
        invariant Valid() && doublings >= old(doublings)
        invariant fresh(arr) || arr == old(arr)
        invariant Grown(Cells(), address) == Grown(old(Cells()), address)
        decreases address - arr.Length
      {
        Double();
      }
      match PyIndex(arr.Length, address)
      case None =>
        r := Fail(IndexError);
      case Some(i) =>
        arr[i] := value;
        r := Pass;
    }
  }
}

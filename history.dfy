/**
 * The signal history: a log of past signals capped at the most recent 100
 * entries, kept in one storage file that is read whole and rewritten whole,
 * and the win-rate summary computed over it.
 */
module History {
  import opened Wrappers
  import opened Engine

  /** The outcome an outside process may record on a stored signal. */
  datatype Outcome = Win | Loss

  /** A stored signal; nothing in this system ever sets `result`. */
  datatype Entry = Entry(signal: Signal, result: Option<Outcome>)

  /** The number of entries the store keeps. */
  const MaxHistory: nat := 100

  /**
   * `s.slice(-n)`: the last `n` elements, or all of `s` when it is shorter.
   * `slice(-0)` is `slice(0)`, the whole sequence.
   */
  function SliceFromEnd<T>(s: seq<T>, n: nat): (r: seq<T>)
    ensures n > 0 ==> |r| == (if n < |s| then n else |s|)
    ensures n == 0 ==> r == s
    ensures r == s[|s| - |r|..]
  {
    if n == 0 || n >= |s| then s else s[|s| - n..]
  }

  /**
   * The history after pushing `e` and keeping the last `MaxHistory` entries:
   * a FIFO log, where the oldest entry leaves only when the log overflows.
   */
  function Appended<T>(h: seq<T>, e: T): (r: seq<T>)
    ensures |r| == if |h| + 1 > MaxHistory then MaxHistory else |h| + 1
    ensures r[|r| - 1] == e
    ensures r[..|r| - 1] == h[|h| - (|r| - 1)..]
    ensures |h| < MaxHistory ==> r == h + [e]
  {
    var pushed := h + [e];
    if |pushed| > MaxHistory then SliceFromEnd(pushed, MaxHistory) else pushed
  }

  /** On a full store, appending evicts exactly the oldest entry. */
  lemma FullStoreEvictsOldest<T>(h: seq<T>, e: T)
    requires |h| == MaxHistory
    ensures Appended(h, e) == h[1..] + [e]
  {
    var r := Appended(h, e);
    assert r == r[..|r| - 1] + [r[|r| - 1]];
  }

  /** Pushing the entries `es` one after another. */
  function AppendAll<T>(h: seq<T>, es: seq<T>): seq<T>
    decreases |es|
  {
    if es == [] then h else AppendAll(Appended(h, es[0]), es[1..])
  }

  /** Cutting to the last `n` before or after adding `y` at the end makes no difference. */
  lemma SliceFromEndTwice<T>(x: seq<T>, y: seq<T>, n: nat)
    requires n > 0
    ensures SliceFromEnd(SliceFromEnd(x, n) + y, n) == SliceFromEnd(x + y, n)
  {
    var a := SliceFromEnd(x, n);
    var z := x + y;
    assert a + y == z[|x| - |a|..];
    var lhs, rhs := SliceFromEnd(a + y, n), SliceFromEnd(z, n);
    assert |lhs| == |rhs|;
    forall i | 0 <= i < |lhs| ensures lhs[i] == rhs[i] {
      assert lhs[i] == (a + y)[|a + y| - |lhs| + i];
    }
  }

  /**
   * From any store within capacity, a run of appends leaves exactly the
   * last `MaxHistory` of everything stored, in order.
   */
  lemma {:induction false} AppendAllKeepsLatest<T>(h: seq<T>, es: seq<T>)
    requires |h| <= MaxHistory
    ensures AppendAll(h, es) == SliceFromEnd(h + es, MaxHistory)
    decreases |es|
  {
    if es == [] {
      assert h + es == h;
    } else {
      var x, rest := h + [es[0]], es[1..];
      assert x + rest == h + es;
      var h' := Appended(h, es[0]);
      assert AppendAll(h, es) == AppendAll(h', rest);
      AppendedIsSlice(h, es[0]);
      AppendAllKeepsLatest(h', rest);
      SliceFromEndTwice(x, rest, MaxHistory);
    }
  }

  /** The guarded truncation is the same as `slice(-100)`. */
  lemma AppendedIsSlice<T>(h: seq<T>, e: T)
    ensures Appended(h, e) == SliceFromEnd(h + [e], MaxHistory)
    ensures |Appended(h, e)| <= MaxHistory
  {
  }

  /** `loadHistory`: a missing or unparsable file (`None`) reads as the empty history. */
  function LoadHistory(file: Option<seq<Entry>>): (h: seq<Entry>)
    ensures file.None? ==> h == []
    ensures file.Some? ==> h == file.value
  {
    file.GetOr([])
  }

  /** The storage file, `None` while it is missing or does not parse. */
  class SignalStore {
    var file: Option<seq<Entry>>

    /** No file exists until the first signal is saved. */
    constructor ()
      ensures file == None
    {
      file := None;
    }

    /** The history a read of the file yields. */
    function Load(): (h: seq<Entry>)
      reads this
      ensures file.None? ==> h == []
      ensures file.Some? ==> h == file.value
    {
      LoadHistory(file)
    }

    /**
     * `saveSignal`: read the history (empty if the file is missing or
     * corrupt), push the signal, keep the last `MaxHistory` entries and
     * rewrite the file.
     */
    method SaveSignal(signal: Signal)
      modifies this
      ensures file == Some(Appended(old(Load()), Entry(signal, None)))
      ensures |Load()| == if |old(Load())| + 1 > MaxHistory then MaxHistory else |old(Load())| + 1
      ensures Load()[|Load()| - 1] == Entry(signal, None)
      ensures Load()[..|Load()| - 1] == old(Load())[|old(Load())| - (|Load()| - 1)..]
    {
      var history := LoadHistory(file);
      history := history + [Entry(signal, None)];
      if |history| > MaxHistory {
        history := history[|history| - MaxHistory..];
      }
      file := Some(history);
    }
  }

  /** The number of entries whose result is WIN. */
  function CountWins(h: seq<Entry>): (n: nat)
    ensures n <= |h|
    ensures n == 0 <==> forall i :: 0 <= i < |h| ==> h[i].result != Some(Win)
  {
    if h == [] then 0 else (if h[0].result == Some(Win) then 1 else 0) + CountWins(h[1..])
  }

  /** The number of entries that carry a result. */
  function CountResolved(h: seq<Entry>): (n: nat)
    ensures n <= |h|
    ensures n == 0 <==> forall i :: 0 <= i < |h| ==> h[i].result == None
  {
    if h == [] then 0 else (if h[0].result.Some? then 1 else 0) + CountResolved(h[1..])
  }

  lemma {:induction false} WinsAtMostResolved(h: seq<Entry>)
    ensures CountWins(h) <= CountResolved(h) <= |h|
  {
    if h != [] {
      WinsAtMostResolved(h[1..]);
    }
  }

  /** Both counts add up over a concatenation. */
  lemma {:induction false} CountsSplit(a: seq<Entry>, b: seq<Entry>)
    ensures CountWins(a + b) == CountWins(a) + CountWins(b)
    ensures CountResolved(a + b) == CountResolved(a) + CountResolved(b)
  {
    if a == [] {
      assert a + b == b;
    } else {
      assert (a + b)[1..] == a[1..] + b;
      CountsSplit(a[1..], b);
    }
  }

  /** A history in which no entry carries a result has no resolved entries. */
  lemma {:induction false} UnresolvedCountsNothing(h: seq<Entry>)
    requires forall i :: 0 <= i < |h| ==> h[i].result == None
    ensures CountResolved(h) == 0 && CountWins(h) == 0
  {
    if h != [] {
      UnresolvedCountsNothing(h[1..]);
      WinsAtMostResolved(h);
    }
  }

  /**
   * The `rate` field: the number 0 when no entry is resolved (`Unrated`),
   * otherwise the percentage rendered with one decimal, held as tenths of a
   * percent (`Tenths(667)` is "66.7").
   */
  datatype Rate = Unrated | Tenths(t: nat)

  datatype WinRate = WinRate(total: nat, wins: nat, rate: Rate)

  /** `wins / total * 100` in tenths of a percent, rounded half up. */
  function RoundedTenths(wins: nat, total: nat): (t: nat)
    requires total > 0
    ensures 2 * total * t <= 2000 * wins + total < 2 * total * (t + 1)
    ensures wins <= total ==> t <= 1000
    ensures wins == 0 ==> t == 0
    ensures wins == total ==> t == 1000
  {
    DivisionFacts(2000 * wins + total, 2 * total, wins, total);
    (2000 * wins + total) / (2 * total)
  }

  lemma DivisionFacts(n: nat, d: nat, wins: nat, total: nat)
    requires total > 0 && n == 2000 * wins + total && d == 2 * total
    ensures d * (n / d) <= n < d * (n / d + 1)
    ensures wins <= total ==> n / d <= 1000
    ensures wins == 0 ==> n / d == 0
    ensures wins == total ==> n / d == 1000
  {
    var q := n / d;
    DivBounds(n, d);
    if wins <= total {
      assert n < d * 1001;
      if q > 1000 {
        MulMono(d, 1001, q);
      }
    }
    if wins == 0 {
      QuotientUnique(n, d, q, 0);
    }
    if wins == total {
      assert d * 1001 == d * 1000 + d;
      QuotientUnique(n, d, q, 1000);
    }
  }

  lemma DivBounds(n: nat, d: nat)
    requires d > 0
    ensures d * (n / d) <= n < d * (n / d + 1)
  {
    assert n == d * (n / d) + n % d;
    assert d * (n / d + 1) == d * (n / d) + d;
  }

  lemma MulMono(d: nat, a: nat, b: nat)
    requires a <= b
    ensures d * a <= d * b
  {
    assert d * b == d * a + d * (b - a);
  }

  /** At most one quotient brackets `n` between consecutive multiples of `d`. */
  lemma QuotientUnique(n: nat, d: nat, q: nat, q': nat)
    requires d * q <= n < d * (q + 1)
    requires d * q' <= n < d * (q' + 1)
    ensures q == q'
  {
    if q < q' {
      MulMono(d, q + 1, q');
    } else if q' < q {
      MulMono(d, q' + 1, q);
    }
  }

  /** `calculateWinRate`. */
  function CalculateWinRate(h: seq<Entry>): (r: WinRate)
    ensures |h| == 0 ==> r == WinRate(0, 0, Unrated)
    ensures r.wins == CountWins(h) && r.total == CountResolved(h)
    ensures r.wins <= r.total <= |h|
    ensures r.rate == Unrated <==> r.total == 0
    ensures r.rate.Tenths? ==>
      r.rate.t <= 1000 && 2 * r.total * r.rate.t <= 2000 * r.wins + r.total < 2 * r.total * (r.rate.t + 1)
  {
    if |h| == 0 then WinRate(0, 0, Unrated)
    else
      var wins := CountWins(h);
      var total := CountResolved(h);
      WinsAtMostResolved(h);
      WinRate(total, wins, if total > 0 then Tenths(RoundedTenths(wins, total)) else Unrated)
  }

  /** Entries without a result give the all-zero summary, however many there are. */
  lemma UnresolvedWinRate(h: seq<Entry>)
    requires forall i :: 0 <= i < |h| ==> h[i].result == None
    ensures CalculateWinRate(h) == WinRate(0, 0, Unrated)
  {
    UnresolvedCountsNothing(h);
  }

  /** Two wins and one loss give a total of 3, 2 wins and the rate "66.7". */
  lemma TwoWinsOneLoss(s: Signal)
    ensures CalculateWinRate([Entry(s, Some(Win)), Entry(s, Some(Win)), Entry(s, Some(Loss))])
         == WinRate(3, 2, Tenths(667))
  {
    var h := [Entry(s, Some(Win)), Entry(s, Some(Win)), Entry(s, Some(Loss))];
    var loss := [Entry(s, Some(Loss))];
    assert loss[1..] == [] && h[1..][1..] == loss && h[1..] == [Entry(s, Some(Win))] + loss;
    assert CountWins(loss) == 0 && CountResolved(loss) == 1;
    assert CountWins(h[1..]) == 1 && CountResolved(h[1..]) == 2;
    assert CountWins(h) == 2 && CountResolved(h) == 3;
    assert RoundedTenths(2, 3) == 4003 / 6 == 667;
  }

  /**
   * Saving a fresh signal into a store that is not full leaves the win-rate
   * counts as they were; on a full store the evicted entry's counts leave.
   */
  lemma SaveKeepsCounts(h: seq<Entry>, s: Signal)
    ensures var k := |h| + 1 - |Appended(h, Entry(s, None))|;
      CountWins(Appended(h, Entry(s, None))) == CountWins(h) - CountWins(h[..k])
      && CountResolved(Appended(h, Entry(s, None))) == CountResolved(h) - CountResolved(h[..k])
  {
    var e := Entry(s, None);
    var r := Appended(h, e);
    var k := |h| + 1 - |r|;
    assert r == h[k..] + [e];
    CountsSplit(h[k..], [e]);
    assert [e][1..] == [];
    assert h == h[..k] + h[k..];
    CountsSplit(h[..k], h[k..]);
  }
}

/** The mathematics of shrinking: subsequences, one-minimality and the replay budget. */
module Shrink {
  import opened Prelude

  // ----- subsequences -----

  /** `a` is what is left of `b` after dropping some elements. */
  ghost predicate IsSubsequence<T>(a: seq<T>, b: seq<T>) {
    if a == [] then true
    else if b == [] then false
    else (a[0] == b[0] && IsSubsequence(a[1..], b[1..])) || IsSubsequence(a, b[1..])
  }

  lemma {:induction false} SubsequenceReflexive<T>(a: seq<T>)
    ensures IsSubsequence(a, a)
  {
    if a != [] { SubsequenceReflexive(a[1..]); }
  }

  lemma {:induction false} SubsequenceTransitive<T>(a: seq<T>, b: seq<T>, c: seq<T>)
    requires IsSubsequence(a, b) && IsSubsequence(b, c)
    ensures IsSubsequence(a, c)
    decreases |b| + |c|
  {
    if a != [] && b != [] {
      if IsSubsequence(b, c[1..]) {
        SubsequenceTransitive(a, b, c[1..]);
      } else if IsSubsequence(a, b[1..]) {
        SubsequenceTransitive(a, b[1..], c[1..]);
      } else {
        SubsequenceTransitive(a[1..], b[1..], c[1..]);
      }
    }
  }

  /** `s` without the window from `i` up to `j`. */
  function Without<T>(s: seq<T>, i: nat, j: nat): (r: seq<T>)
    requires i <= j <= |s|
    ensures |r| == |s| - (j - i)
  {
    s[..i] + s[j..]
  }

  function RemoveAt<T>(s: seq<T>, i: nat): (r: seq<T>)
    requires i < |s|
    ensures |r| == |s| - 1
  {
    Without(s, i, i + 1)
  }

  lemma {:induction false} SuffixIsSubsequence<T>(s: seq<T>, j: nat)
    requires j <= |s|
    ensures IsSubsequence(s[j..], s)
  {
    SubsequenceReflexive(s);
    if j > 0 {
      SuffixIsSubsequence(s[1..], j - 1);
      assert s[1..][j - 1..] == s[j..];
    }
  }

  lemma {:induction false} WithoutIsSubsequence<T>(s: seq<T>, i: nat, j: nat)
    requires i <= j <= |s|
    ensures IsSubsequence(Without(s, i, j), s)
  {
    if i == 0 {
      assert Without(s, i, j) == s[j..];
      SuffixIsSubsequence(s, j);
    } else {
      WithoutIsSubsequence(s[1..], i - 1, j - 1);
      assert Without(s, i, j)[1..] == Without(s[1..], i - 1, j - 1);
    }
  }

  // ----- one-minimality -----

  /** Whatever contains a failing sequence, and is contained in `whole`, fails too. */
  ghost predicate Monotone<T(!new)>(fails: seq<T> -> bool, whole: seq<T>) {
    forall a, b :: IsSubsequence(a, b) && IsSubsequence(b, whole) && fails(a) ==> fails(b)
  }

  /** None of the first `n` operations of `s` can be dropped on its own. */
  ghost predicate StuckBelow<T(!new)>(fails: seq<T> -> bool, s: seq<T>, n: nat) {
    forall k: nat :: k < n && k < |s| ==> !fails(RemoveAt(s, k))
  }

  ghost predicate OneMinimal<T(!new)>(fails: seq<T> -> bool, s: seq<T>) {
    StuckBelow(fails, s, |s|)
  }

  /** A sequence the search may hold on to: part of the original, and failing. */
  ghost predicate Candidate<T>(fails: seq<T> -> bool, whole: seq<T>, s: seq<T>) {
    s != [] && IsSubsequence(s, whole) && fails(s)
  }

  /** Dropping operation `i` as well does not free operation `k`, which could not be dropped before. */
  ghost predicate StillStuck<T(!new)>(fails: seq<T> -> bool, s: seq<T>, k: nat, i: nat)
    requires k < i < |s|
  {
    fails(RemoveAt(s, i)) && !fails(RemoveAt(s, k)) ==> !fails(RemoveAt(RemoveAt(s, i), k))
  }

  /** In no failing part of `whole` does dropping a later operation free an earlier one. */
  ghost predicate NothingFreed<T(!new)>(fails: seq<T> -> bool, whole: seq<T>) {
    forall s: seq<T>, k: nat, i: nat :: k < i < |s| && Candidate(fails, whole, s) ==> StillStuck(fails, s, k, i)
  }

  lemma RemoveIsSubsequence<T>(s: seq<T>, i: nat)
    requires i < |s|
    ensures IsSubsequence(RemoveAt(s, i), s)
  {
    WithoutIsSubsequence(s, i, i + 1);
  }

  lemma DropsCommute<T>(s: seq<T>, k: nat, i: nat)
    requires k < i < |s|
    ensures RemoveAt(RemoveAt(s, i), k) == RemoveAt(RemoveAt(s, k), i - 1)
  {
  }

  /** A monotone failure frees nothing. */
  lemma MonotoneFreesNothing<T(!new)>(fails: seq<T> -> bool, whole: seq<T>)
    requires Monotone(fails, whole)
    ensures NothingFreed(fails, whole)
  {
    forall s: seq<T>, k: nat, i: nat | k < i < |s| && Candidate(fails, whole, s) ensures StillStuck(fails, s, k, i) {
      MonotoneStillStuck(fails, whole, s, k, i);
    }
  }

  lemma FailsUpward<T(!new)>(fails: seq<T> -> bool, whole: seq<T>, a: seq<T>, b: seq<T>)
    requires Monotone(fails, whole) && IsSubsequence(a, b) && IsSubsequence(b, whole) && fails(a)
    ensures fails(b)
  {
  }

  lemma MonotoneStillStuck<T(!new)>(fails: seq<T> -> bool, whole: seq<T>, s: seq<T>, k: nat, i: nat)
    requires Monotone(fails, whole) && IsSubsequence(s, whole) && k < i < |s|
    ensures StillStuck(fails, s, k, i)
  {
    hide Monotone, IsSubsequence, RemoveAt;
    var t := RemoveAt(s, k);
    RemoveIsSubsequence(t, i - 1);
    RemoveIsSubsequence(s, k);
    SubsequenceTransitive(t, s, whole);
    DropsCommute(s, k, i);
    if fails(RemoveAt(t, i - 1)) { FailsUpward(fails, whole, RemoveAt(t, i - 1), t); }
  }

  /**
   * When nothing is freed, operations that could not be dropped stay so after a later drop: this is
   * why the single-operation pass may visit every index only once.
   */
  lemma StuckStaysStuck<T(!new)>(fails: seq<T> -> bool, whole: seq<T>, s: seq<T>, i: nat)
    requires NothingFreed(fails, whole) && Candidate(fails, whole, s)
    requires i < |s| && StuckBelow(fails, s, i) && fails(RemoveAt(s, i))
    ensures StuckBelow(fails, RemoveAt(s, i), i)
  {
    hide RemoveAt, Candidate;
    forall k: nat | k < i && k < |RemoveAt(s, i)| ensures !fails(RemoveAt(RemoveAt(s, i), k)) {
      assert StillStuck(fails, s, k, i);
    }
  }

  lemma StuckOneMore<T(!new)>(fails: seq<T> -> bool, s: seq<T>, i: nat)
    requires i < |s| && StuckBelow(fails, s, i) && !fails(RemoveAt(s, i))
    ensures StuckBelow(fails, s, i + 1)
  {
    hide RemoveAt;
  }

  lemma AloneIsMinimal<T(!new)>(fails: seq<T> -> bool, s: seq<T>)
    requires |s| == 1 && !fails([])
    ensures OneMinimal(fails, s)
  {
    assert RemoveAt(s, 0) == [];
  }

  // ----- the replay budget -----

  function CeilDiv(n: nat, k: nat): nat
    requires k > 0
  {
    (n + k - 1) / k
  }

  lemma CeilDivStep(n: nat, k: nat)
    requires k > 0 && n > 0
    ensures CeilDiv(n, k) == 1 + CeilDiv(if n >= k then n - k else 0, k)
  {
    var m: nat := if n >= k then n - k else 0;
    var q, r := (m + k - 1) / k, (m + k - 1) % k;
    assert m + k - 1 == q * k + r;
    Distribute(q, 1, k);
    if n >= k {
      QuotientIs(n + k - 1, k, q + 1, r);
    } else {
      QuotientIs(m + k - 1, k, 0, k - 1);
      QuotientIs(n + k - 1, k, 1, n - 1);
    }
  }

  lemma CeilDivOfNothing(k: nat)
    requires k > 0
    ensures CeilDiv(0, k) == 0
  {
    QuotientIs(k - 1, k, 0, k - 1);
  }

  lemma CeilDivMonotone(m: nat, n: nat, k: nat)
    requires k > 0 && m <= n
    ensures CeilDiv(m, k) <= CeilDiv(n, k)
  {
    var x, y := CeilDiv(m, k), CeilDiv(n, k);
    assert x * k <= m + k - 1 && n + k - 1 < y * k + k;
    if x > y {
      MulAtLeast(x - y, k);
      assert false;
    }
  }

  /** What the window passes can cost from window size `size` down to 1, on `n` operations. */
  function WindowCost(n: nat, size: nat): nat {
    if size == 0 then 0 else CeilDiv(n, size) + WindowCost(n, size / 2)
  }

  function Log2(n: nat): nat
    requires n >= 1
  {
    if n == 1 then 0 else 1 + Log2(n / 2)
  }

  lemma CeilDivBound(n: nat, k: nat)
    requires k > 0 && n > 0
    ensures k * (CeilDiv(n, k) - 1) <= n - 1
  {
    var q, r := (n + k - 1) / k, (n + k - 1) % k;
    assert n + k - 1 == q * k + r;
    Distribute(q, -1, k);
  }

  /** The halving sizes cost less than twice the length, plus one per size. */
  lemma {:induction false} WindowCostBound(n: nat, size: nat)
    requires n >= 1 && size >= 1
    ensures size * (WindowCost(n, size) - Log2(size) - 1) <= (n - 1) * (2 * size - 1)
  {
    if size == 1 {
      QuotientIs(n, 1, n, 0);
      assert WindowCost(n, 0) == 0;
    } else {
      var half, odd := size / 2, size % 2;
      var head, rest := CeilDiv(n, size) - 1, WindowCost(n, half) - Log2(half) - 1;
      CeilDivBound(n, size);
      WindowCostBound(n, half);
      HalvingStep(n - 1, half, odd, head, rest);
      assert size == 2 * half + odd;
    }
  }

  lemma OddTwice(m: int, half: int)
    ensures m * (2 * half - 1) == 2 * (m * half) - m
    ensures half * (2 * m + 1) == 2 * (m * half) + half
    ensures half * (2 * m) == 2 * (m * half)
  {
  }

  lemma SplitProduct(half: nat, odd: nat, head: int, rest: int)
    requires odd <= 1
    ensures (2 * half + odd) * (head + rest)
         == (2 * half + odd) * head + 2 * (half * rest) + if odd == 1 then rest else 0
  {
    Distribute(head, rest, 2 * half + odd);
    Distribute(2 * half, odd, rest);
  }

  lemma HalvingStep(m: nat, half: nat, odd: nat, head: int, rest: int)
    requires half >= 1 && odd <= 1
    requires (2 * half + odd) * head <= m
    requires half * rest <= m * (2 * half - 1)
    ensures (2 * half + odd) * (head + rest) <= m * (2 * (2 * half + odd) - 1)
  {
    OddTwice(m, half);
    OddTwice(m, 2 * half + odd);
    Distribute(2 * half, odd, m);
    FactorBelow(half, rest, 2 * m + 1);
    SplitProduct(half, odd, head, rest);
  }

  /** What the single-operation pass can cost on `n` operations. */
  function SinglesCost(n: nat): nat {
    if n <= 1 then 0 else n
  }

  /** The replays shrinking `n` operations can ever need. */
  function ReplayBound(n: nat): nat
    requires n >= 1
  {
    3 * n - 2 + Log2(n)
  }

  lemma TotalCostBound(n: nat)
    requires n >= 1
    ensures WindowCost(n, n / 2) + SinglesCost(n) <= ReplayBound(n)
  {
    var size := n / 2;
    if size >= 1 {
      WindowCostBound(n, size);
      var excess := WindowCost(n, size) - Log2(size) - 1;
      hide WindowCost, Log2;
      OddTwice(n - 1, size);
      FactorBelow(size, excess, 2 * (n - 1));
    }
  }

  // ----- the two passes -----

  /** Where a search stands: the best sequence so far, the replays left, and whether they ran out. */
  datatype Search<T> = Search(current: seq<T>, left: nat, exhausted: bool)

  /** One window pass from index `i`: drop `size` operations at a time while the rest still fails. */
  function WindowsFrom<T(==)>(fails: seq<T> -> bool, s: seq<T>, size: nat, i: nat, budget: nat): Search<T>
    requires size >= 1
    decreases |s| - i
  {
    if i >= |s| then Search(s, budget, false)
    else
      var candidate := Without(s, i, Min(i + size, |s|));
      if candidate == [] then WindowsFrom(fails, s, size, i + size, budget)
      else if budget == 0 then Search(s, 0, true)
      else if fails(candidate) then WindowsFrom(fails, candidate, size, i, budget - 1)
      else WindowsFrom(fails, s, size, i + size, budget - 1)
  }

  /** The window passes, halving the window each time. */
  function HalvingFrom<T(==)>(fails: seq<T> -> bool, s: seq<T>, size: nat, budget: nat): Search<T>
    decreases size
  {
    if size == 0 || |s| <= 1 then Search(s, budget, false)
    else
      var pass := WindowsFrom(fails, s, size, 0, budget);
      if pass.exhausted then pass else HalvingFrom(fails, pass.current, size / 2, pass.left)
  }

  /** The single-operation pass: after a successful drop the same index is tried again. */
  function SinglesFrom<T>(fails: seq<T> -> bool, s: seq<T>, i: nat, budget: nat): Search<T>
    decreases |s| - i
  {
    if i >= |s| || |s| <= 1 then Search(s, budget, false)
    else if budget == 0 then Search(s, 0, true)
    else if fails(RemoveAt(s, i)) then SinglesFrom(fails, RemoveAt(s, i), i, budget - 1)
    else SinglesFrom(fails, s, i + 1, budget - 1)
  }

  /** The whole search: windows first, then single operations. */
  function Minimize<T(==)>(fails: seq<T> -> bool, s: seq<T>, limit: nat): Search<T> {
    var coarse := HalvingFrom(fails, s, |s| / 2, limit);
    if coarse.exhausted then coarse else SinglesFrom(fails, coarse.current, 0, coarse.left)
  }

  /** A search kept within `whole`, and within `cost` replays unless it ran out below that. */
  ghost predicate Kept<T>(fails: seq<T> -> bool, whole: seq<T>, budget: nat, cost: nat, r: Search<T>) {
    && Candidate(fails, whole, r.current) && r.left <= budget
    && if r.exhausted then r.left == 0 && budget < cost else budget - r.left <= cost
  }

  lemma {:induction false} WindowsKeep<T>(fails: seq<T> -> bool, whole: seq<T>, s: seq<T>, size: nat, i: nat,
                                          budget: nat)
    requires size >= 1 && Candidate(fails, whole, s)
    ensures var r := WindowsFrom(fails, s, size, i, budget);
            && |r.current| <= |s|
            && Kept(fails, whole, budget, CeilDiv(if i < |s| then |s| - i else 0, size), r)
    decreases |s| - i
  {
    hide CeilDiv, Without, IsSubsequence;
    if i < |s| {
      CeilDivStep(|s| - i, size);
      var end := Min(i + size, |s|);
      var candidate := Without(s, i, end);
      if candidate == [] {
        WindowsKeep(fails, whole, s, size, i + size, budget);
      } else if budget > 0 {
        if fails(candidate) {
          assert WindowsFrom(fails, s, size, i, budget) == WindowsFrom(fails, candidate, size, i, budget - 1);
          WithoutIsSubsequence(s, i, end);
          SubsequenceTransitive(candidate, s, whole);
          WindowsKeep(fails, whole, candidate, size, i, budget - 1);
        } else {
          assert WindowsFrom(fails, s, size, i, budget) == WindowsFrom(fails, s, size, i + size, budget - 1);
          WindowsKeep(fails, whole, s, size, i + size, budget - 1);
        }
        hide WindowsFrom;
      }
    } else {
      CeilDivOfNothing(size);
    }
  }

  lemma {:induction false} HalvingKeeps<T>(fails: seq<T> -> bool, whole: seq<T>, s: seq<T>, size: nat, budget: nat)
    requires Candidate(fails, whole, s) && |s| <= |whole|
    ensures var r := HalvingFrom(fails, s, size, budget);
            |r.current| <= |s| && Kept(fails, whole, budget, WindowCost(|whole|, size), r)
    decreases size
  {
    if size > 0 && |s| > 1 {
      WindowsKeep(fails, whole, s, size, 0, budget);
      CeilDivMonotone(|s|, |whole|, size);
      hide CeilDiv, WindowsFrom;
      var pass := WindowsFrom(fails, s, size, 0, budget);
      if !pass.exhausted { HalvingKeeps(fails, whole, pass.current, size / 2, pass.left); }
    }
  }

  /** The single-operation pass stays within one replay per operation, and leaves nothing to drop. */
  lemma {:induction false} SinglesMinimize<T(!new)>(fails: seq<T> -> bool, whole: seq<T>, s: seq<T>, i: nat,
                                                    budget: nat)
    requires Candidate(fails, whole, s) && !fails([]) && i <= |s|
    requires NothingFreed(fails, whole) ==> StuckBelow(fails, s, i)
    ensures var r := SinglesFrom(fails, s, i, budget);
            && Kept(fails, whole, budget, if |s| <= 1 then 0 else |s| - i, r)
            && (!r.exhausted && NothingFreed(fails, whole) ==> OneMinimal(fails, r.current))
    decreases |s| - i
  {
    hide NothingFreed, StuckBelow, RemoveAt, IsSubsequence;
    if |s| == 1 {
      AloneIsMinimal(fails, s);
    } else if i < |s| && budget > 0 {
      var candidate := RemoveAt(s, i);
      if fails(candidate) {
        RemoveIsSubsequence(s, i);
        SubsequenceTransitive(candidate, s, whole);
        if NothingFreed(fails, whole) { StuckStaysStuck(fails, whole, s, i); }
        SinglesMinimize(fails, whole, candidate, i, budget - 1);
      } else {
        if NothingFreed(fails, whole) { StuckOneMore(fails, s, i); }
        SinglesMinimize(fails, whole, s, i + 1, budget - 1);
      }
    }
  }

  /**
   * Shrinking, whatever the predicate and the budget: the result is a failing, non-empty part of
   * the original, the replays stay within both limits, and with budget to spare a failure whose
   * drops free nothing, a monotone one in particular, ends one-minimal.
   */
  lemma MinimizeIsSound<T(!new)>(fails: seq<T> -> bool, s: seq<T>, limit: nat)
    requires s != [] && fails(s) && !fails([])
    ensures var r := Minimize(fails, s, limit);
            && Kept(fails, s, limit, ReplayBound(|s|), r)
            && (!r.exhausted && NothingFreed(fails, s) ==> OneMinimal(fails, r.current))
            && (Monotone(fails, s) ==> NothingFreed(fails, s))
  {
    SubsequenceReflexive(s);
    TotalCostBound(|s|);
    HalvingKeeps(fails, s, s, |s| / 2, limit);
    hide WindowCost, ReplayBound, HalvingFrom, NothingFreed;
    var coarse := HalvingFrom(fails, s, |s| / 2, limit);
    if !coarse.exhausted { SinglesMinimize(fails, s, coarse.current, 0, coarse.left); }
    if Monotone(fails, s) { MonotoneFreesNothing(fails, s); }
  }

  // ----- the cost when nothing can go -----

  /** No shorter part of `s` fails. */
  ghost predicate Smallest<T(!new)>(fails: seq<T> -> bool, s: seq<T>) {
    forall t :: IsSubsequence(t, s) && |t| < |s| ==> !fails(t)
  }

  lemma {:induction false} FutileWindows<T(!new)>(fails: seq<T> -> bool, s: seq<T>, size: nat, i: nat, budget: nat)
    requires Smallest(fails, s) && 1 <= size < |s|
    requires budget >= CeilDiv(if i < |s| then |s| - i else 0, size)
    ensures WindowsFrom(fails, s, size, i, budget)
         == Search(s, budget - CeilDiv(if i < |s| then |s| - i else 0, size), false)
    decreases |s| - i
  {
    hide CeilDiv, Without, IsSubsequence;
    if i < |s| {
      CeilDivStep(|s| - i, size);
      WithoutIsSubsequence(s, i, Min(i + size, |s|));
      FutileWindows(fails, s, size, i + size, budget - 1);
    } else {
      CeilDivOfNothing(size);
    }
  }

  lemma {:induction false} FutileHalving<T(!new)>(fails: seq<T> -> bool, s: seq<T>, size: nat, budget: nat)
    requires Smallest(fails, s) && size < |s| && |s| >= 2 && budget >= WindowCost(|s|, size)
    ensures HalvingFrom(fails, s, size, budget) == Search(s, budget - WindowCost(|s|, size), false)
    decreases size
  {
    if size > 0 {
      hide Smallest, CeilDiv, WindowsFrom;
      var half, cost := size / 2, CeilDiv(|s|, size);
      assert WindowCost(|s|, size) == cost + WindowCost(|s|, half);
      FutileWindows(fails, s, size, 0, budget);
      FutileHalving(fails, s, half, budget - cost);
      hide WindowCost;
    }
  }

  lemma {:induction false} FutileSingles<T(!new)>(fails: seq<T> -> bool, s: seq<T>, i: nat, budget: nat)
    requires Smallest(fails, s) && |s| >= 2 && i <= |s| && budget >= |s| - i
    ensures SinglesFrom(fails, s, i, budget) == Search(s, budget - (|s| - i), false)
    decreases |s| - i
  {
    if i < |s| {
      WithoutIsSubsequence(s, i, i + 1);
      hide IsSubsequence;
      FutileSingles(fails, s, i + 1, budget - 1);
    }
  }

  /**
   * The exact cost of a search that can drop nothing: every window of every size, then every
   * operation, and so at most `ReplayBound`, which is linear.
   */
  lemma FutileSearchCost<T(!new)>(fails: seq<T> -> bool, s: seq<T>, limit: nat)
    requires Smallest(fails, s) && |s| >= 2
    ensures var cost := WindowCost(|s|, |s| / 2) + |s|;
            && cost <= ReplayBound(|s|)
            && (limit >= cost ==> Minimize(fails, s, limit) == Search(s, limit - cost, false))
  {
    hide WindowCost, ReplayBound, HalvingFrom, SinglesFrom, Smallest, IsSubsequence;
    var half := |s| / 2;
    assert half < |s|;
    TotalCostBound(|s|);
    if limit >= WindowCost(|s|, half) + |s| {
      FutileHalving(fails, s, half, limit);
      FutileSingles(fails, s, 0, limit - WindowCost(|s|, half));
    }
  }

  // ----- a failure that is not minimized -----

  /**
   * What a failure that is not monotone can answer for four operations: it needs `d`, and of the
   * others only those that come in an unbroken line from `a`.
   */
  predicate JaggedVerdicts<T>(a: T, b: T, c: T, d: T, fails: seq<T> -> bool) {
    && fails([a, b, c, d]) && fails([a, b, d]) && fails([a, d]) && fails([d])
    && !fails([b, c, d]) && !fails([a, c, d]) && !fails([c, d]) && !fails([b, d]) && !fails([a, b]) && !fails([a])
    && !fails([])
  }

  /** The window passes drop `c`, as their last window but one. */
  lemma JaggedWindows<T(!new)>(a: T, b: T, c: T, d: T, fails: seq<T> -> bool, limit: nat)
    requires !fails([c, d]) && !fails([a, b]) && !fails([b, c, d]) && !fails([a, c, d]) && fails([a, b, d])
    requires limit >= 6
    ensures HalvingFrom(fails, [a, b, c, d], 2, limit) == Search([a, b, d], limit - 6, false)
  {
    var s, t := [a, b, c, d], [a, b, d];
    assert Without(s, 0, 2) == [c, d] && Without(s, 2, 4) == [a, b];
    assert Without(s, 0, 1) == [b, c, d] && Without(s, 1, 2) == [a, c, d] && Without(s, 2, 3) == t
           && Without(t, 2, 3) == [a, b];
    hide Without;
    assert WindowsFrom(fails, s, 2, 2, limit - 1) == Search(s, limit - 2, false);
    assert WindowsFrom(fails, s, 2, 0, limit) == Search(s, limit - 2, false);
    assert WindowsFrom(fails, t, 1, 2, limit - 5) == Search(t, limit - 6, false);
    assert WindowsFrom(fails, s, 1, 2, limit - 4) == Search(t, limit - 6, false);
    assert WindowsFrom(fails, s, 1, 1, limit - 3) == Search(t, limit - 6, false);
    assert WindowsFrom(fails, s, 1, 0, limit - 2) == Search(t, limit - 6, false);
    hide WindowsFrom;
    assert HalvingFrom(fails, s, 1, limit - 2) == Search(t, limit - 6, false);
  }

  /** The single-operation pass has left index 0 behind when dropping `b` frees it. */
  lemma JaggedSingles<T(!new)>(a: T, b: T, d: T, fails: seq<T> -> bool, budget: nat)
    requires !fails([b, d]) && fails([a, d]) && !fails([a]) && budget >= 3
    ensures SinglesFrom(fails, [a, b, d], 0, budget) == Search([a, d], budget - 3, false)
  {
    var t := [a, b, d];
    assert RemoveAt(t, 0) == [b, d] && RemoveAt(t, 1) == [a, d] && RemoveAt([a, d], 1) == [a];
    hide RemoveAt;
    assert SinglesFrom(fails, [a, d], 1, budget - 2) == Search([a, d], budget - 3, false);
    assert SinglesFrom(fails, t, 1, budget - 1) == Search([a, d], budget - 3, false);
  }

  /** On such a failure the search stops, within budget, where one more operation could go. */
  lemma JaggedSearchStopsShort<T(!new)>(a: T, b: T, c: T, d: T, fails: seq<T> -> bool, limit: nat)
    requires JaggedVerdicts(a, b, c, d, fails) && limit >= 9
    ensures Minimize(fails, [a, b, c, d], limit) == Search([a, d], limit - 9, false)
    ensures !OneMinimal(fails, [a, d])
    ensures !NothingFreed(fails, [a, b, c, d]) && !Monotone(fails, [a, b, c, d])
  {
    JaggedWindows(a, b, c, d, fails, limit);
    JaggedSingles(a, b, d, fails, limit - 6);
    hide HalvingFrom, SinglesFrom, NothingFreed;
    assert RemoveAt([a, d], 0) == [d];
    MinimizeIsSound(fails, [a, b, c, d], limit);
  }
}

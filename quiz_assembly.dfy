/** Assembly of the tile list when a game starts (usePlay.getQuizList, once the quiz pool
    has arrived): the subject filter, the year/difficulty filter, the replication loop that
    doubles the list, the cut to the grid size and the shuffle. */
module QuizAssembly {
  import opened Interfaces

  /** The subject value ("random") that switches the subject filter off. */
  const RandomSubject: string := "랜덤"

  // ------------------------------------------------------------------ filtering

  /** Array.prototype.filter: the elements of `s` that satisfy `p`, in their order. */
  function Filter<T>(s: seq<T>, p: T -> bool): (r: seq<T>)
    ensures |r| <= |s|
  {
    if s == [] then [] else (if p(s[0]) then [s[0]] else []) + Filter(s[1..], p)
  }

  /** The filter keeps every occurrence of an element that satisfies `p` and no other. */
  lemma {:induction false} FilterCounts<T>(s: seq<T>, p: T -> bool)
    ensures forall x :: multiset(Filter(s, p))[x] == if p(x) then multiset(s)[x] else 0
    ensures forall x :: x in Filter(s, p) ==> x in s && p(x)
  {
    if s != [] {
      FilterCounts(s[1..], p);
      assert s == [s[0]] + s[1..];
    }
  }

  /** The filter distributes over concatenation: what it keeps stays in its original order. */
  lemma {:induction false} FilterConcat<T>(a: seq<T>, b: seq<T>, p: T -> bool)
    ensures Filter(a + b, p) == Filter(a, p) + Filter(b, p)
  {
    if a == [] {
      assert a + b == b;
    } else {
      assert (a + b)[0] == a[0];
      assert (a + b)[1..] == a[1..] + b;
      FilterConcat(a[1..], b, p);
      assert Filter(a + b, p) == (if p(a[0]) then [a[0]] else []) + Filter(a[1..] + b, p);
    }
  }

  /** The subject filter: the whole pool for the "random" subject, otherwise exactly the
      quizzes whose subject is the game's subject. */
  function SubjectFilter(pool: seq<Quiz>, subject: string): (r: seq<Quiz>)
    ensures subject == RandomSubject ==> r == pool
    ensures subject != RandomSubject ==>
      forall q :: multiset(r)[q] == if q.subject == subject then multiset(pool)[q] else 0
    ensures forall q :: q in r ==> q in pool && (subject == RandomSubject || q.subject == subject)
  {
    if subject == RandomSubject then pool
    else
      var keep := (q: Quiz) => q.subject == subject;
      FilterCounts(pool, keep);
      Filter(pool, keep)
  }

  /** The inclusive year and difficulty window of the game. */
  predicate InRange(g: Game, q: Quiz) {
    g.yearStart <= q.year <= g.yearEnd && g.difficultyStart <= q.difficulty <= g.difficultyEnd
  }

  /** The range filter keeps exactly the quizzes inside the window. */
  function RangeFilter(pool: seq<Quiz>, g: Game): (r: seq<Quiz>)
    ensures forall q :: multiset(r)[q] == if InRange(g, q) then multiset(pool)[q] else 0
    ensures forall q :: q in r ==> q in pool && InRange(g, q)
  {
    var keep := (q: Quiz) => InRange(g, q);
    FilterCounts(pool, keep);
    Filter(pool, keep)
  }

  /** The pool after both filters. */
  function Filtered(pool: seq<Quiz>, g: Game): seq<Quiz> {
    RangeFilter(SubjectFilter(pool, g.subject), g)
  }

  /** Both filters keep the pool's order: filtering a pool made of two parts filters each
      part and keeps the first part's quizzes ahead of the second's. */
  lemma FilteredConcat(a: seq<Quiz>, b: seq<Quiz>, g: Game)
    ensures Filtered(a + b, g) == Filtered(a, g) + Filtered(b, g)
  {
    var keepSubject := (q: Quiz) => q.subject == g.subject;
    var keepRange := (q: Quiz) => InRange(g, q);
    var sa, sb := SubjectFilter(a, g.subject), SubjectFilter(b, g.subject);
    if g.subject != RandomSubject {
      FilterConcat(a, b, keepSubject);
    }
    assert SubjectFilter(a + b, g.subject) == sa + sb;
    FilterConcat(sa, sb, keepRange);
  }

  /** The number of tiles the grid asks for. */
  function QuizCount(g: Game): int {
    g.sizeX * g.sizeY
  }

  // ---------------------------------------------------------------- replication

  function Pow2(k: nat): (r: nat)
    ensures r >= 1
  {
    if k == 0 then 1 else 2 * Pow2(k - 1)
  }

  /** `s` written out `m` times in a row. */
  function Repeat<T>(s: seq<T>, m: nat): (r: seq<T>)
    ensures |r| == |s| * m
  {
    if m == 0 then [] else s + Repeat(s, m - 1)
  }

  lemma {:induction false} RepeatAdd<T>(s: seq<T>, a: nat, b: nat)
    ensures Repeat(s, a + b) == Repeat(s, a) + Repeat(s, b)
  {
    if a != 0 {
      RepeatAdd(s, a - 1, b);
      assert a + b - 1 == (a - 1) + b;
    }
  }

  /** Position `i` of the repeated list holds element `i mod |s|` of `s`. */
  lemma {:induction false} RepeatAt<T>(s: seq<T>, m: nat, i: nat)
    requires i < |s| * m
    ensures |s| > 0 && Repeat(s, m)[i] == s[i % |s|]
  {
    assert m != 0;
    if i >= |s| {
      RepeatAt(s, m - 1, i - |s|);
      ModUnique(i, |s|, (i - |s|) / |s| + 1, (i - |s|) % |s|);
    } else {
      ModUnique(i, |s|, 0, i);
    }
  }

  lemma ModUnique(a: int, n: int, q: int, r: int)
    requires n > 0 && 0 <= r < n && a == q * n + r
    ensures a % n == r
  {
    var q', r' := a / n, a % n;
    assert (q - q') * n == r' - r;
    if q < q' {
      MulMonotone(q - q', -1, n);
    } else if q > q' {
      MulMonotone(1, q - q', n);
    }
  }

  /** Math.ceil(a / b) for integers and a positive divisor. */
  function CeilDiv(a: int, b: int): (r: int)
    requires b > 0
    ensures (r - 1) * b < a <= r * b
  {
    (a + b - 1) / b
  }

  /** The condition `i < Math.ceil((quizCount - len) / len)` of the replication loop, which
      is evaluated afresh on every pass. When `len` is 0 the quotient is +Infinity for a
      positive numerator (so the condition holds for every `i`), and NaN or -Infinity
      otherwise (so it fails). */
  predicate GuardHolds(i: nat, quizCount: int, len: nat) {
    if len == 0 then quizCount > 0 else i < CeilDiv(quizCount - len, len)
  }

  /** With a non-empty list the guard says that one more copy of the list, i + 1 of them in
      all, still falls short of the count: pass `i` doubles the list exactly when
      (i + 1) * len < quizCount. */
  lemma GuardIff(i: nat, quizCount: int, len: nat)
    requires len > 0
    ensures GuardHolds(i, quizCount, len) <==> (i + 1) * len < quizCount
  {
    var r := CeilDiv(quizCount - len, len);
    if i < r {
      MulMonotone(i + 1, r, len);
    } else {
      MulMonotone(r + 1, i + 1, len);
    }
  }

  lemma MulMonotone(a: int, b: int, c: nat)
    requires a <= b
    ensures a * c <= b * c
  {
    assert b * c - a * c == (b - a) * c;
  }

  /** `k` is the number of passes the replication loop makes for a filtered pool of `n`
      quizzes and a grid of `quizCount` tiles: the first `k` at which (k + 1) copies of the
      list of n * 2^k quizzes reach the count. */
  ghost predicate IsStopCount(n: nat, quizCount: int, k: nat) {
    && (k + 1) * (n * Pow2(k)) >= quizCount
    && forall j: nat :: j < k ==> (j + 1) * (n * Pow2(j)) < quizCount
  }

  /** The loop of usePlay.ts:73-81 as written: each pass replaces the list by the list
      followed by itself. It ends when the pool is not empty or no tile is asked for; with
      an empty pool and a positive count it never ends (see EmptyPoolNeverExits). */
  method Replicate(filtered: seq<Quiz>, quizCount: int) returns (list: seq<Quiz>, passes: nat)
    requires |filtered| > 0 || quizCount <= 0
    ensures list == Repeat(filtered, Pow2(passes))
    ensures IsStopCount(|filtered|, quizCount, passes)
  {
    list := filtered;
    passes := 0;
    assert Repeat(filtered, Pow2(0)) == filtered + [];
    if |list| < quizCount {
      var i: nat := 0;
      while GuardHolds(i, quizCount, |list|)
        invariant |list| > 0
        invariant list == Repeat(filtered, Pow2(i))
        invariant forall j: nat :: j < i ==> (j + 1) * (|filtered| * Pow2(j)) < quizCount
        decreases quizCount - |list|
      {
        GuardIff(i, quizCount, |list|);
        RepeatAdd(filtered, Pow2(i), Pow2(i));
        list := list + list;
        i := i + 1;
      }
      GuardIff(i, quizCount, |list|);
      passes := i;
    }
  }

  /** An empty filtered pool and a positive count: after any number of passes the list is
      still empty and the loop condition still holds, so the loop never exits. */
  lemma EmptyPoolNeverExits(quizCount: int, passes: nat)
    requires quizCount > 0
    ensures Repeat<Quiz>([], Pow2(passes)) == []
    ensures GuardHolds(passes, quizCount, |Repeat<Quiz>([], Pow2(passes))|)
  {
  }

  /** The stop count is unique, so the loop's result is determined by n and quizCount. */
  lemma StopCountUnique(n: nat, quizCount: int, k1: nat, k2: nat)
    requires IsStopCount(n, quizCount, k1) && IsStopCount(n, quizCount, k2)
    ensures k1 == k2
  {
  }

  // ---------------------------------------------------------------- slicing

  /** Array.prototype.slice(0, end): a negative end counts from the back of the list. */
  function SliceTo<T>(s: seq<T>, end: int): (r: seq<T>)
    ensures r <= s
    ensures end >= 0 ==> |r| == Min(end, |s|)
    ensures end < 0 ==> |r| == Max(|s| + end, 0)
  {
    if end >= |s| then s
    else if end >= 0 then s[..end]
    else if |s| + end > 0 then s[..|s| + end]
    else []
  }

  /** The list after the loop and the slice, before the shuffle. */
  ghost function Unshuffled(filtered: seq<Quiz>, quizCount: int, passes: nat): seq<Quiz> {
    SliceTo(Repeat(filtered, Pow2(passes)), quizCount)
  }

  /** How many tiles come out: never more than the grid asks for; exactly that many when
      the list reached the count, in particular when the pool alone covers the grid or
      covers at least half of it; and never fewer than twice the pool. */
  lemma TileCount(filtered: seq<Quiz>, quizCount: int, passes: nat)
    requires |filtered| > 0 && quizCount >= 0
    requires IsStopCount(|filtered|, quizCount, passes)
    ensures |Unshuffled(filtered, quizCount, passes)| <= quizCount
    ensures |Unshuffled(filtered, quizCount, passes)| == quizCount <==> |filtered| * Pow2(passes) >= quizCount
    ensures |Unshuffled(filtered, quizCount, passes)| >= Min(quizCount, 2 * |filtered|)
    ensures |filtered| >= quizCount || quizCount <= 2 * |filtered| ==>
      |Unshuffled(filtered, quizCount, passes)| == quizCount
  {
    var n := |filtered|;
    if n < quizCount {
      MulMonotone(2, Pow2(passes), n);
    }
  }

  /** Which quizzes come out: tile i is quiz i mod n of the filtered pool; with a grid no
      larger than the pool the tiles are the first quizCount filtered quizzes; with a grid
      at least as large as the pool every filtered quiz appears. */
  lemma TileContents(filtered: seq<Quiz>, quizCount: int, passes: nat)
    requires |filtered| > 0
    requires IsStopCount(|filtered|, quizCount, passes)
    ensures var out := Unshuffled(filtered, quizCount, passes);
      forall i :: 0 <= i < |out| ==> out[i] == filtered[i % |filtered|]
    ensures forall q :: q in Unshuffled(filtered, quizCount, passes) ==> q in filtered
    ensures 0 <= quizCount <= |filtered| ==> Unshuffled(filtered, quizCount, passes) == filtered[..quizCount]
    ensures quizCount >= |filtered| ==> forall q :: q in filtered ==> q in Unshuffled(filtered, quizCount, passes)
  {
    var n := |filtered|;
    var out := Unshuffled(filtered, quizCount, passes);
    var all := Repeat(filtered, Pow2(passes));
    forall i | 0 <= i < |out|
      ensures out[i] == filtered[i % n]
    {
      RepeatAt(filtered, Pow2(passes), i);
    }
    if quizCount <= n && passes != 0 {
      assert (0 + 1) * (n * Pow2(0)) < quizCount;
    }
    if quizCount >= n {
      MulMonotone(1, Pow2(passes), n);
      forall q | q in filtered
        ensures q in out
      {
        var i :| 0 <= i < n && filtered[i] == q;
        assert out[i] == q;
      }
    }
  }

  /** One pool quiz on a 2 x 2 grid: the loop doubles once and stops, and only two tiles
      come out instead of four. */
  lemma ShortfallExample(q: Quiz)
    ensures IsStopCount(1, 4, 1)
    ensures forall k :: IsStopCount(1, 4, k) ==> k == 1
    ensures Unshuffled([q], 4, 1) == [q, q]
  {
    assert Pow2(1) == 2;
    forall k | IsStopCount(1, 4, k)
      ensures k == 1
    {
      StopCountUnique(1, 4, k, 1);
    }
    assert Repeat([q], 2) == [q] + ([q] + []);
  }

  // ---------------------------------------------------------------- shuffle

  /** A Fisher-Yates pass as lodash's shuffle makes it: position `index` swaps with a
      position drawn from [index, |s| - 1]. The random draws are the parameter `pick`;
      whatever it returns, the result is a permutation of the input. */
  method Shuffle<T>(s: seq<T>, pick: nat -> nat) returns (r: seq<T>)
    ensures multiset(r) == multiset(s)
  {
    r := s;
    var index := 0;
    while index < |r|
      invariant index <= |r|
      invariant multiset(r) == multiset(s)
    {
      var rand := index + pick(index) % (|r| - index);
      r := r[index := r[rand]][rand := r[index]];
      index := index + 1;
    }
  }

  // ---------------------------------------------------------------- assembly

  /** The pool produces a tile list in finite time. */
  predicate Terminates(pool: seq<Quiz>, g: Game) {
    |Filtered(pool, g)| > 0 || QuizCount(g) <= 0
  }

  /** The assembly of usePlay.ts:52-83. The result is a permutation of the replicated and
      cut list, and every tile passes both filters. */
  method AssembleQuizList(pool: seq<Quiz>, g: Game, pick: nat -> nat)
    returns (tiles: seq<Quiz>, passes: nat)
    requires Terminates(pool, g)
    ensures IsStopCount(|Filtered(pool, g)|, QuizCount(g), passes)
    ensures multiset(tiles) == multiset(Unshuffled(Filtered(pool, g), QuizCount(g), passes))
    ensures forall t :: t in tiles ==>
      && t in pool
      && InRange(g, t)
      && (g.subject == RandomSubject || t.subject == g.subject)
  {
    var quizList := SubjectFilter(pool, g.subject);
    quizList := RangeFilter(quizList, g);
    var quizCount := QuizCount(g);
    var replicated;
    replicated, passes := Replicate(quizList, quizCount);
    var cut := SliceTo(replicated, quizCount);
    tiles := Shuffle(cut, pick);
    forall t | t in tiles
      ensures t in quizList
    {
      assert t in multiset(cut);
      if |quizList| > 0 {
        TileContents(quizList, quizCount, passes);
      } else {
        assert false;
      }
    }
  }

  // ---------------------------------------------------------------- corrected

  datatype AssemblyError = NoMatchingQuizzes

  datatype Result<T> = Ok(value: T) | Err(error: AssemblyError)

  /** The replication as evidently intended: whole copies of the filtered pool are appended
      until the grid is covered and the list is cut to exactly the grid size; an empty pool
      with tiles to fill is an error instead of a loop that never ends. */
  method FillToCount(filtered: seq<Quiz>, quizCount: int) returns (r: Result<seq<Quiz>>)
    ensures r.Err? <==> |filtered| == 0 && quizCount > 0
    ensures r.Ok? ==> |r.value| == Max(quizCount, 0)
    ensures r.Ok? ==> forall i :: 0 <= i < |r.value| ==> r.value[i] == filtered[i % |filtered|]
  {
    if quizCount <= 0 {
      return Ok([]);
    }
    if |filtered| == 0 {
      return Err(NoMatchingQuizzes);
    }
    var list := filtered;
    ghost var copies: nat := 1;
    assert Repeat(filtered, 1) == filtered + [];
    while |list| < quizCount
      invariant list == Repeat(filtered, copies)
      decreases quizCount - |list|
    {
      RepeatAdd(filtered, copies, 1);
      assert Repeat(filtered, 1) == filtered + [];
      list := list + filtered;
      copies := copies + 1;
    }
    forall i | 0 <= i < quizCount
      ensures list[i] == filtered[i % |filtered|]
    {
      RepeatAt(filtered, copies, i);
    }
    r := Ok(list[..quizCount]);
  }
}

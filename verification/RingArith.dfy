/** Arithmetic of wrapped indices: how an unbounded count relates to its slot and to the number of
    times the ring has wrapped. Slot and Lap are the remainder and the quotient, defined by
    counting up so that proofs about rings need no division. */
module RingArith {

  /** The successor of slot i in a ring of c slots. */
  function Next(i: nat, c: nat): (r: nat)
    requires i < c
    ensures r < c
  {
    if i + 1 == c then 0 else i + 1
  }

  lemma {:induction false} NextIsMod(i: nat, c: nat)
    requires i < c
    ensures Next(i, c) == (i + 1) % c
  {
    if i + 1 < c {
      DivModUnique(i + 1, c, 0, i + 1);
    } else {
      DivModUnique(c, c, 1, 0);
    }
  }

  /** The slot a count falls on. */
  function Slot(n: nat, c: nat): (s: nat)
    requires c > 0
    ensures s < c
    decreases n
  {
    if n == 0 then 0 else Next(Slot(n - 1, c), c)
  }

  /** How many times a count has gone round. */
  function Lap(n: nat, c: nat): nat
    requires c > 0
    decreases n
  {
    if n == 0 then 0 else Lap(n - 1, c) + (if Slot(n, c) == 0 then 1 else 0)
  }

  /** How many steps lead from slot head to slot tail. */
  function Dist(head: nat, tail: nat, c: nat): (d: nat)
    requires head < c && tail < c
    ensures d < c
    ensures d == 0 <==> head == tail
  {
    if tail >= head then tail - head else c - head + tail
  }

  predicate Even(n: nat) { n % 2 == 0 }

  lemma {:induction false} EvenSum(a: nat, b: nat)
    ensures Even(a + b) <==> (Even(a) <==> Even(b))
  {
  }

  lemma {:induction false} MulGrows(d: int, c: int)
    requires c >= 0
    ensures d >= 1 ==> d * c >= c
    ensures d <= 0 ==> d * c <= 0
    ensures d <= -1 ==> d * c <= -c
  {
  }

  /** Quotient and remainder are determined by the division equation. */
  lemma {:induction false} DivModUnique(x: nat, c: nat, q: nat, r: nat)
    requires c > 0 && r < c && x == q * c + r
    ensures x / c == q && x % c == r
  {
    var d := q - x / c;
    assert d * c == x % c - r by {
      assert x == c * (x / c) + x % c;
      assert d * c == q * c - (x / c) * c;
    }
    MulGrows(d, c);
  }

  /** A count is its laps and its slot. */
  lemma {:induction false} SlotLap(n: nat, c: nat)
    requires c > 0
    ensures n == Lap(n, c) * c + Slot(n, c)
    decreases n
  {
    if n > 0 {
      SlotLap(n - 1, c);
      if Slot(n, c) == 0 {
        assert (Lap(n - 1, c) + 1) * c == Lap(n - 1, c) * c + c;
      }
    }
  }

  lemma {:induction false} SlotIsMod(n: nat, c: nat)
    requires c > 0
    ensures Slot(n, c) == n % c && Lap(n, c) == n / c
  {
    SlotLap(n, c);
    DivModUnique(n, c, Lap(n, c), Slot(n, c));
  }

  /** At most one lap on, slot and lap are found by addition. */
  lemma {:induction false} SlotPlus(a: nat, k: nat, c: nat)
    requires k <= c && c > 0
    ensures Slot(a + k, c) == (if Slot(a, c) + k < c then Slot(a, c) + k else Slot(a, c) + k - c)
    ensures Lap(a + k, c) == (if Slot(a, c) + k < c then Lap(a, c) else Lap(a, c) + 1)
    decreases k
  {
    if k > 0 {
      SlotPlus(a, k - 1, c);
    }
  }

  /** Counts less than c apart occupy different slots. */
  lemma {:induction false} SlotsDiffer(a: nat, b: nat, c: nat)
    requires c > 0 && a < b < a + c
    ensures Slot(a, c) != Slot(b, c)
  {
    SlotPlus(a, b - a, c);
  }

  lemma {:induction false} SmallCount(a: nat, c: nat)
    requires a < c
    ensures Slot(a, c) == a && Lap(a, c) == 0
  {
    SlotPlus(0, a, c);
  }

  /** Counts exactly c apart share a slot and differ by one lap. */
  lemma {:induction false} OneLap(a: nat, c: nat)
    requires c > 0
    ensures Slot(a + c, c) == Slot(a, c) && Lap(a + c, c) == Lap(a, c) + 1
  {
    SlotPlus(a, c, c);
  }

  lemma {:induction false} OneMoreTimes(m: nat, c: nat)
    ensures (m + 1) * c == m * c + c
  {
  }

  /** Whole laps on, the slot is the same. */
  lemma {:induction false} LapsOn(a: nat, m: nat, c: nat)
    requires c > 0
    ensures Slot(a + m * c, c) == Slot(a, c) && Lap(a + m * c, c) == Lap(a, c) + m
    decreases m
  {
    if m > 0 {
      LapsOn(a, m - 1, c);
      OneMoreTimes(m - 1, c);
      OneLap(a + (m - 1) * c, c);
    } else {
      assert a + m * c == a;
    }
  }

  /** The same, with the phase that alternates, for a count j that is m laps past k. */
  lemma {:induction false} LapsPast(a: nat, k: nat, m: nat, c: nat, j: nat)
    requires c > 0 && j == k + m * c
    ensures Slot(a + j, c) == Slot(a + k, c)
    ensures Even(Lap(a + j, c)) <==> (Even(Lap(a + k, c)) <==> Even(m))
  {
    LapsOn(a + k, m, c);
    EvenSum(Lap(a + k, c), m);
  }

  /** The distance between two slots is the difference of the counts, if that is below c. */
  lemma {:induction false} DistIsDifference(a: nat, b: nat, c: nat)
    requires c > 0 && a <= b < a + c
    ensures Dist(Slot(a, c), Slot(b, c), c) == b - a
  {
    SlotPlus(a, b - a, c);
  }

  /** Dist steps lead from head to tail, and the first of them shortens the way by one. */
  lemma {:induction false} DistReaches(head: nat, tail: nat, c: nat)
    requires head < c && tail < c
    ensures Slot(head + Dist(head, tail, c), c) == tail
    ensures head != tail ==> Dist(Next(head, c), tail, c) == Dist(head, tail, c) - 1
  {
    SmallCount(head, c);
    SlotPlus(head, Dist(head, tail, c), c);
  }

  /** Stepping on from the slot of a count is stepping on from the count; the laps add up. */
  lemma {:induction false} SlotSum(a: nat, k: nat, c: nat)
    requires k <= c && c > 0
    ensures Slot(Slot(a, c) + k, c) == Slot(a + k, c)
    ensures Lap(a + k, c) == Lap(a, c) + Lap(Slot(a, c) + k, c)
  {
    SmallCount(Slot(a, c), c);
    SlotPlus(a, k, c);
    SlotPlus(Slot(a, c), k, c);
  }

  /** Where k turns of a loop that steps round the ring lead. */
  function StepsOn(i: nat, k: nat, c: nat): (r: nat)
    requires i < c
    ensures r < c
  {
    if k == 0 then i else Next(StepsOn(i, k - 1, c), c)
  }

  lemma {:induction false} StepsOnIsSlot(i: nat, k: nat, c: nat)
    requires i < c
    ensures StepsOn(i, k, c) == Slot(i + k, c)
    decreases k
  {
    if k == 0 {
      SmallCount(i, c);
    } else {
      StepsOnIsSlot(i, k - 1, c);
    }
  }

  /** A loop that steps round the ring until it meets an index ends if and only if the index is below the
      capacity. */
  lemma {:induction false} LoopEndsExactly(i: nat, index: nat, c: nat)
    requires i < c
    ensures (exists k: nat :: StepsOn(i, k, c) == index) <==> index < c
  {
    if index < c {
      DistReaches(i, index, c);
      StepsOnIsSlot(i, Dist(i, index, c), c);
    }
  }
}

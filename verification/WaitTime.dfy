/** Wait times from the verifiable random output (plugins/no-leader/block_producer.c),
    and the choice of block that they lead to. */
module WaitTime {
  import opened Common
  import opened ConsensusModel
  import opened ConsensusChoice

  const ALL: Word := 0xFFFF_FFFF

  /** The bounds of the wait for a block interval and a count of authorized nodes. */
  function Lower(interval: nat): nat { interval / 10 }

  function Upper(interval: nat, count: nat): nat { interval / 2 * count }

  /** calculate_wait_interval in exact arithmetic: n / 0xFFFFFFFF * (upper - lower) +
      lower, truncated. `n` is read from the random output. The upper bound must not
      overflow an int. */
  function Interval(n: Word, count: nat, interval: nat): (w: nat)
    requires count > 0 && interval > 0 && Upper(interval, count) <= 0x7FFF_FFFF
    ensures Lower(interval) <= w <= Upper(interval, count)
    ensures interval >= 10 ==> w > 0
  {
    LowerBelowUpper(interval, count);
    Lower(interval) + Part(n, Upper(interval, count) - Lower(interval))
  }

  function Part(n: Word, span: nat): (p: nat)
    ensures p <= span
  {
    Scaled(n, ALL, span);
    n * span / 0xFFFF_FFFF
  }

  lemma Scaled(n: nat, m: nat, span: nat)
    requires n <= m
    ensures 0 <= n * span <= m * span
  {
  }

  lemma LowerBelowUpper(interval: nat, count: nat)
    requires count > 0
    ensures Lower(interval) <= interval / 2 <= Upper(interval, count)
  {
  }

  /** The wait in numbers: the `n`-th of 0xFFFFFFFF parts of the way from a tenth of the
      interval to half of it per voter, rounded down. */
  lemma IntervalIs(n: Word, count: nat, interval: nat)
    requires count > 0 && interval > 0 && interval / 2 * count <= 0x7FFF_FFFF
    ensures var w, low, high := Interval(n, count, interval), interval / 10, interval / 2 * count;
            (w - low) * 0xFFFF_FFFF <= n * (high - low) < (w - low + 1) * 0xFFFF_FFFF
  {
    LowerBelowUpper(interval, count);
    Scaled(n, ALL, Upper(interval, count) - Lower(interval));
  }

  /** A smaller output never waits longer. */
  lemma Monotone(n: Word, m: Word, count: nat, interval: nat)
    requires n <= m && count > 0 && interval > 0 && Upper(interval, count) <= 0x7FFF_FFFF
    ensures Interval(n, count, interval) <= Interval(m, count, interval)
  {
    LowerBelowUpper(interval, count);
    Scaled(n, m, Upper(interval, count) - Lower(interval));
  }

  /** Nodes that count differently many voters never strictly disagree on the order of
      two outputs. */
  lemma NeverInverted(n: Word, m: Word, count1: nat, count2: nat, interval: nat)
    requires count1 > 0 && count2 > 0 && interval > 0
    requires Upper(interval, count1) <= 0x7FFF_FFFF && Upper(interval, count2) <= 0x7FFF_FFFF
    requires Interval(n, count1, interval) < Interval(m, count1, interval)
    ensures Interval(n, count2, interval) <= Interval(m, count2, interval)
  {
    if m <= n {
      Monotone(m, n, count1, interval);
    } else {
      Monotone(n, m, count2, interval);
    }
  }

  // ---- the same choice ----

  /** The wait times of the candidates at height `h` were set from their outputs. */
  predicate Timed(bs: seq<Block>, h: nat, output: Key -> Word, count: nat, interval: nat)
    requires count > 0 && interval > 0 && Upper(interval, count) <= 0x7FFF_FFFF
  {
    forall b :: b in bs && b.height == h ==> b.waitTime == Interval(output(b.Ref()), count, interval)
  }

  predicate NoTies(bs: seq<Block>, h: nat) {
    forall b, c :: b in bs && c in bs && b.height == h && c.height == h && b.waitTime == c.waitTime
                   ==> b.Ref() == c.Ref()
  }

  /** The candidates for height `h`. */
  function Candidates(bs: seq<Block>, h: nat): set<Key> {
    set b | b in bs && b.height == h :: b.Ref()
  }

  predicate IsLeast(bs: seq<Block>, h: nat, x: Block) {
    x in bs && x.height == h && forall b :: b in bs && b.height == h ==> x.waitTime <= b.waitTime
  }

  lemma LeastIsStrict(bs: seq<Block>, h: nat, x: Block, k: Key, output: Key -> Word, count: nat, interval: nat)
    requires count > 0 && interval > 0 && Upper(interval, count) <= 0x7FFF_FFFF
    requires Timed(bs, h, output, count, interval) && NoTies(bs, h) && IsLeast(bs, h, x)
    requires k != x.Ref() && k in Candidates(bs, h)
    ensures Interval(output(x.Ref()), count, interval) < Interval(output(k), count, interval)
  {
  }

  lemma HasBest(bs: seq<Block>, h: nat)
    ensures Best(bs, h).None? <==> Candidates(bs, h) == {}
    ensures Best(bs, h).Some? ==> IsLeast(bs, h, Best(bs, h).value) && Best(bs, h).value.Ref() in Candidates(bs, h)
  {
    BestIsLeast(bs, h);
    if Best(bs, h).Some? {
      assert Best(bs, h).value.Ref() in Candidates(bs, h);
    } else {
      assert forall b :: b in bs ==> b.height != h;
    }
  }

  /** Two nodes with the same candidates and no ties choose the same block, whatever
      the order of their lists and however many voters each of them counts. */
  lemma SameChoice(bs: seq<Block>, cs: seq<Block>, h: nat, output: Key -> Word, count1: nat, count2: nat, interval: nat)
    requires count1 > 0 && count2 > 0 && interval > 0
    requires Upper(interval, count1) <= 0x7FFF_FFFF && Upper(interval, count2) <= 0x7FFF_FFFF
    requires Timed(bs, h, output, count1, interval) && Timed(cs, h, output, count2, interval)
    requires NoTies(bs, h) && NoTies(cs, h) && Candidates(bs, h) == Candidates(cs, h)
    ensures Best(bs, h).None? <==> Best(cs, h).None?
    ensures Best(bs, h).Some? ==> Best(cs, h).value.Ref() == Best(bs, h).value.Ref()
  {
    HasBest(bs, h);
    HasBest(cs, h);
    if Best(bs, h).Some? && Best(cs, h).Some? {
      var x, y := Best(bs, h).value, Best(cs, h).value;
      if x.Ref() != y.Ref() {
        LeastIsStrict(bs, h, x, y.Ref(), output, count1, interval);
        LeastIsStrict(cs, h, y, x.Ref(), output, count2, interval);
        NeverInverted(output(x.Ref()), output(y.Ref()), count1, count2, interval);
      }
    }
  }
}

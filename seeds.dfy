/** The seeded pseudo-random source: the mulberry32 generator and the
    per-octave seed tables that `initializeNoiseSeeds` fills from it. */
module SeedRng {
  import opened Basics

  /** Number of noise octaves (`reps`). */
  const REPS: nat := 7

  /** The constant the generator adds to its state on every draw. */
  const INCREMENT: bv32 := 0x6D2B79F5

  const TWO_POW_32: int := 0x1_0000_0000

  /** Seed table entries are draws mapped onto [-SEED_SPAN, SEED_SPAN). */
  const SEED_SPAN: real := 65536.0

  /** The 32-bit pattern an integer seed presents to `Math.imul`, `^`, `|`
      and `>>>`: its residue modulo 2^32. */
  function InitialState(seedValue: int): bv32
  {
    (seedValue % TWO_POW_32) as bv32
  }

  /** The output scramble applied to the freshly advanced state `t`
      (the three mixing steps of one mulberry32 draw). `Math.imul` is
      multiplication modulo 2^32, `>>>` the logical right shift, and the
      sum inside the second step is taken modulo 2^32 by the `^` around it. */
  function Mix(t: bv32): bv32
  {
    var t1 := (t ^ (t >> 15)) * (t | 1);
    var t2 := t1 ^ (t1 + (t1 ^ (t1 >> 7)) * (t1 | 61));
    t2 ^ (t2 >> 14)
  }

  /** The value a draw returns when the advanced state is `t`: an unsigned
      32-bit value divided by 2^32, hence a number in [0, 1). */
  function Output(t: bv32): (r: real)
    ensures 0.0 <= r < 1.0
    ensures r * (TWO_POW_32 as real) == (Mix(t) as int) as real
  {
    (Mix(t) as int) as real / (TWO_POW_32 as real)
  }

  /** The state after one draw: `a += 0x6D2B79F5`, seen modulo 2^32. */
  function Advance(s: bv32): bv32
  {
    s + INCREMENT
  }

  /** The state after `k` draws from initial state `s0`. */
  function StateAfter(s0: bv32, k: nat): bv32
  {
    if k == 0 then s0 else Advance(StateAfter(s0, k - 1))
  }

  /** Maps a draw in [0, 1) onto [-65536, 65536): `(2 * x - 1) * 65536`. */
  function Scale(x: real): (v: real)
    requires 0.0 <= x < 1.0
    ensures -SEED_SPAN <= v < SEED_SPAN
    ensures x == (v / SEED_SPAN + 1.0) / 2.0
  {
    (2.0 * x - 1.0) * SEED_SPAN
  }

  /** The scaled value of draw number `k` (counting from 0) of a generator
      whose initial state is `s0`. */
  function SeedEntry(s0: bv32, k: nat): (v: real)
    ensures -SEED_SPAN <= v < SEED_SPAN
  {
    Scale(Output(StateAfter(s0, k + 1)))
  }

  /** A generator as returned by `mulberry32(seedValue)`: the closure's
      captured variable `a`, kept as its residue modulo 2^32. */
  class Mulberry32 {
    var state: bv32

    constructor (seedValue: int)
      ensures state == InitialState(seedValue)
    {
      state := InitialState(seedValue);
    }

    /** One call of the returned closure. */
    method Next() returns (r: real)
      modifies this
      ensures state == Advance(old(state))
      ensures r == Output(state)
      ensures 0.0 <= r < 1.0
    {
      state := Advance(state);
      r := Output(state);
    }
  }

  /** `t` is `before` with its first `n` slots set to the draws
      `offset`, `offset + 3`, `offset + 6`, ... of a generator started at `s0`. */
  ghost predicate TableFilled(t: seq<real>, before: seq<real>, s0: bv32, offset: nat, n: nat)
  {
    && |t| == Max(|before|, n)
    && (forall a :: 0 <= a < n ==> t[a] == SeedEntry(s0, 3 * a + offset))
    && (forall a :: n <= a < |t| ==> t[a] == before[a])
  }

  /** Writing the next draw into slot `n` extends a filled prefix by one. */
  lemma PutExtendsTable(t: seq<real>, before: seq<real>, s0: bv32, offset: nat, n: nat, v: real)
    requires TableFilled(t, before, s0, offset, n)
    requires v == SeedEntry(s0, 3 * n + offset)
    ensures n <= |t| && TableFilled(Put(t, n, v), before, s0, offset, n + 1)
  {
  }

  /** `t[a] = (rng() * 2 - 1) * 65536`: the next draw, the one numbered
      `3 * a + offset`, written into slot `a`. */
  method DrawInto(rng: Mulberry32, t: seq<real>, ghost before: seq<real>, ghost s0: bv32, offset: nat, a: nat)
    returns (t': seq<real>)
    requires rng.state == StateAfter(s0, 3 * a + offset)
    requires TableFilled(t, before, s0, offset, a)
    modifies rng
    ensures rng.state == StateAfter(s0, 3 * a + offset + 1)
    ensures TableFilled(t', before, s0, offset, a + 1)
  {
    var x := rng.Next();
    PutExtendsTable(t, before, s0, offset, a, Scale(x));
    t' := Put(t, a, Scale(x));
  }

  /** The same seed always yields the same table, whatever the table held
      before, as long as the fill covers all of it: the start-up fill from
      `[]` and every later re-fill of the `REPS`-slot table agree. */
  lemma {:induction false} TablesDetermined(t1: seq<real>, t2: seq<real>, before1: seq<real>, before2: seq<real>,
                                            s0: bv32, offset: nat, n: nat)
    requires |before1| <= n && |before2| <= n
    requires TableFilled(t1, before1, s0, offset, n) && TableFilled(t2, before2, s0, offset, n)
    ensures t1 == t2
  {
  }

  /** The global tables `seed`, `capSeed[0]` and `capSeed[1]`; capSeed[0]
      perturbs the northern cap boundary and capSeed[1] the southern one. */
  class NoiseSeeds {
    var seed: seq<real>
    var capSeedNorth: seq<real>
    var capSeedSouth: seq<real>

    /** The tables as declared: all empty. */
    constructor ()
      ensures seed == [] && capSeedNorth == [] && capSeedSouth == []
    {
      seed, capSeedNorth, capSeedSouth := [], [], [];
    }

    /** `initializeNoiseSeeds(seedValue)` without the foreign `noise.seed`
        call: draws 3 * REPS values in the order seed, north, south. */
    method InitializeNoiseSeeds(seedValue: int)
      modifies this
      ensures TableFilled(seed, old(seed), InitialState(seedValue), 0, REPS)
      ensures TableFilled(capSeedNorth, old(capSeedNorth), InitialState(seedValue), 1, REPS)
      ensures TableFilled(capSeedSouth, old(capSeedSouth), InitialState(seedValue), 2, REPS)
      ensures forall a :: 0 <= a < REPS ==>
                -SEED_SPAN <= seed[a] < SEED_SPAN &&
                -SEED_SPAN <= capSeedNorth[a] < SEED_SPAN &&
                -SEED_SPAN <= capSeedSouth[a] < SEED_SPAN
    {
      var rng := new Mulberry32(seedValue);
      ghost var s0 := rng.state;
      // The three tables are written in the loop and read by no one else
      // meanwhile, so the loop works on local copies.
      var table, north, south := seed, capSeedNorth, capSeedSouth;
      for a := 0 to REPS
        modifies rng
        invariant rng.state == StateAfter(s0, 3 * a)
        invariant TableFilled(table, seed, s0, 0, a)
        invariant TableFilled(north, capSeedNorth, s0, 1, a)
        invariant TableFilled(south, capSeedSouth, s0, 2, a)
      {
        table := DrawInto(rng, table, seed, s0, 0, a);
        north := DrawInto(rng, north, capSeedNorth, s0, 1, a);
        south := DrawInto(rng, south, capSeedSouth, s0, 2, a);
      }
      seed, capSeedNorth, capSeedSouth := table, north, south;
    }
  }
}

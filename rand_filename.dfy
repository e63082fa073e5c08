/** Random names for temporary files: a 32-bit linear congruential generator whose state is
    rendered as nine decimal digits, and a bounded search for a name that is free. The wall
    clock behind `reseed` is a parameter (`clock(k)` is what the k-th reading returns), and so
    is what `os.Stat` reports for each name. */
module RandFilename {
  import opened Records
  import Decimal

  type uint32 = x: int | 0 <= x < 0x1_0000_0000

  /** The generator's update, with Go's wrap-around of `uint32` arithmetic. */
  function Step(r: uint32): uint32
  {
    (r * 1664525 + 1013904223) % 0x1_0000_0000
  }

  /** `nextRandom`'s update of the state `r` after `k` clock readings: a zero state is first
      reseeded from the clock. Gives the new state and the new number of readings. */
  function Next(r: uint32, k: nat, clock: nat -> uint32): (uint32, nat)
  {
    if r == 0 then (Step(clock(k)), k + 1) else (Step(r), k)
  }

  /** `strconv.Itoa(int(1e9 + r%1e9))[1:]`; the sum stays below 2^32, so the `uint32` addition
      does not wrap. */
  function Digits9(r: uint32): string
  {
    Decimal.FormatNat(1000000000 + r % 1000000000)[1..]
  }

  /** The rendering is exactly nine decimal digits denoting `r mod 10^9`, leading zeros kept. */
  lemma Digits9Spec(r: uint32)
    ensures |Digits9(r)| == 9 && Decimal.AllDigits(Digits9(r))
    ensures Decimal.Value(Digits9(r)) == r % 1000000000
  {
    var n := 1000000000 + r % 1000000000;
    assert Decimal.Pow10(9) == 1000000000 && Decimal.Pow10(10) == 10000000000;
    Decimal.FormatNatLength(n, 10);
    var s := Decimal.FormatNat(n);
    var t := s[1..];
    assert s == [s[0]] + t;
    Decimal.ValueLeading(s[0], t);
    Decimal.ValueOfFormatNat(n);
    Decimal.ValueBound(t);
    assert Decimal.DigitValue(s[0]) == 1;
  }

  /** `filepath.Join(dir, file)` for a clean directory. */
  function PathJoin(dir: string, file: string): string
  {
    if dir == "" then file
    else if dir[|dir| - 1] == '/' then dir + file
    else dir + "/" + file
  }

  /** The candidate name drawn from the state `r`. */
  function Candidate(dir: string, prefix: string, suffix: string, r: uint32): string
  {
    PathJoin(dir, prefix + Digits9(r) + suffix)
  }

  /** Names of the candidate form: the directory joined with the prefix, nine digits and the
      suffix. */
  ghost predicate IsCandidate(dir: string, prefix: string, suffix: string, name: string)
  {
    exists d :: |d| == 9 && Decimal.AllDigits(d) && name == PathJoin(dir, prefix + d + suffix)
  }

  const ErrExist := Error("file already exists")
  const ErrNotExist := Error("file does not exist")
  const TooManyConflicts := Error("Random filename creation failed (too many conflicts)")

  /** `os.Stat`'s error as it depends on the file system: nil when the name exists, and "does not
      exist" otherwise. It never reports that a name already exists. */
  function StatOf(existing: set<string>): (stat: string -> Option<Error>)
    ensures forall name :: stat(name) != Some(ErrExist)
  {
    name => if name in existing then None else Some(ErrNotExist)
  }

  /** Whether the search stops at a name, given what `os.Stat` reported for it. As written it
      stops unless the report is "already exists" (`!os.IsExist(err)`); as evidently intended
      it stops only when the report is "does not exist". */
  predicate Accepts(intended: bool, err: Option<Error>)
  {
    if intended then err == Some(ErrNotExist) else err != Some(ErrExist)
  }

  /** The outcome of a search: the name or error returned, the number of candidates rejected,
      and the generator's state and clock readings at the end. */
  datatype Attempt = Attempt(result: Result<string>, conflicts: nat, rand: uint32, reseeds: nat)

  /** How many of `c` consecutive conflicts, after `n` earlier ones, bring the count above 10. */
  function Over10(n: nat, c: nat): nat
  {
    if n + c <= 10 then 0 else if n >= 10 then c else n + c - 10
  }

  /** `randomTempFilename` from try `i` with `nconflict` conflicts so far and state `(r, k)`, where
      `nameOf` names the candidate drawn from a state: draws a candidate, stops at it when
      `Accepts`, and otherwise counts a conflict, reseeds from the clock once there have been
      more than 10, and tries again, up to 10000 tries. A name it returns is accepted and is the
      name of the final state; it gives up only after 10000 - i conflicts; and it reads the
      clock once more for every conflict that brings the count above 10. */
  function Search(stat: string -> Option<Error>, intended: bool, nameOf: uint32 -> string,
                  clock: nat -> uint32, r: uint32, k: nat, i: nat, nconflict: nat): (a: Attempt)
    requires i <= 10000
    ensures a.conflicts <= 10000 - i
    ensures a.result.Ok? ==> a.result.value == nameOf(a.rand) && Accepts(intended, stat(a.result.value))
    ensures a.result.Err? ==> a.result.error == TooManyConflicts && a.conflicts == 10000 - i
    ensures a.reseeds >= k + Over10(nconflict, a.conflicts)
    decreases 10000 - i
  {
    if i == 10000 then Attempt(Err(TooManyConflicts), 0, r, k)
    else
      var (r1, k1) := Next(r, k, clock);
      var name := nameOf(r1);
      if Accepts(intended, stat(name)) then Attempt(Ok(name), 0, r1, k1)
      else
        var (r2, k2) := Reseeded(r1, k1, nconflict + 1, clock);
        var rest := Search(stat, intended, nameOf, clock, r2, k2, i + 1, nconflict + 1);
        assert Over10(nconflict, rest.conflicts + 1) <= (if nconflict + 1 > 10 then 1 else 0) + Over10(nconflict + 1, rest.conflicts);
        rest.(conflicts := rest.conflicts + 1)
  }

  /** The state after a conflict that brings the count to `nconflict`: reseeded from the clock
      once the count is above 10, unchanged before. */
  function Reseeded(r: uint32, k: nat, nconflict: nat, clock: nat -> uint32): (uint32, nat)
  {
    if nconflict > 10 then (clock(k), k + 1) else (r, k)
  }

  /** The search stops at the first candidate exactly when it is accepted; otherwise it goes on
      from the state after that conflict. */
  lemma SearchStopsAtFirstAccepted(stat: string -> Option<Error>, intended: bool, nameOf: uint32 -> string,
                                   clock: nat -> uint32, r: uint32, k: nat, i: nat, nconflict: nat)
    requires i < 10000
    ensures var (r1, k1) := Next(r, k, clock);
      var a := Search(stat, intended, nameOf, clock, r, k, i, nconflict);
      && (a.conflicts == 0 <==> Accepts(intended, stat(nameOf(r1))))
      && (a.conflicts > 0 ==>
            var (r2, k2) := Reseeded(r1, k1, nconflict + 1, clock);
            var rest := Search(stat, intended, nameOf, clock, r2, k2, i + 1, nconflict + 1);
            a.result == rest.result && a.conflicts == rest.conflicts + 1)
  {
  }

  /** The naming of `randomTempFilename`. */
  function NameOf(dir: string, prefix: string, suffix: string): uint32 -> string
  {
    (r: uint32) => Candidate(dir, prefix, suffix, r)
  }

  /** The name `randomTempFilename` returns has the candidate form. */
  lemma ReturnsCandidate(stat: string -> Option<Error>, intended: bool, dir: string, prefix: string, suffix: string,
                         clock: nat -> uint32, r: uint32, k: nat)
    ensures var a := Search(stat, intended, NameOf(dir, prefix, suffix), clock, r, k, 0, 0);
      a.result.Ok? ==> IsCandidate(dir, prefix, suffix, a.result.value)
  {
    var a := Search(stat, intended, NameOf(dir, prefix, suffix), clock, r, k, 0, 0);
    Digits9Spec(a.rand);
    assert a.result.Ok? ==> a.result.value == PathJoin(dir, prefix + Digits9(a.rand) + suffix);
  }

  /** The search with the stat of a real file system, as evidently intended, returns a name that
      does not exist; it gives up only when 10000 candidates in a row existed. */
  lemma IntendedReturnsFree(existing: set<string>, nameOf: uint32 -> string, clock: nat -> uint32, r: uint32, k: nat)
    ensures var a := Search(StatOf(existing), true, nameOf, clock, r, k, 0, 0);
      && (a.result.Ok? ==> a.result.value !in existing)
      && (a.result.Err? ==> a.conflicts == 10000)
  {
  }

  /** As written, with the stat of a real file system, the search always stops at the first
      candidate, whether or not that name exists. */
  lemma AsWrittenStopsAtFirst(existing: set<string>, nameOf: uint32 -> string, clock: nat -> uint32, r: uint32, k: nat)
    ensures var a := Search(StatOf(existing), false, nameOf, clock, r, k, 0, 0);
      a.result == Ok(nameOf(Next(r, k, clock).0)) && a.conflicts == 0
  {
  }

  /** A concrete case: in a file system where the first candidate already exists, the search as
      written returns that existing name, where the intended search moves on. */
  lemma AsWrittenReturnsExisting(nameOf: uint32 -> string, clock: nat -> uint32, r: uint32, k: nat)
    ensures var first := nameOf(Next(r, k, clock).0);
      && Search(StatOf({first}), false, nameOf, clock, r, k, 0, 0).result == Ok(first)
      && Search(StatOf({first}), true, nameOf, clock, r, k, 0, 0).result != Ok(first)
  {
    var first := nameOf(Next(r, k, clock).0);
    AsWrittenStopsAtFirst({first}, nameOf, clock, r, k);
    IntendedReturnsFree({first}, nameOf, clock, r, k);
  }

  /** The package's generator state (`rand`) and the number of times the clock has been read. */
  class TempNames {
    var rand: uint32
    var reseeds: nat

    /** The zero state Go starts the package variable in. */
    constructor ()
      ensures rand == 0 && reseeds == 0
    {
      rand := 0;
      reseeds := 0;
    }

    /** `reseed`, stored as the new state. */
    method Reseed(clock: nat -> uint32)
      modifies this
      ensures rand == clock(old(reseeds)) && reseeds == old(reseeds) + 1
    {
      rand := clock(reseeds);
      reseeds := reseeds + 1;
    }

    /** `nextRandom`: reseeds a zero state, advances the generator, stores the new state and
        renders it as nine digits. */
    method NextRandom(clock: nat -> uint32) returns (s: string)
      modifies this
      ensures (rand, reseeds) == Next(old(rand), old(reseeds), clock)
      ensures s == Digits9(rand) && |s| == 9 && Decimal.AllDigits(s) && Decimal.Value(s) == rand % 1000000000
    {
      var r: int := rand;
      if r == 0 {
        r := clock(reseeds);
        reseeds := reseeds + 1;
      }
      r := (r * 1664525 + 1013904223) % 0x1_0000_0000;
      rand := r;
      Digits9Spec(r);
      s := Decimal.FormatNat(1000000000 + r % 1000000000)[1..];
    }

    /** One candidate: the directory joined with the prefix, `nextRandom` and the suffix. */
    method Draw(dir: string, prefix: string, suffix: string, clock: nat -> uint32) returns (name: string)
      modifies this
      ensures (rand, reseeds) == Next(old(rand), old(reseeds), clock)
      ensures name == NameOf(dir, prefix, suffix)(rand)
    {
      var s := NextRandom(clock);
      name := PathJoin(dir, prefix + s + suffix);
    }

    /** The loop of `randomTempFilename`, stopping at a name as `Accepts(intended, _)` says. */
    method TryCandidates(dir: string, prefix: string, suffix: string, stat: string -> Option<Error>,
                         clock: nat -> uint32, intended: bool) returns (res: Result<string>)
      modifies this
      ensures var a := Search(stat, intended, NameOf(dir, prefix, suffix), clock, old(rand), old(reseeds), 0, 0);
        res == a.result && rand == a.rand && reseeds == a.reseeds
    {
      ghost var nameOf := NameOf(dir, prefix, suffix);
      ghost var goal := Search(stat, intended, nameOf, clock, rand, reseeds, 0, 0);
      var nconflict := 0;
      var i := 0;
      while i < 10000
        invariant i <= 10000 && nconflict == i
        invariant var a := Search(stat, intended, nameOf, clock, rand, reseeds, i, nconflict);
          a.result == goal.result && a.rand == goal.rand && a.reseeds == goal.reseeds
        decreases 10000 - i
      {
        ghost var cur := Search(stat, intended, nameOf, clock, rand, reseeds, i, nconflict);
        ghost var next := Next(rand, reseeds, clock);
        var name := Draw(dir, prefix, suffix, clock);
        ghost var r1, k1 := rand, reseeds;
        assert r1 == next.0 && k1 == next.1;
        var err := stat(name);
        if Accepts(intended, err) {
          assert cur.result == Ok(name) && cur.rand == rand && cur.reseeds == reseeds;
          return Ok(name);
        }
        nconflict := nconflict + 1;
        ghost var after := Reseeded(r1, k1, nconflict, clock);
        if nconflict > 10 {
          Reseed(clock);
        }
        assert rand == after.0 && reseeds == after.1;
        i := i + 1;
      }
      return Err(TooManyConflicts);
    }

    /** `randomTempFilename` as written: stops at the first candidate `os.Stat` does not report as
        already existing. */
    method RandomTempFilenameAsWritten(dir: string, prefix: string, suffix: string,
                                       stat: string -> Option<Error>, clock: nat -> uint32) returns (res: Result<string>)
      modifies this
      ensures var a := Search(stat, false, NameOf(dir, prefix, suffix), clock, old(rand), old(reseeds), 0, 0);
        res == a.result && rand == a.rand && reseeds == a.reseeds
    {
      res := TryCandidates(dir, prefix, suffix, stat, clock, false);
    }

    /** `randomTempFilename` as evidently intended: stops at the first candidate `os.Stat` reports
        as not existing. */
    method RandomTempFilename(dir: string, prefix: string, suffix: string,
                              stat: string -> Option<Error>, clock: nat -> uint32) returns (res: Result<string>)
      modifies this
      ensures var a := Search(stat, true, NameOf(dir, prefix, suffix), clock, old(rand), old(reseeds), 0, 0);
        res == a.result && rand == a.rand && reseeds == a.reseeds
    {
      res := TryCandidates(dir, prefix, suffix, stat, clock, true);
    }
  }
}

/** Modification times: `SystemTime` as signed nanoseconds since the epoch, and the (seconds,
    nanoseconds) pairs that manifests carry. */
module UnixTime {

  const BILLION := 1_000_000_000
  const U64 := 0x1_0000_0000_0000_0000
  const I64_MIN := -0x8000_0000_0000_0000
  const I64_MAX := 0x7fff_ffff_ffff_ffff
  const U32_MAX := 0xffff_ffff

  /** split_unix: seconds rounded down, nanoseconds never negative. */
  function Split(t: int): (int, int) {
    if t >= 0 then (t / BILLION, t % BILLION)
    else if (-t) % BILLION == 0 then (-((-t) / BILLION), 0)
    else (-((-t) / BILLION) - 1, BILLION - (-t) % BILLION)
  }

  /** join_unix: the magnitude goes through an unsigned 64-bit count of nanoseconds. */
  function Join(sec: int, nsec: int): int {
    var total := sec * BILLION + nsec;
    if total >= 0 then total % U64 else -((-total) % U64)
  }

  /** Where a pair survives the trip through a file system. */
  predicate InRange(sec: int, nsec: int) {
    0 <= nsec < BILLION && -U64 < sec * BILLION + nsec < U64
  }

  lemma SplitJoins(t: int)
    ensures Split(t).0 * BILLION + Split(t).1 == t && 0 <= Split(t).1 < BILLION
  {
  }

  /** Splitting a joined pair gives the pair back exactly when its nanoseconds are below one
      second and its total fits an unsigned 64-bit magnitude. */
  lemma RoundTrip(sec: int, nsec: int)
    requires I64_MIN <= sec <= I64_MAX && 0 <= nsec <= U32_MAX
    ensures Split(Join(sec, nsec)) == (sec, nsec) <==> InRange(sec, nsec)
  {
    var total := sec * BILLION + nsec;
    SplitJoins(Join(sec, nsec));
    if Split(Join(sec, nsec)) == (sec, nsec) {
      assert Join(sec, nsec) == total;
    }
    if InRange(sec, nsec) {
      assert Join(sec, nsec) == total;
      SplitUnique(sec, nsec, Split(total).0, Split(total).1);
    }
  }

  /** Two pairs that do not come back: too many nanoseconds, and a total of more than 64 bits. */
  lemma OutOfRange()
    ensures Split(Join(0, BILLION)) == (1, 0)
    ensures Split(Join(I64_MAX, 0)) != (I64_MAX, 0)
  {
    RoundTrip(I64_MAX, 0);
  }

  lemma SplitUnique(a: int, b: int, c: int, d: int)
    requires a * BILLION + b == c * BILLION + d && 0 <= b < BILLION && 0 <= d < BILLION
    ensures a == c && b == d
  {
  }

  /** The time of a file or directory stands for a manifest's pair: it was set from it through
      `SystemTime`, or reads back as it. */
  predicate Stands(t: int, sec: int, nsec: int) {
    t == Join(sec, nsec) || Split(t) == (sec, nsec)
  }

  /** The same for a link, whose time is set from the pair itself. */
  predicate LinkStands(t: int, sec: int, nsec: int) {
    t == sec * BILLION + nsec || Split(t) == (sec, nsec)
  }

  /** In range, all of these say one thing. */
  lemma StandsInRange(t: int, sec: int, nsec: int)
    requires InRange(sec, nsec)
    ensures Stands(t, sec, nsec) <==> Split(t) == (sec, nsec)
    ensures LinkStands(t, sec, nsec) <==> Split(t) == (sec, nsec)
    ensures Stands(t, sec, nsec) <==> t == sec * BILLION + nsec
  {
    SplitJoins(t);
    SplitJoins(Join(sec, nsec));
    SplitUnique(sec, nsec, Split(Join(sec, nsec)).0, Split(Join(sec, nsec)).1);
    if t == sec * BILLION + nsec {
      SplitUnique(sec, nsec, Split(t).0, Split(t).1);
    }
  }
}

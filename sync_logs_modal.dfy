/** components/SyncLogsModal.tsx: `getDuration`, the run time shown for one
  * sync log. `new Date(..).getTime()` is an input: the millisecond
  * timestamp each ISO string parses to. */
module SyncLogsModal {
  import opened Types
  import opened JsText

  /** `Math.floor(a / b)` for a positive divisor: the largest `q` with
    * `q * b <= a`. Dafny's `/` rounds toward negative infinity when the
    * divisor is positive, so it is that floor. */
  function FloorDiv(a: int, b: int): (q: int)
    requires b > 0
    ensures q * b <= a < (q + 1) * b
  {
    a / b
  }

  /** A whole multiple of `b` leaves no remainder. */
  lemma MultipleRem(q: int, b: int)
    requires b > 0
    ensures (q * b) % b == 0
  {
    var k := q - (q * b) / b;
    assert q * b == b * ((q * b) / b) + (q * b) % b;
    assert (q * b) % b == b * k;
  }

  /** What a remainder leaves of `a` is a multiple of the divisor. */
  lemma RemainderLeavesMultiple(a: int, q: int, r: int, b: int)
    requires b > 0
    requires a == q * b + r
    ensures (a - r) % b == 0
  {
    assert a - r == q * b;
    MultipleRem(q, b);
  }

  /** JavaScript's `a % b`: the remainder takes the sign of `a`, is smaller
    * than the divisor, and what it leaves of `a` is a multiple of `b`. */
  function JsRem(a: int, b: int): (r: int)
    requires b > 0
    ensures a >= 0 ==> 0 <= r < b
    ensures a < 0 ==> -b < r <= 0
    ensures (a - r) % b == 0
  {
    if a >= 0 then
      RemainderLeavesMultiple(a, a / b, a % b, b);
      a % b
    else
      var q, m := (-a) / b, (-a) % b;
      assert -a == q * b + m;
      RemainderLeavesMultiple(a, -q, -m, b);
      -m
  }

  /** `getDuration(startedAt, completedAt)`. */
  function Duration(startedAt: string, completedAt: Option<string>, timeOf: string -> int): string {
    if !Truthy(completedAt) then "In progress..."
    else
      var seconds := FloorDiv(timeOf(completedAt.value) - timeOf(startedAt), 1000);
      if seconds < 60 then IntToString(seconds) + "s"
      else IntToString(FloorDiv(seconds, 60)) + "m " + IntToString(JsRem(seconds, 60)) + "s"
  }

  /** The whole seconds between the two timestamps, rounded down. */
  function ElapsedSeconds(startedAt: string, completedAt: string, timeOf: string -> int): (s: int)
    ensures s * 1000 <= timeOf(completedAt) - timeOf(startedAt) < (s + 1) * 1000
  {
    FloorDiv(timeOf(completedAt) - timeOf(startedAt), 1000)
  }

  /** A run without a completion time is still in progress. */
  lemma InProgress(startedAt: string, completedAt: Option<string>, timeOf: string -> int)
    requires !Truthy(completedAt)
    ensures Duration(startedAt, completedAt, timeOf) == "In progress..."
  {
  }

  /** Under a minute the duration is the seconds alone. */
  lemma ShortForm(startedAt: string, completedAt: string, timeOf: string -> int)
    requires completedAt != ""
    requires ElapsedSeconds(startedAt, completedAt, timeOf) < 60
    ensures Duration(startedAt, Some(completedAt), timeOf) == IntToString(ElapsedSeconds(startedAt, completedAt, timeOf)) + "s"
  {
  }

  /** From a minute on, the duration is whole minutes and the remaining
    * seconds, which are under a minute and add back up to the elapsed time. */
  lemma LongForm(startedAt: string, completedAt: string, timeOf: string -> int)
    requires completedAt != ""
    requires ElapsedSeconds(startedAt, completedAt, timeOf) >= 60
    ensures var seconds := ElapsedSeconds(startedAt, completedAt, timeOf);
      exists m: nat, r: nat {:trigger NatToString(m), NatToString(r)} ::
        && m >= 1 && r < 60 && m * 60 + r == seconds
        && Duration(startedAt, Some(completedAt), timeOf) == NatToString(m) + "m " + NatToString(r) + "s"
  {
    var seconds := ElapsedSeconds(startedAt, completedAt, timeOf);
    var m: nat := FloorDiv(seconds, 60);
    var r: nat := JsRem(seconds, 60);
    assert m * 60 + r == seconds;
    assert NatToString(m) == IntToString(m) && NatToString(r) == IntToString(r);
  }
}

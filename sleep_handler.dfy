/**
 Model of `Fizzik\Utility\SleepHandler`: two counters of pending sleep time,
 one in seconds and one in microseconds, that `add` accumulates and
 `execute` spends and clears. The real `sleep`/`usleep` calls are recorded
 as effects in a log instead of delaying anything.
 */
module SleepHandler {

  /** The PHP value passed as `$microseconds` to `add`. */
  datatype Flag = Bool(b: bool) | Int(i: int) | Str(s: string) | Null

  /** One sleep effect: `sleep(n)` or `usleep(n)`. */
  datatype Sleep = Seconds(amount: int) | Microseconds(amount: int)

  /** An `add($amount, $microseconds)` call. */
  datatype AddCall = AddCall(amount: int, microseconds: Flag)

  /** `$microseconds === TRUE`: only the boolean true itself selects
      microseconds; `1`, `"1"` and every other truthy value do not. */
  predicate SelectsMicroseconds(flag: Flag)
  {
    flag.Bool? && flag.b
  }

  /** The amount of time a sequence of add calls routes to the seconds counter. */
  function SecondsTotal(adds: seq<AddCall>): int
  {
    if adds == [] then 0
    else (if SelectsMicroseconds(adds[0].microseconds) then 0 else adds[0].amount) + SecondsTotal(adds[1..])
  }

  /** The amount of time a sequence of add calls routes to the microseconds counter. */
  function MicroTotal(adds: seq<AddCall>): int
  {
    if adds == [] then 0
    else (if SelectsMicroseconds(adds[0].microseconds) then adds[0].amount else 0) + MicroTotal(adds[1..])
  }

  /** The sum of all amounts added, whichever counter they went to. */
  function AddedTotal(adds: seq<AddCall>): int
  {
    if adds == [] then 0 else adds[0].amount + AddedTotal(adds[1..])
  }

  /** One more add call moves exactly one counter, by its amount. */
  lemma {:induction false} TotalsAppend(adds: seq<AddCall>, a: AddCall)
    ensures SecondsTotal(adds + [a]) == SecondsTotal(adds) + (if SelectsMicroseconds(a.microseconds) then 0 else a.amount)
    ensures MicroTotal(adds + [a]) == MicroTotal(adds) + (if SelectsMicroseconds(a.microseconds) then a.amount else 0)
  {
    if adds != [] {
      assert (adds + [a])[1..] == adds[1..] + [a];
      TotalsAppend(adds[1..], a);
    } else {
      assert [a][1..] == [];
    }
  }

  /** Every amount goes to exactly one of the two counters. */
  lemma {:induction false} TotalsPartition(adds: seq<AddCall>)
    ensures SecondsTotal(adds) + MicroTotal(adds) == AddedTotal(adds)
  {
    if adds != [] {
      TotalsPartition(adds[1..]);
    }
  }

  /** The sleeps `execute` performs for the given counters, in order. */
  function SleepsFor(duration: int, microDuration: int): (effects: seq<Sleep>)
    ensures Seconds(duration) in effects <==> duration > 0
    ensures Microseconds(microDuration) in effects <==> microDuration > 0
    ensures forall e :: e in effects ==> e.amount > 0
    ensures forall e :: e in effects ==> e == Seconds(duration) || e == Microseconds(microDuration)
    ensures |effects| == (if duration > 0 then 1 else 0) + (if microDuration > 0 then 1 else 0)
    ensures |effects| == 2 ==> effects[0].Seconds? && effects[1].Microseconds?
    ensures |effects| <= 2
  {
    (if duration > 0 then [Seconds(duration)] else []) +
    (if microDuration > 0 then [Microseconds(microDuration)] else [])
  }

  class SleepHandler {
    /** `$duration`: pending sleep in seconds. */
    var duration: int
    /** `$microDuration`: pending sleep in microseconds. */
    var microDuration: int
    /** The add calls since construction or the last execute. */
    ghost var pending: seq<AddCall>
    /** The sleep effects performed so far, oldest first. */
    ghost var slept: seq<Sleep>

    /** Each counter holds the sum of the amounts routed to it. */
    ghost predicate Valid()
      reads this
    {
      duration == SecondsTotal(pending) && microDuration == MicroTotal(pending)
    }

    /** `__construct`: both counters start at zero. */
    constructor ()
      ensures Valid() && duration == 0 && microDuration == 0
      ensures pending == [] && slept == []
    {
      duration := 0;
      microDuration := 0;
      pending := [];
      slept := [];
    }

    /** `add($amount, $microseconds = FALSE)`. */
    method Add(amount: int, microseconds: Flag := Bool(false))
      requires Valid()
      modifies this
      ensures Valid()
      ensures pending == old(pending) + [AddCall(amount, microseconds)] && slept == old(slept)
      ensures SelectsMicroseconds(microseconds) ==>
        microDuration == old(microDuration) + amount && duration == old(duration)
      ensures !SelectsMicroseconds(microseconds) ==>
        duration == old(duration) + amount && microDuration == old(microDuration)
    {
      if SelectsMicroseconds(microseconds) {
        microDuration := microDuration + amount;
      } else {
        duration := duration + amount;
      }
      TotalsAppend(pending, AddCall(amount, microseconds));
      pending := pending + [AddCall(amount, microseconds)];
    }

    /** `execute`: sleeps the pending seconds, then the pending microseconds,
        each only when positive, and clears both counters. */
    method Execute()
      requires Valid()
      modifies this
      ensures Valid()
      ensures duration == 0 && microDuration == 0 && pending == []
      ensures slept == old(slept) + SleepsFor(old(duration), old(microDuration))
    {
      if duration > 0 {
        slept := slept + [Seconds(duration)];
      }
      if microDuration > 0 {
        slept := slept + [Microseconds(microDuration)];
      }
      duration := 0;
      microDuration := 0;
      pending := [];
    }
  }

  /** A client of the contracts above: `1` is not `true`, so the second amount
      goes to seconds; a negative total sleeps nothing and is still cleared. */
  method BatchedSleeps()
  {
    var handler := new SleepHandler();
    handler.Add(2);
    handler.Add(3, Int(1));
    handler.Add(500, Bool(true));
    assert handler.duration == 5 && handler.microDuration == 500;
    handler.Execute();
    assert handler.slept == [Seconds(5), Microseconds(500)];
    handler.Add(-4);
    handler.Execute();
    assert handler.duration == 0 && handler.slept == [Seconds(5), Microseconds(500)];
  }
}

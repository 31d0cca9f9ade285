/** What a queue worker records for the attempts of one job. */
module JobAttempts {
  import opened Options

  /** `job.opts.attempts`: absent (or null), a number, or NaN. */
  datatype Limit = Absent | NotANumber | Attempts(n: int)

  datatype Outcome = Success | Retry | Failed

  /** `attemptsMade + 1 >= (attempts ?? 1)`; a comparison with NaN is false. */
  predicate IsLastAttempt(limit: Limit, made: nat) {
    match limit
    case Absent => made + 1 >= 1
    case NotANumber => false
    case Attempts(n) => made + 1 >= n
  }

  /** The queue runs a failed job again while attempts are left. */
  predicate Retried(limit: Limit, made: nat) {
    limit.Attempts? && made + 1 < limit.n
  }

  function Recorded(limit: Limit, made: nat, succeeds: bool): Outcome {
    if succeeds then Success else if IsLastAttempt(limit, made) then Failed else Retry
  }

  /** The outcomes recorded from attempt `made` on; `handler` says which attempts succeed. */
  function Outcomes(limit: Limit, handler: nat -> bool, made: nat): seq<Outcome>
    decreases if limit.Attempts? then limit.n - made else 0
  {
    [Recorded(limit, made, handler(made))]
    + if !handler(made) && Retried(limit, made) then Outcomes(limit, handler, made + 1) else []
  }

  /** Retries, then one success or failure. */
  predicate WellFormed(os: seq<Outcome>) {
    && os != []
    && (forall i :: 0 <= i < |os| - 1 ==> os[i] == Retry)
    && os[|os| - 1] != Retry
  }

  function MaxAttempts(limit: Limit): nat {
    if limit.Attempts? && limit.n > 1 then limit.n else 1
  }

  lemma {:induction false} OutcomesFrom(limit: Limit, handler: nat -> bool, made: nat)
    requires limit != NotANumber && made < MaxAttempts(limit)
    ensures WellFormed(Outcomes(limit, handler, made))
    ensures made + |Outcomes(limit, handler, made)| <= MaxAttempts(limit)
    ensures var os := Outcomes(limit, handler, made);
            if os[|os| - 1] == Success then handler(made + |os| - 1)
            else made + |os| == MaxAttempts(limit) && forall k :: made <= k < MaxAttempts(limit) ==> !handler(k)
    decreases MaxAttempts(limit) - made
  {
    if !handler(made) && Retried(limit, made) {
      OutcomesFrom(limit, handler, made + 1);
      var rest := Outcomes(limit, handler, made + 1);
      assert Outcomes(limit, handler, made) == [Retry] + rest;
    } else {
      assert Outcomes(limit, handler, made) == [Recorded(limit, made, handler(made))];
    }
  }

  /** For any limit at the worker: over every handler the record is retries, fewer than the limit, then one final
      outcome, exactly when the limit is not NaN; the final outcome is a failure exactly when every allowed attempt
      was one. */
  lemma AttemptAccounting(limit: Limit)
    ensures (forall handler: nat -> bool :: WellFormed(Outcomes(limit, handler, 0))) <==> limit != NotANumber
    ensures limit != NotANumber ==> forall handler: nat -> bool ::
              var os := Outcomes(limit, handler, 0);
              && |os| <= MaxAttempts(limit)
              && (os[|os| - 1] == Failed <==> forall k :: 0 <= k < MaxAttempts(limit) ==> !handler(k))
  {
    if limit == NotANumber {
      var failing: nat -> bool := k => false;
      assert Outcomes(limit, failing, 0) == [Retry];
      assert !WellFormed(Outcomes(limit, failing, 0));
    } else {
      forall handler: nat -> bool
        ensures WellFormed(Outcomes(limit, handler, 0))
        ensures var os := Outcomes(limit, handler, 0);
                && |os| <= MaxAttempts(limit)
                && (os[|os| - 1] == Failed <==> forall k :: 0 <= k < MaxAttempts(limit) ==> !handler(k))
      {
        OutcomesFrom(limit, handler, 0);
      }
    }
  }

  // ---------- the limit on its way from the producer to the worker ----------

  predicate IsSpace(c: char) {
    || '\t' <= c <= '\r' || c == ' ' || c == '\U{00A0}' || c == '\U{1680}' || '\U{2000}' <= c <= '\U{200A}'
    || c == '\U{2028}' || c == '\U{2029}' || c == '\U{202F}' || c == '\U{205F}' || c == '\U{3000}' || c == '\U{FEFF}'
  }

  function SkipSpace(s: string): string {
    if s != "" && IsSpace(s[0]) then SkipSpace(s[1..]) else s
  }

  predicate IsDigit(c: char) {
    '0' <= c <= '9'
  }

  function DigitValue(c: char): nat
    requires IsDigit(c)
  {
    c as int - '0' as int
  }

  function LeadingDigits(s: string): (d: string)
    ensures forall k :: 0 <= k < |d| ==> IsDigit(d[k])
  {
    if s != "" && IsDigit(s[0]) then [s[0]] + LeadingDigits(s[1..]) else ""
  }

  function Value(d: string): nat
    requires forall k :: 0 <= k < |d| ==> IsDigit(d[k])
  {
    if d == "" then 0 else 10 * Value(d[..|d| - 1]) + DigitValue(d[|d| - 1])
  }

  /** `parseInt(s, 10)`. */
  function ParseInt10(s: string): Limit {
    var t := SkipSpace(s);
    var signed := t != "" && (t[0] == '-' || t[0] == '+');
    var d := LeadingDigits(if signed then t[1..] else t);
    var n: int := Value(d);
    if d == "" then NotANumber else Attempts(if signed && t[0] == '-' then -n else n)
  }

  /** The limit `buildJobOptions` puts into the job's options, from the queue's environment variable. */
  function BuildAttempts(env: Option<string>): Limit {
    ParseInt10(if env.Some? then env.value else "3")
  }

  /** Job options reach the worker through the queue as JSON, in which NaN is null. */
  function OverQueue(limit: Limit): Limit {
    if limit == NotANumber then Absent else limit
  }

  function Decimal(n: nat): (d: string)
    ensures d != "" && forall k :: 0 <= k < |d| ==> IsDigit(d[k])
  {
    var last := ['0' + (n % 10) as char];
    if n < 10 then last else Decimal(n / 10) + last
  }

  lemma {:induction false} DecimalValue(n: nat)
    ensures Value(Decimal(n)) == n
  {
    var d := Decimal(n);
    if n >= 10 {
      DecimalValue(n / 10);
      assert d[..|d| - 1] == Decimal(n / 10);
    } else {
      assert d[..|d| - 1] == "";
    }
  }

  lemma {:induction false} AllDigitsLead(d: string)
    requires forall k :: 0 <= k < |d| ==> IsDigit(d[k])
    ensures LeadingDigits(d) == d
  {
    if d != "" { AllDigitsLead(d[1..]); }
  }

  /** A limit written in decimal is the limit; without the variable it is 3. */
  lemma WrittenLimit(n: nat)
    ensures BuildAttempts(Some(Decimal(n))) == Attempts(n) && BuildAttempts(None) == Attempts(3)
  {
    AllDigitsLead(Decimal(n));
    DecimalValue(n);
    assert Decimal(n)[0] != ' ' && !IsSpace(Decimal(n)[0]);
    assert "3" == Decimal(3);
    AllDigitsLead(Decimal(3));
    DecimalValue(3);
  }

  /** Blanks and line ends, as they come around a value in an environment file. */
  predicate Blank(s: string) {
    forall k :: 0 <= k < |s| ==> s[k] == ' ' || s[k] == '\t' || s[k] == '\n' || s[k] == '\r'
  }

  lemma {:induction false} SkipsBlank(space: string, rest: string)
    requires Blank(space) && (rest == "" || !IsSpace(rest[0]))
    ensures SkipSpace(space + rest) == rest
  {
    if space == "" {
      assert space + rest == rest;
    } else {
      SkipsBlank(space[1..], rest);
      assert (space + rest)[1..] == space[1..] + rest;
    }
  }

  lemma {:induction false} DigitsStop(d: string, rest: string)
    requires (forall k :: 0 <= k < |d| ==> IsDigit(d[k])) && (rest == "" || !IsDigit(rest[0]))
    ensures LeadingDigits(d + rest) == d
  {
    if d == "" {
      assert d + rest == rest;
    } else {
      DigitsStop(d[1..], rest);
      assert (d + rest)[1..] == d[1..] + rest;
    }
  }

  /** What `parseInt` makes of digits behind a sign or none, with anything but a digit behind them. */
  lemma ParsesSigned(sign: string, d: string, rest: string)
    requires sign == "" || sign == "-" || sign == "+"
    requires d != "" && (forall k :: 0 <= k < |d| ==> IsDigit(d[k])) && (rest == "" || !IsDigit(rest[0]))
    ensures var t := sign + (d + rest);
            && (t[0] == '-' || t[0] == '+' <==> sign != "") && !IsSpace(t[0])
            && LeadingDigits(if sign != "" then t[1..] else t) == d && (sign == "-" <==> t[0] == '-')
  {
    var t := sign + (d + rest);
    assert (d + rest)[0] == d[0] && IsDigit(d[0]);
    if sign == "" { assert t == d + rest; } else { assert t[0] == sign[0] && t[1..] == d + rest; }
    DigitsStop(d, rest);
  }

  /** A number with blanks before it, a sign or none, and anything but a digit behind it, is the limit. */
  lemma ParsesNumber(space: string, sign: string, n: nat, rest: string)
    requires Blank(space) && (sign == "" || sign == "-" || sign == "+") && (rest == "" || !('0' <= rest[0] <= '9'))
    ensures BuildAttempts(Some(space + (sign + (Decimal(n) + rest))))
         == Attempts(if sign == "-" then 0 - n else n)
  {
    ParsesSigned(sign, Decimal(n), rest);
    SkipsBlank(space, sign + (Decimal(n) + rest));
    DecimalValue(n);
  }

  /** A value that does not start with a number is none. */
  lemma ParsesNothing(space: string, rest: string)
    requires Blank(space) && (rest == "" || 'A' <= rest[0] <= 'z')
    ensures BuildAttempts(Some(space + rest)) == NotANumber
  {
    SkipsBlank(space, rest);
  }

  /** Whatever the environment variable holds, a job's record at the worker is retries and one final outcome; there are
      at most as many as the limit says, one if it says less or does not parse, and the last is a failure exactly when
      every allowed attempt failed. */
  lemma EnqueuedJobAccounting(env: Option<string>, handler: nat -> bool)
    ensures var os := Outcomes(OverQueue(BuildAttempts(env)), handler, 0);
            var most := if BuildAttempts(env).Attempts? && BuildAttempts(env).n > 1 then BuildAttempts(env).n else 1;
            && WellFormed(os) && |os| <= most
            && (os[|os| - 1] == Failed <==> forall k :: 0 <= k < most ==> !handler(k))
            && (os[|os| - 1] == Success <==> handler(|os| - 1))
  {
    OutcomesFrom(OverQueue(BuildAttempts(env)), handler, 0);
  }

  class WorkerMetrics {
    var outcomes: seq<Outcome>
    var durations: seq<int>

    constructor ()
      ensures outcomes == [] && durations == []
    {
      outcomes, durations := [], [];
    }

    /** The handler wrapper: the outcome and the duration are recorded, then the error goes on to the queue. */
    method RunAttempt(limit: Limit, made: nat, succeeds: bool, startMs: int, endMs: int) returns (thrown: bool)
      modifies this
      ensures outcomes == old(outcomes) + [Recorded(limit, made, succeeds)]
      ensures durations == old(durations) + [endMs - startMs]
      ensures thrown == !succeeds
    {
      if succeeds {
        outcomes := outcomes + [Success];
        durations := durations + [endMs - startMs];
        return false;
      }
      var isLastAttempt := IsLastAttempt(limit, made);
      outcomes := outcomes + [if isLastAttempt then Failed else Retry];
      durations := durations + [endMs - startMs];
      return true;
    }

    /** The queue drives a job: attempt by attempt until it succeeds or is not run again. */
    method RunJob(limit: Limit, handler: nat -> bool, clock: nat -> int)
      modifies this
      ensures outcomes == old(outcomes) + Outcomes(limit, handler, 0)
      ensures |durations| - old(|durations|) == |Outcomes(limit, handler, 0)|
    {
      ghost var total := outcomes + Outcomes(limit, handler, 0);
      var made := 0;
      var again := true;
      while again
        invariant total == outcomes + Remaining(limit, handler, made, again)
        invariant |durations| - old(|durations|) == |outcomes| - old(|outcomes|)
        decreases again, if limit.Attempts? then limit.n - made else 0
      {
        OneAttempt(outcomes, limit, handler, made);
        var thrown := RunAttempt(limit, made, handler(made), clock(2 * made), clock(2 * made + 1));
        again := thrown && Retried(limit, made);
        made := made + 1;
      }
    }
  }

  function Remaining(limit: Limit, handler: nat -> bool, made: nat, again: bool): seq<Outcome> {
    if again then Outcomes(limit, handler, made) else []
  }

  lemma OneAttempt(before: seq<Outcome>, limit: Limit, handler: nat -> bool, made: nat)
    ensures before + Outcomes(limit, handler, made)
         == before + [Recorded(limit, made, handler(made))]
            + Remaining(limit, handler, made + 1, !handler(made) && Retried(limit, made))
  {
    var rest := Remaining(limit, handler, made + 1, !handler(made) && Retried(limit, made));
    assert Outcomes(limit, handler, made) == [Recorded(limit, made, handler(made))] + rest;
  }
}

/** Waiting for one of several URLs to answer, for a bounded time. */
module WaitForUrl {
  import opened Options

  /** How a request goes when nothing cuts it short: whether it is answered well and with
      contents, and how long that takes. */
  datatype Response = Response(ok: bool, duration: real)

  /** A request as it was made: in which round, for which URL, when, and with what limit. */
  datatype Request = Request(round: nat, index: nat, url: string, begin: real, end: real, timeout: Option<real>)

  /** What the caller asked for. The n-th request is answered by `respond(n)`. */
  datatype Job = Job(urls: seq<string>, maxWait: real, timeout: Option<real>, start: real, respond: nat -> Response)

  function Deadline(j: Job): real {
    j.start + j.maxWait
  }

  predicate TimeUp(j: Job, now: real) {
    j.maxWait <= 0.0 || now - j.start > j.maxWait
  }

  /** How long to sleep after a round. */
  function Pause(round: nat): real {
    (round / 5 + 1) as real
  }

  /** A number of seconds; a negative one counts as zero. */
  function Seconds(t: real): (d: real)
    ensures d >= 0.0 && (t >= 0.0 ==> d == t)
  {
    if t < 0.0 then 0.0 else t
  }

  /** The answer comes before the timeout. */
  predicate Fits(r: Response, timeout: Option<real>) {
    timeout.None? || Seconds(r.duration) <= Seconds(timeout.value)
  }

  /** A request lasts at most its timeout. */
  function Lasts(r: Response, timeout: Option<real>): (d: real)
    ensures d >= 0.0
    ensures timeout.Some? ==> d <= Seconds(timeout.value)
  {
    if Fits(r, timeout) then Seconds(r.duration) else Seconds(timeout.value)
  }

  /** A request that its timeout cuts short raises, however it would have been answered. */
  predicate Succeeds(r: Response, timeout: Option<real>) {
    r.ok && Fits(r, timeout)
  }

  /** From the second round on, a timeout that is set and not zero is cut down so that the
      request ends before the deadline. */
  function Shortened(j: Job, timeout: Option<real>, now: real, round: nat): Option<real> {
    if round != 0 && timeout.Some? && timeout.value != 0.0 && now + timeout.value > Deadline(j)
    then Some((Deadline(j) - now).Floor as real)
    else timeout
  }

  // ---------------------------------------------------------------- runs

  /** The request asks for its URL, lasts what it must, and does not begin after the time
      was up unless it belongs to the first round. */
  predicate Made(j: Job, q: Request, n: nat) {
    && q.index < |j.urls| && q.url == j.urls[q.index]
    && q.end == q.begin + Lasts(j.respond(n), q.timeout)
    && (q.round != 0 ==> !TimeUp(j, q.begin))
  }

  /** The URLs take turns; a round that ends is followed by a pause. */
  predicate Follows(j: Job, a: Request, b: Request) {
    && (if a.index + 1 < |j.urls| then b.round == a.round && b.index == a.index + 1 && b.begin == a.end
        else b.round == a.round + 1 && b.index == 0 && b.begin == a.end + Pause(a.round))
    && b.timeout == Shortened(j, a.timeout, b.begin, b.round)
  }

  predicate Succeeded(j: Job, log: seq<Request>, n: nat)
    requires n < |log|
  {
    Succeeds(j.respond(n), log[n].timeout)
  }

  /** Request `n` is the first one, or follows one that was not successful. */
  predicate Legal(j: Job, log: seq<Request>, n: nat)
    requires n < |log|
  {
    && Made(j, log[n], n)
    && if n == 0
       then log[0].round == 0 && log[0].index == 0 && log[0].begin == j.start && log[0].timeout == j.timeout
       else Follows(j, log[n - 1], log[n]) && !Succeeded(j, log, n - 1)
  }

  /** Requests as they are made. */
  predicate IsRun(j: Job, log: seq<Request>) {
    forall n :: 0 <= n < |log| ==> Legal(j, log, n)
  }

  function TotalPause(rounds: nat): (t: real)
    ensures t >= rounds as real
  {
    if rounds == 0 then 0.0 else TotalPause(rounds - 1) + Pause(rounds - 1)
  }

  /** Where the clock stands when the loop is about to try URL `index` of a round. A pause
      was made only if the time was not up. */
  predicate AtTurn(j: Job, log: seq<Request>, round: nat, index: nat, now: real, timeout: Option<real>) {
    && index <= |j.urls|
    && if log == [] then
         && index == 0 && timeout == j.timeout && now == j.start + TotalPause(round)
         && (round > 0 ==> j.urls == [] && !TimeUp(j, j.start + TotalPause(round - 1)))
       else
         var last := log[|log| - 1];
         && timeout == last.timeout
         && if index == 0 then
              && last.index + 1 == |j.urls| && last.round + 1 == round
              && !TimeUp(j, last.end) && now == last.end + Pause(last.round)
            else last.index + 1 == index && last.round == round && now == last.end
  }

  /** The loop ended before URL `index` of a round because the time was up; in the first
      round, every URL was tried. */
  predicate GaveUp(j: Job, log: seq<Request>, round: nat, index: nat, timeout: Option<real>, finish: real) {
    && TimeUp(j, finish)
    && AtTurn(j, log, round, index, finish, timeout)
    && (round == 0 ==> index == |j.urls|)
  }

  lemma TryUrl(j: Job, log: seq<Request>, round: nat, index: nat, now: real, timeout: Option<real>, q: Request)
    requires IsRun(j, log) && AtTurn(j, log, round, index, now, timeout) && index < |j.urls|
    requires log != [] ==> !Succeeded(j, log, |log| - 1)
    requires round != 0 ==> !TimeUp(j, now)
    requires q.timeout == Shortened(j, timeout, now, round)
    requires q.round == round && q.index == index && q.url == j.urls[index] && q.begin == now
    requires q.end == now + Lasts(j.respond(|log|), q.timeout)
    ensures IsRun(j, log + [q]) && AtTurn(j, log + [q], round, index + 1, q.end, q.timeout)
  {
    hide Lasts, Shortened, TimeUp, Pause, Succeeds;
    var log' := log + [q];
    forall n: nat | n < |log'| ensures Legal(j, log', n) {
      if n < |log| {
        assert Legal(j, log, n);
      } else {
        FirstTimeout(j, timeout, now);
      }
    }
  }

  lemma FirstTimeout(j: Job, timeout: Option<real>, now: real)
    ensures Shortened(j, timeout, now, 0) == timeout
  {
  }

  method WaitForUrl(j: Job)
    returns (r: Option<string>, log: seq<Request>, round: nat, index: nat, timeout: Option<real>, finish: real)
    ensures IsRun(j, log)
    ensures r.Some? ==> log != [] && Succeeded(j, log, |log| - 1) && r.value == log[|log| - 1].url && finish == log[|log| - 1].end
    ensures r.None? ==> (log != [] ==> !Succeeded(j, log, |log| - 1)) && GaveUp(j, log, round, index, timeout, finish)
  {
    hide IsRun, Lasts, Succeeds;
    var now, made := j.start, 0;
    timeout, round, log := j.timeout, 0, [];
    assert IsRun(j, log) by { EmptyRun(j); }
    while true
      invariant IsRun(j, log) && |log| == made && (log != [] ==> !Succeeded(j, log, made - 1))
      invariant AtTurn(j, log, round, 0, now, timeout)
      invariant round != 0 ==> j.maxWait > 0.0
      decreases if round == 0 then 1 else 0, (Deadline(j) - now).Floor
    {
      var sleepTime := round / 5 + 1;
      ghost var before := now;
      index := 0;
      while index < |j.urls|
        invariant index <= |j.urls| && now >= before
        invariant IsRun(j, log) && |log| == made && (log != [] ==> !Succeeded(j, log, made - 1))
        invariant AtTurn(j, log, round, index, now, timeout)
      {
        if round != 0 {
          if TimeUp(j, now) {
            break;
          }
          if timeout.Some? && timeout.value != 0.0 && now + timeout.value > Deadline(j) {
            timeout := Some((Deadline(j) - now).Floor as real);
          }
        }
        var response := j.respond(made);
        var q := Request(round, index, j.urls[index], now, now + Lasts(response, timeout), timeout);
        TryUrl(j, log, round, index, now, if log == [] then j.timeout else log[|log| - 1].timeout, q);
        now := q.end;
        log := log + [q];
        made := made + 1;
        if Succeeds(response, timeout) {
          return Some(j.urls[index]), log, round, index, timeout, now;
        }
        index := index + 1;
      }
      if TimeUp(j, now) {
        break;
      }
      round := round + 1;
      now := now + sleepTime as real;
    }
    r, finish := None, now;
  }

  lemma EmptyRun(j: Job)
    ensures IsRun(j, [])
  {
  }

  // ---------------------------------------------------------------- what runs keep to

  lemma {:induction false} FirstRound(j: Job, log: seq<Request>, n: nat)
    requires IsRun(j, log) && n < |log| && n < |j.urls|
    ensures log[n].round == 0 && log[n].index == n
  {
    assert Legal(j, log, n);
    if n > 0 {
      FirstRound(j, log, n - 1);
    }
  }

  /** Every URL is tried once, in order, before the wait gives up. */
  lemma TriesEveryUrl(j: Job, log: seq<Request>, round: nat, index: nat, timeout: Option<real>, finish: real)
    requires IsRun(j, log) && GaveUp(j, log, round, index, timeout, finish)
    ensures |log| >= |j.urls|
    ensures forall n :: 0 <= n < |j.urls| ==> log[n].url == j.urls[n]
  {
    hide Made, TimeUp;
    if log != [] && |log| <= |j.urls| {
      FirstRound(j, log, |log| - 1);
    }
    forall n | 0 <= n < |j.urls| ensures log[n].url == j.urls[n] {
      FirstRound(j, log, n);
      MadeAt(j, log, n);
    }
  }

  lemma MadeAt(j: Job, log: seq<Request>, n: nat)
    requires IsRun(j, log) && n < |log|
    ensures Made(j, log[n], n) && log[n].url == j.urls[log[n].index]
  {
    assert Legal(j, log, n);
  }

  lemma {:induction false} TimeoutsStaySet(j: Job, log: seq<Request>, n: nat)
    requires IsRun(j, log) && n < |log|
    ensures log[n].timeout.Some? <==> j.timeout.Some?
  {
    hide Made;
    assert Legal(j, log, n);
    if n > 0 {
      TimeoutsStaySet(j, log, n - 1);
    }
  }

  /** What lets no request of a later round overrun: a timeout, nothing to ask for, or no
      time for a second round, since the first pause is a second long. */
  predicate Bounded(urls: seq<string>, maxWait: real, timeout: Option<real>) {
    timeout.Some? || urls == [] || maxWait < 1.0
  }

  lemma EndsInTime(j: Job, log: seq<Request>, n: nat)
    requires IsRun(j, log) && n < |log| && log[n].round != 0 && Bounded(j.urls, j.maxWait, j.timeout)
    ensures log[n].end <= Deadline(j)
  {
    hide Succeeds;
    assert Legal(j, log, n);
    if j.timeout.Some? {
      TimeoutsStaySet(j, log, n);
      TimeoutsStaySet(j, log, n - 1);
      var left := Deadline(j) - log[n].begin;
      assert left >= 0.0 && 0.0 <= left.Floor as real <= left;
    } else {
      RoundsAreBounded(j, log, n);
      assert false;
    }
  }

  /** The wait gives up at the end of the first round, or no later than the deadline and
      one more pause. */
  lemma ReturnsInTime(j: Job, log: seq<Request>, round: nat, index: nat, timeout: Option<real>, finish: real)
    requires IsRun(j, log) && GaveUp(j, log, round, index, timeout, finish) && Bounded(j.urls, j.maxWait, j.timeout)
    ensures |log| >= |j.urls| && OnTime(j, log, round, finish)
  {
    hide Made, Lasts, Shortened;
    TriesEveryUrl(j, log, round, index, timeout, finish);
    if log != [] {
      var n := |log| - 1;
      if log[n].round != 0 {
        EndsInTime(j, log, n);
      } else if round == 0 {
        OnlyFirstRound(j, log, n);
      }
    }
  }

  predicate OnTime(j: Job, log: seq<Request>, round: nat, finish: real)
    requires |log| >= |j.urls|
  {
    if round == 0 then finish == (if j.urls == [] then j.start else log[|j.urls| - 1].end)
    else finish <= Deadline(j) + Pause(round - 1)
  }

  lemma {:induction false} OnlyFirstRound(j: Job, log: seq<Request>, n: nat)
    requires IsRun(j, log) && n < |log| && log[n].round == 0
    ensures log[n].index == n
  {
    hide Made, Shortened;
    assert Legal(j, log, n);
    if n > 0 {
      OnlyFirstRound(j, log, n - 1);
    }
  }

  lemma {:induction false} PausesAddUp(j: Job, log: seq<Request>, n: nat)
    requires IsRun(j, log) && n < |log|
    ensures log[n].begin >= j.start + TotalPause(log[n].round)
  {
    hide Shortened, TimeUp;
    assert Legal(j, log, n);
    if n > 0 {
      PausesAddUp(j, log, n - 1);
      assert Legal(j, log, n - 1);
    }
  }

  /** There are no more rounds than seconds to wait, after the first. */
  lemma RoundsAreBounded(j: Job, log: seq<Request>, n: nat)
    requires IsRun(j, log) && n < |log|
    ensures log[n].round == 0 || log[n].round as real <= j.maxWait
  {
    PausesAddUp(j, log, n);
    assert Legal(j, log, n);
  }

  // ---------------------------------------------------------------- when the limits hold

  /** Whatever the services answer, no request after the first round ends after the
      deadline. */
  ghost predicate AlwaysEndsInTime(urls: seq<string>, maxWait: real, timeout: Option<real>, start: real) {
    forall respond: nat -> Response, log: seq<Request>, n: nat ::
      var j := Job(urls, maxWait, timeout, start, respond);
      IsRun(j, log) && n < |log| && log[n].round != 0 ==> log[n].end <= Deadline(j)
  }

  /** Whatever the services answer, giving up happens on time. */
  ghost predicate AlwaysReturnsInTime(urls: seq<string>, maxWait: real, timeout: Option<real>, start: real) {
    forall respond: nat -> Response, log: seq<Request>, round: nat, index: nat, last: Option<real>, finish: real ::
      var j := Job(urls, maxWait, timeout, start, respond);
      IsRun(j, log) && GaveUp(j, log, round, index, last, finish) ==> |log| >= |urls| && OnTime(j, log, round, finish)
  }

  /** Every request fails at once, but for the first of the second round, which fails
      after the whole waiting time and a second. */
  function Overrunning(urls: seq<string>, maxWait: real, start: real): Job {
    Job(urls, maxWait, None, start, n => Response(false, if n == |urls| then maxWait + 1.0 else 0.0))
  }

  function OverrunLog(urls: seq<string>, maxWait: real, start: real): (log: seq<Request>)
    requires urls != []
    ensures |log| == |urls| + 1
    ensures forall n :: 0 <= n < |urls| ==> log[n] == Request(0, n, urls[n], start, start, None)
    ensures log[|urls|] == Request(1, 0, urls[0], start + 1.0, start + 2.0 + maxWait, None)
  {
    seq(|urls|, n requires 0 <= n < |urls| => Request(0, n, urls[n], start, start, None))
    + [Request(1, 0, urls[0], start + 1.0, start + 2.0 + maxWait, None)]
  }

  /** Without a timeout a run can end past the deadline by more than the pause. */
  lemma Overruns(urls: seq<string>, maxWait: real, start: real)
    requires urls != [] && maxWait >= 1.0
    ensures var j, log := Overrunning(urls, maxWait, start), OverrunLog(urls, maxWait, start);
            && IsRun(j, log) && log[|urls|].round != 0 && log[|urls|].end > Deadline(j)
            && GaveUp(j, log, 1, 1, None, log[|urls|].end) && !OnTime(j, log, 1, log[|urls|].end)
  {
    var j, log := Overrunning(urls, maxWait, start), OverrunLog(urls, maxWait, start);
    assert Pause(0) == 1.0;
    forall n: nat | n < |log| ensures Legal(j, log, n) {
      OverrunIsLegal(urls, maxWait, start, n);
    }
  }

  lemma OverrunIsLegal(urls: seq<string>, maxWait: real, start: real, n: nat)
    requires urls != [] && maxWait >= 1.0 && n <= |urls|
    ensures Legal(Overrunning(urls, maxWait, start), OverrunLog(urls, maxWait, start), n)
  {
    var log := OverrunLog(urls, maxWait, start);
    assert log[n].timeout == None;
    if n > 0 {
      assert log[n - 1] == Request(0, n - 1, urls[n - 1], start, start, None);
    }
  }

  /** Requests after the first round always end by the deadline if and only if there is a
      timeout, nothing to ask for, or no time for a second round. */
  lemma AlwaysEndsInTimeIff(urls: seq<string>, maxWait: real, timeout: Option<real>, start: real)
    ensures AlwaysEndsInTime(urls, maxWait, timeout, start) <==> Bounded(urls, maxWait, timeout)
  {
    hide IsRun;
    if Bounded(urls, maxWait, timeout) {
      forall respond: nat -> Response, log: seq<Request>, n: nat
        | IsRun(Job(urls, maxWait, timeout, start, respond), log) && n < |log| && log[n].round != 0
        ensures log[n].end <= Deadline(Job(urls, maxWait, timeout, start, respond))
      {
        EndsInTime(Job(urls, maxWait, timeout, start, respond), log, n);
      }
    } else {
      Overruns(urls, maxWait, start);
      var j := Overrunning(urls, maxWait, start);
      assert j == Job(urls, maxWait, timeout, start, j.respond);
    }
  }

  /** The wait always gives up on time under the same condition, and no other. */
  lemma AlwaysReturnsInTimeIff(urls: seq<string>, maxWait: real, timeout: Option<real>, start: real)
    ensures AlwaysReturnsInTime(urls, maxWait, timeout, start) <==> Bounded(urls, maxWait, timeout)
  {
    hide IsRun, GaveUp, OnTime;
    if Bounded(urls, maxWait, timeout) {
      forall respond: nat -> Response, log: seq<Request>, round: nat, index: nat, last: Option<real>, finish: real
        | IsRun(Job(urls, maxWait, timeout, start, respond), log)
          && GaveUp(Job(urls, maxWait, timeout, start, respond), log, round, index, last, finish)
        ensures |log| >= |urls| && OnTime(Job(urls, maxWait, timeout, start, respond), log, round, finish)
      {
        ReturnsInTime(Job(urls, maxWait, timeout, start, respond), log, round, index, last, finish);
      }
    } else {
      Overruns(urls, maxWait, start);
      var j := Overrunning(urls, maxWait, start);
      assert j == Job(urls, maxWait, timeout, start, j.respond);
    }
  }

  // ---------------------------------------------------------------- what the limits are used for

  /** The pause is a second for the first five rounds and a second longer after every five. */
  lemma PauseGrows(round: nat)
    ensures round < 5 ==> Pause(round) == 1.0
    ensures Pause(round + 5) == Pause(round) + 1.0
  {
  }

  /** The wait goes on for as long as it may: it gives up only when there is no time to wait or more
      than that has passed, and asks again only before. */
  lemma NeverGivesUpEarly(j: Job, log: seq<Request>, round: nat, index: nat, timeout: Option<real>, finish: real)
    requires IsRun(j, log) && GaveUp(j, log, round, index, timeout, finish)
    ensures j.maxWait <= 0.0 || finish > j.start + j.maxWait
    ensures forall n :: 0 <= n < |log| && log[n].round != 0 ==> j.maxWait > 0.0 && log[n].begin <= j.start + j.maxWait
  {
    hide Lasts, Shortened, Succeeds;
    forall n: nat | n < |log| && log[n].round != 0 ensures j.maxWait > 0.0 && log[n].begin <= j.start + j.maxWait {
      MadeAt(j, log, n);
    }
  }

  /** Giving up means that every request failed: it was not answered well, or not within its
      timeout. */
  lemma NoAnswerWasLeft(j: Job, log: seq<Request>, n: nat)
    requires IsRun(j, log) && n < |log| && !Succeeded(j, log, |log| - 1)
    ensures var r := j.respond(n);
            !r.ok || (log[n].timeout.Some? && r.duration > log[n].timeout.value && r.duration > 0.0)
  {
    hide Made, Follows;
    if n < |log| - 1 {
      assert Legal(j, log, n + 1);
    }
    assert !Succeeded(j, log, n);
  }

  /** A request has the timeout of the one before unless that reaches past the deadline; then it has
      all of the whole seconds that are left. */
  lemma TimeoutsAreUsed(j: Job, log: seq<Request>, n: nat)
    requires IsRun(j, log) && 0 < n < |log| && log[n].timeout != log[n - 1].timeout
    ensures log[n].round > 0 && log[n].timeout.Some? && log[n - 1].timeout.Some?
    ensures log[n].begin + log[n - 1].timeout.value > Deadline(j)
    ensures log[n].begin + log[n].timeout.value <= Deadline(j) < log[n].begin + log[n].timeout.value + 1.0
  {
    hide Made, Succeeds;
    assert Legal(j, log, n);
  }

  /** What counts as success was answered well and within its timeout. */
  lemma SuccessIsAnAnswer(j: Job, log: seq<Request>, n: nat)
    requires n < |log| && Succeeded(j, log, n)
    ensures j.respond(n).ok
    ensures log[n].timeout.Some? ==> j.respond(n).duration <= log[n].timeout.value || j.respond(n).duration <= 0.0
  {
  }
}

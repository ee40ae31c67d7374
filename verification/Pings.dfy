/**
 * The ping protocol of one client: every nonce is settled by its pong or by
 * its timer. The history fields of World keep what the bounded lists drop.
 */
module Pings {
  import opened Prelude
  import QualityScore

  type Nonce = string

  const KEPT := 5
  const MILLISECOND: Time := 1_000_000

  function LastOf<T>(s: seq<T>): seq<T> {
    if |s| > KEPT then s[|s| - KEPT..] else s
  }

  lemma LastOfAppend<T>(s: seq<T>, x: T)
    ensures LastOf(LastOf(s) + [x]) == LastOf(s + [x])
  {
  }

  datatype State = State(pending: map<Nonce, Time>, rtts: seq<real>, cycles: seq<bool>)

  function Issue(q: State, nonce: Nonce, now: Time): State {
    q.(pending := q.pending[nonce := now])
  }

  /** Whole milliseconds since the ping was sent. */
  function RoundTrip(sent: Time, now: Time): real {
    if now >= sent then ((now - sent) / MILLISECOND) as real else -(((sent - now) / MILLISECOND) as real)
  }

  function Pong(q: State, nonce: Nonce, now: Time): State {
    if nonce == "" || nonce !in q.pending then q
    else State(q.pending - {nonce}, LastOf(q.rtts + [RoundTrip(q.pending[nonce], now)]), LastOf(q.cycles + [true]))
  }

  function Timeout(q: State, nonce: Nonce): State {
    if nonce !in q.pending then q
    else q.(pending := q.pending - {nonce}, cycles := LastOf(q.cycles + [false]))
  }

  // ---- The three operations, field by field

  /** The last five entries, or all of them. */
  lemma LastOfLaw<T>(s: seq<T>)
    ensures |LastOf(s)| == if |s| < 5 then |s| else 5
    ensures LastOf(s) == s[|s| - |LastOf(s)|..]
  {
  }

  /** A round trip is the whole milliseconds from ping to pong. */
  lemma RoundTripLaw(sent: Time, now: Time)
    requires sent <= now
    ensures RoundTrip(sent, now).Floor as real == RoundTrip(sent, now) >= 0.0
    ensures RoundTrip(sent, now).Floor * 1_000_000 <= now - sent < (RoundTrip(sent, now).Floor + 1) * 1_000_000
  {
  }

  /** A ping adds its nonce with the clock; nothing else changes. */
  lemma IssueLaw(q: State, nonce: Nonce, now: Time)
    ensures var q' := Issue(q, nonce, now);
      && q'.pending.Keys == q.pending.Keys + {nonce} && q'.pending[nonce] == now
      && (forall other :: other in q.pending && other != nonce ==> q'.pending[other] == q.pending[other])
      && q'.rtts == q.rtts && q'.cycles == q.cycles
  {
  }

  /** A pong in time settles its ping with a success and a sample; any other changes nothing. */
  lemma PongLaw(q: State, nonce: Nonce, now: Time)
    ensures var q' := Pong(q, nonce, now);
      if nonce != "" && nonce in q.pending then
        && q'.pending == q.pending - {nonce}
        && q'.cycles != [] && q'.cycles[|q'.cycles| - 1]
        && q'.cycles[..|q'.cycles| - 1] == (if |q.cycles| < 5 then q.cycles else q.cycles[|q.cycles| - 4..])
        && q'.rtts != [] && q'.rtts[|q'.rtts| - 1] == RoundTrip(q.pending[nonce], now)
        && q'.rtts[..|q'.rtts| - 1] == (if |q.rtts| < 5 then q.rtts else q.rtts[|q.rtts| - 4..])
      else
        q' == q
  {
  }

  /** A timer that finds its ping pending settles it with a failure; any other changes nothing. */
  lemma TimeoutLaw(q: State, nonce: Nonce)
    ensures var q' := Timeout(q, nonce);
      && q'.rtts == q.rtts
      && if nonce in q.pending then
           && q'.pending == q.pending - {nonce}
           && q'.cycles != [] && !q'.cycles[|q'.cycles| - 1]
           && q'.cycles[..|q'.cycles| - 1] == (if |q.cycles| < 5 then q.cycles else q.cycles[|q.cycles| - 4..])
         else
           q' == q
  {
  }

  /** The record of one client, changed in place. */
  class QualityState {
    var pending: map<Nonce, Time>
    var rtts: seq<real>
    var cycles: seq<bool>

    constructor ()
      ensures View() == State(map[], [], [])
    {
      pending, rtts, cycles := map[], [], [];
    }

    function View(): State
      reads this
    {
      State(pending, rtts, cycles)
    }

    method SendPing(nonce: Nonce, now: Time)
      modifies this
      ensures View() == Issue(old(View()), nonce, now)
    {
      pending := pending[nonce := now];
    }

    /** The reply carries a report on the lists as they are afterwards, whether or not the nonce was pending. */
    method HandlePong(nonce: Nonce, now: Time, sqrt: real -> real)
      returns (report: Option<QualityScore.Report>, jitter: real)
      requires forall x :: x >= 0.0 ==> sqrt(x) >= 0.0 && sqrt(x) * sqrt(x) == x
      modifies this
      ensures View() == Pong(old(View()), nonce, now)
      ensures report == (if nonce == "" then None else Some(QualityScore.Quality(rtts, cycles, jitter)))
    {
      if nonce == "" {
        return None, 0.0;
      }
      if nonce in pending {
        var sent := pending[nonce];
        pending := pending - {nonce};
        rtts := LastOf(rtts + [RoundTrip(sent, now)]);
        cycles := LastOf(cycles + [true]);
      }
      var quality, j := QualityScore.Compute(rtts, cycles, sqrt);
      report, jitter := Some(quality), j;
    }

    method HandleTimer(nonce: Nonce, sqrt: real -> real) returns (report: QualityScore.Report, jitter: real)
      requires forall x :: x >= 0.0 ==> sqrt(x) >= 0.0 && sqrt(x) * sqrt(x) == x
      modifies this
      ensures View() == Timeout(old(View()), nonce)
      ensures report == QualityScore.Quality(rtts, cycles, jitter)
    {
      if nonce in pending {
        pending := pending - {nonce};
        cycles := LastOf(cycles + [false]);
      }
      report, jitter := QualityScore.Compute(rtts, cycles, sqrt);
    }
  }

  // ---- Runs

  /** A settled ping and how it was settled. */
  datatype Outcome = Outcome(nonce: Nonce, ok: bool)

  datatype World = World(q: State, clock: Time, issued: set<Nonce>, outcomes: seq<Outcome>, samples: seq<real>)

  datatype Action = Ping(nonce: Nonce) | PongArrives(nonce: Nonce) | TimerFires(nonce: Nonce)

  datatype Step = Step(at: Time, act: Action)

  /** Nonces are fresh; pongs may carry anything, and come late or twice. */
  predicate Enabled(w: World, step: Step) {
    w.clock <= step.at && (step.act.Ping? ==> step.act.nonce !in w.issued && step.act.nonce != "")
  }

  function Next(w: World, step: Step): World {
    match step.act
    case Ping(nonce) => w.(q := Issue(w.q, nonce, step.at), clock := step.at, issued := w.issued + {nonce})
    case PongArrives(nonce) =>
      var w1 := w.(q := Pong(w.q, nonce, step.at), clock := step.at);
      if nonce != "" && nonce in w.q.pending
      then w1.(outcomes := w.outcomes + [Outcome(nonce, true)],
               samples := w.samples + [RoundTrip(w.q.pending[nonce], step.at)])
      else w1
    case TimerFires(nonce) =>
      var w1 := w.(q := Timeout(w.q, nonce), clock := step.at);
      if nonce in w.q.pending then w1.(outcomes := w.outcomes + [Outcome(nonce, false)]) else w1
  }

  ghost predicate StepAt(ws: seq<World>, steps: seq<Step>, i: nat)
    requires i < |steps| < |ws|
  {
    Enabled(ws[i], steps[i]) && ws[i + 1] == Next(ws[i], steps[i])
  }

  ghost predicate IsRun(ws: seq<World>, steps: seq<Step>) {
    && |ws| == |steps| + 1 && ws[0] == World(State(map[], [], []), ws[0].clock, {}, [], [])
    && forall i: nat :: i < |steps| ==> StepAt(ws, steps, i)
  }

  function Results(outcomes: seq<Outcome>): seq<bool> {
    seq(|outcomes|, i requires 0 <= i < |outcomes| => outcomes[i].ok)
  }

  function Successes(outcomes: seq<Outcome>): nat {
    if outcomes == [] then 0 else Successes(outcomes[..|outcomes| - 1]) + if outcomes[|outcomes| - 1].ok then 1 else 0
  }

  /** How often the nonce was settled. */
  function Settled(outcomes: seq<Outcome>, nonce: Nonce): nat {
    if outcomes == [] then 0
    else Settled(outcomes[..|outcomes| - 1], nonce) + if outcomes[|outcomes| - 1].nonce == nonce then 1 else 0
  }

  /** An issued nonce is pending or was settled once, another one neither. */
  predicate Balanced(pending: map<Nonce, Time>, outcomes: seq<Outcome>, issued: set<Nonce>, nonce: Nonce) {
    (if nonce in pending then 1 else 0) + Settled(outcomes, nonce) == if nonce in issued then 1 else 0
  }

  ghost predicate Conserved(w: World) {
    && (forall nonce :: Balanced(w.q.pending, w.outcomes, w.issued, nonce))
    && |w.issued| == |w.q.pending| + |w.outcomes|
    && |w.samples| == Successes(w.outcomes)
    && w.q.rtts == LastOf(w.samples) && w.q.cycles == LastOf(Results(w.outcomes))
    && (forall nonce :: nonce in w.q.pending ==> nonce != "" && w.q.pending[nonce] <= w.clock)
    && (forall i :: 0 <= i < |w.samples| ==> w.samples[i] >= 0.0)
  }

  lemma OutcomeAppend(outcomes: seq<Outcome>, o: Outcome, nonce: Nonce)
    ensures Settled(outcomes + [o], nonce) == Settled(outcomes, nonce) + if o.nonce == nonce then 1 else 0
    ensures Successes(outcomes + [o]) == Successes(outcomes) + if o.ok then 1 else 0
    ensures Results(outcomes + [o]) == Results(outcomes) + [o.ok]
  {
    assert (outcomes + [o])[..|outcomes|] == outcomes;
  }

  lemma SettleKeeps(w: World, w': World, o: Outcome)
    requires Conserved(w) && o.nonce in w.q.pending
    requires w'.q.pending == w.q.pending - {o.nonce} && w'.outcomes == w.outcomes + [o] && w'.issued == w.issued
    requires w'.q.cycles == LastOf(w.q.cycles + [o.ok])
    ensures forall nonce :: Balanced(w'.q.pending, w'.outcomes, w'.issued, nonce)
    ensures |w'.issued| == |w'.q.pending| + |w'.outcomes|
    ensures w'.q.cycles == LastOf(Results(w'.outcomes))
    ensures Successes(w'.outcomes) == Successes(w.outcomes) + if o.ok then 1 else 0
  {
    forall nonce ensures Balanced(w'.q.pending, w'.outcomes, w'.issued, nonce) {
      OutcomeAppend(w.outcomes, o, nonce);
      assert Balanced(w.q.pending, w.outcomes, w.issued, nonce);
    }
    OutcomeAppend(w.outcomes, o, o.nonce);
    LastOfAppend(Results(w.outcomes), o.ok);
    assert w'.q.pending.Keys == w.q.pending.Keys - {o.nonce};
    assert |w.q.pending| == |w.q.pending.Keys| && |w'.q.pending| == |w'.q.pending.Keys|;
  }

  lemma StepKeeps(w: World, step: Step)
    requires Conserved(w) && Enabled(w, step)
    ensures Conserved(Next(w, step))
  {
    hide LastOf, Results, Settled;
    match step.act
    case Ping(nonce) => PingKeeps(w, step);
    case PongArrives(nonce) =>
      if nonce != "" && nonce in w.q.pending {
        SettleKeeps(w, Next(w, step), Outcome(nonce, true));
        LastOfAppend(w.samples, RoundTrip(w.q.pending[nonce], step.at));
      }
    case TimerFires(nonce) =>
      if nonce in w.q.pending {
        SettleKeeps(w, Next(w, step), Outcome(nonce, false));
      }
  }

  lemma PingKeeps(w: World, step: Step)
    requires Conserved(w) && Enabled(w, step) && step.act.Ping?
    ensures Conserved(Next(w, step))
  {
    hide LastOf, Results, Settled, Successes;
    var nonce, q' := step.act.nonce, Issue(w.q, step.act.nonce, step.at);
    assert Balanced(w.q.pending, w.outcomes, w.issued, nonce);
    assert nonce !in w.q.pending && Settled(w.outcomes, nonce) == 0;
    forall other ensures Balanced(q'.pending, w.outcomes, w.issued + {nonce}, other) {
      assert Balanced(w.q.pending, w.outcomes, w.issued, other);
    }
    hide Balanced;
    assert q'.pending.Keys == w.q.pending.Keys + {nonce};
    assert |w.q.pending| == |w.q.pending.Keys| && |q'.pending| == |q'.pending.Keys|;
  }

  /**
   * Every issued ping is pending or has been settled exactly once, by pong or
   * by timer; samples equal successes; the stored lists are the tails of the
   * full histories.
   */
  lemma {:induction false} PingConservation(ws: seq<World>, steps: seq<Step>, n: nat)
    requires IsRun(ws, steps) && n < |ws|
    ensures Conserved(ws[n])
  {
    if n > 0 {
      assert StepAt(ws, steps, n - 1);
      PingConservation(ws, steps, n - 1);
      StepKeeps(ws[n - 1], steps[n - 1]);
    }
  }

  /** A pong or timer for a nonce that is already settled, or never was issued, adds nothing. */
  lemma LateAddsNothing(ws: seq<World>, steps: seq<Step>, n: nat)
    requires IsRun(ws, steps) && n < |steps| && !steps[n].act.Ping?
    requires Settled(ws[n].outcomes, steps[n].act.nonce) > 0 || steps[n].act.nonce !in ws[n].issued
    ensures ws[n + 1] == ws[n].(clock := steps[n].at)
  {
    assert StepAt(ws, steps, n);
    PingConservation(ws, steps, n);
    var nonce := steps[n].act.nonce;
    assert Balanced(ws[n].q.pending, ws[n].outcomes, ws[n].issued, nonce);
  }

  // ---- What the reports show

  /** A timer never raises the score, also when the list of outcomes drops its oldest one. */
  lemma TimerNeverRaises(ws: seq<World>, steps: seq<Step>, n: nat, jitter: real)
    requires IsRun(ws, steps) && n < |steps| && steps[n].act.TimerFires?
    ensures var q, q' := ws[n].q, ws[n + 1].q;
      && q'.rtts == q.rtts
      && QualityScore.Quality(q'.rtts, q'.cycles, jitter).score <= QualityScore.Quality(q.rtts, q.cycles, jitter).score
  {
    assert StepAt(ws, steps, n);
    PingConservation(ws, steps, n);
    assert |ws[n].q.cycles| <= KEPT;
    hide IsRun, Conserved;
    TimeoutNeverRaises(ws[n].q, steps[n].act.nonce, jitter);
  }

  lemma TimeoutNeverRaises(q: State, nonce: Nonce, jitter: real)
    requires |q.cycles| <= KEPT
    ensures var q' := Timeout(q, nonce);
      && q'.rtts == q.rtts
      && QualityScore.Quality(q'.rtts, q'.cycles, jitter).score <= QualityScore.Quality(q.rtts, q.cycles, jitter).score
  {
    if nonce in q.pending {
      FailureKept(q.cycles);
      hide LastOf;
      QualityScore.MoreDropsNeverHelp(q.rtts, q.cycles, LastOf(q.cycles + [false]), jitter);
    }
  }

  lemma FailureKept(cycles: seq<bool>)
    requires |cycles| <= KEPT
    ensures QualityScore.DropPct(cycles) <= QualityScore.DropPct(LastOf(cycles + [false]))
  {
    QualityScore.DropAdded(cycles);
    if |cycles| == KEPT { assert LastOf(cycles + [false]) == cycles[1..] + [false]; }
  }

  lemma LastFailed(outcomes: seq<Outcome>)
    requires outcomes != [] && Successes(outcomes) == 0
    ensures var cycles := LastOf(Results(outcomes)); cycles != [] && !cycles[|cycles| - 1]
  {
  }

  lemma ShownRate(cycles: seq<bool>)
    requires |cycles| <= KEPT && cycles != [] && !cycles[|cycles| - 1]
    ensures QualityScore.Round1(QualityScore.DropPct(cycles)) > 0.0
  {
    var init := cycles[..|cycles| - 1];
    assert cycles == init + [false];
    QualityScore.DropsAppend(init, false);
    var d, n := QualityScore.Drops(cycles) as real, |cycles| as real;
    assert d >= 1.0 && 0.0 < n <= 5.0;
    var x := d / n;
    assert x * n == d;
    assert x >= 0.2;
    assert QualityScore.DropPct(cycles) >= 20.0;
  }

  /**
   * The drop rate shown is the rate of the kept outcomes exactly when some
   * pong has ever come in time or nothing is settled yet: as long as every
   * ping was lost, the report shows no loss.
   */
  lemma ShownDropIsTrueIff(ws: seq<World>, steps: seq<Step>, n: nat, jitter: real)
    requires IsRun(ws, steps) && n < |ws|
    ensures var q := ws[n].q;
      QualityScore.Quality(q.rtts, q.cycles, jitter).dropPct == QualityScore.Round1(QualityScore.DropPct(q.cycles)) <==>
        ws[n].samples != [] || ws[n].outcomes == []
  {
    PingConservation(ws, steps, n);
    var w := ws[n];
    assert w.q.rtts == [] <==> w.samples == [];
    if w.samples == [] && w.outcomes != [] {
      LastFailed(w.outcomes);
      ShownRate(w.q.cycles);
    }
  }
}

/**
 * The stateful occupancy simulator: one household, one instance, repeated
 * runs chained day after day.
 */
module Occupancy {
  import opened Wrappers
  import opened OccupancyChain

  /** The tables the data provider exposes, for both variants. */
  datatype DataSource = DataSource(
    fourStateStart: StartTable,
    fourStateTransitions: TransitionTable,
    occStart: StartTable,
    occActTransitions: TransitionTable)

  class OccupancyModel {
    const residents: nat
    const fourStates: bool
    const startTable: StartTable
    const transitionTable: TransitionTable

    /** Set by the first run that completes; never cleared. */
    var hasRun: bool
    /** The last run's trajectory (empty before the first run). */
    var states: seq<nat>
    var occActivity: seq<nat>
    var occNoActivity: seq<nat>

    /**
     * The outputs always decode the stored trajectory: before any run they
     * are all zero, in the seven-state variant the activity series is the
     * trajectory itself and the no-activity series stays zero.
     */
    ghost predicate Valid()
      reads this
    {
      residents >= 1 &&
      (!hasRun ==> states == [] && occActivity == Zeros(Intervals) && occNoActivity == Zeros(Intervals)) &&
      (hasRun ==> |states| == Intervals) &&
      (hasRun && fourStates ==>
         occActivity == ActivitySeries(residents, states) && occNoActivity == IdleSeries(residents, states)) &&
      (hasRun && !fourStates ==> occActivity == states) &&
      (!fourStates ==> occNoActivity == Zeros(Intervals))
    }

    /** Picks the start and transition tables of the chosen variant, once. */
    constructor (data: DataSource, residents: nat, fourStates: bool := true)
      requires residents >= 1
      ensures Valid()
      ensures this.residents == residents && this.fourStates == fourStates
      ensures startTable == (if fourStates then data.fourStateStart else data.occStart)
      ensures transitionTable == (if fourStates then data.fourStateTransitions else data.occActTransitions)
      ensures !hasRun && states == []
      ensures occActivity == Zeros(Intervals) && occNoActivity == Zeros(Intervals)
    {
      this.residents := residents;
      this.fourStates := fourStates;
      hasRun := false;
      states := [];
      if fourStates {
        startTable := data.fourStateStart;
        transitionTable := data.fourStateTransitions;
      } else {
        startTable := data.occStart;
        transitionTable := data.occActTransitions;
      }
      occActivity := Zeros(Intervals);
      occNoActivity := Zeros(Intervals);
    }

    function GetResidents(): (r: nat)
      requires Valid()
      reads this
      ensures r == residents && r >= 1
    {
      residents
    }

    /** The no-activity series; the not-yet-run check comes before the variant check. */
    function GetOccNoActivity(): (r: Result<seq<nat>, Error>)
      reads this
      ensures !hasRun ==> r == Err(NotRun)
      ensures hasRun && !fourStates ==> r == Err(NotFourState)
      ensures r.Ok? <==> hasRun && fourStates
      ensures r.Ok? ==> r.value == occNoActivity
    {
      if !hasRun then Err(NotRun)
      else if !fourStates then Err(NotFourState)
      else Ok(occNoActivity)
    }

    /** The activity series, available in both variants once a run has completed. */
    function GetOccActivity(): (r: Result<seq<nat>, Error>)
      reads this
      ensures r.Ok? <==> hasRun
      ensures r.Err? ==> r.error == NotRun
      ensures r.Ok? ==> r.value == occActivity
    {
      if !hasRun then Err(NotRun) else Ok(occActivity)
    }

    /** The last state of the previous run, if a run has completed. */
    function PreviousState(): (p: Option<nat>)
      requires Valid()
      reads this
      ensures p.Some? <==> hasRun
      ensures p.Some? ==> p.value == states[Intervals - 1]
    {
      if hasRun then Some(states[Intervals - 1]) else None
    }

    /**
     * Simulates one day. The start draw is draws[0] and the draw of interval
     * i is draws[i + 1]; `pick` turns a weight vector and a draw into an
     * index. On any error nothing of the instance changes.
     */
    method Run(day: string, draws: seq<nat>, pick: Sampler) returns (outcome: Outcome<Error>)
      requires Valid()
      requires |draws| == DrawsPerRun
      modifies this
      ensures Valid()
      ensures old(hasRun) ==> hasRun
      ensures var r := Simulate(residents, fourStates, startTable, transitionTable, old(PreviousState()), day, draws, pick);
        match r
        case Err(e) =>
          outcome == Fail(e) && hasRun == old(hasRun) && states == old(states) &&
          occActivity == old(occActivity) && occNoActivity == old(occNoActivity)
        case Ok(t) =>
          outcome == Pass && hasRun && states == t &&
          occActivity == (if fourStates then ActivitySeries(residents, t) else t) &&
          occNoActivity == (if fourStates then IdleSeries(residents, t) else old(occNoActivity))
    {
      ghost var prev := PreviousState();
      if day !in startTable {
        return Fail(UnknownDay);
      }
      if residents - 1 >= |startTable[day]| {
        return Fail(NoStartColumn);
      }
      var startWeights := startTable[day][residents - 1];
      var key := TransitionKey(day, residents);
      if key !in transitionTable {
        return Fail(UnknownTransitionKey);
      }
      var rows := transitionTable[key];

      var jump := NumRowJump(residents, fourStates);
      var drawn := pick(startWeights, draws[0]);
      if drawn.None? {
        return Fail(SamplerFailed);
      }
      var state: nat := if fourStates then StartRemap(residents, drawn.value) else drawn.value;
      if hasRun {
        state := states[Intervals - 1];
      }
      assert state == InitialState(residents, fourStates, prev, drawn.value);
      var trajectory := Advance(rows, jump, pick, draws, state);
      if trajectory.Err? {
        return Fail(trajectory.error);
      }
      var t := trajectory.value;
      if fourStates {
        occActivity := ActivitySeries(residents, t);
        occNoActivity := IdleSeries(residents, t);
      } else {
        occActivity := t;
      }
      states := t;
      hasRun := true;
      outcome := Pass;
    }
  }

  /**
   * The loop over one day: at each interval read the row `jump * interval +
   * state`, draw the next state from its probability columns and record it.
   * The first entry is preset to the start state and then overwritten by the
   * interval-0 draw.
   */
  method Advance(rows: seq<Row>, jump: nat, pick: Sampler, draws: seq<nat>, start: nat)
    returns (r: Result<seq<nat>, Error>)
    requires |draws| == DrawsPerRun
    ensures r == Chain(rows, jump, pick, draws, 0, start)
  {
    var trajectory := new nat[Intervals](_ => 0);
    trajectory[0] := start;
    var state := start;
    var interval := 0;
    assert trajectory[..interval] == [];
    ghost var whole := Chain(rows, jump, pick, draws, 0, start);
    assert whole.Ok? ==> [] + whole.value == whole.value;
    while interval < Intervals
      invariant 0 <= interval <= Intervals
      invariant whole == Prepend(trajectory[..interval], Chain(rows, jump, pick, draws, interval, state))
      modifies trajectory
    {
      ghost var rest := Chain(rows, jump, pick, draws, interval, state);
      var k := RowIndex(jump, interval, state);
      if k >= |rows| {
        assert rest == Err(RowOutOfRange(interval));
        return Err(RowOutOfRange(interval));
      }
      var next := pick(Columns(rows[k]), draws[interval + 1]);
      if next.None? {
        assert rest == Err(SamplerFailed);
        return Err(SamplerFailed);
      }
      ghost var prefix := trajectory[..interval];
      state := next.value;
      trajectory[interval] := state;
      assert trajectory[..interval + 1] == prefix + [state];
      assert rest == Prepend([state], Chain(rows, jump, pick, draws, interval + 1, state));
      PrependTwice(prefix, [state], Chain(rows, jump, pick, draws, interval + 1, state));
      interval := interval + 1;
    }
    assert Chain(rows, jump, pick, draws, Intervals, state) == Ok([]);
    assert trajectory[..] == trajectory[..Intervals] + [];
    return Ok(trajectory[..]);
  }

  /** A trajectory prefix followed by the rest of the chain, or the chain's error. */
  function Prepend(prefix: seq<nat>, r: Result<seq<nat>, Error>): Result<seq<nat>, Error> {
    match r
    case Ok(t) => Ok(prefix + t)
    case Err(e) => Err(e)
  }

  lemma PrependTwice(p: seq<nat>, q: seq<nat>, r: Result<seq<nat>, Error>)
    ensures Prepend(p, Prepend(q, r)) == Prepend(p + q, r)
  {
    if r.Ok? {
      assert p + (q + r.value) == (p + q) + r.value;
    }
  }

  /**
   * After a four-state run whose trajectory stays inside the state space,
   * both accessors succeed and, at every interval, the active and idle
   * counts add up to the residents at home and stay within the household.
   */
  lemma OccupantsWithinHousehold(m: OccupancyModel)
    requires m.Valid() && m.hasRun && m.fourStates
    requires forall t :: 0 <= t < |m.states| ==> m.states[t] < NumRowJump(m.residents, true)
    ensures m.GetOccActivity().Ok? && m.GetOccNoActivity().Ok?
    ensures var act, idle := m.GetOccActivity().value, m.GetOccNoActivity().value;
      |act| == Intervals && |idle| == Intervals &&
      forall t :: 0 <= t < Intervals ==>
        act[t] + idle[t] == Home(m.residents, m.states[t]) && act[t] + idle[t] <= m.residents
  {
    DecodedSeriesBounded(m.residents, m.states);
  }
}

/**
 * The pure part of the occupancy simulation: the start-state remap, the
 * block-offset indexing of the stacked transition table, the 144-step chain
 * driven by an opaque sampler, and the decoding of composite states into
 * active and inactive occupant counts.
 */
module OccupancyChain {
  import opened Wrappers
  import DecimalText

  /** Ten-minute intervals in one simulated day. */
  const Intervals: nat := 144

  /** Random draws one run consumes: the start draw and one per interval. */
  const DrawsPerRun: nat := Intervals + 1

  /**
   * Width of one household-size group in the start table (the start table is
   * laid out for households of up to six residents), and the number of states
   * of the seven-state variant.
   */
  const StartClasses: nat := 7

  /** Leading columns of a transition row that are not probabilities. */
  const RowHeader: nat := 2

  /** Probabilities are opaque weights: nothing is computed with them. */
  type Weight = real
  type Row = seq<Weight>

  /** Per day type, the start distributions, one column per household size. */
  type StartTable = map<string, seq<seq<Weight>>>

  /** Per key (day type and resident count), the stacked transition rows. */
  type TransitionTable = map<string, seq<Row>>

  datatype Error =
    | NotRun                  // an accessor is used before any run
    | NotFourState            // the no-activity series asked of a seven-state model
    | UnknownDay              // the start table has no entry for the day type
    | NoStartColumn           // the start table has no column for the resident count
    | UnknownTransitionKey    // the transition tables have no entry for the key
    | RowOutOfRange(interval: nat)  // the selected row lies past the table's end
    | SamplerFailed           // the sampler cannot draw from a weight vector

  /**
   * The weighted sampler: given a weight vector and the next word of the
   * process-wide random stream, the index it draws, or None when it cannot
   * draw from that vector.
   */
  type Sampler = (seq<Weight>, nat) -> Option<nat>

  /** A sampler that only ever returns indices of the vector it is given. */
  ghost predicate SamplerInRange(pick: Sampler) {
    forall w: seq<Weight>, u: nat :: pick(w, u).Some? ==> pick(w, u).value < |w|
  }

  /** Key of the transition table for a day type and a household size. */
  function TransitionKey(day: string, residents: nat): (key: string)
    ensures |key| > |day| && key[..|day|] == day
    ensures forall i :: |day| <= i < |key| ==> DecimalText.IsDigit(key[i])
    ensures DecimalText.ValueOf(key[|day|..]) == residents
  {
    DecimalText.ValueOfToDecimal(residents);
    assert (day + DecimalText.ToDecimal(residents))[|day|..] == DecimalText.ToDecimal(residents);
    day + DecimalText.ToDecimal(residents)
  }

  /** For one day type, each household size reads its own transition table. */
  lemma TransitionKeyInjective(day: string, r1: nat, r2: nat)
    requires TransitionKey(day, r1) == TransitionKey(day, r2)
    ensures r1 == r2
  {
    var k := TransitionKey(day, r1);
    assert DecimalText.ToDecimal(r1) == k[|day|..] == DecimalText.ToDecimal(r2);
    DecimalText.ToDecimalInjective(r1, r2);
  }

  // ---------------------------------------------------------------------------
  // The composite four-state encoding

  /** Distance between consecutive row blocks, i.e. the number of chain states. */
  function NumRowJump(residents: nat, fourStates: bool): (n: nat)
    ensures fourStates ==> n == Encode(residents, residents, residents) + 1
    ensures !fourStates ==> n == StartClasses
  {
    if fourStates then (residents + 1) * (residents + 1) else StartClasses
  }

  function Encode(residents: nat, home: nat, active: nat): nat {
    home * (residents + 1) + active
  }

  /** Residents at home encoded in a composite state. */
  function Home(residents: nat, state: nat): (h: nat)
    ensures h * (residents + 1) <= state < (h + 1) * (residents + 1)
  {
    state / (residents + 1)
  }

  /** Active residents encoded in a composite state. */
  function ActiveCount(residents: nat, state: nat): (a: nat)
    ensures a <= residents
  {
    state % (residents + 1)
  }

  lemma MulMono(a: nat, b: nat, c: nat)
    requires b <= c
    ensures a * b <= a * c
  {
    assert a * c - a * b == a * (c - b);
  }

  /** Quotient and remainder are the only ones with 0 <= remainder < divisor. */
  lemma DivModUnique(x: nat, d: nat, q: nat, m: nat)
    requires m < d && x == d * q + m
    ensures x / d == q && x % d == m
  {
    var q', m' := x / d, x % d;
    assert x == d * q' + m';
    if q' > q {
      MulMono(d, q + 1, q');
      assert false;
    } else if q' < q {
      MulMono(d, q' + 1, q);
      assert false;
    }
  }

  /** Decoding an encoded pair gives the pair back. */
  lemma DecodeEncode(residents: nat, home: nat, active: nat)
    requires active <= residents
    ensures Home(residents, Encode(residents, home, active)) == home
    ensures ActiveCount(residents, Encode(residents, home, active)) == active
  {
    DivModUnique(Encode(residents, home, active), residents + 1, home, active);
  }

  /** Encoding the decoded pair gives the state back. */
  lemma EncodeDecode(residents: nat, state: nat)
    ensures Encode(residents, Home(residents, state), ActiveCount(residents, state)) == state
  {
  }

  /**
   * The composite states of a household are exactly the block
   * [0, (residents+1)^2): a state lies in it iff at most `residents` are home.
   */
  lemma {:induction false} HomeBound(residents: nat, state: nat)
    ensures state < NumRowJump(residents, true) <==> Home(residents, state) <= residents
  {
    var d := residents + 1;
    var h := Home(residents, state);
    EncodeDecode(residents, state);
    assert state == h * d + state % d;
    if h <= residents {
      MulMono(d, h, residents);
      assert h * d <= residents * d;
      assert d * d == residents * d + d;
    } else {
      MulMono(d, d, h);
      assert d * d <= h * d;
    }
  }

  // ---------------------------------------------------------------------------
  // Start state

  /**
   * Remap of a start draw: the start table numbers (home, active) pairs of a
   * six-resident household as 7*home + active; the chain numbers them as
   * (residents+1)*home + active.
   */
  function StartRemap(residents: nat, s: nat): (state: nat)
    ensures residents + 1 == StartClasses ==> state == s
  {
    (residents + 1) * (s / StartClasses) + s % StartClasses
  }

  /** The remap keeps the (home, active) pair the start draw denotes. */
  lemma StartRemapKeepsPair(residents: nat, s: nat)
    requires s % StartClasses <= residents
    ensures Home(residents, StartRemap(residents, s)) == s / StartClasses
    ensures ActiveCount(residents, StartRemap(residents, s)) == s % StartClasses
    ensures s / StartClasses <= residents ==> StartRemap(residents, s) < NumRowJump(residents, true)
  {
    assert StartRemap(residents, s) == Encode(residents, s / StartClasses, s % StartClasses);
    DecodeEncode(residents, s / StartClasses, s % StartClasses);
    HomeBound(residents, StartRemap(residents, s));
  }

  /** The state the chain starts from: the previous run's last state if there is one. */
  function InitialState(residents: nat, fourStates: bool, prev: Option<nat>, s: nat): (state: nat)
    ensures prev.Some? ==> state == prev.value
    ensures prev.None? && !fourStates ==> state == s
    ensures prev.None? && fourStates ==> state == StartRemap(residents, s)
    ensures prev.None? && fourStates && s % StartClasses <= residents ==>
      Home(residents, state) == s / StartClasses && ActiveCount(residents, state) == s % StartClasses
  {
    if prev.Some? then prev.value
    else if !fourStates then s
    // Both remaining branches remap; the first only adds the lemma that
    // applies when the draw's active class fits the household.
    else if s % StartClasses <= residents then
      StartRemapKeepsPair(residents, s);
      StartRemap(residents, s)
    else StartRemap(residents, s)
  }

  // ---------------------------------------------------------------------------
  // One day of the chain

  /** Row of the stacked transition table read at an interval from a state. */
  function RowIndex(jump: nat, interval: nat, state: nat): (k: nat)
    ensures state < jump ==> jump * interval <= k < jump * (interval + 1)
  {
    jump * interval + state
  }

  /** The probability columns of a row: everything after the two header columns. */
  function Columns(row: Row): (c: seq<Weight>)
    ensures |row| < RowHeader ==> c == []
    ensures |row| >= RowHeader ==> |c| == |row| - RowHeader && forall j :: 0 <= j < |c| ==> c[j] == row[j + RowHeader]
  {
    if |row| >= RowHeader then row[RowHeader..] else []
  }

  /**
   * The states drawn on intervals `interval` .. 143, starting from `state`;
   * the draw for interval i is draws[i + 1].
   */
  function Chain(rows: seq<Row>, jump: nat, pick: Sampler, draws: seq<nat>,
                 interval: nat, state: nat): (r: Result<seq<nat>, Error>)
    requires interval <= Intervals && |draws| == DrawsPerRun
    ensures r.Ok? ==> |r.value| == Intervals - interval
    ensures r.Err? && r.error.RowOutOfRange? ==> interval <= r.error.interval < Intervals
    decreases Intervals - interval
  {
    if interval == Intervals then Ok([])
    else
      var k := RowIndex(jump, interval, state);
      if k >= |rows| then Err(RowOutOfRange(interval))
      else match pick(Columns(rows[k]), draws[interval + 1])
        case None => Err(SamplerFailed)
        case Some(next) =>
          match Chain(rows, jump, pick, draws, interval + 1, next)
          case Err(e) => Err(e)
          case Ok(rest) => Ok([next] + rest)
  }

  /** Interval `interval` moves the chain from `from` to `to`. */
  predicate StepTaken(rows: seq<Row>, jump: nat, pick: Sampler, draws: seq<nat>,
                      interval: nat, from: nat, to: nat)
    requires interval < Intervals && |draws| == DrawsPerRun
  {
    var k := RowIndex(jump, interval, from);
    k < |rows| && pick(Columns(rows[k]), draws[interval + 1]) == Some(to)
  }

  /** The state before the j-th entry of a partial trajectory. */
  function Before(state: nat, t: seq<nat>, j: nat): nat
    requires j <= |t|
  {
    if j == 0 then state else t[j - 1]
  }

  /**
   * Reference definition of a partial day: t lists the states of intervals
   * `interval` .. 143, each drawn from the row its predecessor selects.
   */
  predicate FollowsFrom(rows: seq<Row>, jump: nat, pick: Sampler, draws: seq<nat>,
                        interval: nat, state: nat, t: seq<nat>)
    requires interval <= Intervals && |draws| == DrawsPerRun
  {
    |t| == Intervals - interval &&
    forall j :: 0 <= j < |t| ==>
      StepTaken(rows, jump, pick, draws, interval + j, Before(state, t, j), t[j])
  }

  /** The chain yields t exactly when t follows the rows from the given state. */
  lemma {:induction false} ChainFollows(rows: seq<Row>, jump: nat, pick: Sampler, draws: seq<nat>,
                                        interval: nat, state: nat, t: seq<nat>)
    requires interval <= Intervals && |draws| == DrawsPerRun
    ensures Chain(rows, jump, pick, draws, interval, state) == Ok(t)
            <==> FollowsFrom(rows, jump, pick, draws, interval, state, t)
    decreases Intervals - interval
  {
    if interval < Intervals && |t| > 0 {
      var rest := t[1..];
      ChainFollows(rows, jump, pick, draws, interval + 1, t[0], rest);
      var tail := FollowsFrom(rows, jump, pick, draws, interval + 1, t[0], rest);
      var here := StepTaken(rows, jump, pick, draws, interval, state, t[0]);
      if FollowsFrom(rows, jump, pick, draws, interval, state, t) {
        assert StepTaken(rows, jump, pick, draws, interval + 0, Before(state, t, 0), t[0]);
        forall j | 0 <= j < |rest|
          ensures StepTaken(rows, jump, pick, draws, interval + 1 + j, Before(t[0], rest, j), rest[j])
        {
          assert StepTaken(rows, jump, pick, draws, interval + (j + 1), Before(state, t, j + 1), t[j + 1]);
        }
      }
      if here && tail {
        forall j | 0 <= j < |t|
          ensures StepTaken(rows, jump, pick, draws, interval + j, Before(state, t, j), t[j])
        {
          if j > 0 {
            assert StepTaken(rows, jump, pick, draws, interval + 1 + (j - 1), Before(t[0], rest, j - 1), rest[j - 1]);
          }
        }
      }
      assert t == [t[0]] + rest;
    }
  }

  /** With well-shaped tables every row block holds one row per chain state. */
  ghost predicate WellFormedTransitions(rows: seq<Row>, jump: nat) {
    Intervals * jump <= |rows| &&
    forall k :: 0 <= k < |rows| ==> |rows[k]| == RowHeader + jump
  }

  /**
   * With well-shaped tables and a sampler that stays in range, a chain that
   * starts inside the state space never leaves it and never reads past the
   * table: the only way it can fail is the sampler refusing a row.
   */
  lemma {:induction false} ChainStaysInRange(rows: seq<Row>, jump: nat, pick: Sampler, draws: seq<nat>,
                                             interval: nat, state: nat)
    requires interval <= Intervals && |draws| == DrawsPerRun
    requires WellFormedTransitions(rows, jump) && SamplerInRange(pick) && state < jump
    ensures var r := Chain(rows, jump, pick, draws, interval, state);
      (r.Ok? ==> forall j :: 0 <= j < |r.value| ==> r.value[j] < jump) &&
      (r.Err? ==> r.error == SamplerFailed)
    decreases Intervals - interval
  {
    if interval < Intervals {
      var k := RowIndex(jump, interval, state);
      MulMono(jump, interval + 1, Intervals);
      assert jump * Intervals == Intervals * jump;
      assert k < |rows|;
      var next := pick(Columns(rows[k]), draws[interval + 1]);
      if next.Some? {
        assert next.value < |Columns(rows[k])| == jump;
        ChainStaysInRange(rows, jump, pick, draws, interval + 1, next.value);
      }
    }
  }

  // ---------------------------------------------------------------------------
  // One run: start lookups, start draw, chain

  /**
   * One run of the simulation for a day type. `prev` is the last state of the
   * previous run on the same instance, if any. The start draw is always
   * taken, even when `prev` then replaces it.
   */
  function Simulate(residents: nat, fourStates: bool, start: StartTable, transitions: TransitionTable,
                    prev: Option<nat>, day: string, draws: seq<nat>, pick: Sampler): (r: Result<seq<nat>, Error>)
    requires residents >= 1 && |draws| == DrawsPerRun
    ensures r.Ok? ==> |r.value| == Intervals
  {
    if day !in start then Err(UnknownDay)
    else if residents - 1 >= |start[day]| then Err(NoStartColumn)
    else if TransitionKey(day, residents) !in transitions then Err(UnknownTransitionKey)
    else match pick(start[day][residents - 1], draws[0])
      case None => Err(SamplerFailed)
      case Some(s) =>
        Chain(transitions[TransitionKey(day, residents)], NumRowJump(residents, fourStates), pick, draws,
              0, InitialState(residents, fourStates, prev, s))
  }

  /**
   * A run yields trajectory t exactly when every lookup succeeds, the start
   * draw succeeds, and t follows the transition rows from the initial state.
   */
  lemma SimulateYields(residents: nat, fourStates: bool, start: StartTable, transitions: TransitionTable,
                       prev: Option<nat>, day: string, draws: seq<nat>, pick: Sampler, t: seq<nat>)
    requires residents >= 1 && |draws| == DrawsPerRun
    ensures Simulate(residents, fourStates, start, transitions, prev, day, draws, pick) == Ok(t)
      <==> day in start && residents - 1 < |start[day]| && TransitionKey(day, residents) in transitions
           && pick(start[day][residents - 1], draws[0]).Some?
           && FollowsFrom(transitions[TransitionKey(day, residents)], NumRowJump(residents, fourStates), pick,
                          draws, 0, InitialState(residents, fourStates, prev, pick(start[day][residents - 1], draws[0]).value), t)
  {
    if day in start && residents - 1 < |start[day]| && TransitionKey(day, residents) in transitions
       && pick(start[day][residents - 1], draws[0]).Some? {
      var s := pick(start[day][residents - 1], draws[0]).value;
      ChainFollows(transitions[TransitionKey(day, residents)], NumRowJump(residents, fourStates), pick,
                   draws, 0, InitialState(residents, fourStates, prev, s), t);
    }
  }

  /**
   * Continuity across runs: on a later run the interval-0 row is the one of
   * the previous run's last state, whatever the start draw returned; the
   * first recorded state is the draw on that row, not that last state.
   */
  lemma ContinuityOnRow(residents: nat, fourStates: bool, start: StartTable, transitions: TransitionTable,
                        last: nat, day: string, draws: seq<nat>, pick: Sampler, t: seq<nat>)
    requires residents >= 1 && |draws| == DrawsPerRun
    requires Simulate(residents, fourStates, start, transitions, Some(last), day, draws, pick) == Ok(t)
    ensures TransitionKey(day, residents) in transitions
    ensures var rows := transitions[TransitionKey(day, residents)];
      last < |rows| && RowIndex(NumRowJump(residents, fourStates), 0, last) == last &&
      pick(Columns(rows[last]), draws[1]) == Some(t[0])
  {
    SimulateYields(residents, fourStates, start, transitions, Some(last), day, draws, pick, t);
    var rows := transitions[TransitionKey(day, residents)];
    var jump := NumRowJump(residents, fourStates);
    assert StepTaken(rows, jump, pick, draws, 0 + 0, Before(last, t, 0), t[0]);
  }

  /** On a later run, changing only the start draw changes nothing as long as it still succeeds. */
  lemma ContinuityIgnoresStartDraw(residents: nat, fourStates: bool, start: StartTable, transitions: TransitionTable,
                                   last: nat, day: string, draws1: seq<nat>, draws2: seq<nat>, pick: Sampler)
    requires residents >= 1 && |draws1| == DrawsPerRun && |draws2| == DrawsPerRun
    requires draws1[1..] == draws2[1..]
    requires day in start && residents - 1 < |start[day]|
    requires pick(start[day][residents - 1], draws1[0]).Some? && pick(start[day][residents - 1], draws2[0]).Some?
    ensures Simulate(residents, fourStates, start, transitions, Some(last), day, draws1, pick)
         == Simulate(residents, fourStates, start, transitions, Some(last), day, draws2, pick)
  {
    if TransitionKey(day, residents) in transitions {
      ChainIgnoresStartDraw(transitions[TransitionKey(day, residents)], NumRowJump(residents, fourStates),
                            pick, draws1, draws2, 0, last);
    }
  }

  /** The chain reads only the interval draws, never the start draw. */
  lemma {:induction false} ChainIgnoresStartDraw(rows: seq<Row>, jump: nat, pick: Sampler,
                                                 draws1: seq<nat>, draws2: seq<nat>, interval: nat, state: nat)
    requires interval <= Intervals && |draws1| == DrawsPerRun && |draws2| == DrawsPerRun
    requires draws1[1..] == draws2[1..]
    ensures Chain(rows, jump, pick, draws1, interval, state) == Chain(rows, jump, pick, draws2, interval, state)
    decreases Intervals - interval
  {
    if interval < Intervals {
      assert draws1[interval + 1] == draws1[1..][interval] == draws2[interval + 1];
      var k := RowIndex(jump, interval, state);
      if k < |rows| {
        var next := pick(Columns(rows[k]), draws1[interval + 1]);
        if next.Some? {
          ChainIgnoresStartDraw(rows, jump, pick, draws1, draws2, interval + 1, next.value);
        }
      }
    }
  }

  /** A start draw that denotes a state of the chain once remapped. */
  predicate StartClassInRange(residents: nat, fourStates: bool, s: nat) {
    if fourStates then s / StartClasses <= residents && s % StartClasses <= residents
    else s < StartClasses
  }

  /**
   * Range invariant of a run: with well-shaped transition tables, a sampler
   * that stays in range and a start (previous last state or start draw) that
   * denotes a chain state, every recorded state lies in [0, NumRowJump) and
   * the run never reads past the end of its transition table.
   */
  lemma SimulateStaysInRange(residents: nat, fourStates: bool, start: StartTable, transitions: TransitionTable,
                             prev: Option<nat>, day: string, draws: seq<nat>, pick: Sampler)
    requires residents >= 1 && |draws| == DrawsPerRun
    requires SamplerInRange(pick)
    requires TransitionKey(day, residents) in transitions ==>
      WellFormedTransitions(transitions[TransitionKey(day, residents)], NumRowJump(residents, fourStates))
    requires prev.Some? ==> prev.value < NumRowJump(residents, fourStates)
    requires prev.None? && day in start && residents - 1 < |start[day]| && pick(start[day][residents - 1], draws[0]).Some?
             ==> StartClassInRange(residents, fourStates, pick(start[day][residents - 1], draws[0]).value)
    ensures var r := Simulate(residents, fourStates, start, transitions, prev, day, draws, pick);
      (r.Ok? ==> forall i :: 0 <= i < |r.value| ==> r.value[i] < NumRowJump(residents, fourStates)) &&
      (r.Err? ==> !r.error.RowOutOfRange?)
  {
    var key := TransitionKey(day, residents);
    if day in start && residents - 1 < |start[day]| && key in transitions
       && pick(start[day][residents - 1], draws[0]).Some? {
      var s := pick(start[day][residents - 1], draws[0]).value;
      var jump := NumRowJump(residents, fourStates);
      if prev.None? && fourStates {
        StartRemapKeepsPair(residents, s);
      }
      ChainStaysInRange(transitions[key], jump, pick, draws, 0, InitialState(residents, fourStates, prev, s));
    }
  }

  // ---------------------------------------------------------------------------
  // Decoding

  /** Occupants at home that are active, and at home but not active. */
  datatype Occupants = Occupants(active: nat, idle: nat)

  /**
   * Decode a composite state with clipping: active = min(home, active count),
   * idle = max(home - active count, 0).
   */
  function DecodeState(residents: nat, state: nat): (o: Occupants)
    ensures o.active + o.idle == Home(residents, state)
    ensures o.active <= ActiveCount(residents, state)
    ensures state < NumRowJump(residents, true) ==> o.active <= residents && o.idle <= residents
  {
    HomeBound(residents, state);
    var home := Home(residents, state);
    var active := ActiveCount(residents, state);
    Occupants(if home <= active then home else active,
              if home - active >= 0 then home - active else 0)
  }

  /** Element-wise active counts of a trajectory. */
  function ActivitySeries(residents: nat, states: seq<nat>): (s: seq<nat>)
    ensures |s| == |states|
  {
    seq(|states|, t requires 0 <= t < |states| => DecodeState(residents, states[t]).active)
  }

  /** Element-wise idle counts of a trajectory. */
  function IdleSeries(residents: nat, states: seq<nat>): (s: seq<nat>)
    ensures |s| == |states|
  {
    seq(|states|, t requires 0 <= t < |states| => DecodeState(residents, states[t]).idle)
  }

  /**
   * For a four-state trajectory inside the state space, at every interval the
   * active and idle counts add up to the residents at home and neither, nor
   * their sum, exceeds the household size.
   */
  lemma DecodedSeriesBounded(residents: nat, states: seq<nat>)
    requires forall t :: 0 <= t < |states| ==> states[t] < NumRowJump(residents, true)
    ensures forall t :: 0 <= t < |states| ==>
      ActivitySeries(residents, states)[t] + IdleSeries(residents, states)[t] == Home(residents, states[t]) &&
      ActivitySeries(residents, states)[t] + IdleSeries(residents, states)[t] <= residents
  {
    forall t | 0 <= t < |states|
      ensures ActivitySeries(residents, states)[t] + IdleSeries(residents, states)[t] <= residents
    {
      HomeBound(residents, states[t]);
    }
  }

  function Zeros(n: nat): (s: seq<nat>)
    ensures |s| == n && forall i :: 0 <= i < n ==> s[i] == 0
  {
    seq(n, _ => 0)
  }
}

# Household occupancy chain, modelled in Dafny

This project models the `OccupancyModel` class of the tsorb thermal
simulation. The class simulates one household day as a 144-step Markov chain
at 10-minute resolution. A chain state is a composite number. In the
four-state variant it packs how many residents are at home and how many of
them are active. In the seven-state variant it is used as it stands.

One run goes like this:

- It looks up the start distribution for the day type and household size,
  and the stacked transition table under the key "day type + resident count".
- It draws a start state. In the four-state variant it remaps that draw from
  the six-resident layout of the start table (`7*home + active`) into the
  household's own layout (`(residents+1)*home + active`).
- If an earlier run exists on the same instance, it replaces that start with
  the last state of the earlier run.
- For each interval `i` it reads row `jump*i + state`, draws the next state
  from that row's probability columns (everything after the first two
  columns) and records it.
- Finally it decodes the trajectory into active and home-but-inactive
  occupant counts.

The instance keeps a sticky "has run" flag, the last trajectory and the two
output series. The two accessors refuse to answer before the first run, and
the no-activity accessor also refuses in the seven-state variant.

Files:

- `wrappers.dfy`: `Option`, `Result` and `Outcome`.
- `decimal_text.dfy`: the decimal text of a resident count, used in the
  transition-table key, with its round trip.
- `occupancy_chain.dfy`: the pure part. It holds the encoding and decoding,
  the start remap, the row indexing, the chain as a reference function
  (`Chain`, `Simulate`), an independent step-by-step characterisation
  (`FollowsFrom`), and the lemmas about them.
- `occupancy_model.dfy`: the class `OccupancyModel`. Its fields are
  `residents`, `fourStates`, the two selected tables, `hasRun`, `states`,
  `occActivity` and `occNoActivity`. It has the accessors and `Run`. The
  per-interval loop is the method `Advance`, which writes the day's states
  into a fresh array one interval at a time and is proved equal to `Chain`.

The weighted sampler is not modelled inside. It is a function parameter
`pick: (weights, draw) -> Option<index>`. `draw` is the next word of the
random stream, and `None` means the sampler cannot draw from that vector.
Every completed run consumes exactly 145 draws: `draws[0]` is the start draw and
`draws[i+1]` is the draw of interval `i`. The start draw is taken, and can
fail, even when an earlier run's last state then replaces it. The sampler
returning an index of the vector it is given is the predicate
`SamplerInRange`. Only the range lemmas need it. `Run` itself checks the row
index against the table and reports a row past the end as an error.

Continuity across runs holds on the interval-0 row, not on `states[0]`. The
previous run's last state selects row 0, and `states[0]` is set to it and then
overwritten by the interval-0 draw (`tsorb/OccupancyModel.py:97-106`).
`ContinuityOnRow` states this.

## Model

| member | source | states |
|---|---|---|
| `Occupancy.OccupancyModel.constructor` | tsorb/OccupancyModel.py:7-36 | the variant defaults to four-state; picks the four-state or the occupancy start and transition tables by variant; not run yet, no trajectory, both series are 144 zeros |
| `Occupancy.OccupancyModel.GetResidents` | tsorb/OccupancyModel.py:38-40 | the configured household size, always available and at least 1 |
| `Occupancy.OccupancyModel.GetOccNoActivity` | tsorb/OccupancyModel.py:42-54 | fails with NotRun before any run (checked first), with NotFourState in the seven-state variant after a run, and otherwise returns the no-activity series; succeeds iff run and four-state |
| `Occupancy.OccupancyModel.GetOccActivity` | tsorb/OccupancyModel.py:56-63 | succeeds iff a run has completed, fails with NotRun otherwise, returns the activity series |
| `Occupancy.OccupancyModel.PreviousState` | tsorb/OccupancyModel.py:96-98 | a previous last state exists exactly when a run has completed, and it is the stored trajectory's last entry (`states[143]`) |
| `Occupancy.OccupancyModel.Run` | tsorb/OccupancyModel.py:65-118 | keeps the class invariant (outputs decode the stored trajectory; seven-state no-activity stays zero); the flag never goes back to false; on any lookup, sampler or row error, nothing changes and that error is returned; otherwise sets the flag, stores the trajectory of `Simulate` from the previous last state, and stores its decoded series (seven-state: activity = trajectory, no-activity untouched) |
| `Occupancy.Advance` | tsorb/OccupancyModel.py:101-106 | the in-place 144-step loop returns exactly the reference chain from the start state, including the interval at which a row lies past the table |
| `Occupancy.OccupantsWithinHousehold` | tsorb/OccupancyModel.py:109-113 | after a four-state run inside the state space, both accessors succeed with 144 entries, and at each interval active + inactive = residents at home and is at most the household size |
| `OccupancyChain.Simulate` | tsorb/OccupancyModel.py:80-106 | one run: a successful result always has 144 states |
| `OccupancyChain.SimulateYields` | tsorb/OccupancyModel.py:82-106 | a run yields trajectory t iff the day, start column and transition key exist, the start draw succeeds, and every interval's state is the draw on the row its predecessor (or the initial state) selects |
| `OccupancyChain.ContinuityOnRow` | tsorb/OccupancyModel.py:96-106 | on a later run the interval-0 row is the previous last state's own row, and the first recorded state is the draw on that row |
| `OccupancyChain.ContinuityIgnoresStartDraw` | tsorb/OccupancyModel.py:84-98 | on a later run the outcome does not depend on which value the start draw returned, as long as it succeeds |
| `OccupancyChain.ChainIgnoresStartDraw` | tsorb/OccupancyModel.py:102-106 | the per-interval loop reads only the interval draws, never the start draw |
| `OccupancyChain.SimulateStaysInRange` | tsorb/OccupancyModel.py:82-106 | with the table this household reads well shaped (other household sizes' tables in the map may have other widths), a sampler in range and a start inside the state space, every state lies in [0, NumRowJump) and no row past the table is read |
| `OccupancyChain.Chain` | tsorb/OccupancyModel.py:102-106 | the rest of the day from an interval has one state per remaining interval; a row error names an interval still to come |
| `OccupancyChain.ChainFollows` | tsorb/OccupancyModel.py:102-106 | the chain yields t iff each t[j] is the sampler's draw on row `jump*(interval+j) + previous state` with that interval's draw |
| `OccupancyChain.ChainStaysInRange` | tsorb/OccupancyModel.py:102-106 | with well-shaped tables and an in-range sampler, a chain started in range stays in range and can fail only by the sampler refusing a row |
| `OccupancyChain.RowIndex` | tsorb/OccupancyModel.py:103 | for a state below the jump, the row read at interval i lies in block i, `[jump*i, jump*(i+1))` |
| `OccupancyChain.Columns` | tsorb/OccupancyModel.py:103 | the sampler sees the row without its first two columns, element for element; a row shorter than two columns gives an empty vector |
| `OccupancyChain.StartRemap` | tsorb/OccupancyModel.py:89-91 | for a six-resident household (the layout of the start table) the remap is the identity |
| `OccupancyChain.StartRemapKeepsPair` | tsorb/OccupancyModel.py:89-91 | the remapped start decodes to the same (home, active) pair, `s div 7` and `s mod 7`, that the start draw denotes, and lies in the state space when both are at most the household size |
| `OccupancyChain.TransitionKey` | tsorb/OccupancyModel.py:83 | the key is the day type followed by decimal digits only, and those digits denote the resident count |
| `OccupancyChain.InitialState` | tsorb/OccupancyModel.py:87-98 | with a previous run, the chain starts from its last state whatever the start draw; otherwise from the start draw: seven-state unchanged, four-state always `StartRemap(residents, s)`, which decodes to the draw's pair `s div 7`, `s mod 7` when `s mod 7 <= residents` |
| `OccupancyChain.NumRowJump` | tsorb/OccupancyModel.py:88-93 | four-state: one more than the encoding of the largest pair (residents home, residents active), i.e. exactly the encodable states; seven-state: 7 |
| `OccupancyChain.Home` | tsorb/OccupancyModel.py:110 | the decoded home count h is the floor quotient: `h*(residents+1) <= state < (h+1)*(residents+1)` |
| `OccupancyChain.TransitionKeyInjective` | tsorb/OccupancyModel.py:83 | for one day type, different household sizes have different transition-table keys |
| `OccupancyChain.ActiveCount` | tsorb/OccupancyModel.py:111 | the active count decoded from a state never exceeds the household size |
| `OccupancyChain.DecodeEncode` | tsorb/OccupancyModel.py:110-111 | decoding home and active counts from `home*(residents+1) + active` gives the pair back when active is at most the household size |
| `OccupancyChain.EncodeDecode` | tsorb/OccupancyModel.py:110-111 | re-encoding the decoded pair gives the state back |
| `OccupancyChain.HomeBound` | tsorb/OccupancyModel.py:88 | a state lies below `(residents+1)^2` iff at most `residents` are decoded as home |
| `OccupancyChain.DecodeState` | tsorb/OccupancyModel.py:109-113 | `min(home, active)` plus `max(home-active, 0)` equals home, the active output is at most the active count, and inside the state space both are within the household size |
| `OccupancyChain.ActivitySeries` | tsorb/OccupancyModel.py:112 | one decoded active count per interval of the trajectory |
| `OccupancyChain.IdleSeries` | tsorb/OccupancyModel.py:113 | one decoded home-but-inactive count per interval of the trajectory |
| `OccupancyChain.DecodedSeriesBounded` | tsorb/OccupancyModel.py:109-113 | for a trajectory inside the state space, at every interval active + inactive equals the residents at home and is at most the household size |
| `DecimalText.ToDecimal` | tsorb/OccupancyModel.py:83 | the resident count is rendered as a non-empty digit string without a leading zero |
| `DecimalText.ValueOfToDecimal` | tsorb/OccupancyModel.py:83 | reading the rendered count back gives the count |
| `DecimalText.ToDecimalInjective` | tsorb/OccupancyModel.py:83 | different counts render differently |

## Left out

- The sampler's internals are not part of this model: the cumulative sums, the floating-point weights and the uniform draw. The sampler is an opaque function of the weight vector and one random word. This assumes each draw consumes one word of the random stream.
- `set_seed` (`tsorb/OccupancyModel.py:120-126`) is left out. It reseeds the process-wide random generator, and the model passes the random stream explicitly instead.
- How the data provider loads its tables is left out. The constructor receives the four tables as a value. The start table is given per day type as a list of columns, so column `residents - 1` (line 82) is a sequence index.
- Probabilities are opaque `real` weights. Only the length of a weight vector matters to the model.
- The constructor requires `residents >= 1`. With 0 residents, numpy's column index `-1` would silently read the last column, and that is not modelled.
- In the seven-state variant the source stores the same numpy array as both `_states` and `occ_activity`. The model keeps two equal sequences, so aliasing through a caller that mutates the returned array is not captured.
- The accessors return the stored arrays by reference. Later changes a caller makes to them are not modelled.
- Statistical properties of the sampled trajectories, such as frequencies converging to the table's probabilities, cannot be stated about a deterministic model.
- `Run`'s draw stream must hold exactly 145 draws. A stream that runs dry is not modelled.
- A run that fails part-way stops drawing at the failure. The model does not track how much of the random stream such a run has used; it receives the full 145-draw stream either way.

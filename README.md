# libpomdp core, modelled in Dafny

This project models four pieces of libpomdp, a Java library of POMDP
solvers, and proves properties of them:

- **Blind-policy value iteration (`BpviStd`)**, in `bpvi.dfy`.
  - The constructor builds one alpha vector per action. Each vector is the
    constant `min_s R(s,a)/(1-γ)`.
  - Each call to `iterate()` snapshots the value function. It then replaces
    vector `a` in place by `γ·T(a)·vector + R(·,a)`, and registers the round
    with the statistics object.
  - The class keeps its fields: `current`, the snapshot `old` (named
    `previous`, because `old` is a Dafny keyword) and the statistics object.
  - The value functions the code produces are specified by pure functions
    (`BlindInit`, `Backup`, `Round`, `Rounds`). Lemmas about those
    functions prove the following, for stochastic transition matrices:
    - the initial vectors are lower bounds;
    - rounds never lower a coefficient;
    - every coefficient stays at or below `max_s R(s,a)/(1-γ)`.
  - The object's invariant ties its fields to that history. After `n` calls
    to `iterate()`, `current` is round `n` from the blind start and the
    snapshot is round `n-1`. `Iterate` therefore promises both properties
    for the object itself.
- **The catch-problem generator's helpers (`CatchGen`)**, in `catchgen.dfy`
  and `decimal.dfy`.
  - It has grid arithmetic on locations numbered row by row.
  - It has the builders of SPUDD text fragments: indentation, variable
    declarations, point-mass leaves, the location observation diagram and
    the collocation reward diagram.
  - Each builder is a method with the source's loop. It is proved to return
    a specification string. Lemmas give that string its meaning:
    - the declared values are distinct;
    - the point mass has total mass 1 exactly when the position is in range;
    - the reward is 10 exactly on the diagonal.
  - Java's rendering of an `int` inside a string concatenation is
    `NatToString`: decimal digits with no leading zero. It is proved
    injective and invertible.
- **The conversion of a parsed alpha file (`DotAlphaParserFlat.getValueFunction`)**,
  in `dotalpha.dfy`.
  - It fills fresh `int[]` and `double[][]` arrays from the parser's
    `actions` and `alphas`. It is proved against the function `Convert`.
  - The model also has an error result. It occurs exactly where the Java
    code would raise an index error.
- **The symbolic belief-state record (`BeliefStateAdd`)**, in
  `beliefstate.dfy`.
  - It is a class with the four fields, its constructor, and its getters
    and setters.

Supporting modules:

- `vectors.dfy` models the parts of `CustomVector` and `Utils.argmin` that
  the solver uses. Vectors are sequences of reals and matrices are
  sequences of rows.
- `wrappers.dfy` holds an `Option` type.

Modelling decisions:

- **Inputs.**
  - The parts of `PomdpStd` that the solver reads are a datatype `Pomdp`.
    `Valid()` requires a positive number of states, `0 <= γ < 1`, and
    consistent dimensions. The factor `1/(1-γ)` and `argmin` are otherwise
    undefined.
  - The parser's static fields become the parameters of `GetValueFunction`.
  - The decision-diagram type is a type parameter of `BeliefStateAdd`. The
    library call `OP.convert2array` is a function parameter of `GetPoint`.
- **Java semantics made explicit.**
  - Java `/` and `%` truncate toward zero (`JavaDiv`, `JavaRem`).
  - `getxy` is taken as `(pos % WIDTH, pos / WIDTH)`. This is the
    definition commented out in `CatchGen.java`.
  - `CatchGen` never changes its dimensions after construction. They are
    therefore a `Grid` value passed to each member.
- **Behaviour of the code worth stating.**
  - The blind-policy upper bound holds per action: `max_s R(s,a)/(1-γ)`.
    A per-state bound `max_a R(s,a)/(1-γ)` fails, because value flows
    between states through `T(a)`. `PerStateBoundFails` shows a two-state
    example where state s0 has no reward yet reaches 0.5 after two rounds.
  - `getValueFunction` looks at `alphas[i]` only inside the inner loop.
    When `alphas[0]` is empty, any number of actions therefore converts
    without error (`Convertible`).
  - The non-collocated reward leaf keeps the source's trailing space before
    the newline: `"(0.0)) \n"`.

## Model

| member | source | states |
|---|---|---|
| Bpvi.BlindInit | src/libpomdp/solve/java/vi/heuristic/BpviStd.java:33-43 | the initial value function has exactly nrActions entries; entry a is tagged a and has nrStates coefficients |
| Bpvi.BlindInitValue | src/libpomdp/solve/java/vi/heuristic/BpviStd.java:36-41 | every initial coefficient of action a equals 1/(1-γ) · min_s R(s,a) |
| Bpvi.BlindInitIsLowerBound | src/libpomdp/solve/java/vi/heuristic/BpviStd.java:36-41 | each initial coefficient of action a is ≤ R(t,a)/(1-γ) for every state t, with equality for some t |
| Bpvi.Backup | src/libpomdp/solve/java/vi/heuristic/BpviStd.java:62-63 | the backup γ·T(a)·v + R(·,a) has one coefficient per state |
| Bpvi.BackupAt | src/libpomdp/solve/java/vi/heuristic/BpviStd.java:62-63 | coordinate s of the backup is γ·(row s of T(a) · v) + R(s,a) |
| Bpvi.Round | src/libpomdp/solve/java/vi/heuristic/BpviStd.java:60-65 | a round keeps the number of entries and every action tag; each entry gets its own action's backup |
| Bpvi.Rounds | src/libpomdp/solve/java/vi/heuristic/BpviStd.java:56-68 | after any number of rounds the value function keeps the solver's shape |
| Bpvi.BackupMonotone | src/libpomdp/solve/java/vi/heuristic/BpviStd.java:62-63 | with a stochastic T(a), backing up a pointwise larger vector gives a pointwise larger result |
| Bpvi.BlindBackupImproves | src/libpomdp/solve/java/vi/heuristic/BpviStd.java:36-41 | the first backup of an initial blind vector lowers no coefficient |
| Bpvi.BlindMonotone | src/libpomdp/solve/java/vi/heuristic/BpviStd.java:56-68 | from the blind start, round n+1 dominates round n in every entry, for every n |
| Bpvi.BackupBounded | src/libpomdp/solve/java/vi/heuristic/BpviStd.java:62-63 | a vector bounded by max_s R(s,a)/(1-γ) stays bounded by it after the backup of action a |
| Bpvi.BlindBounded | src/libpomdp/solve/java/vi/heuristic/BpviStd.java:35-65 | every coefficient of every round from the blind start is ≤ max_s R(s,a)/(1-γ) |
| Bpvi.NextRound | src/libpomdp/solve/java/vi/heuristic/BpviStd.java:56-68 | round n+1 is one more round after round n; with stochastic transitions it dominates round n and keeps every coefficient within max_s R(s,a)/(1-γ) |
| Bpvi.DriftToRewardRound1 | src/libpomdp/solve/java/vi/heuristic/BpviStd.java:60-65 | in the two-state example where both states move to the rewarded s1, one round turns [0, 0] into [0, 1] |
| Bpvi.DriftToRewardRound2 | src/libpomdp/solve/java/vi/heuristic/BpviStd.java:60-65 | in the same example the next round turns [0, 1] into [0.5, 1.5] |
| Bpvi.PerStateBoundFails | src/libpomdp/solve/java/vi/heuristic/BpviStd.java:56-68 | a valid, stochastic model where after two rounds from the blind start the coefficient of s0 exceeds R(s0,a)/(1-γ): the bound holds per action, not per state |
| Bpvi.SingleStateFixpoint | src/libpomdp/solve/java/vi/heuristic/BpviStd.java:35-65 | with one state, R = 1, T = identity and γ = 0.9, the blind vector is [10] and one round leaves it at [10] |
| Bpvi.ValueIterationStats.constructor | src/libpomdp/solve/java/vi/heuristic/BpviStd.java:31 | a new statistics object has registered no rounds |
| Bpvi.ValueIterationStats.Register | src/libpomdp/solve/java/vi/heuristic/BpviStd.java:66 | registering counts one more round and records the size passed, after the earlier ones |
| Bpvi.BpviStd.constructor | src/libpomdp/solve/java/vi/heuristic/BpviStd.java:28-45 | the loop over actions builds exactly BlindInit; there is no snapshot yet and the fresh statistics object is empty |
| Bpvi.BpviStd.Iterate | src/libpomdp/solve/java/vi/heuristic/BpviStd.java:56-68 | the snapshot is the value function from before the round; the in-place loop leaves every entry a equal to γ·T(a)·old(a) + R(·,a); tags and count are unchanged; exactly one round with size current.size() is registered and the statistics object is returned; with stochastic transitions no coefficient goes down and every coefficient stays ≤ max_s R(s,a)/(1-γ), because the invariant keeps current equal to the round count's Rounds from the blind start |
| Vectors.ArgMin | src/libpomdp/solve/java/vi/heuristic/BpviStd.java:39-40 | argmin returns an index of the vector whose entry is ≤ every entry |
| Vectors.MinOf | src/libpomdp/solve/java/vi/heuristic/BpviStd.java:40-41 | vr.get(argmin) is an entry of the vector and ≤ every entry |
| Vectors.ScaledMin | src/libpomdp/solve/java/vi/heuristic/BpviStd.java:38-41 | for a positive factor, the minimum of the scaled rewards is the factor times the minimum reward |
| Decimal.NatToString | src/java/libpomdp/problemgen/catchproblem/CatchGen.java:210 | Java's rendering of a non-negative int: a non-empty string of decimal digits with no leading zero except for 0 itself |
| Decimal.ParseNatToString | src/java/libpomdp/problemgen/catchproblem/CatchGen.java:210 | reading back the rendered digits gives the number |
| Decimal.NatToStringInjective | src/java/libpomdp/problemgen/catchproblem/CatchGen.java:210 | distinct numbers render as distinct strings |
| CatchGen.GetXY | src/java/libpomdp/problemgen/catchproblem/CatchGen.java:299-305 | row·WIDTH + column is the position; for a non-negative position and positive width the column lies in [0, WIDTH) and the row is ≥ 0 |
| CatchGen.GetPos | src/java/libpomdp/problemgen/catchproblem/CatchGen.java:292-294 | for 0 ≤ x < WIDTH and y ≥ 0 the location is non-negative, its quotient by WIDTH is y and its remainder is x |
| CatchGen.GetAdjacentPos | src/java/libpomdp/problemgen/catchproblem/CatchGen.java:275-289 | one step N, S, E or W from p1 is p1 + WIDTH, p1 − WIDTH, p1 + 1 or p1 − 1 |
| CatchGen.CellStep | src/java/libpomdp/problemgen/catchproblem/CatchGen.java:292-305 | a non-negative location has column x and row y exactly when x is on the grid, y ≥ 0 and the location is y·WIDTH + x |
| CatchGen.GetAdjIndex | src/java/libpomdp/problemgen/catchproblem/CatchGen.java:403-426 | the neighbour code is always in -1..4 |
| CatchGen.AdjIndexNeighbours | src/java/libpomdp/problemgen/catchproblem/CatchGen.java:403-426 | on non-negative positions: 0 iff q = p; 1 iff q is one row up; 2 iff q is one column right in the same row; 3 iff q is one row down; 4 iff q is one column left in the same row |
| CatchGen.AdjIndexSymmetric | src/java/libpomdp/problemgen/catchproblem/CatchGen.java:403-426 | getAdjIndex(p,q) is 0, 1 or 2 iff getAdjIndex(q,p) is 0, 3 or 4 respectively |
| CatchGen.AdjacentPosIndex | src/java/libpomdp/problemgen/catchproblem/CatchGen.java:275-289 | a step N, S, E or W that stays on the grid is the neighbour getAdjIndex codes 1, 3, 2 or 4 |
| CatchGen.GetPosOfGetXY | src/java/libpomdp/problemgen/catchproblem/CatchGen.java:292-305 | getpos(getxy(p)) = p for every position p and non-zero width |
| CatchGen.GetXYOfGetPos | src/java/libpomdp/problemgen/catchproblem/CatchGen.java:292-305 | getxy(getpos(x,y)) = (x,y) for 0 ≤ x < WIDTH and y ≥ 0 |
| CatchGen.JavaDivRemNonNegative | src/java/libpomdp/problemgen/catchproblem/CatchGen.java:299-305 | on non-negative positions Java's / and % agree with Euclidean division and the column lies in [0, WIDTH) |
| CatchGen.Indentation | src/java/libpomdp/problemgen/catchproblem/CatchGen.java:448-452 | the indentation string has exactly i characters, all spaces, and none for i ≤ 0 |
| CatchGen.Ind | src/java/libpomdp/problemgen/catchproblem/CatchGen.java:448-452 | the loop appending one space per iteration returns exactly the indentation of i |
| CatchGen.VarDecl | src/java/libpomdp/problemgen/catchproblem/CatchGen.java:208-213 | the loop returns "(" + name, then " name0" … " name(N-1)" in index order, then ")"; "(name)" for N ≤ 0 |
| CatchGen.ValueListDeclaresValues | src/java/libpomdp/problemgen/catchproblem/CatchGen.java:208-213 | for a name without spaces the declaration lists exactly N values, and values with different indices have different names |
| CatchGen.MassX | src/java/libpomdp/problemgen/catchproblem/CatchGen.java:309-320 | the loop returns the leaf groups " (nameC (p))" of the point mass on pos, for C = 0 … l-1 in order |
| CatchGen.PointMassOneHot | src/java/libpomdp/problemgen/catchproblem/CatchGen.java:313-316 | value c gets probability 1.0 iff c = pos and 0.0 otherwise |
| CatchGen.PointMassTotal | src/java/libpomdp/problemgen/catchproblem/CatchGen.java:309-320 | the emitted probabilities total 1 when 0 ≤ pos < l and 0 when pos is out of range |
| CatchGen.Ldd | src/java/libpomdp/problemgen/catchproblem/CatchGen.java:348-356 | the loop returns "(apos'\n", then for every location c the row that puts aloc' on c, then ")\n" |
| CatchGen.LocationRowExact | src/java/libpomdp/problemgen/catchproblem/CatchGen.java:351-353 | every row of the location diagram is a distribution of total mass 1 on exactly its own location |
| CatchGen.CollocatedReward | src/java/libpomdp/problemgen/catchproblem/CatchGen.java:430-445 | the nested loops return the reward diagram: one row per agent location, each with one leaf per wumpus location, in index order |
| CatchGen.RewardLeafCollocated | src/java/libpomdp/problemgen/catchproblem/CatchGen.java:435-439 | the leaf for (apos c, wpos k) reads (10.0) iff k = c and (0.0) otherwise |
| CatchGen.RewardRowTotal | src/java/libpomdp/problemgen/catchproblem/CatchGen.java:434-440 | each agent location's row rewards exactly one wumpus location: its rewards total 10 when c < N |
| DotAlphaParserFlat.Convertible | src/libpomdp/parser/DotAlphaParserStd.java:44-51 | alphas[0] exists and, when it has coefficients, every action has a row at least as long; equivalently, alphas[0] exists and every cell (i, j) with i < actions.length and j < alphas[0].length that the loops read exists |
| DotAlphaParserFlat.Convert | src/libpomdp/parser/DotAlphaParserStd.java:42-55 | defined exactly when the arrays allow the loops; then as many actions and rows as actions.length, a[i] = actions[i], every row of length alphas[0].length, and v[i][j] = alphas[i][j] |
| DotAlphaParserFlat.GetValueFunction | src/libpomdp/parser/DotAlphaParserStd.java:42-55 | succeeds iff no index error occurs; then fresh arrays hold exactly Convert's result |
| DotAlphaParserFlat.ConvertRectangular | src/libpomdp/parser/DotAlphaParserStd.java:49-52 | on rectangular input with one row per action the conversion returns the parsed rows and actions unchanged |
| AddBelief.BeliefStateAdd.constructor | src/libpomdp/common/java/add/BeliefStateAdd.java:33-37 | stores the diagram, the state ids and poba unchanged; the plan id starts at -1 |
| AddBelief.BeliefStateAdd.GetPoint | src/libpomdp/common/java/add/BeliefStateAdd.java:41-43 | returns a fresh array holding the conversion of the diagram over the state ids and changes nothing |
| AddBelief.BeliefStateAdd.GetPoba | src/libpomdp/common/java/add/BeliefStateAdd.java:46-48 | returns poba |
| AddBelief.BeliefStateAdd.SetPoba | src/libpomdp/common/java/add/BeliefStateAdd.java:51-53 | poba becomes the argument; the plan id and the diagram are unchanged |
| AddBelief.BeliefStateAdd.GetAlpha | src/libpomdp/common/java/add/BeliefStateAdd.java:56-58 | returns the plan id |
| AddBelief.BeliefStateAdd.SetAlpha | src/libpomdp/common/java/add/BeliefStateAdd.java:61-63 | the plan id becomes the argument; poba and the diagram are unchanged |
| AddBelief.BeliefStateAdd.GetEntropy | src/libpomdp/common/java/add/BeliefStateAdd.java:66-69 | always returns 0 |

## Left out

- Clocks. `System.currentTimeMillis` and the elapsed times passed to `register` and `init_time` are left out. `Register` records only the size.
- `stopCriterias` and the `Criteria` list are left out. They are only built, never used here.
- `ValueIterationStats`, `ValueFunctionStd`, `CustomVector`, `PomdpStd` and `Utils.argmin` are not part of this model. They are modelled abstractly:
  - vectors are sequences of reals;
  - `T(a).mult(γ, v)` is γ·(T(a)·v);
  - `argmin` returns the first index of a minimal entry. The value used, `vr.get(idx)`, is the same for any minimal index.
- Bpvi.BpviStd.Iterate: it does not model aliasing between `old`, `current` and the vectors returned by `getVectorRef`. `copy()` is taken as a deep copy, so `previous` is a separate value.
- Floating point. Java doubles are idealised as reals, with no IEEE rounding.
- Bpvi.Pomdp.Valid: the model requires `0 <= γ < 1` and at least one state. `1/(1-γ)` and `argmin` of an empty array are otherwise undefined. A negative discount would flip the direction of the monotonicity and bound proofs.
- CatchGen.GetPos: `y·WIDTH + x` is unbounded here. Java's 32-bit `int` overflow is not modelled. It needs a grid of more than 2^31 locations.
- CatchGen.GetXY: the model requires a non-zero width. With `WIDTH = 0` the Java `%` raises `ArithmeticException`.
- `getxy` belongs to a grid-properties class that is not part of this model. It is taken from the definition commented out in `CatchGen.java`.
- `CatchGen.generate` is left out. It is `PrintStream` output.
- `buildInit`, `unifD` and `wumpusb` are left out. They depend on `String.format` of floating-point probabilities.
- `move`, `sensingdd` and `wumpusb` are left out. They also depend on grid, sensor and wumpus classes that are not part of this model.
- `DotAlphaParserFlat.parse` is left out. It is an ANTLR lexer and parser together with file I/O.
- Null entries in the parsed `Integer[]` and `Double[][]` arrays are left out: `intValue()` on a null entry would raise `NullPointerException`. A null `actions` or `alphas` field is left out too.
- `OP.convert2array` is left out, along with the decision-diagram library behind it. It is a parameter of `GetPoint`.
- `BeliefState.java` and `ValueFunction.java` are interfaces with no behaviour.
- `LogmaxDiffReward.java` depends on floating-point `Math.log` over a belief type that is not part of this model.

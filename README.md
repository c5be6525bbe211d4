# timer — a verified model of the `Timer` stopwatch

This project models `timer::Timer`, a stopwatch that accumulates the time
between repeated start/stop pairs, and the two `latency` helpers that time a
single call. It is one Dafny module, `Timer`, in `timer.dfy`.

The model has two layers.

- **Pure.** `Snapshot` is the timer's three fields as a value: the
  accumulator, the start instant and the stop instant. `Created`, `Started`,
  `Stopped` and `Zeroed` say what each operation does to them. `Run` applies
  a history of calls. The lemmas about `Run` state the documented promises
  over whole histories: no decrease between resets, never negative, and the
  sum of the completed intervals.
- **Imperative.** `class Timer` has the fields `accumulated`, `start` and
  `stop`, which its methods update in place. It also has two ghost fields.
  `running` says whether the timer was last started or stopped. `Intervals`
  lists the intervals `Stop` added since creation or the last `Zero`. Each
  method states its new state through the pure transition functions.
  `Valid()` ties the accumulator to the sum of `Intervals`.

How the source's concepts appear in the model:

- **Clock.** The clock is not read. `Start(now)` and `Stop(now)` take the
  reading as a parameter. A reading is an integer tick count since the
  clock's epoch.
- **Steady clock.** `Clock::is_steady` is required at compile time. In the
  model it becomes a precondition: a reading is never earlier than an
  instant the timer already holds (`Latest`). Over a history it is the
  predicate `Steady`.
- **Initial instants.** The start and stop instants of a new timer are
  default-constructed time points. A default `std::chrono::time_point` is
  the clock's epoch, so they are `Epoch` (0).
- **Method bodies.** The bodies are in `Timer.inl`. `Timer.inl` is not part
  of this model. The model follows the contracts in the header's doc
  comments, and it assumes the direct reading of them: `stop` stores the
  reading and adds `stop - start` to the accumulator.
- **Misuse.** The model keeps the original's silent behaviour.
  - A second `start` overwrites the recorded start instant (see
    `RestartDiscardsUnstopped`).
  - A `stop` while paused measures again from the last recorded start (see
    `StopWhilePausedRemeasures`).
  - A `stop` on a timer that was never started measures from the epoch, not
    from an undefined value. This follows from how `std::chrono` default-
    constructs time points. It differs from the description of that case as
    undefined.

## Model

| member | source | states |
|---|---|---|
| `Timer.Timer.constructor` | src/Timer.hpp:43-44 | a new timer is paused, has accumulated nothing (`Elapsed() == 0`), and holds epoch instants |
| `Timer.Timer.Start` | src/Timer.hpp:46-47 | records `now` as the start instant and marks the timer running; the accumulator, the stop instant and the interval history are unchanged |
| `Timer.Timer.Stop` | src/Timer.hpp:48-51 | records `now` as the stop instant, adds `now - start` to the accumulator, appends that interval to the history, pauses the timer, and returns the new accumulator, which equals `Elapsed()` afterwards and is at least the old one |
| `Timer.Timer.Zero` | src/Timer.hpp:53-54 | sets the accumulator to exactly 0 and clears the history; the start and stop instants and the running state are unchanged |
| `Timer.Timer.Elapsed` | src/Timer.hpp:56-60 | a read-only accessor (a function, so it has no side effects) returning the total length of the intervals stopped since creation or the last `Zero`; never negative |
| `Timer.Timer.Latency` | src/Timer.hpp:62-72 | a fresh timer started at reading `before` and stopped at reading `after` returns exactly `after - before`; no existing object is modified |
| `Timer.Latency` | src/Timer.hpp:75-85 | the free `latency` returns the same measurement as `Timer.Latency`: exactly `after - before` |
| `Timer.RunNeverDecreases` | src/Timer.hpp:27-38 | with a steady clock and no `zero()` in a history, the accumulator at the end is at least the accumulator at the start |
| `Timer.MonotoneBetweenZeros` | src/Timer.hpp:27-38 | in any steady history, `elapsed()` observed at two points with no `zero()` between them does not decrease |
| `Timer.RunNonNegative` | src/Timer.hpp:31-38 | with a steady clock, a non-negative accumulator stays non-negative through any history |
| `Timer.CreatedNeverNegative` | src/Timer.hpp:38-44 | every state a steady history of a new timer passes through has a non-negative accumulator |
| `Timer.CyclesAccumulate` | src/Timer.hpp:48-51 | a sequence of completed start/stop cycles adds exactly the total length of their intervals to the accumulator |
| `Timer.SinceLastZero` | src/Timer.hpp:53-59 | after any history, then `zero()`, then completed start/stop cycles, `elapsed()` is exactly the total length of those intervals |
| `Timer.StartsKeepAccumulator` | src/Timer.hpp:46-59 | `start()` calls alone leave the accumulator and the stop instant unchanged, and the last one decides the recorded start instant: time in a running, unstopped interval is never part of `elapsed()` |
| `Timer.RestartDiscardsUnstopped` | src/Timer.hpp:46-51 | `start(a); start(b); stop(c)` adds `c - b`: starting twice without a stop discards the first unstopped interval |
| `Timer.StopWhilePausedRemeasures` | src/Timer.hpp:48-51 | `start(b); stop(f); stop(g)` adds `(f - b) + (g - b)`: a stop without a new start measures again from the recorded start |

## Left out

- Reading the clock (`Clock::now()`): readings are parameters of `Start`, `Stop` and the `latency` methods.
- The choice of clock through `std::conditional` and the other template parameters: the model has one configuration.
- The `Duration = double` representation and the conversion of durations to the `Time` unit: durations are exact integer ticks. A change of unit would be multiplication by a fixed integer factor, which is not modelled.
- Timer.Timer.Latency: does not call the `Callable` with its forwarded arguments, and does not model an exception escaping from it, in which case no measurement is produced. Only the two clock readings around the call are kept.
- Timer.Latency: the same as `Timer.Timer.Latency`.
- Copying and moving timers, and concurrent use of one timer from several threads: the class is not synchronised.

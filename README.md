# Typewriter banner and particle background, modelled in Dafny

The page script `script.js` drives two animations whose logic is modelled
and proved here:

- **The typewriter banner** (module `Typing`, `typewriter.dfy`). A timer
  callback types the current phrase one character per tick (60 ms), holds
  the finished phrase (2000 ms), deletes one character per tick (30 ms),
  holds the empty line (400 ms) and moves on to the next phrase, wrapping
  around the list of five phrases for ever. The closure variables
  `phraseIndex`, `charIndex`, `isDeleting` and `typeSpeed` are the fields of
  class `Typewriter`. The element's text is the field `displayed`. Each timer
  callback is the method `Tick`, which returns the delay the timer is
  re-armed with. `Tick` is proved equal to the pure transition function
  `Step` over a `Cursor` value. The facts about the cycle are lemmas about
  `Step` and its iterate `After`:
  - the invariant it keeps;
  - the text shown;
  - the delays;
  - a full round per phrase;
  - visiting the phrases in order, wrapping, and running periodically.
- **The particle background** (module `Particles`, `particles.dfy`). Each
  particle drifts by its velocity each frame. A particle whose moved position
  leaves the canvas is reset from six uniform draws. The field holds
  `min(80, floor(width*height/15000))` particles, rebuilt from scratch on
  initialisation. The line pass examines every unordered pair of particles
  once and links those closer than 150 px. `Particle` and `ParticleField`
  are classes whose methods update their fields in place. They are
  specified by the value-level functions `ResetState`, `UpdateState`,
  `FieldSize` and `Linked`, and by the pair enumeration `PairsBelow`. The
  line pass reads a snapshot of the particle positions (`Positions`),
  which it does not change, and runs the nested loop over that snapshot.

Randomness enters as parameters: each `Math.random()` draw is a `real` in
[0, 1), and a reset consumes one `Draws` record of six of them. The timer
enters as the delay returned by `Tick`. Canvas width and height are `nat`
fields. Positions, sizes, velocities and opacities are exact `real`s.

Two details of the code set the proved bounds:

- After an update the code keeps a particle whose moved position equals
  the right or bottom edge exactly, because the out-of-bounds test at
  script.js:33 is the strict `x > width` (and `y > height`). So the bound
  proved after an update is the closed `0 <= x <= width`.
- A reset on a canvas side of length 0 puts the particle at 0, so
  `x < width` holds only when `width > 0`. `ResetState` states it that way.

## Model

| member | source | states |
|---|---|---|
| `Typing.SitePhrasesWellFormed` | script.js:121-127 | the page's list has five phrases and none is empty |
| `Typing.Substring` | script.js:136-140 | `substring(0, n)` gives a prefix of the phrase, of length `n` when n lies between 0 and the phrase length; it clamps to empty below 0 and to the whole phrase above the length |
| `Typing.Step` | script.js:133-155 | the phrase index stays in range; it changes only when a deleting tick empties the line, and then to the next phrase, `(phraseIndex + 1) % phrases.length`; the text is a prefix of the phrase; the delay is 2000 exactly when typing turns into deleting, 400 exactly when deleting turns into typing, otherwise 60 while typing and 30 while deleting |
| `Typing.StepKeepsInvariant` | script.js:133-152 | with non-empty phrases, every tick keeps `charIndex` between 0 and the phrase length, keeps `isDeleting ==> charIndex >= 1` and keeps typing below the full length; the written text is exactly the first `charIndex` characters of the current phrase, one character longer than before when typing and one shorter when deleting |
| `Typing.After` | script.js:148-154 | any number of re-armed ticks keeps the phrase index inside the list |
| `Typing.Texts` | script.js:136-154 | k ticks write k texts, the j-th being the text the tick after j earlier ticks writes |
| `Typing.AfterAdd` | script.js:154 | running a + b ticks is running a ticks and then b ticks |
| `Typing.TypingPhase` | script.js:139-147 | from i typed characters, each tick adds one; after the remaining ticks the whole phrase is shown and the machine is deleting |
| `Typing.DeletingPhase` | script.js:135-151 | from i shown characters, each tick removes one on the same phrase; after i ticks the machine is typing the next phrase, wrapping, from nothing |
| `Typing.RoundEnds` | script.js:133-152 | a round on phrase p takes twice the phrase length in ticks and ends at the start of phrase `(p + 1) % phrases.length` |
| `Typing.PhraseRound` | script.js:133-152 | during a round on phrase p the index stays p; the j-th tick shows the prefix of length j + 1 while typing and then down to 0; the delays are 60 while typing, 2000 on completion, 30 while deleting and 400 on emptying |
| `Typing.VisitsInOrder` | script.js:148-151 | after the rounds of the first k phrases the machine starts phrase k; after all of them it is back at phrase 0, so no phrase is skipped |
| `Typing.Periodic` | script.js:148-154 | after m whole passes through the list and k more rounds, the machine starts phrase k |
| `Typing.TwoPhraseExample` | script.js:133-152 | with phrases "a" and "bb", seven ticks show "a", "", "b", "bb", "b", "", "a" |
| `Typing.Typewriter.constructor` | script.js:128-131 | the page starts on phrase 0, with no characters, typing, speed 60 |
| `Typing.Typewriter.Tick` | script.js:133-155 | one timer callback moves the state as `Step` does; it writes `Step`'s text and returns the next delay, which is also stored in `typeSpeed`; it keeps the invariant; afterwards the element shows the first `charIndex` characters of the current phrase |
| `Particles.Scale` | script.js:23-24 | a draw times a canvas side lies in [0, side], and below the side when the side is positive |
| `Particles.ScaleBound` | script.js:23-24 | the arithmetic bound behind `Scale` |
| `Particles.ResetState` | script.js:22-29 | a reset puts the particle on the canvas; size lies in [0.5, 2.5), both speeds in [-0.2, 0.2) and opacity in [0.1, 0.6) |
| `Particles.Escapes` | script.js:33 | the out-of-bounds test holds exactly when the moved position is not on the canvas `[0, width] x [0, height]` |
| `Particles.UpdateState` | script.js:30-36 | after an update the particle is on the canvas (`0 <= x <= width`, `0 <= y <= height`); the reset ranges are kept; the result is either the reset particle or the old one moved by exactly one velocity step |
| `Particles.FieldSize` | script.js:47 | the count is at most 80; it is the largest n with `n * 15000 <= width * height` unless the cap of 80 applies |
| `Particles.RowFacts` | script.js:55 | the inner loop for particle a visits `(a, b)` for exactly the b with `a < b < n`, in increasing order |
| `Particles.PairsBelowFacts` | script.js:54-55 | the first i outer iterations visit exactly the pairs `(a, b)` with `a < i` and `a < b < n`, in lexicographic order |
| `Particles.AllPairsOnce` | script.js:54-55 | the nested loop visits exactly the pairs of indices `a < b < n`, each once, never a self-pair |
| `Particles.LinkedFacts` | script.js:56-59 | the linked pairs are exactly the examined pairs whose squared distance is below `150 * 150`, kept in visiting order |
| `Particles.Positions` | script.js:56-57 | the snapshot has one position per particle, the k-th being particle k's `(x, y)` |
| `Particles.CloseIsDistanceTest` | script.js:56-59 | for the non-negative square root `dist` of the squared distance, `dist < 150` holds exactly when the squared distance is below `150 * 150`; the test is symmetric and a position is close to itself |
| `Particles.LinkedAppend` | script.js:56-59 | examining one more pair adds it to the lines exactly when it is close |
| `Particles.LinkedConcat` | script.js:54-59 | the lines of two runs of pairs one after the other are the lines of the first run followed by those of the second |
| `Particles.LinePassFacts` | script.js:53-59 | over all pairs of the positions, the examined pairs are exactly `a < b`, in order, and the lines are exactly the close ones among them, in order |
| `Particles.RowPass` | script.js:55-59 | the inner loop for particle i visits exactly `Row(i, n)` and keeps exactly its close pairs |
| `Particles.LinePass` | script.js:53-59 | the nested loop over the positions visits `PairsBelow(n, n)` and keeps exactly its close pairs, row after row |
| `Particles.Particle.constructor` | script.js:19-21 | a new particle is the reset particle |
| `Particles.Particle.Reset` | script.js:22-29 | all six fields are reassigned to the reset values of the draws |
| `Particles.Particle.Update` | script.js:30-36 | the particle ends on the canvas; if the moved position is out of bounds all six fields are reset, otherwise only x and y change, by exactly `speedX` and `speedY` |
| `Particles.ParticleField.constructor` | script.js:81-82 | page start sizes the canvas and builds the field as `InitParticles` does |
| `Particles.ParticleField.InitParticles` | script.js:45-51 | the old particles are discarded; the field holds `FieldSize(width, height)` (at most 80) freshly allocated, distinct particles, the k-th reset from the k-th draws; all lie on the canvas and in the reset ranges |
| `Particles.ParticleField.UpdateAll` | script.js:73-74 | one frame updates every particle in order, each as `UpdateState` says; the field stays on the canvas and in range |
| `Particles.ParticleField.Frame` | script.js:71-77 | one frame updates every particle as `UpdateState` says and then runs the line pass on the moved positions; every pair is examined once, in order, and a line is drawn exactly for the moved pairs closer than 150 |
| `Particles.ParticleField.Links` | script.js:53-69 | the examined pairs are exactly the index pairs `a < b`, each once, in order; a line is drawn for exactly those pairs closer than 150 px, compared squared, each once |

## Left out

- Drawing is not modelled: the canvas calls, the rgba colour strings, the circle of `draw`, the line width and the line opacity `0.06 * (1 - dist / 150)`.
- `Math.sqrt` is not modelled as a function: the distance test (`Particles.Close`) compares the squared distance with `150 * 150`, and `CloseIsDistanceTest` proves this agrees with `dist < 150` for any non-negative square root. Floating-point rounding is not modelled: all quantities are exact reals.
- The frame scheduler (`requestAnimationFrame`, `clearRect`) is not modelled; one call of `animateParticles` is `ParticleField.Frame`, which runs `UpdateAll` and then `Links`. The resize listener is not modelled. It would set the canvas size and then run `InitParticles`, as the constructor does.
- The cursor glow, the navbar scroll class, the mobile menu and the smooth scrolling are DOM event wiring and are not modelled.
- The scroll reveal, the stat counter and the section highlight are not modelled. They are driven by the browser's visibility observer and by class and style writes.
- `animateCounter` is not modelled. It is floating-point easing with `Math.pow`, `toFixed` formatting and clock time.
- `Math.random` and `setTimeout` are not modelled. Draws are parameters, assumed to lie in [0, 1), and timer delays are the results of `Tick`.
- `Typing.Typewriter.constructor` takes the element's text before the first tick as a parameter, because it comes from the page markup.
- `Particles.ParticleField.InitParticles` and `Particles.ParticleField.UpdateAll` take the draws as a sequence with one `Draws` record per particle. `Update` consumes its draws only when it resets.

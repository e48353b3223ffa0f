# Verified model of the arena controller and its buffer library

This project models, in Dafny, the two parts of the arena controller whose behaviour is decided by code
alone, and proves what they are for.

**The buffer algebra of the vendored asio 1.10.6.**

- `Buffers.dfy`: memory is one array of bytes and a buffer is an address and a size in it, so that two
  buffers alias when their ranges do. A buffer sequence denotes the list of its addresses, its *flat view*.
- `BufferCopy.dfy`: every `buffer_copy` form is a method on that array, proved equal to one flat copy
  between the flat views.
- `BuffersIterator.dfy`: `buffers_iterator` is a class with the source's redundant fields, proved to behave
  like an index into the flat view whatever mix of moves it makes.
- `Streambuf.dfy`: `basic_streambuf` is a class over a vector and five positions, proved to be a bounded
  first-in-first-out queue through compaction, growth and a read end that lags behind.

**The arena controller.**

- `LedSegment.dfy`: the LED line encoding, written bit by bit into a byte array, and its inverse.
- `ArenaStates.dfy`: the match controller as an object, its `Tick` proved against the function `Ticked`.
- `MatchRuns.dfy`: whole runs of that controller, compared with a record kept by an onlooker who sees only
  buttons, clock and phases; from it follows when every phase ends, what time is left, and when a match is over.
- `Animations.dfy`: the catch-up loops of the two animations that keep a state of their own.

Conventions. An exception becomes a returned `Outcome`. The assertions inside `buffers_iterator` are
`assert` statements, proved. Container iterators are indices. Clock readings, button states, the random
stream and a vector's spare capacity are parameters. Clock and float values are exact reals, sizes are
unbounded naturals. A time point that starts out at the end of time is the latch `Never`. The two calls the
base class makes inline, `sputc` and `sbumpc`, are modelled as the C++ standard defines them.

Three results a reader of the source might not expect:

- A `prepare` that throws is not without effect. The code moves the bytes to the front of the vector before
  it tests the limit and leaves the read position where it was, so what is left to read may change:
  `FailedPrepareCorrupts` runs an input, `FailedPrepareHarmless` says exactly for which positions no input
  suffers. The documentation of `prepare` mentions only the exception, so the model follows the code.
- A tap-out and a pause in the same tick leave the match paused, and a resume and a reset in the same tick
  reset it: a tick goes on after its first change of state and the last change stands.
- The match clock does not stop at zero. A match paused in overtime resumes with negative time remaining,
  and only then can truncation to milliseconds give time away (`AllottedGains`); `OvertimeIsGivenAway` is a
  run in which it does.

## Model

| member | source | states |
|---|---|---|
| `Buffers.BufferSize` | asio/include/asio/buffer.hpp:385-396 | The loop over a buffer sequence returns the length of its flat view. |
| `Buffers.RangeRest` | asio/include/asio/buffer.hpp:442-453 | The buffer `b + p` covers the bytes of b from p on, for every p up to its size. |
| `Buffers.PlusDrops` | asio/include/asio/buffer.hpp:442-453 | For every n, past the end too, `b + n` covers what b covers without its first n bytes. |
| `Buffers.LimitKeeps` | asio/include/asio/buffer.hpp:718-729 | `buffer(b, n)` covers the first n bytes of b, or all there are. |
| `BufferCopy.CursorWindow` | asio/include/asio/buffer.hpp:1709-1713 | Adding a cursor's offset to the buffer it is in gives consecutive bytes of the flat view from the cursor's position on. |
| `BufferCopy.CopyBuffer` | asio/include/asio/buffer.hpp:1295-1304 | One buffer to one buffer moves a block of the smaller size and touches nothing else in memory. |
| `BufferCopy.CopyBlockLimited` | asio/include/asio/buffer.hpp:1761-1765 | The byte-limited single copy, as one step of a sequence copy, extends the flat copy by the least of both sizes and the limit. |
| `BufferCopy.CopyToBuffer` | asio/include/asio/buffer.hpp:1403-1421 | A sequence into one buffer returns the smaller total and leaves memory as one flat copy would. |
| `BufferCopy.CopyFromBuffer` | asio/include/asio/buffer.hpp:1574-1592 | One buffer into a sequence returns the smaller total and leaves memory as one flat copy would. |
| `BufferCopy.CopySequences` | asio/include/asio/buffer.hpp:1693-1736 | Sequence to sequence, empty buffers included, terminates, returns the smaller total and leaves memory as one flat copy would; only source and target must not overlap. |
| `BufferCopy.CopySequencesLimited` | asio/include/asio/buffer.hpp:2186-2231 | The same with a byte limit: the least of both totals and the limit is copied, and a step that uses up neither buffer has reached the limit. |
| `BufferCopy.BlockExtends` | asio/include/asio/buffer.hpp:1707-1733 | With p bytes copied, moving the next block of k makes exactly the flat copy of p + k bytes, because no earlier write can have reached the source. |
| `BufferCopy.CopyDelivers` | asio/include/asio/buffer.hpp:1253-1269 | Read back through the flat views, the target is the source's first n bytes followed by its own old bytes. |
| `BufferCopy.CopyKeepsSource` | asio/include/asio/buffer.hpp:1674-1692 | The source reads after a copy what it read before. |
| `BufferCopy.FlatCopyFrame` | asio/include/asio/buffer.hpp:1266-1269 | No byte outside the first n target bytes changes. |
| `BufferCopy.LastWriteStands` | asio/include/asio/buffer.hpp:1266-1269 | An address named by several target positions ends up with the source byte of the last of them. |
| `BuffersIterator.BuffersIterator.Begin` | asio/include/asio/buffers_iterator.hpp:127-144 | The begin iterator is canonical at position 0: it has skipped leading empty buffers. |
| `BuffersIterator.BuffersIterator.End` | asio/include/asio/buffers_iterator.hpp:147-163 | The end iterator is canonical at the total size. |
| `BuffersIterator.BuffersIterator.Increment` | asio/include/asio/buffers_iterator.hpp:313-333 | One step forward keeps the iterator canonical at the next position. |
| `BuffersIterator.BuffersIterator.Decrement` | asio/include/asio/buffers_iterator.hpp:336-363 | One step back does too, and the backward search finds a non-empty buffer. |
| `BuffersIterator.BuffersIterator.Advance` | asio/include/asio/buffers_iterator.hpp:366-445 | Any in-range move by n terminates, trips no assertion and ends canonical at position + n. |
| `BuffersIterator.BuffersIterator.AddAssign` | asio/include/asio/buffers_iterator.hpp:216-220 | `it += n` ends canonical n positions further on. |
| `BuffersIterator.BuffersIterator.SubtractAssign` | asio/include/asio/buffers_iterator.hpp:223-227 | `it -= n` ends canonical n positions further back. |
| `BuffersIterator.BuffersIterator.Plus` | asio/include/asio/buffers_iterator.hpp:230-236 | `it + n` is a new canonical iterator at distance n from `it`, which is at distance -n from it. |
| `BuffersIterator.BuffersIterator.Minus` | asio/include/asio/buffers_iterator.hpp:248-254 | `it - n` is a new canonical iterator at distance -n from `it`, which is at distance n from it. |
| `BuffersIterator.BuffersIterator.AdvanceForward` | asio/include/asio/buffers_iterator.hpp:368-401 | The forward branch, whole buffers at a time, through empty ones. |
| `BuffersIterator.BuffersIterator.AdvanceBackward` | asio/include/asio/buffers_iterator.hpp:402-444 | The backward branch, with its search for the previous non-empty buffer. |
| `BuffersIterator.BuffersIterator.Dereference` | asio/include/asio/buffers_iterator.hpp:301-304 | The byte reached through buffer and offset is the byte of the flat view at the position. |
| `BuffersIterator.BuffersIterator.At` | asio/include/asio/buffers_iterator.hpp:178-183 | Indexing reads the byte n positions away in the flat view. |
| `BuffersIterator.CanonicalUnique` | asio/include/asio/buffers_iterator.hpp:453-458 | A position has only one canonical buffer and offset. |
| `BuffersIterator.EqualMeansSamePlace` | asio/include/asio/buffers_iterator.hpp:307-310 | Comparing positions alone decides whether two iterators are in the same buffer at the same offset. |
| `BuffersIterator.FlatView` | asio/include/asio/buffers_iterator.hpp:448-451 | The distance from begin to end is the total size, and begin[k] for every k spells out the flat view. |
| `BuffersIterator.AdvanceIsSteps` | asio/include/asio/buffers_iterator.hpp:216-220 | Advancing by n ends in the same position, buffer and offset as that many single steps. |
| `BuffersIterator.AdvanceUndone` | asio/include/asio/buffers_iterator.hpp:223-227 | Advancing by -n restores position, buffer and offset. |
| `BuffersIterator.Walk` | asio/include/asio/buffers_iterator.hpp:185-227 | Every mix of in-range `++`, `--`, `+=` and `-=` keeps an iterator canonical and leads where the moves add up to. |
| `Streambuf.Streambuf.constructor` | asio/include/asio/basic_streambuf.hpp:131-141 | A new buffer has the shape every call keeps, holds nothing, reads from position 0 and has room for 128 bytes or its maximum. |
| `Streambuf.Streambuf.Size` | asio/include/asio/basic_streambuf.hpp:158-161 | The size is the number of bytes queued, and never above the maximum. |
| `Streambuf.Streambuf.Reserve` | asio/include/asio/basic_streambuf.hpp:299-337 | Nothing changes if there is room; else, on success, the queue is unchanged, the read position is 0 and the room is what compaction frees or what was asked for, and on failure positions stay and the queue is what `AfterFailedPrepare` says. |
| `Streambuf.Streambuf.Prepare` | asio/include/asio/basic_streambuf.hpp:199-209 | Fails exactly when size() + n exceeds max_size(); on success the queue is unchanged and n bytes can be written after it, without a move if there was room. |
| `Streambuf.Streambuf.Commit` | asio/include/asio/basic_streambuf.hpp:211-229 | Appends the next n bytes of room, or all there are, to the queue. |
| `Streambuf.Streambuf.Consume` | asio/include/asio/basic_streambuf.hpp:231-245 | Removes the first n bytes of the queue, or all there are. |
| `Streambuf.Streambuf.Underflow` | asio/include/asio/basic_streambuf.hpp:254-265 | Shows the first byte of the queue, and opens the get area to all of the queue unless that is empty. |
| `Streambuf.Streambuf.Overflow` | asio/include/asio/basic_streambuf.hpp:267-297 | Appends a character unless the queue is at its maximum; then it fails and the queue is untouched. |
| `Streambuf.Streambuf.Put` | asio/include/asio/basic_streambuf.hpp:274-297 | A character written through the base class is appended, whether the put area had room or not, and the room left is known either way. |
| `Streambuf.Streambuf.Get` | asio/include/asio/basic_streambuf.hpp:254-265 | A character read through the base class is the first of the queue, even when the get area lagged. |
| `Streambuf.Streambuf.ReadSize` | asio/include/asio/basic_streambuf.hpp:343-350 | Neither subtraction underflows; the size is the largest the caller wants and the maximum allows that is at most 512 or fits the vector's capacity. |
| `Streambuf.Streambuf.PrepareRead` | asio/include/asio/basic_streambuf.hpp:343-350 | Preparing that size never fails, and every size that could have been asked for can be written afterwards. |
| `Streambuf.MovedInput` | asio/include/asio/basic_streambuf.hpp:312-317 | After the move to the front, the new read position shows the old queue and the old read position shows `AfterFailedPrepare`. |
| `Streambuf.FailedPrepareHarmless` | asio/include/asio/basic_streambuf.hpp:312-331 | A failed prepare preserves every possible queue of a length if and only if the read position is 0 or at least that length. |
| `Streambuf.FailedPrepareCorrupts` | asio/include/asio/basic_streambuf.hpp:312-331 | A buffer of at most 4 bytes, written three, consumed one and asked for three more, throws and is left reading its last byte twice. |
| `Streambuf.Session` | asio/include/asio/basic_streambuf.hpp:204-337 | Any interleaving of separate prepare, fill, commit, consume, put, get and peek calls, failed ones included, answers as a bounded queue may and leaves queue, read position, room and filled bytes as that queue has them. |
| `Streambuf.OneStep` | asio/include/asio/basic_streambuf.hpp:204-297 | Every operation but a harmful failed prepare takes from the front and appends at the back; a get shows what it takes, a peek what a get would take, a commit appends what was filled, and an operation fails exactly when what it asks for does not fit. |
| `Streambuf.FirstInFirstOut` | asio/include/asio/basic_streambuf.hpp:38-104 | Over any such interleaving with no harmful failed prepare, what was there and what was added is, in order, what was taken out followed by what is left. |
| `Streambuf.AfterAll` | asio/include/asio/basic_streambuf.hpp:62-68 | The documented size() <= max_size(), after any interleaving, failed calls included: even the bytes already taken and the room left fit beside the queue. |
| `LedSegment.LedSegment.ConvertNeoToSpi` | LedSegment.h:42-63 | For any number of colours and whatever the buffer held: of every three line bits the first is one, the second is the next colour bit and the third is zero, and all bits after the colours are zero. |
| `LedSegment.FullColorBit` | LedSegment.h:47-50 | Shifting the packed colour by 23 - i selects bit i of green, red, blue, most significant first. |
| `LedSegment.BitOred` | LedSegment.h:52-59 | ORing one bit at its place extends what the bytes carry by that bit and disturbs none before it. |
| `LedSegment.EncodedSymbol` | LedSegment.h:51-60 | The j-th symbol is one, the j-th bit encoded, zero. |
| `LedSegment.RoundTrip` | LedSegment.h:42-63 | Reading the middle bits of whatever carries an encoding recovers the colours. |
| `LedSegment.Injective` | LedSegment.h:42-63 | One buffer never carries two different arrays of colours. |
| `ArenaStates.StateMachine.Tick` | ArenaStates.cpp:134-649 | Every phase's tick leaves exactly the animation and time remaining of `Ticked`, which reads only the object the tick started in, and does not touch the buttons. |
| `ArenaStates.AllottedBound` | ArenaStates.cpp:296-301 | Truncation to milliseconds changes a fight's length by less than one, and always toward zero. |
| `ArenaStates.AllottedWhole` | ArenaStates.cpp:296-301 | A fight is allotted whole milliseconds, which together with that bound leaves one value. |
| `ArenaStates.AllottedGains` | ArenaStates.cpp:296-301 | Truncation lengthens a fight if and only if it begins with a negative time that is not a whole number of milliseconds. |
| `MatchRuns.CountdownKeepsInvariant` | ArenaStates.cpp:237-242 | Starting or resuming a fight spends at most one more millisecond of the error bound, and none the first time. |
| `MatchRuns.FightingKeepsInvariant` | ArenaStates.cpp:303-312 | A pause hands the whole rest of the fight back as time remaining. |
| `MatchRuns.TickKeepsInvariant` | ArenaStates.cpp:134-595 | Every tick keeps the fields of the machine in step with the onlooker's record. |
| `MatchRuns.RunInvariant` | main.cpp:238-252 | So does every run from the initial pre-staging, whatever the buttons and the clock do. |
| `MatchRuns.FightsAreEarned` | ArenaStates.cpp:384-396 | Every fight follows a countdown of more than 3 s in a match that each side readied for by a first press in its own staging, more than 3.5 s before pre-countdown; the first lasts 120 s and begins more than 13.5 s after either press. |
| `MatchRuns.PressWasFirst` | ArenaStates.cpp:384-390 | The press a match goes by happened at its time, was that side's first in its staging, and no other staging has begun since. |
| `MatchRuns.UnrecordedMeansUnpressed` | ArenaStates.cpp:384-390 | A side with no press on record has not pressed since the staging began. |
| `MatchRuns.MatchTimeConserved` | ArenaStates.cpp:296-312 | At every pause of every run, time fought and time remaining add up to 120 s within one millisecond a resumption, and to no more as long as every fight began in time. |
| `MatchRuns.OvertimeIsGivenAway` | ArenaStates.cpp:296-312 | A run whose match, paused half a millisecond into overtime, resumed and paused again, has 120.0005 s to its name: the proviso is needed. |
| `MatchRuns.ResumeNeedsRelease` | ArenaStates.cpp:520-531 | A pause ends in a countdown only when the referee's button goes down: it was up at the tick before, so the press that began a pause cannot end it. |
| `MatchRuns.PhaseEnds` | ArenaStates.cpp:134-595 | After any run, from the record and the buttons alone, when each phase ends and in which: 1.5 s after the referee's call, 3.5 s after both first presses, after 7 s, after 3 s, at once by a pause or else a tap-out, by a resume or a reset, by a reset; never otherwise. |
| `MatchRuns.PauseEnds` | ArenaStates.cpp:520-531 | A pause gives way to a reset, or else to a press of the referee, and only if that button has been up since the pause began. |
| `MatchRuns.TimeRemaining` | ArenaStates.cpp:303-312 | The time remaining becomes 120 s as staging begins, and at a pause what was allotted less what was fought; no other tick changes it. |
| `MatchRuns.MatchOver` | ArenaStates.cpp:303-312 | After any run the match is over if and only if at some tick a fight was tapped out, with the referee's button up, and nobody has reset since. |
| `MatchRuns.ResetLeadsBack` | ArenaStates.cpp:585-589 | A reset leads to pre-staging from the end, and from any pause in which the referee's button has been up. |
| `MatchRuns.ReleaseStands` | ArenaStates.cpp:520-525 | Once the referee's button has been up in a pause, the machine remembers it for as long as the pause lasts, and it was up at the latest tick. |
| `MatchRuns.Play` | main.cpp:238-252 | The object, driven by the main loop, makes exactly the runs these results are about. |
| `Animations.WooWoosha.CatchUp` | ArenaStates.cpp:53-69 | The loop terminates, keeps every write in bounds and leaves exactly the state with all due steps taken. |
| `Animations.CatchUpIsSteps` | ArenaStates.cpp:58-69 | A frame takes exactly the steps that are due: all of them and no more. |
| `Animations.TriangleWave` | ArenaStates.cpp:58-62 | For every strip of at least two lights the index is a triangle wave of period 2(N-1), and the direction flips only at the ends. |
| `Animations.LightLastPassed` | ArenaStates.cpp:60-68 | After any number of steps, a light shows the time of the last step that passed it. |
| `Animations.LightNotPassed` | ArenaStates.cpp:60-68 | A light no step has passed still shows the time it was made with. |
| `Animations.WooshSpeed` | ArenaStates.cpp:64-66 | The steps shorten from 0.04 s by the factor 0.99 each, down to the first length that is at most 0.002 s, and stay at that. |
| `Animations.WooshSpeedSettles` | ArenaStates.cpp:64-66 | There is such a first length. |
| `Animations.WooshTwoFrames` | ArenaStates.cpp:53-69 | Two frames leave what the later one alone would have left. |
| `Animations.WooshFrameRateIndependent` | ArenaStates.cpp:53-69 | So do any frames at ascending times: the state depends only on the last. |
| `Animations.PreCountdown.CatchUp` | ArenaStates.cpp:141-167 | Both loops terminate, and leave exactly the spawn clock and the particle list of one frame. |
| `Animations.FallIsSteps` | ArenaStates.cpp:162-167 | A particle falls one row a step by exactly the steps that are due, its age keeping pace with its clock. |
| `Animations.EvenSteps` | ArenaStates.cpp:162-167 | k steps take a particle k rows down and k of its intervals on, in clock and in age. |
| `Animations.FallLands` | ArenaStates.cpp:162-167 | A particle falls by even steps as far as its clock stays behind the frame, and no further. |
| `Animations.SpawnIsSteps` | ArenaStates.cpp:146-160 | A frame starts exactly the particles that are due: the spawn clock stood before the frame's time at each start and has reached it after the last. |
| `Animations.SpawnedAt` | ArenaStates.cpp:148-155 | The j-th of them started at the spawn clock's j-th time with the j-th draw, falling one row in a tenth of the interval to the next start, but in no less than 0.02 s; earlier particles are untouched. |
| `Animations.SpawnInterval` | ArenaStates.cpp:157-159 | Starts follow one another after 0.7 s, then by intervals that shrink by the factor 0.7 each, down to the first that is at most 0.1 s, and stay at that. |
| `Animations.SpawnIntervalSettles` | ArenaStates.cpp:157-159 | That first interval is the seventh. |
| `Animations.SpawnIgnoresFalling` | ArenaStates.cpp:146-160 | Which particles start does not depend on how far earlier ones have fallen. |
| `Animations.RainTwoFrames` | ArenaStates.cpp:141-167 | Two frames leave the particles the later one alone would have left, for the same random stream. |
| `Animations.RainFrameRateIndependent` | ArenaStates.cpp:141-167 | So do any frames at ascending times. |
| `Animations.FrameCount` | ArenaStates.cpp:146-160 | A first frame at t shows as many particles as have their start before t. |
| `Animations.FrameShows` | ArenaStates.cpp:141-167 | Each of them is the whole number of steps due since its start below the row drawn for it, with its speed and age. |

## Left out

- Streambuf.Session: leaves out `sungetc` and seeking in the base class, which step back over bytes already taken.
- The `read_size_helper` overload for other streambuf classes (asio/include/asio/basic_streambuf.hpp:355-361), whose size is that of `ReadSize` for a vector with no capacity to spare.
- ArenaStates.StateMachine.Tick: models animations as values owned by the machine, not as heap objects; a tick that goes on in a replaced object reads the fields it had, although the C++ object is gone by then.
- MatchRuns.MatchTimeConserved: is over exact reals, so it does not account for the rounding of `float` seconds, nor for a cast to `int` that overflows after 24 days of overtime.
- The byte-limited `buffer_copy` forms with a single buffer on one side: each shortens that buffer and calls the unlimited form.
- Overlapping source and target of `buffer_copy`, which its documentation excludes, pointer arithmetic overflow and buffer debugging.
- The `int` casts of `pbump` and `gbump`, allocation failure, and `size_t` overflow of positions.
- The `_start` fields that only drive colours, the digits shown while fighting or paused (`_remTime` has no value before its first tick), and the brightness formulas.
- `_lastColorTime` of the pre-countdown animation, which does depend on when frames are asked for.
- `ColorTriplet::FromHsv`, the segment glyph table, the tree layout and the refresh that clears the strip on destruction: fixed tables and constants.
- Sockets, timers, services and the other I/O of asio; GPIO, I2C, SPI transfer, UDP and the large-digit driver.

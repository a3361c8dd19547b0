# Verified models of the driver collection

A Dafny model of the concurrent and stateful parts of this repository of Linux drivers, with proofs over every run,
every interleaving and every input.

- **Blocking FIFO** (`src/globalfifo/globalfifo.c`). `FifoModel.dfy` is a transition system: any number of threads, one
  program point of one driver entry per step, with the mutex, the two wait queues, task states, signals and failing
  copies. The bytes are already shifted while the length is still the old one, and data is present before the sleepers
  are woken, just as in the code. `FifoInvariant`, `FifoWakeups`, `FifoRefinement`, `FifoCalls`, `FifoClear` and
  `FifoOutcomes` prove safety, wake-ups, linearizability to the sequential `BoundedQueue`, retry bounds, what `FIFO_CLEAR` does
  and which result every call returns.
  `FifoDevice` is the locked bodies of the entries on a byte array, proved against the same `BoundedQueue`.
- **SSD1306 text driver** (`src/oled_spi/ssd1306.c`, `src/oled_i2c/oled_i2c.c`). `Ssd1306.dfy` is the controller: 8 by 128
  RAM, command parser, address window and pointer, after sections 9 and 10.1.3 to 10.1.5 of the Solomon Systech SSD1306
  datasheet. `OledDriver.dfy` is the driver as a class with its two cursor statics and every byte it puts on the SPI or I2C
  bus; `TextEngine.dfy` is the specification of its calls. `DisplayWindow`, `OledCursor`, `OledScreen`, `OledLayout` and
  `OledCalls` prove where every byte lands, that the shadow cursor and the controller's pointer agree, and what the screen shows
  after texts, single calls and probe/remove cycles. `DisplaySettings` does the same for inversion, contrast, power, scrolling and
  the registers of DisplayInit.
- **Shared counters** (`src/globalmem/globalmem.c`). `Counters.dfy`: two threads, four kinds of lock around one plain
  variable, loads and stores as separate steps.
- **Seekable memory file** (`src/globalmem/globalmem.c`). `GlobalmemFile.dfy`: read, write and llseek with the 32- and
  64-bit arithmetic of the source.
- **Debounced interrupt** (`src/gpio_irq/example_gpio.c`). `DebouncedGpio.dfy`: a rate limiter over a wrapping tick counter.

`Basics.dfy` holds the vocabulary they share. `dafny verify dfyconfig.toml` checks everything.

## What the code does not keep

Each of these is a natural expectation that is false of the code. The model follows the code, and the condition under which
the expectation does hold is proved exactly.

- `FIFO_CLEAR` empties the buffer without waking writers. From any initial state with two threads on blocking files and without
  pending signals there is a run that ends with a writer asleep at an empty buffer and nobody able to move
  (`FifoClear.ClearStrandsWriter`). A step breaks the writers' wake-up exactly when it is a clear that finds a writer asleep
  (`FifoWakeups.BreakIsClear`).
- The left shift in read is a `memcpy` between regions that are disjoint exactly when `count >= len - count` or nothing is left
  to move (`FifoDevice.OverlapFree`). The model copies in ascending order. The direction of the copy does not matter exactly
  when `count >= len - count` or `count == 0`, where the regions coincide (`FifoDevice.DirectionMatters`), and on every other
  pair of lengths some memory is shifted wrongly by a descending copy (`FifoDevice.OverlapSmears`).
- A bare fill, which is also the I2C `DisplayInit`, keeps the cursor agreement exactly when the window's size divides 1024
  (`OledCursor.FillKeepsSync`); after `SetCursor(0, 1)` it does not (`OledCursor.FillBreaksSync`). It clears the whole
  screen exactly when the window is the whole screen (`DisplayWindow.FillClearsScreen`).
- An absolute seek truncates its offset to 32 bits, so an offset of 2^32 or more whose low half is within the file lands
  somewhere else (`GlobalmemFile.AbsoluteSeekExact`, `GlobalmemFile.AbsoluteSeekFails`).
- The four kinds of lock around `globalmem_thread_variable` do not exclude each other, so updates are lost: one store can lower
  the variable by 2, and only a third of the increments are sure to survive (`Counters.LoweringByTwoHappens`,
  `Counters.ThirdSurvives`, `Counters.ThirdIsTight`). A run loses nothing exactly when no store of one thread falls between a
  load of the other and the store that follows it (`Counters.NothingLostExactly`); both hold on C ints as well
  (`Counters.ThirdSurvivesInt`).
- The comment at `example_gpio.c:58` says the handler toggles the pin. It sets the pin to the toggled variable, and inverts
  the pin exactly when the pin equalled the variable (`DebouncedGpio.InvertsExactly`, `DebouncedGpio.WriteMasksToggle`).

## Assumptions

- Mutexes, wait queues, the scheduler, spinlocks, rwlocks and seqlocks are their abstract contracts; there are no spurious
  wake-ups. A signal may arrive at any time and makes its task running; it is consumed when the call returns.
- `copy_to_user` and `copy_from_user` of at least one byte succeed or fail arbitrarily; a failed copy into the device may leave
  anything in its destination range. What a failed read leaves in the user's buffer is not represented.
- A class method of `FifoDevice` returns `Sleeps` where the code would sleep; sleeping itself belongs to the transition system.
- The font is any table of 5-byte rows and the logo any 1024 bytes. The font is indexed by an `unsigned char`, so its rows
  from 95 on stand for whatever follows the table in memory. The texts of probe and remove are arbitrary strings.
- Locks in `Counters` are held between their own lock and unlock points; a C int wraps in two's complement.
- The kernel cuts every read and write request down to less than 2^31 bytes before it calls a driver. The theorems about
  globalmem.c hold for all sizes, and `GlobalmemFile.ReadZeroIsEnd` says what the cut makes of the 32-bit truncation.
- While a scroll is active the SSD1306 rewrites its RAM. What calls leave in the RAM is stated for panels that do not scroll;
  everything about commands, cursor and pointer is stated for all panels.
- The interrupt handler runs to completion, one interrupt after another; the two reads of `jiffies` may differ. `jiffies` has
  any number of values greater than 20.

## Model

| member | source | states |
|---|---|---|
| `BoundedQueue.ApplyBalances` | src/globalfifo/globalfifo.c:101-218 | one queue operation: contents plus bytes in equal bytes out plus new contents, and the bound holds |
| `BoundedQueue.Conservation` | src/globalfifo/globalfifo.c:61-209 | over any history: accepted bytes in order equal delivered and discarded bytes in order followed by what is left |
| `FifoModel.Shifted` | src/globalfifo/globalfifo.c:142 | after the shift the first len - count bytes are the old bytes from count on, and all bytes behind them are as before |
| `FifoInvariant.OwnThreadOk` | src/globalfifo/globalfifo.c:101-218 | every program point hands the next what it relies on about mutex, queues, task state, `mem` and `current_len` |
| `FifoInvariant.EmptyStays` | src/globalfifo/globalfifo.c:197-201 | an empty buffer gains bytes only under a writer that still owes its wake |
| `FifoInvariant.StepInv` | src/globalfifo/globalfifo.c:55-218 | every step of every thread keeps the device invariant and touches other threads' records only by waking them |
| `FifoInvariant.RunInv` | src/globalfifo/globalfifo.c:55-218 | the invariant holds after every run of any threads, clears and signals included |
| `FifoWakeups.NoLostReaderWakeup` | src/globalfifo/globalfifo.c:109-133 | in every reachable state a sleeping reader is on `r_wait`, and the buffer is empty or a writer is about to wake it |
| `FifoWakeups.WakeReachesEveryReader` | src/globalfifo/globalfifo.c:201 | after a write's wake no reader is asleep |
| `FifoWakeups.SignalExitTakesNoWake` | src/globalfifo/globalfifo.c:126-130 | a step that is not a wake, such as leaving on a signal, changes no other thread |
| `FifoWakeups.FullStays` | src/globalfifo/globalfifo.c:143-148 | apart from clears a full buffer loses bytes only under a reader that still owes its wake |
| `FifoWakeups.StepKeepsWriterSafe` | src/globalfifo/globalfifo.c:143-188 | every step but a clear keeps writers' wake-ups and keeps sleeping readers and sleeping writers from coexisting |
| `FifoWakeups.RunKeepsWriterSafe` | src/globalfifo/globalfifo.c:143-188 | the same over every clear-free run |
| `FifoWakeups.BreakIsClear` | src/globalfifo/globalfifo.c:61-65 | from a good state a step breaks it if and only if it is a clear that finds a writer asleep |
| `FifoWakeups.ReadRestores` | src/globalfifo/globalfifo.c:148 | a completed read repairs it from any reachable state |
| `FifoWakeups.RestoredUntilNextClear` | src/globalfifo/globalfifo.c:61-148 | and it stays repaired until the next clear |
| `FifoWakeups.NeverOutOfBounds` | src/globalfifo/globalfifo.c:135-201 | no reachable step underflows an unsigned subtraction or copies outside `mem` |
| `FifoWakeups.StuckIsAsleep` | src/globalfifo/globalfifo.c:114-188 | if no call can move, every unfinished call is asleep in schedule() with the mutex free, readers at an empty buffer |
| `FifoWakeups.ProgressWithoutClear` | src/globalfifo/globalfifo.c:101-218 | in clear-free runs some call can move unless all are readers asleep at empty or all are writers asleep at full |
| `FifoRefinement.StutterStep` | src/globalfifo/globalfifo.c:109-159 | locking, sleeping, waking, signal and error exits leave the abstract queue alone and have no effect |
| `FifoRefinement.ShiftStep` | src/globalfifo/globalfifo.c:138-143 | a read takes effect at the shift, between the two half-updated states, and delivers the head of the queue |
| `FifoRefinement.CopyOrLenStep` | src/globalfifo/globalfifo.c:193-197 | a write takes effect at its length update; failed or pending copies only dirty bytes past the length |
| `FifoRefinement.StepRefines` | src/globalfifo/globalfifo.c:55-218 | every step is at most one queue operation, taken while holding the mutex |
| `FifoRefinement.RunRefines` | src/globalfifo/globalfifo.c:55-218 | every run from any state that satisfies the invariant refines the sequential queue |
| `FifoRefinement.Linearizable` | src/globalfifo/globalfifo.c:55-218 | every run from initialisation is a history of the bounded queue; with the mutex free its contents are `mem[..current_len]` |
| `FifoRefinement.BytesConserved` | src/globalfifo/globalfifo.c:61-209 | bytes accepted by writes equal bytes delivered or discarded followed by the contents, over every run |
| `FifoRefinement.OwnEffects` | src/globalfifo/globalfifo.c:101-218 | what a thread's record says it did is exactly its share of the run's effects |
| `FifoRefinement.CallTakesEffectOnce` | src/globalfifo/globalfifo.c:101-218 | a call has at most one effect, the one its result reports; EFAULT, ERESTARTSYS and EINVAL have none |
| `FifoCalls.StepCredit` | src/globalfifo/globalfifo.c:114-133 | one step spends the thread's right to sleep or gains one from a wake of its queue |
| `FifoCalls.RetryBound` | src/globalfifo/globalfifo.c:111-188 | a read sleeps at most once more than writes wake `r_wait` during it, and a write likewise |
| `FifoCalls.RunRemaining` | src/globalfifo/globalfifo.c:109-159 | over any part of a call: own steps plus steps left never exceed the steps left before plus six per sleep |
| `FifoCalls.CallSteps` | src/globalfifo/globalfifo.c:55-218 | no call runs forever: at most ten own steps, and for a read or write six more per sleep, at most one more than the wakes of its queue |
| `FifoCalls.SignalEndsCall` | src/globalfifo/globalfifo.c:121-133 | with a signal pending a call sleeps at most once more and takes at most 16 more own steps, however often its queue is woken |
| `FifoCalls.ReturnsClean` | src/globalfifo/globalfifo.c:152-159 | on every return path a thread holds no mutex, is on no queue and is running |
| `FifoCalls.PollAgrees` | src/globalfifo/globalfifo.c:76-98 | poll's bits are set iff a non-blocking call there would not fail with EAGAIN, and one is always set |
| `FifoCalls.ReadableRiseIsAnnounced` | src/globalfifo/globalfifo.c:197-201 | between an empty state and a later unlocked state with data `r_wait` was woken, clears or not |
| `FifoCalls.WritableRiseIsAnnounced` | src/globalfifo/globalfifo.c:143-148 | without clears, between a full state and a later unlocked state with room `w_wait` was woken |
| `FifoClear.BreakStartsAtClear` | src/globalfifo/globalfifo.c:61-148 | a run that ends broken has a last clear that met a sleeping writer, and no read has completed its wake since |
| `FifoClear.CallStarts` | src/globalfifo/globalfifo.c:109-121 | a lone blocking call gets to its sleep or its copy, as its queue condition says |
| `FifoClear.ClearRuns` | src/globalfifo/globalfifo.c:61-65 | a lone clear runs to its end and leaves the buffer empty, the memory zeroed and other threads alone |
| `FifoClear.ClearStrandsWriter` | src/globalfifo/globalfifo.c:61-188 | from any initial state a run ends with a writer and a reader asleep at an empty buffer and no step left |
| `FifoOutcomes.RunSettles` | src/globalfifo/globalfifo.c:55-218 | from any point of a call its result is the first thing its own steps settle, given the signals and flags of the run |
| `FifoOutcomes.CallReturnsExactly` | src/globalfifo/globalfifo.c:55-218 | every call returns exactly that: EAGAIN, ERESTARTSYS, EFAULT, the bytes asked for or there, a clear or a mask; an unknown command is EINVAL |
| `FifoOutcomes.FailureHasReason` | src/globalfifo/globalfifo.c:116-140 | ERESTARTSYS needs a signal, EFAULT a failing copy of the call's own, EAGAIN the O_NONBLOCK flag, EINVAL an unknown command |
| `FifoOutcomes.BlockingCallMoves` | src/globalfifo/globalfifo.c:114-211 | without those, every read or write that returns found the queue open and moved the smaller of what was asked for and what was there |
| `FifoDevice.GlobalFifo.constructor` | src/globalfifo/globalfifo.c:23-31 | the device starts empty and zeroed |
| `FifoDevice.GlobalFifo.Memcpy` | src/globalfifo/globalfifo.c:142 | the ascending copy moves the old bytes, overlapping or not, and leaves the rest |
| `FifoDevice.GlobalFifo.Read` | src/globalfifo/globalfifo.c:114-150 | sleeps, fails or dequeues exactly as the bounded queue allows; the new memory and contents in every case |
| `FifoDevice.GlobalFifo.Write` | src/globalfifo/globalfifo.c:172-210 | sleeps, fails or enqueues exactly as the bounded queue allows; a failed copy keeps the contents |
| `FifoDevice.GlobalFifo.Ioctl` | src/globalfifo/globalfifo.c:55-74 | a clear empties and zeroes; any other command is EINVAL and changes nothing |
| `FifoDevice.GlobalFifo.Poll` | src/globalfifo/globalfifo.c:76-98 | the mask the bounded queue allows, at least one bit set |
| `FifoDevice.OverlapFree` | src/globalfifo/globalfifo.c:142 | memcpy's regions are disjoint iff the bytes left fit into the gap or there are none |
| `FifoDevice.DirectionMatters` | src/globalfifo/globalfifo.c:142 | a descending copy gives the shift on every memory iff count is 0 or at least the bytes left |
| `Ssd1306.ArgsCollected` | src/oled_spi/ssd1306.c:352-357 | argument bytes are collected into the pending command and never executed as opcodes |
| `Ssd1306.FeedEncode` | src/oled_spi/ssd1306.c:308-582 | from an idle parser the bytes of well-formed commands do what the commands say and leave the parser idle |
| `Ssd1306.DecodeEncode` | src/oled_spi/ssd1306.c:308-582 | the parser recovers exactly the commands and data from their bytes |
| `TextEngine.UpToFirstNul` | src/oled_spi/ssd1306.c:442-445 | a C string's characters are those before its first NUL |
| `TextEngine.DoWellFormed` | src/oled_spi/ssd1306.c:344-689 | every public call with any arguments says only whole commands of the datasheet's lengths, and data |
| `TextEngine.StreamParses` | src/oled_spi/ssd1306.c:344-689 | for every sequence of calls the controller parses exactly what was meant, and is idle between calls |
| `OledDriver.Oled.constructor` | src/oled_i2c/oled_i2c.c:51-53 | the statics start at line 0, column 0 |
| `OledDriver.Oled.Write` | src/oled_i2c/oled_i2c.c:210-244 | the D/C level on SPI and the control byte on I2C make the controller see the same command or data byte |
| `OledDriver.Oled.SetCursor` | src/oled_spi/ssd1306.c:344-359 | in range it moves the statics and sends the window; out of range nothing happens |
| `OledDriver.Oled.GoToNextLine` | src/oled_spi/ssd1306.c:367-376 | the next line, with the uint8_t wrap and the mask |
| `OledDriver.Oled.PrintColumns` | src/oled_spi/ssd1306.c:414-426 | the loop sends the row's bytes in order and a blank, and moves the cursor by six with the uint8_t wrap |
| `OledDriver.Oled.PrintChar` | src/oled_spi/ssd1306.c:388-428 | breaks the line first where needed, then sends the glyph of the specification and moves the cursor |
| `OledDriver.Oled.PrintString` | src/oled_spi/ssd1306.c:440-446 | prints exactly the characters before the NUL |
| `OledDriver.Oled.InvertDisplay` | src/oled_spi/ssd1306.c:460-470 | one whole command, cursor untouched |
| `OledDriver.Oled.SetBrightness` | src/oled_spi/ssd1306.c:482-486 | one whole command, cursor untouched |
| `OledDriver.Oled.ScrollHorizontal` | src/oled_spi/ssd1306.c:501-524 | the eight bytes are two whole commands |
| `OledDriver.Oled.ScrollDiagonal` | src/oled_spi/ssd1306.c:542-572 | the ten bytes are three whole commands |
| `OledDriver.Oled.DeactivateScroll` | src/oled_spi/ssd1306.c:579-582 | one whole command |
| `OledDriver.Oled.Fill` | src/oled_i2c/oled_i2c.c:510-519 | the loop sends 1024 copies of the byte and no command |
| `OledDriver.Oled.ClearDisplay` | src/oled_spi/ssd1306.c:607-613 | homes the cursor and sends a screen of zeroes |
| `OledDriver.Oled.PrintLogo` | src/oled_spi/ssd1306.c:620-631 | homes the cursor and sends the logo in order |
| `OledDriver.Oled.InitCommands` | src/oled_spi/ssd1306.c:657-682 | the 26 bytes are the listed commands, none cut off |
| `OledDriver.Oled.DisplayInit` | src/oled_i2c/oled_i2c.c:464-501 | the commands, then a homed clear on SPI and a bare fill on I2C |
| `OledDriver.Oled.Probe` | src/oled_i2c/oled_i2c.c:525-540 | probe is its four display calls, with any text |
| `OledDriver.Oled.Remove` | src/oled_i2c/oled_i2c.c:546-564 | remove is its four display calls, with any text |
| `DisplayWindow.StoreStep` | src/oled_spi/ssd1306.c:418 | a data byte lands on the pointer's cell only and the pointer moves to the next rank of its window |
| `DisplayWindow.PixelsLand` | src/oled_spi/ssd1306.c:589-631 | for any bytes, window and pointer: the final pointer and, not scrolling, every cell of the RAM |
| `DisplayWindow.FillLands` | src/oled_spi/ssd1306.c:589-600 | a fill ends 1024 ranks on modulo the window's size and, not scrolling, sets exactly the window's cells |
| `DisplayWindow.FillReturns` | src/oled_spi/ssd1306.c:589-600 | it ends where it began iff the window's size divides 1024 |
| `DisplayWindow.FillClearsScreen` | src/oled_i2c/oled_i2c.c:510-519 | not scrolling, it overwrites every screen completely iff the window is the whole screen |
| `DisplayWindow.ScreenLands` | src/oled_spi/ssd1306.c:607-631 | from home 1024 bytes bring the pointer home again and, not scrolling, become the RAM in row-major order |
| `OledCursor.CursorLands` | src/oled_spi/ssd1306.c:344-359 | after an in-range SetCursor shadow and pointer agree and only window and pointer changed |
| `OledCursor.CharLands` | src/oled_spi/ssd1306.c:388-428 | after a character the agreement holds; not scrolling, it fills six adjacent columns of one page at the cursor, never split |
| `OledCursor.StringKeepsSync` | src/oled_spi/ssd1306.c:440-446 | the agreement survives any string |
| `OledCursor.InitLands` | src/oled_spi/ssd1306.c:657-682 | the init commands only select horizontal addressing and stop scrolling, whatever the panel's state |
| `OledCursor.ScreenKeepsSync` | src/oled_spi/ssd1306.c:607-631 | a homed whole-screen write leaves cursor and pointer at (0,0) and, not scrolling, the RAM equal to the screen |
| `OledCursor.CallKeepsSync` | src/oled_spi/ssd1306.c:344-689 | every public call but a bare fill keeps the agreement, with any arguments |
| `OledCursor.InitSyncs` | src/oled_spi/ssd1306.c:638-689 | SPI DisplayInit establishes it from any panel state and clears the RAM |
| `OledCursor.CursorAgrees` | src/oled_spi/ssd1306.c:344-689 | after DisplayInit and any calls, on the bytes sent, the cursor is at most 128 and agrees with the controller's pointer |
| `OledCursor.FillKeepsSync` | src/oled_spi/ssd1306.c:589-600 | a bare fill keeps it iff the window's size divides 1024 |
| `OledCursor.FillBreaksSync` | src/oled_spi/ssd1306.c:589-600 | after SetCursor(0,1) on any horizontal panel a bare fill leaves cursor and pointer apart |
| `OledScreen.NextSpot` | src/oled_spi/ssd1306.c:397-426 | the n-th character from (0,0) goes to page (n div 21) mod 8, column 6 (n mod 21) |
| `OledScreen.SpotsApart` | src/oled_spi/ssd1306.c:397-426 | characters fewer than 168 apart never overlap |
| `OledScreen.SpotInSlot` | src/oled_spi/ssd1306.c:397-426 | a character's columns are those of its slot modulo 168 and never columns 126 and 127 |
| `OledScreen.TextLands` | src/oled_spi/ssd1306.c:388-446 | after n characters from (0,0): cursor and pointer and, not scrolling, the whole RAM |
| `OledScreen.TextOnScreen` | src/oled_spi/ssd1306.c:344-446 | on the bytes sent, a text of any length ends with cursor and pointer in agreement and, not scrolling, shows its last 168 characters in their slots and changes no other cell |
| `OledLayout.NewlineLands` | src/oled_spi/ssd1306.c:397-402 | a newline puts cursor and pointer at column 0 of page (line + 1) mod 8 and leaves the RAM alone |
| `OledLayout.PrintLands` | src/oled_spi/ssd1306.c:388-428 | any other character goes to the cursor if six columns fit and else to the next line, with the font row of its code minus 32 |
| `OledLayout.LinesLand` | src/oled_spi/ssd1306.c:388-446 | any text with newlines: cursor and pointer by its newlines and rows of 21, and, not scrolling, the whole RAM |
| `OledLayout.LinesOnScreen` | src/oled_spi/ssd1306.c:344-446 | on the bytes sent, every character not printed over shows at its place and every cell without a character is as before |
| `OledScreen.ProbeClears` | src/oled_i2c/oled_i2c.c:464-501 | on a homed panel the probe's bare fill clears every cell |
| `OledScreen.ClosingHomes` | src/oled_i2c/oled_i2c.c:556-560 | remove's last calls home the panel whatever the window was |
| `OledScreen.CycleHomes` | src/oled_i2c/oled_i2c.c:525-564 | a probe/remove cycle takes a homed panel to a homed panel, whatever the statics and texts |
| `OledScreen.EveryProbeClears` | src/oled_i2c/oled_i2c.c:498-564 | from power-on, after any number of cycles, a probe's fill starts at home over the whole screen and clears it |
| `OledScreen.ProbeAgrees` | src/oled_i2c/oled_i2c.c:254-564 | from power-on, after any cycles, a probe and any homing calls leave the I2C driver's cursor in agreement with the pointer |
| `OledCalls.CursorExactly` | src/oled_spi/ssd1306.c:344-359 | on the bytes sent, SetCursor sets cursor, window and pointer for 8 lines and 128 columns and is ignored for all else |
| `OledCalls.NextLineExactly` | src/oled_spi/ssd1306.c:367-376 | GoToNextLine ends at column 0 of page (line + 1) mod 8, cursor and pointer in agreement |
| `OledCalls.FillShows` | src/oled_spi/ssd1306.c:589-600 | fill puts its own byte in exactly the window's cells |
| `OledCalls.ClearShows` | src/oled_spi/ssd1306.c:607-613 | ClearDisplay blanks all cells and homes cursor and pointer, from any window |
| `OledCalls.LogoShows` | src/oled_spi/ssd1306.c:620-631 | PrintLogo makes the RAM the logo and homes cursor and pointer |
| `OledCalls.BareInitShows` | src/oled_i2c/oled_i2c.c:464-501 | the I2C DisplayInit keeps cursor and window, stops scrolling and blanks exactly the window's cells |
| `OledCalls.HomedInitShows` | src/oled_spi/ssd1306.c:638-689 | the SPI DisplayInit homes the cursor, stops scrolling and blanks every cell, from any panel |
| `OledCalls.ProbeSends` | src/oled_i2c/oled_i2c.c:525-540 | probe's display data is a blank screen and then the glyphs of its text |
| `OledCalls.RemoveSends` | src/oled_i2c/oled_i2c.c:546-564 | remove's display data is the glyphs of its text and then a blank screen |
| `OledCalls.ProbeEnds` | src/oled_i2c/oled_i2c.c:531-535 | after the fill, probe leaves cursor and pointer where the layout of its text ends |
| `OledCalls.ProbeSets` | src/oled_i2c/oled_i2c.c:528-535 | probe leaves the display initialised, on, and scrolling pages 0 to 2 to the left |
| `OledCalls.RemoveSets` | src/oled_i2c/oled_i2c.c:546-560 | remove turns the display off and changes no other setting |
| `DisplaySettings.InitSets` | src/oled_spi/ssd1306.c:657-682 | the init bytes leave fifteen registers at their chosen values and touch no other |
| `DisplaySettings.SettingsAreMeant` | src/oled_spi/ssd1306.c:460-689 | after any calls the bytes sent have left inversion, contrast, power, scroll direction, pages, area and rows as the calls meant them |
| `DisplaySettings.ScrollingFollows` | src/oled_spi/ssd1306.c:501-582 | the panel scrolls iff the last call that starts, stops or initialises started it |
| `Counters.StepInv` | src/globalmem/globalmem.c:237-306 | every step keeps the locks exclusive and bounds how stale each outstanding load is |
| `Counters.RunInv` | src/globalmem/globalmem.c:237-306 | the same over every interleaving |
| `Counters.LoweringBound` | src/globalmem/globalmem.c:237-306 | a store of the first thread lowers the variable by at most 2, one of the second by at most 1 |
| `Counters.RunCredit` | src/globalmem/globalmem.c:237-306 | a potential that pays for three increments with one unit of the variable |
| `Counters.RunUnder` | src/globalmem/globalmem.c:237-306 | the variable never exceeds the increments completed |
| `Counters.ThirdSurvives` | src/globalmem/globalmem.c:237-306 | in every run the variable lies between a third of the completed increments and all of them |
| `Counters.ThirdIsTight` | src/globalmem/globalmem.c:237-306 | for every k some run completes 6k+1 increments and leaves 2k+1 |
| `Counters.LoweringByTwoHappens` | src/globalmem/globalmem.c:244-302 | some run reaches a store that lowers the variable by 2 |
| `Counters.RunTally` | src/globalmem/globalmem.c:237-306 | from any tally the variable keeps up with the increments iff nothing was lost before and no store is made on a crossed load |
| `Counters.NothingLostExactly` | src/globalmem/globalmem.c:237-306 | for every run: the variable equals the increments completed iff no store of one thread falls between a load of the other and its store |
| `Counters.LowRun` | src/globalmem/globalmem.c:160-302 | a run on C ints goes where the unbounded run goes, modulo 2^32, for any length |
| `Counters.ThirdSurvivesInt` | src/globalmem/globalmem.c:160-302 | on C ints: both bounds and the lossless condition until 2^31 increments, and the unbounded value modulo 2^32 always |
| `Counters.RunPasses` | src/globalmem/globalmem.c:237-306 | over any run: increments made and still owed equal two (four) per pass begun, and one atomic increment per pass |
| `Counters.WholePasses` | src/globalmem/globalmem.c:237-306 | between passes the atomic equals the passes, and the plain variable lies between a third of its 2 p1 + 4 p2 increments and all of them |
| `Counters.AtomicExact` | src/globalmem/globalmem.c:263-299 | supporting fact beside the plain variable: the atomic, one step each time, equals its increments |
| `Counters.SeqNoStands` | src/globalmem/globalmem.c:266-303 | over any run the sequence number counts at least the write sections begun; none begun and none open means none wrote |
| `Counters.SeqReadUndisturbed` | src/globalmem/globalmem.c:266-269 | the reader's retry check lets it go iff no seqlock write section began since it did, and then none wrote in between |
| `GlobalmemFile.PositionInRange` | src/globalmem/globalmem.c:567-663 | over every run of reads, writes and seeks, failing ones included, the position stays in 0..0x1000 |
| `GlobalmemFile.RelativeSeekExact` | src/globalmem/globalmem.c:646-657 | the 64-bit wrap never shows: it succeeds iff the true sum is within the file |
| `GlobalmemFile.AbsoluteSeekExact` | src/globalmem/globalmem.c:634-645 | it goes where told or fails iff the offset is below 2^32 or its low half is past the end |
| `GlobalmemFile.AbsoluteSeekLands` | src/globalmem/globalmem.c:634-645 | it fails iff the offset is negative or its low 32 bits exceed 0x1000; otherwise it goes to the low 32 bits, and inside the file to the offset |
| `GlobalmemFile.OtherSeeksFail` | src/globalmem/globalmem.c:658-660 | any other origin is EINVAL and changes nothing |
| `GlobalmemFile.AbsoluteSeekFails` | src/globalmem/globalmem.c:639-644 | the offset 2^32 + 5 ends up at 5 |
| `GlobalmemFile.WriteLands` | src/globalmem/globalmem.c:602-628 | a faultless write stores the first bytes of its data, as many as fit, and returns and advances by their number |
| `GlobalmemFile.WriteFails` | src/globalmem/globalmem.c:617-618 | a failing write is EFAULT, keeps the position and everything outside its destination |
| `GlobalmemFile.ReadFails` | src/globalmem/globalmem.c:583-584 | a failing read is EFAULT and changes nothing |
| `GlobalmemFile.WriteAllLands` | src/globalmem/globalmem.c:602-628 | writes in any chunks store the concatenation up to the end of the file and report exactly what they stored |
| `GlobalmemFile.ReadZeroExactly` | src/globalmem/globalmem.c:570-578 | as a C function, a read without fault returns 0 iff at the end or its size is 0 modulo 2^32 |
| `GlobalmemFile.ReadZeroIsEnd` | src/globalmem/globalmem.c:570-578 | for sizes as the kernel passes them, it returns 0 iff at the end or nothing was asked for |
| `GlobalmemFile.ReadToEof` | src/globalmem/globalmem.c:567-600 | reading until 0 terminates and delivers everything from the position to the end |
| `GlobalmemFile.ReadAllReturns` | src/globalmem/globalmem.c:567-600 | chunked reads equal one read of their sum |
| `GlobalmemFile.RoundTrip` | src/globalmem/globalmem.c:567-663 | seek to any k, write any chunks, seek to k, read in any sizes: the same bytes, cut off at the end of the file |
| `GlobalmemFile.Globalmem.ReadFrom` | src/globalmem/globalmem.c:567-600 | result, bytes, memory and position of read, in all cases |
| `GlobalmemFile.Globalmem.WriteTo` | src/globalmem/globalmem.c:602-628 | result, memory and position of write, in all cases |
| `GlobalmemFile.Globalmem.Seek` | src/globalmem/globalmem.c:630-663 | result and position of llseek, in all cases |
| `DebouncedGpio.DistanceModulo` | src/gpio_irq/example_gpio.c:48 | the wrapping unsigned difference is the true distance modulo the counter's range |
| `DebouncedGpio.SuppressedExactly` | src/gpio_irq/example_gpio.c:48-51 | an interrupt is accepted iff its distance from the last stamp, modulo the counter's range, is at least 20 |
| `DebouncedGpio.AcceptedSpaced` | src/gpio_irq/example_gpio.c:43-62 | accepted interrupts are at least 20 true ticks apart, however often the counter wraps |
| `DebouncedGpio.RateLimit` | src/gpio_irq/example_gpio.c:43-62 | over any T true ticks at most T/20 + 1 interrupts are accepted |
| `DebouncedGpio.ToggleIsParity` | src/gpio_irq/example_gpio.c:57 | the toggle is the parity of the accepted interrupts |
| `DebouncedGpio.PinUntouched` | src/gpio_irq/example_gpio.c:43-144 | suppressed interrupts and other bytes leave the pin alone over any run |
| `DebouncedGpio.PinIsLastWritten` | src/gpio_irq/example_gpio.c:43-144 | the pin is high after a last '1', low after a last '0', and after a last accepted interrupt the parity of those accepted |
| `DebouncedGpio.PinShowsParity` | src/gpio_irq/example_gpio.c:43-144 | the pin shows that parity while no '0' or '1' was written since the latest accepted interrupt |
| `DebouncedGpio.InvertsExactly` | src/gpio_irq/example_gpio.c:57-58 | supporting fact: an accepted interrupt inverts the pin iff the pin equalled the toggle |
| `DebouncedGpio.WriteMasksToggle` | src/gpio_irq/example_gpio.c:57-135 | a written '1' at toggle 0 makes the next accepted interrupt leave the pin as it is |
| `DebouncedGpio.GpioDriver.IrqHandler` | src/gpio_irq/example_gpio.c:43-62 | the handler's new state, suppressed or accepted |
| `DebouncedGpio.GpioDriver.DeviceFileWrite` | src/gpio_irq/example_gpio.c:122-144 | only a first byte '1' or '0' that arrived changes the pin, nothing else changes, and the length is returned |

## Left out

- Module init and exit, registration of devices, classes and interrupts, and their unwind ladders: finitely many paths with no run
  behind them. Every model starts after initialisation.
- Kernel internals, `poll_wait` registration, `fasync` and the SIGIO a write sends: a signal may arrive at any step anyway.
- FifoDevice.GlobalFifo.Read: on a failed copy the bytes that already reached the user's buffer are not represented.
- FifoDevice.GlobalFifo.Memcpy: fixes ascending order, because C leaves overlapping copies open.
- `example_gpio_read`: hands out the pin's level.
- Physical SPI, I2C and GPIO transfers and their failures, reset pulses and delays; the driver ignores transfer results.
- `DisplayDeInit` and the return code of the SPI `DisplayInit`: GPIO requests only.
- Ssd1306.FeedEncode: how active scrolling rewrites the RAM is not modelled; scroll commands are parsed and tracked.
- Font and logo pixels: the theorems hold for every table.
- OledDriver.Oled.InitCommands: the listing of DisplayInit is split into helper methods that the source does not have. So are
  the loop of PrintChar (`OledDriver.Oled.PrintColumns`) and the first command of ScrollDiagonal (`OledDriver.Oled.ScrollArea`).
- Counters.ThirdSurvives: counts on unbounded integers; `Counters.ThirdSurvivesInt` is the statement on C ints.
- Counters.AtomicExact: the atomic's own wrap after 2^31 increments is not modelled.
- Counters.SeqReadUndisturbed: the sequence number is unbounded, so a reader overtaken by 2^31 whole write sections is not covered.
- DebouncedGpio.GpioDriver.DeviceFileWrite: what bytes beyond its ten-byte buffer do to the stack is not represented. A write that
  falls between the handler's two assignments has the outcome of a write just before the interrupt.
- `src/globalmem/multi_globalmem.c`: repeats the logic of globalmem.c for several devices.
- procfs, sysfs, module parameters, timers, work queues, tasklets, completions, user-space programs and the remaining demo
  modules: single paths or plumbing.

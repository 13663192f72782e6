# Scanner control core, modelled in Dafny

This project models the logic of the Raspberry Pi document-scanner kiosk in
`src/scanapp`. It covers three parts.

- **The USB protocol driver** (`ds_driver.py`).
  - Parameter records (`XSCRequest`, `SSPRequest`) are serialised as `KEY=VALUE\n` lines.
  - Command frames are `ESC name \n params \n 0x80`, and each has a fixed acknowledgement.
  - The 12-byte little-endian image chunk header is decoded.
  - `DSDriver.scan` is a packet-dispatch loop. It gathers image chunks into pages, sends a soft abort on a read timeout while `aborting` is set, stops on the done (0x20) or aborted (0x40) code, and faults on anything it does not know.
- **The power and scan state machine** (`scanner_control.py`).
  - `ScannerControl` keeps its state and the four GPIO rails (power, button, paper, motor sleep).
  - It owns two one-slot delay threads (`Waiter`) and a power-saving `Timer`.
  - The scan worker `_scan` reads the debug output and the image of `scanimage` through `read_file_by_lines` and `read_file_raw`, then classifies the outcome.
- **The stitcher** (`stitcher.py`).
  - `Cropbox` arithmetic and `extend_below`.
  - The split-thumbnail rows.
  - `ScanCollector`, which starts, extends or finishes a stitched image for each scanned page.

How the model is built:

- Values are datatypes and functions.
- State that the source updates in place is a `class`: `DsDriver`, `Waiter`, `SleepTimer`, `ScannerControl`, `ScanCollector`.
- Each loop is a method proved against a specification function.
  - `DsDriver.Scan` is proved against `Run`, the loop over a sequence of USB reads.
  - `ReadFileByLines` and `ReadFileRaw` are proved against `CompleteLines` and `Received`.
  - `ReadInfo` is proved against `CountOf`.
  - `ScanCollector.Append` is proved against `Appended`, which uses the corrected end-of-page test (see Findings). `AppendedAsWritten` is the same step with the test as written.
- Lemmas prove what the source promises about those functions.

How the environment is represented:

- USB reads are a `seq<Reply>`; a reply is either a timeout or a packet of bytes.
- The requests that another thread makes to abort are the set `abortAt` of read positions.
- The reads from a pipe are a `seq<seq<byte>>`, where an empty read means end of file.
- Each callback fired by `ScannerControl` is logged in `events`.
- A timer or waiter running out is an explicit method (`WaiterElapsed`, `Waiter2Elapsed`, `SleepTimerExpired`).
- A failed Python `assert` becomes a `raised` result (or the `Fault` end of a scan), with the state left as it was at that point.

The model follows the code on these points:

- The scan worker drives an external `scanimage` process, not `DSDriver`.
- Info lines are tested for `sane_start(`, then `sane_close(`, then the out-of-documents text, then the jam text. A line with `sane_close(` therefore never counts as a jam or as no paper.
- The aborted code 0x40 discards only the chunks of the unfinished page. Pages already yielded stay yielded.
- `ScannerControl.scan` takes no argument, and there is no `scan_stop`.

Two behaviours are modelled exactly as written.

- **A `Waiter` notify is lost when the worker is not waiting for work.** `reset` runs `_power_on` on the first waiter's own thread. The notify of the `delay` that `_power_on` makes from there reaches nobody. So after a `reset` from `Ready`, `_on_powered_on` stays pending, the scanner stays `StartingUp`, and a later `shutdown` fails the waiter's assertion (`ResetNeverReady`).
- **`Timer.start` on an armed timer disarms it.** This is because the work notify is lost. `ScannerControl.Valid` shows that the controller never does this.

`startup` does not do what its docstring says for the other states. The docstring promises a reset from paper-jam mode and nothing at all when already started. The code instead reports `scanner_ready` from every state other than `PowerDown` and `PowerSaving`, including `Paperjam`, `StartingUp` and `ScanRunning`, and changes nothing else (the third clause of `Startup`).

The command-0x01 branch of the scan loop can never pass its check. The first byte is 0x01, so the packet is never four zero bytes (`Cmd01Faults`).

## Model

| member | source | states |
|---|---|---|
| Bytes.AsciiInjective | src/scanapp/ds_driver.py:45 | `str.encode()` loses nothing on ASCII text: two ASCII strings with the same bytes are the same string |
| Bytes.AsciiAppend | src/scanapp/ds_driver.py:45 | `str.encode()` works character by character: encoding a concatenation concatenates the encodings |
| Bytes.Split | src/scanapp/scanner_control.py:146 | `bytes.split`: at least one piece, no piece holds the separator, and joining the pieces with it gives the input back |
| Bytes.SplitJoin | src/scanapp/ds_driver.py:41 | splitting what `b",".join` built gives the parts back when no part holds the separator |
| Bytes.ConcatAppend | src/scanapp/scanner_control.py:159 | `b"".join` of two runs of pieces is the join of the first followed by the join of the second |
| Bytes.CompleteLinesSplit | src/scanapp/scanner_control.py:146-149 | the pieces before the last are newline-free, and those lines, each newline-terminated, followed by a newline-free tail, spell the input |
| Bytes.CompleteLinesOf | src/scanapp/scanner_control.py:146-149 | newline-terminated lines followed by a newline-free fragment yield exactly those lines |
| Bytes.ContainsAt | src/scanapp/scanner_control.py:360-373 | `needle in line` holds exactly when the needle occurs at some position of the line |
| Bytes.DecimalRoundTrip | src/scanapp/ds_driver.py:42 | `str(n).encode()` of an int reads back as `n`, negative numbers included |
| Bytes.DecimalPlain | src/scanapp/ds_driver.py:42 | the decimal rendering of an int holds no newline, comma or `=` |
| ScanParams.Encode | src/scanapp/ds_driver.py:37-42 | definition of `_as_bytes`; its properties are stated by `EncodeItems`, `IntTupleSplits`, `ZeroMarginEncoding` and `Bytes.DecimalRoundTrip` |
| ScanParams.EncodeItems | src/scanapp/ds_driver.py:40-41 | a tuple renders item by item, one rendering per item, in order |
| ScanParams.IntTupleSplits | src/scanapp/ds_driver.py:37-42 | an integer tuple renders as its decimals joined by commas, which split and parse back to the integers |
| ScanParams.ZeroMarginEncoding | src/scanapp/ds_driver.py:77 | the default margin `(0, 0, 0, 0)` renders as `0,0,0,0` |
| ScanParams.ToBytes | src/scanapp/ds_driver.py:44-48 | definition of `to_bytes`; its properties are stated by `ToBytesLines`, `ParseToBytes` and `PresentFrom` |
| ScanParams.PresentFrom | src/scanapp/ds_driver.py:44-48 | `to_bytes` writes only fields of the record, and none whose value is `None` |
| ScanParams.PresentAppend | src/scanapp/ds_driver.py:44-48 | leaving out `None` fields keeps declaration order, section by section |
| ScanParams.PresentNoneNull | src/scanapp/ds_driver.py:47 | a record with no `None` field is written whole |
| ScanParams.ToBytesLines | src/scanapp/ds_driver.py:44-48 | the serialisation is exactly one `KEY=VALUE` line per present field, each newline-terminated, in declaration order |
| ScanParams.ParseLineBody | src/scanapp/ds_driver.py:45 | a `KEY=VALUE` line splits at its first `=` back into the key and the value when the key holds no `=` |
| ScanParams.ParseToBytes | src/scanapp/ds_driver.py:44-48 | round trip: parsing the serialisation of well-formed fields gives exactly one (key, value) pair per present field, in order |
| ScanParams.PresentSkipsOptional | src/scanapp/ds_driver.py:83-107 | with exactly `ATCL`, `THRS`, `OPDF` and `ATFD` at `None`, the written fields are the other nineteen, in declaration order |
| ScanParams.SspNulls | src/scanapp/ds_driver.py:83-107 | in an `SSPRequest` with only the optional fields unset, a field is `None` exactly at the optional positions |
| ScanParams.SspKeyRuns | src/scanapp/ds_driver.py:58-107 | the keys of `SSPRequest`, in declaration order, between its optional fields |
| ScanParams.SspKeys | src/scanapp/ds_driver.py:58-107 | such an `SSPRequest` serialises exactly the keys `RESO` … `ATCN` without `ATCL`, `THRS`, `OPDF`, `ATFD`, in declaration order |
| ScanParams.DefaultSspUnset | src/scanapp/ds_driver.py:65-107 | the default `SSPRequest` leaves exactly `ATCL`, `THRS`, `OPDF` and `ATFD` unset |
| ScanParams.XscWellFormed | src/scanapp/ds_driver.py:51-55 | every `XSCRequest` whose mode has no newline serialises unambiguously (keys without `=` or newline, values without newline) |
| ScanParams.DefaultXscWellFormed | src/scanapp/ds_driver.py:51-55 | the default `XSCRequest` serialises unambiguously |
| ScanParams.DefaultXscEndsWithMode | src/scanapp/ds_driver.py:51-55 | a default `XSCRequest` serialises as three lines, the last being `MODE=NORMAL` |
| DsDriver.FromLEBound | src/scanapp/ds_driver.py:177 | a little-endian field of `w` bytes holds a number below 256^w |
| DsDriver.FromToLE | src/scanapp/ds_driver.py:177 | reading back the little-endian bytes of a number gives the number |
| DsDriver.ToFromLE | src/scanapp/ds_driver.py:177 | writing back a little-endian number gives the bytes it was read from |
| DsDriver.DecodeImgHdr | src/scanapp/ds_driver.py:176-178 | `struct.unpack("<HBBII")` succeeds exactly on 12 bytes, and its fields fit their widths |
| DsDriver.DecodeEncodeImgHdr | src/scanapp/ds_driver.py:176-178 | decoding an encoded header gives the header back, whatever the reserved byte |
| DsDriver.EncodeDecodeImgHdr | src/scanapp/ds_driver.py:176-178 | decoding drops nothing but the reserved byte at offset 3 |
| DsDriver.Frame | src/scanapp/ds_driver.py:150-174 | definition of the `ESC name \n params \n 0x80` framing every write uses; stated by `ParseFrameOf` and `FrameOfParse` |
| DsDriver.SourceDFrame | src/scanapp/ds_driver.py:150-153 | definition of the frame `set_source_d` writes; stated by `DefaultSourceFrames` |
| DsDriver.SourceFrame | src/scanapp/ds_driver.py:171-174 | definition of the frame `set_source` writes; stated by `DefaultSourceFrames` |
| DsDriver.AbortFrame | src/scanapp/ds_driver.py:162-167 | definition of the frame `abort` writes; stated by `AbortFrameParses` |
| DsDriver.XscFrame | src/scanapp/ds_driver.py:182 | definition of the frame `scan` writes; stated by `ParseFrameOf` with `ParseToBytes` and `DefaultXscEndsWithMode` |
| DsDriver.SspFrame | src/scanapp/ds_driver.py:262 | definition of the frame `set_parameters` writes; stated by `ParseFrameOf` with `ParseToBytes` and `SspKeys` |
| DsDriver.ParseFrameOf | src/scanapp/ds_driver.py:150-182 | a command frame `ESC name \n params \n 0x80` reads back as its name and parameters |
| DsDriver.FrameOfParse | src/scanapp/ds_driver.py:150-182 | every byte string that parses as a frame is the frame of what it parses to |
| DsDriver.AbortFrameParses | src/scanapp/ds_driver.py:162-167 | `abort` sends `ABT` with `EJCT=ONE` when ejecting and `EJCT=NO` otherwise, and the two frames differ |
| DsDriver.DefaultSourceFrames | src/scanapp/ds_driver.py:150-174 | with the default source `b"ADF"`, `set_source_d` and `set_source` send `D` and `S` frames carrying `ADF`, and the two frames differ |
| DsDriver.DsDriver.constructor | src/scanapp/ds_driver.py:113-117 | a new driver is not aborting and has sent nothing |
| DsDriver.DsDriver.SetSourceD | src/scanapp/ds_driver.py:150-153 | sends `ESC D \n source \n 0x80` and succeeds exactly on the one-byte ack 0x80 |
| DsDriver.DsDriver.Abort | src/scanapp/ds_driver.py:162-169 | sends the abort frame for `eject` and succeeds exactly on the ack `00 81` |
| DsDriver.DsDriver.SetSource | src/scanapp/ds_driver.py:171-174 | sends `ESC S \n source \n 0x80` and succeeds exactly on the one-byte ack 0x80 |
| DsDriver.DsDriver.SetParameters | src/scanapp/ds_driver.py:261-265 | sends the `SSP` frame and succeeds exactly on a reply of 0x26 bytes starting with 0x00 |
| DsDriver.Status | src/scanapp/ds_driver.py:197-249 | the status branches of the loop, detail by detail; a status that goes on moves past its read and never past the last read; stated further by `InfoKeepsState`, `InfoBadLengthFaults`, `UnknownCodesFault`, `AbortDiscards` and `DoneFlushes` |
| DsDriver.Flush | src/scanapp/ds_driver.py:258-259 | definition of the leftover yield after the loop; stated by `FlushConserves` |
| DsDriver.Run | src/scanapp/ds_driver.py:180-259 | definition of the whole loop over the reads; stated by `RunConserves`, `ScanYieldsChunks`, `RunPages` and `RunWrites`, and `DsDriver.Scan` is proved equal to it |
| DsDriver.Step | src/scanapp/ds_driver.py:186-256 | a pass of the loop that goes on moves past the read it dispatched and never past the last read |
| DsDriver.DsDriver.Scan | src/scanapp/ds_driver.py:180-259 | sends the `XSC` frame, then yields exactly the pages, end, `aborting` flag and soft aborts of `Run` over the reads |
| DsDriver.DsDriver.Dispatch | src/scanapp/ds_driver.py:183-259 | clears `aborting`, then runs the loop: its pages, end and written frames are those of `Run` from the start state |
| DsDriver.DsDriver.Poll | src/scanapp/ds_driver.py:186-256 | one pass of the loop moves the state exactly as `Step` does and writes only the frames `Step` logs |
| DsDriver.DsDriver.PollStatus | src/scanapp/ds_driver.py:197-249 | a status packet is dispatched on its detail byte exactly as `Status` does |
| DsDriver.ChunkConserves | src/scanapp/ds_driver.py:199-209 | gathering a chunk, and closing a page when the height is nonzero, loses and invents no byte |
| DsDriver.PendConserves | src/scanapp/ds_driver.py:204 | a chunk under a zero height joins the pending chunks, byte for byte |
| DsDriver.ClosePageConserves | src/scanapp/ds_driver.py:205-209 | a nonzero height turns the pending chunks and this one into a page of exactly their bytes |
| DsDriver.FlushConserves | src/scanapp/ds_driver.py:258-259 | after the loop, pending chunks become exactly one more page, uncropped, of their joined bytes; with none pending nothing changes; no byte is lost and nothing stays pending |
| DsDriver.StepConserves | src/scanapp/ds_driver.py:186-256 | every pass of the loop keeps pages followed by pending chunks equal to every chunk read |
| DsDriver.RunConserves | src/scanapp/ds_driver.py:180-259 | however the loop ends, the yielded pages and pending chunks spell every chunk read, and after the done code nothing is pending |
| DsDriver.ScanYieldsChunks | src/scanapp/ds_driver.py:180-259 | a scan ending with the done code yields every chunk byte read, in order; any other end yields a prefix of them |
| DsDriver.RunPages | src/scanapp/ds_driver.py:199-259 | pages are never taken back, and every page except a final one after the done code is cropped to a nonzero header height |
| DsDriver.RunWrites | src/scanapp/ds_driver.py:188-195 | the loop writes only `ABT EJCT=NO` frames, and none unless another thread asked for an abort |
| DsDriver.SoftAbortOnce | src/scanapp/ds_driver.py:188-195 | a timeout while aborting writes one soft abort and clears the flag, and the loop keeps polling |
| DsDriver.Cmd01Faults | src/scanapp/ds_driver.py:250-253 | a packet with command byte 0x01 always fails its check |
| DsDriver.InfoKeepsState | src/scanapp/ds_driver.py:210-236 | the informational details 0x00, 0x11, 0x21, 0x23 (at their asserted lengths) and 0x41 move on to the next read with pages, chunks and writes unchanged |
| DsDriver.InfoBadLengthFaults | src/scanapp/ds_driver.py:210-226 | details 0x00, 0x11, 0x21 and 0x23 of any other length fail their assertion |
| DsDriver.UnknownCodesFault | src/scanapp/ds_driver.py:244-256 | detail 0x51, any unknown detail and any command byte above 0x01 are fatal |
| DsDriver.AbortDiscards | src/scanapp/ds_driver.py:237-243 | the aborted code ends the scan and yields nothing of the pending chunks |
| DsDriver.HeaderThenChunk | src/scanapp/ds_driver.py:199-209 | a chunk header followed by its chunk is one pass that gathers the chunk with the header's height |
| DsDriver.GatheredState | src/scanapp/ds_driver.py:199-207 | chunks under zero heights pile up in order, yield no page and write nothing |
| DsDriver.GatherChunks | src/scanapp/ds_driver.py:199-207 | reading chunks under zero heights leaves the loop exactly in the gathered state |
| DsDriver.PageOfChunks | src/scanapp/ds_driver.py:199-209 | chunks closed by a nonzero height yield one page of exactly their joined bytes, cropped to that height |
| DsDriver.DoneAt | src/scanapp/ds_driver.py:228-232 | the done code with nothing pending ends the scan with the pages as they are |
| DsDriver.DoneFlushes | src/scanapp/ds_driver.py:228-259 | the done code with chunks pending ends the scan with exactly one more page, uncropped, of those chunks' bytes, and writes nothing |
| DsDriver.ScanOnePage | src/scanapp/ds_driver.py:180-259 | chunks, a closing chunk of height 100 and the done code give exactly one page of those bytes cropped to 100 rows |
| DsDriver.ScanAbortedNoPage | src/scanapp/ds_driver.py:237-243 | chunks no header closed followed by the aborted code give no page at all |
| ScanWorker.FirstEmpty | src/scanapp/scanner_control.py:141-143 | the position of the first empty read, which ends reading; every read before it is non-empty |
| ScanWorker.ReadFileByLines | src/scanapp/scanner_control.py:138-149 | yields exactly the complete lines of what was read before end of file, without newlines; a last fragment without a newline is dropped |
| ScanWorker.Advance | src/scanapp/scanner_control.py:144-149 | one more read keeps yielded lines plus buffer equal to what was read, with no newline left in the buffer |
| ScanWorker.CutLines | src/scanapp/scanner_control.py:146-149 | splitting the buffer at its newlines moves every complete line out of it and keeps the bytes |
| ScanWorker.ReadFileRaw | src/scanapp/scanner_control.py:152-159 | returns every byte read before the first empty read, in order |
| ScanWorker.LinesStartInput | src/scanapp/scanner_control.py:138-149 | the yielded lines are newline-free and, each newline-terminated, form a prefix of the input |
| ScanWorker.Classify | src/scanapp/scanner_control.py:359-373 | definition of the `if`/`elif` classification of an info line; stated by `ClassifyMarkers` |
| ScanWorker.ClassifyMarkers | src/scanapp/scanner_control.py:359-373 | the first-match rule, each way: a line is of a class exactly when it contains that class's marker and none of the earlier ones (`sane_start(`, `sane_close(`, out of documents, jam), and `Other` exactly when it contains none; a line with `sane_close(` is never no-paper or jam |
| ScanWorker.CountOfBounds | src/scanapp/scanner_control.py:359-373 | at most one count per line, and none exactly when no line is of that class |
| ScanWorker.ReadInfo | src/scanapp/scanner_control.py:354-373 | counts the `sane_start(` lines and raises the no-paper and jam flags exactly when such a line was read |
| ScanWorker.Observe | src/scanapp/scanner_control.py:347-373 | the two reader threads deliver the start count, the flags and the image bytes that decide the outcome |
| ScanWorker.Head | src/scanapp/scanner_control.py:428 | `data[:4]` is a prefix of the data, shorter when the data is |
| ScanWorker.Verdict | src/scanapp/scanner_control.py:424-437 | a jam wins; otherwise no paper; otherwise success exactly when the data is non-empty and starts with `\x89PNG` |
| ScannerControl.Waiter.constructor | src/scanapp/scanner_control.py:47-55 | a new waiter holds no callback and waits for work |
| ScannerControl.Waiter.Delay | src/scanapp/scanner_control.py:71-76 | fails exactly when a callback is pending; otherwise holds the callback and timeout and wakes a worker waiting for work |
| ScannerControl.Waiter.Stop | src/scanapp/scanner_control.py:78-83 | fails exactly when a callback is pending; otherwise only resets the timeout |
| ScannerControl.Waiter.Elapse | src/scanapp/scanner_control.py:57-69 | a counting worker empties the slot before running the callback it held |
| ScannerControl.Waiter.Finish | src/scanapp/scanner_control.py:57-69 | after the callback the worker waits for work again |
| ScannerControl.SleepTimer.constructor | src/scanapp/scanner_control.py:96-104 | a new timer is not armed |
| ScannerControl.SleepTimer.Start | src/scanapp/scanner_control.py:118-122 | sets the timeout and arms an idle timer; an armed one is disarmed |
| ScannerControl.SleepTimer.Stop | src/scanapp/scanner_control.py:124-126 | disarms the timer |
| ScannerControl.SleepTimer.Expire | src/scanapp/scanner_control.py:106-116 | the callback fires exactly when the timer was armed |
| ScannerControl.RunningEventsPairs | src/scanapp/scanner_control.py:359-366 | `n` start lines give `n` pairs of a change to `ScanRunning` and `scanner_running` |
| ScannerControl.ScannerControl.constructor | src/scanapp/scanner_control.py:185-197 | all rails low, `PowerDown`, nothing pending, nothing reported |
| ScannerControl.ScannerControl.SetState | src/scanapp/scanner_control.py:239-242 | stores the state and reports that same state |
| ScannerControl.ScannerControl.OnPowerSaving | src/scanapp/scanner_control.py:244-247 | `PowerSaving`, then `scanner_shutdown` |
| ScannerControl.ScannerControl.OnPoweredOn | src/scanapp/scanner_control.py:249-253 | arms the sleep timer with `POWERSAVING_TIMEOUT`, then `Ready` and `scanner_ready` |
| ScannerControl.ScannerControl.PushButton | src/scanapp/scanner_control.py:277-282 | one button pulse; the rail ends low |
| ScannerControl.ScannerControl.PowerOn | src/scanapp/scanner_control.py:255-262 | fails exactly when a waiter holds a callback; always stops the sleep timer, raises power and motor and enters `StartingUp`, and schedules `_on_powered_on` after `STARTUP_DURATION` and the button after 0.1 s |
| ScannerControl.ScannerControl.PowerOff | src/scanapp/scanner_control.py:264-275 | fails exactly when a waiter still holds a callback; otherwise disarms the sleep timer, resets both waiters' timeouts, drives all four rails low, and reports `PowerDown` and `scanner_shutdown` only when not already down |
| ScannerControl.ScannerControl.Resume | src/scanapp/scanner_control.py:284-288 | stops the sleep timer, one button pulse, then `_on_powered_on` after `STARTUP_RESUME_DURATION`, with no state change |
| ScannerControl.ScannerControl.Startup | src/scanapp/scanner_control.py:199-217 | powers on from `PowerDown` and resumes from `PowerSaving`, each with its callbacks scheduled and, when a waiter's slot is taken, failing with that waiter left as it was; otherwise changes nothing and reports ready; the sleep timer's timeout never changes |
| ScannerControl.ScannerControl.Shutdown | src/scanapp/scanner_control.py:223-226 | fails exactly when a waiter still holds a callback, leaving state, events, rails, presses and waiter slots unchanged; the sleep timer always ends disarmed; otherwise disarms the sleep timer, resets both waiters' timeouts, drives all four rails low, and reports `PowerDown` and `scanner_shutdown` only when not already down |
| ScannerControl.ScannerControl.Reset | src/scanapp/scanner_control.py:234-237 | fails exactly when a waiter still holds a callback, leaving state, events, rails, presses and waiter slots unchanged; the sleep timer always ends disarmed; otherwise powers off as `shutdown` does and schedules `_power_on` after `RESTART_DELAY` on the first waiter, waking its worker if it waits for work |
| ScannerControl.ScannerControl.CanScan | src/scanapp/scanner_control.py:219-221 | definition of `can_scan` (the state is `Ready`); `ScannerControl.Scan` fails exactly when it does not hold |
| ScannerControl.ScannerControl.Scan | src/scanapp/scanner_control.py:290-296 | fails exactly when not `Ready`; otherwise `ScanStarting` |
| ScannerControl.ScannerControl.Feed | src/scanapp/scanner_control.py:298-305 | reports `scanner_starting`, drives the motor-sleep rail low and raises the paper rail |
| ScannerControl.ScannerControl.ReportStarts | src/scanapp/scanner_control.py:359-366 | every start line moves the state to `ScanRunning` and reports it |
| ScannerControl.ScannerControl.EndFeed | src/scanapp/scanner_control.py:311-323 | the paper rail drops, then `ScanReceiving` and `scanner_receiving` |
| ScannerControl.ScannerControl.ReportOutcome | src/scanapp/scanner_control.py:424-437 | jam gives `Paperjam`; no paper gives `Ready`; success gives `Ready` with the data; bad data reports nothing |
| ScannerControl.ScannerControl.RunScan | src/scanapp/scanner_control.py:298-437 | fails exactly on bad data; otherwise the state and the whole event sequence are those of the outcome the two pipes decide |
| ScannerControl.ScannerControl.WaiterElapsed | src/scanapp/scanner_control.py:57-69 | the first waiter's callback runs: `_on_powered_on` reaches `Ready` with the sleep timer armed; `_power_on` reaches `StartingUp` with the lost notify and schedules the button press on the second waiter (failing, with it unchanged, when its slot is taken); button, paper rail, presses and the timer's timeout are kept |
| ScannerControl.ScannerControl.Waiter2Elapsed | src/scanapp/scanner_control.py:277-282 | the second waiter's callback pulses the button |
| ScannerControl.ScannerControl.SleepTimerExpired | src/scanapp/scanner_control.py:244-247 | `_on_power_saving` fires only if the timer was armed |
| ScannerControl.ScanEventsShape | src/scanapp/scanner_control.py:298-437 | a scan reports its start, two events per start line, the end of the feed, then the outcome's events |
| ScannerControl.ColdStart | src/scanapp/scanner_control.py:199-262 | a cold start pulses the button once and reaches `Ready` with the sleep timer armed |
| ScannerControl.IdleThenResume | src/scanapp/scanner_control.py:244-288 | idle, the scanner saves power; `startup` then pulses the button and returns to `Ready` |
| ScannerControl.ScanOnce | src/scanapp/scanner_control.py:219-294 | `scan` is refused before `Ready`, accepted once, and refused while scanning |
| ScannerControl.ShutdownWhileStarting | src/scanapp/scanner_control.py:223-275 | `shutdown` while `_on_powered_on` is pending fails and changes nothing |
| ScannerControl.ResetNeverReady | src/scanapp/scanner_control.py:57-76 | after `reset` from `Ready` the scanner stays `StartingUp`, and a later `shutdown` fails |
| Stitcher.Cropbox.ExtendBelow | src/scanapp/stitcher.py:27-39 | min left, max right, same top, summed heights, width at least both, offsets non-negative with at most one nonzero, the new image pasted directly below |
| Stitcher.Cropbox.Width | src/scanapp/stitcher.py:15-17 | definition of `width`; used by `ExtendBelow` and `ExtendBelowFits` |
| Stitcher.Cropbox.Height | src/scanapp/stitcher.py:23-25 | definition of `height`; used by `ExtendBelow` and `AppendedRows` |
| Stitcher.Cropbox.Empty | src/scanapp/stitcher.py:19-21 | definition of `empty`; stated by `EmptyIffNoArea` |
| Stitcher.EmptyIffNoArea | src/scanapp/stitcher.py:15-25 | a box is empty exactly when its width or height is not positive |
| Stitcher.ExtendBelowFits | src/scanapp/stitcher.py:27-39 | both pasted images fit in the stitched box, one directly below the other |
| Stitcher.SplitRows | src/scanapp/stitcher.py:142-144 | `th_bt == th_tb + PREVIEW_MARGIN` and `th_tb + PREVIEW_MARGIN + th_bt_size` is the thumbnail height |
| Stitcher.Placed | src/scanapp/stitcher.py:108-132 | definition of the three placement branches of `append`; stated by `AppendedFinishes`, `AppendedRows` and `AppendedBounded` |
| Stitcher.AppendedWhen | src/scanapp/stitcher.py:100-166 | definition of `append` with the end-of-page decision as a parameter; stated by `AppendedMatches`, `AppendedRows` and `AppendedBounded` for either decision |
| Stitcher.Appended | src/scanapp/stitcher.py:100-166 | definition of `append` with the intended end-of-page test; stated by `AppendedFinishes`, and `ScanCollector.Append` is proved equal to it |
| Stitcher.AppendedAsWritten | src/scanapp/stitcher.py:100-166 | definition of `append` with line 164 as written; stated by `AppendedAsWrittenContinues` and `AppendedDiverges` |
| Stitcher.EndGapAsWrittenNever | src/scanapp/stitcher.py:164-166 | as written, the end-of-page test never fires for a box inside the scan |
| Stitcher.AppendedAsWrittenContinues | src/scanapp/stitcher.py:100-166 | `append` as written never finishes the image for an early end of page: a non-empty scan inside the page always leaves an image to continue |
| Stitcher.AppendedDiverges | src/scanapp/stitcher.py:164-166 | when the page ends early, `append` as written leaves the image open, and the intended `append` gives exactly that state with the image finished |
| Stitcher.EndGapMissed | src/scanapp/stitcher.py:164-166 | a half-filled page ends the image by the intended test but not by the test as written |
| Stitcher.FullPageContinues | src/scanapp/stitcher.py:164-166 | a page filled to within 10 rows of its end does not end the image |
| Stitcher.Finalized | src/scanapp/stitcher.py:168-174 | the current image joins the finished ones and none is current |
| Stitcher.FinalizedRows | src/scanapp/stitcher.py:168-174 | finishing an image keeps every row |
| Stitcher.AppendedMatches | src/scanapp/stitcher.py:100-166 | `append`, as written and as intended, keeps the current image exactly as large as its box |
| Stitcher.AppendedRows | src/scanapp/stitcher.py:100-166 | as written and as intended, a non-empty scan adds exactly its crop height to the rows held; an empty one adds none |
| Stitcher.AppendedFinishes | src/scanapp/stitcher.py:100-166 | with the intended end-of-page test: an empty box changes nothing; at most two images finish; a full page or a late top finishes the previous image; an early end of page leaves nothing to continue |
| Stitcher.AppendedBounded | src/scanapp/stitcher.py:115-132 | as written and as intended, a stitched image stays within `MAX_HEIGHT` unless a single scan alone is taller |
| Stitcher.ScanCollector.constructor | src/scanapp/stitcher.py:59-63 | no current image, nothing finished |
| Stitcher.ScanCollector.CanContinue | src/scanapp/stitcher.py:65-66 | definition of `can_continue` (an image is current); `AppendedAsWrittenContinues` shows it always holds after a non-empty `append` as written |
| Stitcher.ScanCollector.BeginNext | src/scanapp/stitcher.py:68-69 | clears the current image without finishing it |
| Stitcher.ScanCollector.FinalizeCurrent | src/scanapp/stitcher.py:168-174 | fails exactly without a current image; otherwise finishes it |
| Stitcher.ScanCollector.GetAll | src/scanapp/stitcher.py:71-74 | finishes a pending image first and returns every finished image |
| Stitcher.ScanCollector.Append | src/scanapp/stitcher.py:100-166 | fails exactly on a non-empty scan of the wrong width; otherwise moves to `Appended` and keeps images as large as their boxes |
| Stitcher.StitchPages | src/scanapp/stitcher.py:100-174 | a full page and a short page filled to their ends stitch into one image 1500 rows high; a page whose content starts 20 rows down finishes it and starts a second, and `get_all` returns both |

## Left out

- USB transport (`usb.core`, endpoints, `close`), GPIO calls, `time.sleep` and `time.time`, and the debug harnesses and `__main__` blocks are not modelled. USB reads are an input sequence, frames written are a log, and rails are booleans.
- Threads and condition variables are reduced to the one-slot waiter with the phase of its worker. The barrier and events of `_scan` are left out, as is the `scanimage` subprocess; its two pipes are inputs. `end`, `Waiter.shutdown` and `Timer.shutdown` (thread teardown) are not modelled.
- Durations are whole milliseconds; the float constants `SCAN_MAX_DURATION`, `MOTOR_SLEEP_START_TIME` and the 1.4 s motor wait only order the rail changes of `_scan`.
- ScannerControl.ScannerControl.RunScan: assumes the motor-sleep thread ends last, so the motor rail is low at the end; the race between `start_motor` and `stop_motor` and the rail changes in between are not modelled.
- ScannerControl.ScannerControl.RunScan: runs the threads of `_scan` in one fixed order (start, every running pair, receiving, outcome). The source does not fix that order. `read_info_fn` sets `t_scanning_signal` before it reports `ScanRunning`, and `end_paper` reports `ScanReceiving` after a fixed delay or when `t_abort` is set. So a running pair can follow `scanner_receiving`, and after a failed assertion the state can be `ScanRunning` rather than `ScanReceiving`. Neither interleaving is modelled.
- Stitcher.ScanCollector.Append: uses the corrected end-of-page test (see Findings), so it finishes the image when a page ends more than 10 rows early. The code as written never does this; `AppendedAsWritten` models it, and `AppendedDiverges` states the difference.
- DsDriver.DsDriver.Scan: the generator is run to its end rather than page by page; the `Exhausted` end only marks the end of the recorded reads, where the real loop would keep reading.
- DsDriver.DsDriver.Scan: the chunk read after a header is taken whole; that its length equals the declared `chunk_size` is not checked, as `_user_read(chunk_size)` does not check it either.
- Image decoding and cropping with PIL (`Image.open`, `crop`) are not modelled: a page is its joined bytes and its crop height.
- `_cropbox` (pixel differencing against the calibration image), `qthumbnail`, the thumbnail resize and paste, and the JPEG encoding in `_finalize_current` are pixel work: images are their size, the crop box is an input, and finished images are kept as sizes, not JPEG bytes.
- Stitcher.ScanCollector.Append: takes any crop box, the empty one included. In the source a blank scan never reaches the empty-box branch of `append`: `getbbox` returns `None` for it, so `Cropbox(*diff.getbbox())` at stitcher.py:82 raises `TypeError` inside `_cropbox`. That failure is not modelled.
- Stitcher.ScanCollector.Append: the float aspect-ratio test at stitcher.py:133 is the input `simple`; the thumbnail rows (`SplitRows`) are modelled, the resize boxes `img_tb` and `img_bt` are not.
- Bytes.Ascii: text is assumed ASCII (every key and text value the source uses is); other characters are not UTF-8 encoded.
- The UI forwarding in `scanner_controller.py` (which calls `scan(long)` and `scan_stop`, absent from `ScannerControl`), the mail, HTTP and PDF code, and the environment lookups are not part of this model.

## Findings

| source | as written | input that shows it | evidently intended | confidence | as-written member | corrected member |
|---|---|---|---|---|---|---|
| src/scanapp/stitcher.py:164 | `cropbox.bottom < img.height - 10`, where `img` was rebound to the cropped scan at line 107, so `img.height == cropbox.bottom - cropbox.top` and the test holds only when `cropbox.top < -10` | a scan 100 rows high whose content box is `(0, 0, 100, 50)`: 50 blank rows below the content, yet the image is not finished | compare with the height of the scanned page, so a page with more than 10 blank rows at its end finishes the stitched image | not executed | Stitcher.AppendedAsWrittenContinues | Stitcher.AppendedFinishes |

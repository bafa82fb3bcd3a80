# esp_chunfeng voice-chat core, modelled in Dafny

This project models the logic of the esp_chunfeng voice assistant (ESP-IDF, C)
that sits between vendor calls, and proves what it does:

- `coze_chat_app.dfy` and `button_queue.dfy` — the voice-chat event controller of
  `coze_chat_app.c`. The recorder callback handles wake-word and VAD events. The
  button callback feeds a FreeRTOS queue of two `button_event_t`. The button task
  turns press/release into cancel/complete calls on the Coze session. The read
  task decides per iteration whether a frame goes to the session. The controller
  is a class `ChatApp` with the `wakeuped` flag, the `BUTTON_REC_READING` bit, an
  append-only trace of session, prompt and recorder calls, and the button queue.
  The queue is a class `Queue` over a two-slot array ring buffer. Each method is
  proved to move the state exactly as a pure step function says, and the lemmas
  are about those functions.
- `http_chunked.dfy` — `_http_stream_event_handle` of `esp_gmf_setup_pool.c`, the
  HTTP stream hook that uploads recorded audio with the chunked transfer coding
  of section 7.1 of RFC 9112. A class `StreamHandler` holds the static
  `total_write` and what the client has been asked to do (POST, headers,
  writes). A small chunk decoder is the partner of the framing: an upload of
  non-empty buffers decodes back to the buffers in order. The `%x` size line and
  the `snprintf` header values are modelled byte by byte.
- `display_app.dfy` — the coordinate and buffer helpers of `display_app.c`: the
  even/odd area rounder, the rotation table, the LVGL task delay clamp, and the
  in-place 32-bit to 24-bit pixel packing of the flush callback on an `array`.
- `periph_setup.dfy` — the decision and bookkeeping layer of
  `esp_gmf_setup_peripheral.c`: which I2S channel modes are created for which
  requested devices and ports, the early returns on failure, and the global
  `tx_handle`, `rx_handle` and `i2c_handle` that creation sets and teardown
  clears. A class `Peripherals` holds the handles and the trace of vendor calls.

Vendor calls (Coze client, recorder, playback, HTTP client, I2S, codec and I2C
drivers) are not modelled. Each call becomes a trace entry, and its result
becomes a parameter: the write counts and read length of the HTTP client, the
`esp_err_t` of each I2S step, what `esp_coze_chat_init` and
`audio_recorder_read_data` return, and whether the I2C bus came up. Each task
iteration and each callback is one atomic step.

Behaviour of the code worth noting:

- A send into the full button queue uses timeout 0, so the newest event is lost
  and the queued ones stay.
- VAD events only log; they do not touch the session.
- In key-press and wake-up modes the recorder read is commented out. The length
  sent stays 0.
- `coze_chat_app_init` returns ESP_OK even when `init_coze_chat` fails.

## Model

| member | source | states |
|---|---|---|
| ButtonQueue.Send | components/coze_manage/coze_chat_app.c:158 | a send with timeout 0 succeeds exactly when fewer than two events are queued; then the event is appended, otherwise the queue is unchanged |
| ButtonQueue.Receive | components/coze_manage/coze_chat_app.c:171 | a receive on a non-empty queue returns the oldest event and leaves the rest; an empty queue gives no event |
| ButtonQueue.SendAllKeepsOldest | components/coze_manage/coze_chat_app.c:158 | after a burst of callbacks the queue holds the oldest events up to capacity 2; every later event is dropped |
| ButtonQueue.FullQueueDropsNewest | components/coze_manage/coze_chat_app.c:158 | a send into a full queue fails, keeps the contents, and the next receive still returns the oldest event |
| ButtonQueue.DrainInOrder | components/coze_manage/coze_chat_app.c:171 | receiving until the queue is empty returns the queued events, oldest first |
| ButtonQueue.FifoOrder | components/coze_manage/coze_chat_app.c:158-171 | after any burst of sends, receiving until empty returns the events already queued and then the accepted ones, in the order sent, up to the capacity of 2 |
| ButtonQueue.Ring | components/coze_manage/coze_chat_app.c:280 | the ring buffer's contents have exactly `count` items, starting at the head slot |
| ButtonQueue.RingAppend | components/coze_manage/coze_chat_app.c:158 | storing an event in the slot after the last item appends it to the contents |
| ButtonQueue.Queue.constructor | components/coze_manage/coze_chat_app.c:280 | a new queue of two slots is empty |
| ButtonQueue.Queue.Push | components/coze_manage/coze_chat_app.c:158 | pushing moves the contents and the result exactly as `Send` says and keeps the ring valid |
| ButtonQueue.Queue.Pop | components/coze_manage/coze_chat_app.c:171 | popping returns and removes exactly what `Receive` says |
| CozeChatApp.WakeupStartCancelsIffWoken | components/coze_manage/coze_chat_app.c:117-126 | WAKEUP_START makes one cancel if and only if `wakeuped` was already true, then plays `file://spiffs/dingding.wav` once, and leaves `wakeuped` true |
| CozeChatApp.WakeupEndCallsNothing | components/coze_manage/coze_chat_app.c:127-130 | WAKEUP_END sets `wakeuped` false and makes no call |
| CozeChatApp.OtherRecorderEventsOnlyLog | components/coze_manage/coze_chat_app.c:131-145 | VAD_START, VAD_END, the command timeout and every other event leave the state and the trace unchanged |
| CozeChatApp.ButtonTaskOrder | components/coze_manage/coze_chat_app.c:173-184 | PRESS_DOWN cancels whatever the state and then sets the recording bit; PRESS_UP clears the bit and then completes; other events change nothing; `wakeuped` is never touched |
| CozeChatApp.ReadTaskSends | components/coze_manage/coze_chat_app.c:206-227 | an iteration sends one frame exactly when the mode allows it (key mode: bit set; wake mode: woken; otherwise always), with length 0 in key and wake modes and the recorder's length otherwise; no iteration changes `wakeuped` or the bit |
| CozeChatApp.ButtonRunInvariant | components/coze_manage/coze_chat_app.c:166-188 | after any run of button events the recording bit says whether the last press or release was a press, and the trace holds one cancel per press and one complete per release |
| CozeChatApp.HeldButtonKeepsSending | components/coze_manage/coze_chat_app.c:208-214 | with the bit set, k iterations of the key-mode read task send k frames of length 0 and leave the bit set |
| CozeChatApp.Repeat | components/coze_manage/coze_chat_app.c:208-214 | the k repeated send calls of a held button form a sequence of length k |
| CozeChatApp.InitStartsOnlyOnSuccess | components/coze_manage/coze_chat_app.c:97-104 | `init_coze_chat` first initialises, starts the session if and only if the init returned ESP_OK, and returns ESP_FAIL otherwise |
| CozeChatApp.ChatApp.constructor | components/coze_manage/coze_chat_app.c:260 | the controller starts with `wakeuped` false, the bit clear, no call made and an empty queue |
| CozeChatApp.ChatApp.AppInit | components/coze_manage/coze_chat_app.c:257-296 | the app initialisation clears `wakeuped`, creates an empty two-slot queue in key-press mode, runs the chat init and the audio pipe, and returns ESP_OK whatever the chat init returned |
| CozeChatApp.ChatApp.InitCozeChat | components/coze_manage/coze_chat_app.c:82-105 | the chat init appends exactly `InitCalls` to the trace and returns `InitResult` |
| CozeChatApp.ChatApp.AudioPipeOpen | components/coze_manage/coze_chat_app.c:236-250 | opening the pipe appends the manager, prompt, recorder and playback calls of the mode; the recorder gets the event callback only outside key-press mode |
| CozeChatApp.ChatApp.OnRecorderEvent | components/coze_manage/coze_chat_app.c:113-146 | the recorder callback moves the state exactly as `RecorderEvent` |
| CozeChatApp.ChatApp.OnButtonEvent | components/coze_manage/coze_chat_app.c:155-159 | the button callback sends the event into the queue with timeout 0, as `Send` |
| CozeChatApp.ChatApp.ButtonTaskStep | components/coze_manage/coze_chat_app.c:166-188 | one button-task iteration receives from the queue and then moves the state as `ButtonTask` |
| CozeChatApp.ChatApp.ReadTaskStep | components/coze_manage/coze_chat_app.c:197-229 | one read-task iteration moves the state as `ReadTask` |
| HttpChunked.HexDigit | components/audio_manage/common/esp_gmf_setup_pool.c:117 | each digit of `%x` is a lower-case hex digit whose value is the digit it encodes |
| HttpChunked.Hex | components/audio_manage/common/esp_gmf_setup_pool.c:117 | `%x` of a length is never empty |
| HttpChunked.HexIsLowerCase | components/audio_manage/common/esp_gmf_setup_pool.c:117 | `%x` writes only lower-case hex digits |
| HttpChunked.HexValueOfHex | components/audio_manage/common/esp_gmf_setup_pool.c:117 | reading back the hex numeral gives the length |
| HttpChunked.HexLength | components/audio_manage/common/esp_gmf_setup_pool.c:117 | a length below 16^k takes at most k hex digits |
| HttpChunked.HexFitsLenBuf | components/audio_manage/common/esp_gmf_setup_pool.c:82-117 | for any `int` length the size line and its NUL fit the 16-byte `len_buf` |
| HttpChunked.SizeDigitsRun | components/audio_manage/common/esp_gmf_setup_pool.c:117 | the decoder's digit scan reads a run of hex digits up to its CRLF, with their value, and goes on to the chunk data |
| HttpChunked.ReadSizeLine | components/audio_manage/common/esp_gmf_setup_pool.c:117 | the size line the handler writes is read back as the length, and the data follows it |
| HttpChunked.Decimal | components/audio_manage/common/esp_gmf_setup_pool.c:91 | `%d` of a non-negative number is a non-empty string of decimal digits |
| HttpChunked.DecimalLength | components/audio_manage/common/esp_gmf_setup_pool.c:91 | a number below 10^k takes at most k digits |
| HttpChunked.SnprintfDecimal | components/audio_manage/common/esp_gmf_setup_pool.c:89-110 | `snprintf` into `dat` keeps a prefix of the numeral that leaves room for the NUL |
| HttpChunked.DecimalFitsDat | components/audio_manage/common/esp_gmf_setup_pool.c:89-110 | every number below 10^9 fits the 10-byte `dat` untruncated |
| HttpChunked.DecodeChunked | components/audio_manage/common/esp_gmf_setup_pool.c:117-135 | the chunk decoder used as the partner of the framing never consumes more than its input |
| HttpChunked.EmptyChunkIsLastChunk | components/audio_manage/common/esp_gmf_setup_pool.c:117-135 | the frame of an empty buffer is byte for byte the last-chunk `0\r\n\r\n` |
| HttpChunked.DecodeLastChunk | components/audio_manage/common/esp_gmf_setup_pool.c:135 | the last-chunk decodes to an empty body and ends the message |
| HttpChunked.DecodeOneChunk | components/audio_manage/common/esp_gmf_setup_pool.c:117-126 | one frame of a non-empty buffer decodes to that buffer followed by what the rest decodes to |
| HttpChunked.DecodeFrames | components/audio_manage/common/esp_gmf_setup_pool.c:117-135 | the frames of non-empty buffers and the last-chunk decode to the buffers concatenated in order, whatever follows |
| HttpChunked.EmptyBufferEndsBody | components/audio_manage/common/esp_gmf_setup_pool.c:117-126 | with a client that reports a positive count for an empty write, a zero-length buffer's frame is a whole last-chunk: the body decoded ends there and later buffers are lost |
| HttpChunked.AcceptedAppend | components/audio_manage/common/esp_gmf_setup_pool.c:118-135 | the bytes the client accepted over two runs of writes are the first run's then the second's |
| HttpChunked.ContentType | components/audio_manage/common/esp_gmf_setup_pool.c:65-69 | Content-Type is from `header_type`: `audio/aac` exactly for AAC, `audio/opus` exactly for OPUS, `audio/wav` for every other type |
| HttpChunked.AcceptedChunkWrites | components/audio_manage/common/esp_gmf_setup_pool.c:117-126 | three successful ON_REQUEST writes put exactly one chunk on the wire |
| HttpChunked.OnRequestSuccess | components/audio_manage/common/esp_gmf_setup_pool.c:117-129 | when every write succeeds ON_REQUEST writes the hex size line, the buffer and CRLF in that order, returns `buffer_len` and adds it to `total_write` |
| HttpChunked.OnRequestFailure | components/audio_manage/common/esp_gmf_setup_pool.c:118-126 | when a write returns at most 0, ON_REQUEST returns ESP_FAIL at once, skips the later writes and keeps `total_write` |
| HttpChunked.EmptyBufferFailsOnCountingClient | components/audio_manage/common/esp_gmf_setup_pool.c:117-123 | with a client that returns each write's byte count, a zero-length buffer's data write returns 0: only `0\r\n` is sent, ON_REQUEST returns ESP_FAIL and `total_write` is unchanged |
| HttpChunked.EmptyBufferWritesLastChunk | components/audio_manage/common/esp_gmf_setup_pool.c:117-129 | with a client that reports a positive count for every write, a zero-length buffer makes ON_REQUEST send the whole last-chunk `0\r\n\r\n` and return 0, with `total_write` unchanged |
| HttpChunked.PostRequestWritesLastChunk | components/audio_manage/common/esp_gmf_setup_pool.c:132-139 | POST_REQUEST writes `0\r\n\r\n` and fails exactly when that write returns at most 0 |
| HttpChunked.PreRequestHeaderValues | components/audio_manage/common/esp_gmf_setup_pool.c:85-112 | PRE_REQUEST sets the rate, Content-Type, bits and channel headers to "16000", the table entry, "16" and "1", writes nothing, resets `total_write` and returns ESP_OK |
| HttpChunked.FinishRequestResult | components/audio_manage/common/esp_gmf_setup_pool.c:141-156 | FINISH_REQUEST fails and keeps the counter when the read returns at most 0, and otherwise resets `total_write` and returns ESP_OK |
| HttpChunked.OtherEventIgnored | components/audio_manage/common/esp_gmf_setup_pool.c:157 | any other event returns ESP_OK with no write, no header and no counter change |
| HttpChunked.FinishTerminatorOverflowAsWritten | components/audio_manage/common/esp_gmf_setup_pool.c:144-151 | of the read lengths the read of 64 allows, exactly 64 puts the terminator outside the 64-byte buffer |
| HttpChunked.FinishTerminatorFitsCorrected | components/audio_manage/common/esp_gmf_setup_pool.c:144-151 | with the read capped at 63 bytes every successful read leaves room for the terminator |
| HttpChunked.UploadWire | components/audio_manage/common/esp_gmf_setup_pool.c:115-139 | an upload of non-empty buffers puts the chunks and then the last-chunk on the wire |
| HttpChunked.UploadRoundTrip | components/audio_manage/common/esp_gmf_setup_pool.c:115-139 | what an upload of non-empty buffers puts on the wire decodes to the buffers concatenated in order |
| HttpChunked.StreamHandler.constructor | components/audio_manage/common/esp_gmf_setup_pool.c:83 | `total_write` starts at 0, with nothing sent |
| HttpChunked.StreamHandler.Handle | components/audio_manage/common/esp_gmf_setup_pool.c:79-158 | one handler call returns, writes, sets headers and updates `total_write` as the event's functions say, and the client's accepted bytes grow by the event's accepted writes |
| HttpChunked.StreamHandler.HandlePreRequest | components/audio_manage/common/esp_gmf_setup_pool.c:85-113 | PRE_REQUEST switches to POST, appends the four headers in order, writes nothing and resets the counter |
| HttpChunked.StreamHandler.HandleOnRequest | components/audio_manage/common/esp_gmf_setup_pool.c:115-130 | ON_REQUEST makes the writes of `OnRequestWrites` and updates the counter only when all three succeed |
| HttpChunked.StreamHandler.HandlePostRequest | components/audio_manage/common/esp_gmf_setup_pool.c:132-139 | POST_REQUEST makes the one last-chunk write and leaves the counter |
| HttpChunked.StreamHandler.HandleFinishRequest | components/audio_manage/common/esp_gmf_setup_pool.c:141-156 | the corrected FINISH_REQUEST, with the read capped at 63 bytes (see Findings): it reads into a 64-byte buffer, stores the terminator in bounds at `TerminatorIndex`, fails on a read of at most 0, and otherwise resets the counter |
| DisplayApp.RoundDown | components/display_manage/display_app.c:143-144 | `(v >> 1) << 1` is even, no greater than v, and at most 1 less |
| DisplayApp.RoundUp | components/display_manage/display_app.c:146-147 | `((v >> 1) << 1) + 1` is odd, no less than v, and at most 1 greater |
| DisplayApp.Rounder | components/display_manage/display_app.c:135-148 | the rounded start corner is even and the end corner odd, each edge moves by at most one pixel outwards, and a well-formed area is contained in its rounding, whose width and height are even |
| DisplayApp.RounderIdempotent | components/display_manage/display_app.c:135-148 | rounding twice equals rounding once |
| DisplayApp.RounderSmallest | components/display_manage/display_app.c:135-148 | every aligned area containing the original contains its rounding |
| DisplayApp.SwapOnQuarterTurns | components/display_manage/display_app.c:102-124 | `swap_xy` is true exactly for 90 and 270 degrees |
| DisplayApp.HalfTurnFlipsBothMirrors | components/display_manage/display_app.c:102-124 | rotations 180 degrees apart have the same swap and opposite mirrors, which the table (none: true,false; 90: true,true; 180: false,true; 270: false,false) satisfies |
| DisplayApp.OrientationsDistinct | components/display_manage/display_app.c:102-124 | the four rotations give four different panel settings |
| DisplayApp.ClampDelay | components/display_manage/display_app.c:212-223 | the delay after clamping lies in [1, 500] ms and equals `lv_timer_handler`'s result whenever that is in range |
| DisplayApp.ClampDelayIdempotent | components/display_manage/display_app.c:216-223 | clamping a clamped delay changes nothing |
| DisplayApp.PixelNum | components/display_manage/display_app.c:71 | `pixel_num` is the area's pixel count truncated to 16 bits, so it never exceeds the count |
| DisplayApp.Processed | components/display_manage/display_app.c:71-84 | the packing handles at least pixel 0 and never more pixels than the area has |
| DisplayApp.Packed | components/display_manage/display_app.c:67-85 | the intended packing keeps the buffer's length |
| DisplayApp.PackedPixels | components/display_manage/display_app.c:74-84 | intended packing: output bytes 3i..3i+2 are pixel i's red, green, blue, and bytes past the packed pixels keep their values |
| DisplayApp.PackStep | components/display_manage/display_app.c:79-84 | packing one more pixel stores its three bytes and changes nothing else |
| DisplayApp.AsWrittenPacked | components/display_manage/display_app.c:79-84 | the packing as the loop performs it keeps the buffer's length |
| DisplayApp.AsWrittenStep | components/display_manage/display_app.c:79-84 | one loop iteration as written stores pixel i's red and green, and its blue except for pixel 1, where it stores pixel 1's green |
| DisplayApp.AsWrittenLosesPixel1Blue | components/display_manage/display_app.c:79-84 | as written, pixel 1 comes out as red, green, green; the result differs from the intended one at byte 5 only, and does differ whenever pixel 1's blue and green differ |
| DisplayApp.AsWrittenCounterexample | components/display_manage/display_app.c:79-84 | a concrete two-pixel buffer on which the loop as written and the intended packing differ |
| DisplayApp.PackFirstPixel | components/display_manage/display_app.c:74-77 | pixel 0, through the saved blue, comes out as its red, green, blue |
| DisplayApp.FlushAsWritten | components/display_manage/display_app.c:59-89 | the flush callback as written leaves the buffer as `AsWrittenPacked` of the old one and draws with exclusive end corner (x2+1, y2+1) |
| DisplayApp.Flush | components/display_manage/display_app.c:59-89 | the flush callback with each pixel's blue saved first leaves the buffer as the intended packing and draws with exclusive end corner (x2+1, y2+1) |
| PeriphSetup.Results | components/audio_manage/common/esp_gmf_setup_peripheral.c:117-138 | each mode has one result per step of `setup_periph_create_i2s` |
| PeriphSetup.FirstFailure | components/audio_manage/common/esp_gmf_setup_peripheral.c:117-138 | the index found is the first step whose result is not ESP_OK, or the count of steps when all succeed |
| PeriphSetup.FailurePoint | components/audio_manage/common/esp_gmf_setup_peripheral.c:117-138 | the first failing step of each mode: channel creation, then TX init, then RX init |
| PeriphSetup.CreateI2s | components/audio_manage/common/esp_gmf_setup_peripheral.c:117-138 | creating I2S makes exactly the steps of the mode up to and including the first failing one and returns that step's error, or ESP_OK; the TX and RX handles become non-NULL exactly when a channel with that direction was created |
| PeriphSetup.FailedInitKeepsChannel | components/audio_manage/common/esp_gmf_setup_peripheral.c:117-138 | a failing TX init reports the error but leaves the created channel's handles set, and RX init is not attempted |
| PeriphSetup.SetupCodec | components/audio_manage/common/esp_gmf_setup_peripheral.c:339-366 | the codec bring-up returns OK or FAIL; with neither device requested it fails and changes nothing; a device is handed back exactly when it was requested and the bring-up succeeded |
| PeriphSetup.NeitherRequestedFails | components/audio_manage/common/esp_gmf_setup_peripheral.c:361-364 | with neither device requested the result is ESP_GMF_ERR_FAIL, no channel is created and no device is set |
| PeriphSetup.SamePortCreatesDuplex | components/audio_manage/common/esp_gmf_setup_peripheral.c:341-345 | both devices on one port: one TX_AND_RX creation with `play_info`, then the play and record codecs only if it succeeded |
| PeriphSetup.DifferentPortsCreateInTurn | components/audio_manage/common/esp_gmf_setup_peripheral.c:346-350 | both devices on different ports: TX_ONLY with `play_info`, then RX_ONLY with `rec_info` only if the first succeeded, codecs only if both did, and FAIL as soon as either fails |
| PeriphSetup.PlayOnlyCreatesTx | components/audio_manage/common/esp_gmf_setup_peripheral.c:351-355 | play only: TX_ONLY with `play_info`, then the play codec only if it succeeded |
| PeriphSetup.RecordOnlyCreatesRx | components/audio_manage/common/esp_gmf_setup_peripheral.c:356-360 | record only: RX_ONLY with `rec_info`, then the record codec only if it succeeded |
| PeriphSetup.TeardownPlay | components/audio_manage/common/esp_gmf_setup_peripheral.c:270-281 | play teardown leaves `tx_handle` NULL and the other handles alone |
| PeriphSetup.TeardownRecord | components/audio_manage/common/esp_gmf_setup_peripheral.c:287-297 | record teardown leaves `rx_handle` NULL and the other handles alone |
| PeriphSetup.TeardownCodec | components/audio_manage/common/esp_gmf_setup_peripheral.c:375-380 | only the non-NULL devices are torn down, in the order play then record, and their handles become NULL |
| PeriphSetup.SetupI2c | components/audio_manage/common/esp_gmf_setup_peripheral.c:304-315 | the bus is created once; the handle is set when it came up and the result is not checked |
| PeriphSetup.TeardownI2c | components/audio_manage/common/esp_gmf_setup_peripheral.c:321-327 | the bus is deleted only when the handle is non-NULL, and the handle is NULL afterwards |
| PeriphSetup.TeardownI2cIdempotent | components/audio_manage/common/esp_gmf_setup_peripheral.c:321-327 | a second I2C teardown deletes nothing and changes nothing |
| PeriphSetup.SetupThenTeardownReleases | components/audio_manage/common/esp_gmf_setup_peripheral.c:339-380 | tearing down the devices of a successful bring-up from no channels leaves both I2S handles NULL |
| PeriphSetup.Peripherals.constructor | components/audio_manage/common/esp_gmf_setup_peripheral.c:36-56 | every handle starts NULL |
| PeriphSetup.Peripherals.CreateI2sChannels | components/audio_manage/common/esp_gmf_setup_peripheral.c:117-138 | the globals and the result move exactly as `CreateI2s` says |
| PeriphSetup.Peripherals.SetupPeriphCodec | components/audio_manage/common/esp_gmf_setup_peripheral.c:339-366 | the globals, the result and the devices handed back are exactly those of `SetupCodec` |
| PeriphSetup.Peripherals.TeardownPeriphCodec | components/audio_manage/common/esp_gmf_setup_peripheral.c:375-380 | the globals move exactly as `TeardownCodec` says |
| PeriphSetup.Peripherals.SetupPeriphI2c | components/audio_manage/common/esp_gmf_setup_peripheral.c:304-315 | the globals move exactly as `SetupI2c` says |
| PeriphSetup.Peripherals.TeardownPeriphI2c | components/audio_manage/common/esp_gmf_setup_peripheral.c:321-327 | the globals move exactly as `TeardownI2c` says |

## Left out

- Threads, FreeRTOS event groups and blocking waits: each callback and each loop iteration is one atomic step. A receive on an empty queue, where the task would block, is a step that does nothing. The key-mode wait for the recording bit is the `recReading` test of the read step.
- Button hardware set-up, the registration of the button callbacks and the creation of the event group and the tasks in `coze_chat_app_init`: vendor calls without logic.
- The Coze client, the recorder, the prompt player and the playback are foreign code: their calls are trace entries and their results are parameters. The audio data buffer's contents are not modelled, only the length sent. `audio_data_callback` and `audio_event_callback` are not part of this model.
- The button driver can only deliver PRESS_DOWN and PRESS_UP to the callback as registered; the model also lets other events through, which the task ignores.
- HttpChunked.StreamHandler.Handle: the FINISH_REQUEST read is taken to return at most 63 bytes, the corrected bound (see Findings); as written the read may return 64, and the store that follows would be out of bounds, which a verified method cannot perform.
- The response bytes read in FINISH_REQUEST are only logged; the model stores them and drops them. Logging, `printf` and the URI-to-format helper are left out: the audio type is a parameter.
- HttpChunked.UploadRoundTrip: assumes a client that takes every write whole. The handler treats any positive count as success, and `Accepted` likewise counts the whole data of such a write as delivered, so a short write that the client does not complete is not modelled.
- HttpChunked.StreamHandler.HandleFinishRequest: models the corrected handler, whose read is capped at 63 bytes (see Findings). As written the read may return 64, and the store of the terminator at `buf[64]` that follows is out of bounds, which a verified method cannot perform.
- HttpChunked.StreamHandler.HandleOnRequest: `total_write` is a C `int` (`static int`, esp_gmf_setup_pool.c:83) and `+=` at line 127 can pass INT_MAX over a long upload. Signed overflow is undefined in C; the model keeps an unbounded integer. The value is only printed.
- The pool registration code of `esp_gmf_setup_pool.c` only builds vendor objects from static configuration (with floating-point mixer weights) and is not part of this model.
- DisplayApp: coordinates are the `uint16_t` values the rounder reads; writing them back into the signed `lv_coord_t` fields is not modelled. The flush callback assumes the C `int` product `(x2-x1+1)*(y2-y1+1)` does not overflow (`AreaPixels(area) <= INT_MAX`) and that LVGL's buffer holds the area's pixels. The 16-bit build of the flush callback, the panel driver calls, display initialisation, touch input, the tick callback and the rest of the LVGL stack are left out.
- The LVGL colour layout (blue, green, red, alpha per 4-byte pixel) comes from a header that is not part of this model.
- PeriphSetup: the I2S, PDM and codec configuration structures, pin numbers, volume and gain (floating point) and the ES8311/ES7210 constructors are left out. A codec set-up is one trace entry; a NULL device from `esp_codec_dev_new`, which the source does not check, is not modelled. `ESP_GMF_ERR_FAIL` is defined in a vendor header; it is modelled as -1, distinct from ESP_OK.
- The Wi-Fi and HTTP-server headers and `main.c` hold declarations and start-up calls only.

## Findings

| source | as written | input that shows it | evidently intended | confidence | as-written member | corrected member |
|---|---|---|---|---|---|---|
| components/audio_manage/common/esp_gmf_setup_pool.c:144-151 | FINISH_REQUEST reads up to 64 bytes into a 64-byte buffer, then stores the terminator at `buf[read_len]` | a server response of 64 bytes or more: `read_len` is 64 and the store lands one byte past the buffer | read at most 63 bytes, so the terminator always fits; `HttpChunked.StreamHandler.HandleFinishRequest` is this corrected handler | not executed | HttpChunked.FinishTerminatorOverflowAsWritten | HttpChunked.FinishTerminatorFitsCorrected |
| components/display_manage/display_app.c:79-84 | for pixel 1 the loop stores red at byte 3 and green at byte 4, then reads pixel 1's blue from byte 4, which now holds that green | a two-pixel area with source bytes 10,20,30,0,40,50,60,0 packs to 30,20,10,60,50,50 instead of 30,20,10,60,50,40 | save each pixel's blue before storing its bytes, as pixel 0 does with `temp` | not executed | DisplayApp.FlushAsWritten | DisplayApp.Flush |

/**
 * The voice-chat event controller of components/coze_manage/coze_chat_app.c.
 *
 * The global `coze_chat` holds the `wakeuped` flag; the key-press dialog mode adds
 * the event-group bit BUTTON_REC_READING and the two-slot button queue.  Three
 * kinds of step drive it: the recorder's AFE events (wake-up and VAD modes), the
 * button callback and one iteration of the button task (key-press mode), and one
 * iteration of the audio read task (every mode).  Calls into the Coze session
 * client, the prompt player, the recorder and the event group are recorded, in
 * order, in a trace; what those calls do is not part of this model.
 *
 * The pure functions `RecorderEvent`, `ButtonTask` and `ReadTask` give the effect
 * of one step on an `AppState`; the class `ChatApp` holds the state in fields and
 * each of its methods is proved to move it exactly as the matching function says.
 */
module CozeChatApp {
  import opened EspCommon
  import opened ButtonQueue

  /** The wake-up prompt. */
  const DINGDING_URI: string := "file://spiffs/dingding.wav"

  /** Bytes the normal mode asks the recorder for in each iteration. */
  const NORMAL_READ_SIZE: nat := 4096 * 3

  /** The build configuration: CONFIG_KEY_PRESS_DIALOG_MODE, CONFIG_VOICE_WAKEUP_MODE, or neither. */
  datatype Mode = KeyPressDialog | VoiceWakeup | Normal

  /** The AFE events the recorder callback receives. */
  datatype AfeEvent = WakeupStart | WakeupEnd | VadStart | VadEnd | VcmdDetectTimeout | OtherAfe(code: int)

  /** The calls the controller makes, in the order it makes them. */
  datatype Call =
    | ChatInit                      // esp_coze_chat_init
    | ChatStart                     // esp_coze_chat_start
    | SendCancel                    // esp_coze_chat_send_audio_cancel
    | SendComplete                  // esp_coze_chat_send_audio_complete
    | SendAudio(len: int)           // esp_coze_chat_send_audio_data
    | PromptPlay(uri: string)       // audio_prompt_play
    | SetRecBit                     // xEventGroupSetBits(BUTTON_REC_READING)
    | ClearRecBit                   // xEventGroupClearBits(BUTTON_REC_READING)
    | RecorderRead(size: nat)       // audio_recorder_read_data
    | AudioManagerInit              // audio_manager_init
    | PromptOpen                    // audio_prompt_open
    | RecorderOpen(withEvents: bool) // audio_recorder_open, with or without the AFE callback
    | PlaybackOpen                  // audio_playback_open
    | PlaybackRun                   // audio_playback_run

  /** `wakeuped`, the BUTTON_REC_READING bit, and the calls made so far. */
  datatype AppState = AppState(wakeuped: bool, recReading: bool, trace: seq<Call>)

  function Count<T(==)>(xs: seq<T>, x: T): nat {
    if xs == [] then 0 else Count(xs[..|xs| - 1], x) + (if xs[|xs| - 1] == x then 1 else 0)
  }

  lemma {:induction false} CountAppend<T>(xs: seq<T>, ys: seq<T>, x: T)
    ensures Count(xs + ys, x) == Count(xs, x) + Count(ys, x)
    decreases |ys|
  {
    if ys == [] {
      assert xs + ys == xs;
    } else {
      var ys' := ys[..|ys| - 1];
      assert (xs + ys)[..|xs + ys| - 1] == xs + ys';
      CountAppend(xs, ys', x);
    }
  }

  // ---------------------------------------------------------------------------
  // One step of each handler

  /** `recorder_event_callback_fn`. */
  function RecorderEvent(s: AppState, ev: AfeEvent): AppState {
    match ev
    case WakeupStart =>
      var cancel := if s.wakeuped then [SendCancel] else [];
      AppState(true, s.recReading, s.trace + cancel + [PromptPlay(DINGDING_URI)])
    case WakeupEnd => s.(wakeuped := false)
    case _ => s
  }

  /** The body of the `btn_event_task` loop once `xQueueReceive` has returned `e`. */
  function ButtonTask(s: AppState, e: ButtonEvent): AppState {
    match e
    case PressDown => AppState(s.wakeuped, true, s.trace + [SendCancel, SetRecBit])
    case PressUp => AppState(s.wakeuped, false, s.trace + [ClearRecBit, SendComplete])
    case OtherButton(_) => s
  }

  /** One iteration of the `audio_data_read_task` loop.  In key-press mode the
      iteration runs only once the bit is set (otherwise the task stays blocked in
      `xEventGroupWaitBits`, which leaves the state as it is); in key-press and
      wake-up modes the read is commented out, so the length sent is the initial 0
      of `ret`.  `recorderLen` is what `audio_recorder_read_data` returns. */
  function ReadTask(mode: Mode, s: AppState, recorderLen: int): AppState {
    match mode
    case KeyPressDialog => if s.recReading then s.(trace := s.trace + [SendAudio(0)]) else s
    case VoiceWakeup => if s.wakeuped then s.(trace := s.trace + [SendAudio(0)]) else s
    case Normal => s.(trace := s.trace + [RecorderRead(NORMAL_READ_SIZE), SendAudio(recorderLen)])
  }

  /** The calls of `init_coze_chat`, given what `esp_coze_chat_init` returns. */
  function InitCalls(initResult: int): seq<Call> {
    if initResult == ESP_OK then [ChatInit, ChatStart] else [ChatInit]
  }

  /** What `init_coze_chat` returns. */
  function InitResult(initResult: int): int {
    if initResult == ESP_OK then ESP_OK else ESP_FAIL
  }

  /** The calls of `audio_pipe_open`. */
  function PipeOpenCalls(mode: Mode): seq<Call> {
    if mode.KeyPressDialog? then [AudioManagerInit, RecorderOpen(false), PlaybackOpen, PlaybackRun]
    else [AudioManagerInit, PromptOpen, RecorderOpen(true), PlaybackOpen, PlaybackRun]
  }

  // ---------------------------------------------------------------------------
  // Properties of one step

  /** WAKEUP_START cancels the running session exactly when one was already woken,
      plays the prompt once, and leaves the controller woken. */
  lemma WakeupStartCancelsIffWoken(s: AppState)
    ensures var r := RecorderEvent(s, WakeupStart);
            var added := r.trace[|s.trace|..];
            r.trace[..|s.trace|] == s.trace &&
            (Count(added, SendCancel) == 1 <==> s.wakeuped) &&
            (Count(added, SendCancel) == 0 <==> !s.wakeuped) &&
            Count(added, PromptPlay(DINGDING_URI)) == 1 &&
            added[|added| - 1] == PromptPlay(DINGDING_URI) &&
            r.wakeuped && r.recReading == s.recReading
  {
    var r := RecorderEvent(s, WakeupStart);
    var added := r.trace[|s.trace|..];
    if s.wakeuped {
      assert added == [SendCancel, PromptPlay(DINGDING_URI)];
      assert added[..1] == [SendCancel];
      assert [SendCancel][..0] == [];
    } else {
      assert added == [PromptPlay(DINGDING_URI)];
    }
    assert added[..|added| - 1][..0] == [];
  }

  /** WAKEUP_END clears `wakeuped` and calls nothing. */
  lemma WakeupEndCallsNothing(s: AppState)
    ensures RecorderEvent(s, WakeupEnd) == AppState(false, s.recReading, s.trace)
  {
  }

  /** VAD_START, VAD_END, the command timeout and every other AFE event only log. */
  lemma OtherRecorderEventsOnlyLog(s: AppState, ev: AfeEvent)
    requires !ev.WakeupStart? && !ev.WakeupEnd?
    ensures RecorderEvent(s, ev) == s
  {
  }

  /** PRESS_DOWN cancels whatever the state, and sets the recording bit only after
      the cancel; PRESS_UP clears the bit before it completes; any other button
      event does nothing. */
  lemma ButtonTaskOrder(s: AppState, e: ButtonEvent)
    ensures e.PressDown? ==> ButtonTask(s, e).trace == s.trace + [SendCancel, SetRecBit] &&
                             ButtonTask(s, e).recReading
    ensures e.PressUp? ==> ButtonTask(s, e).trace == s.trace + [ClearRecBit, SendComplete] &&
                           !ButtonTask(s, e).recReading
    ensures e.OtherButton? ==> ButtonTask(s, e) == s
    ensures ButtonTask(s, e).wakeuped == s.wakeuped
  {
  }

  /** The read task sends one frame per iteration exactly when its mode lets it:
      in key-press mode while the bit is set, in wake-up mode while woken, and
      always in normal mode.  Only the normal mode sends the recorder's length;
      the others send 0.  No iteration changes `wakeuped` or the bit. */
  lemma ReadTaskSends(mode: Mode, s: AppState, recorderLen: int)
    ensures var r := ReadTask(mode, s, recorderLen);
            var sends := match mode
                         case KeyPressDialog => s.recReading
                         case VoiceWakeup => s.wakeuped
                         case Normal => true;
            r.wakeuped == s.wakeuped && r.recReading == s.recReading &&
            r.trace[..|s.trace|] == s.trace &&
            (sends <==> |r.trace| > |s.trace|) &&
            (sends ==> r.trace[|r.trace| - 1] == SendAudio(if mode.Normal? then recorderLen else 0))
  {
  }

  // ---------------------------------------------------------------------------
  // Properties of runs

  /** The button task handling the events `es`, in order. */
  function ButtonRun(s: AppState, es: seq<ButtonEvent>): AppState {
    if es == [] then s else ButtonTask(ButtonRun(s, es[..|es| - 1]), es[|es| - 1])
  }

  /** The last press or release in `es`, if any. */
  function LastPress(es: seq<ButtonEvent>): Option<ButtonEvent> {
    if es == [] then None
    else if !es[|es| - 1].OtherButton? then Some(es[|es| - 1])
    else LastPress(es[..|es| - 1])
  }

  /** After any run of button events the recording bit says whether the last
      press or release was a press; every press cancels once; `wakeuped` is untouched. */
  lemma {:induction false} ButtonRunInvariant(s: AppState, es: seq<ButtonEvent>)
    ensures var r := ButtonRun(s, es);
            r.recReading == (match LastPress(es) case None => s.recReading case Some(e) => e.PressDown?) &&
            Count(r.trace, SendCancel) == Count(s.trace, SendCancel) + Count(es, PressDown) &&
            Count(r.trace, SendComplete) == Count(s.trace, SendComplete) + Count(es, PressUp) &&
            r.wakeuped == s.wakeuped
    decreases |es|
  {
    if es != [] {
      var es' := es[..|es| - 1];
      var p := ButtonRun(s, es');
      ButtonRunInvariant(s, es');
      var e := es[|es| - 1];
      match e
      case PressDown =>
        CountAppend(p.trace, [SendCancel, SetRecBit], SendCancel);
        CountAppend(p.trace, [SendCancel, SetRecBit], SendComplete);
        CountOfPair(SendCancel, SetRecBit, SendCancel);
        CountOfPair(SendCancel, SetRecBit, SendComplete);
      case PressUp =>
        CountAppend(p.trace, [ClearRecBit, SendComplete], SendCancel);
        CountAppend(p.trace, [ClearRecBit, SendComplete], SendComplete);
        CountOfPair(ClearRecBit, SendComplete, SendCancel);
        CountOfPair(ClearRecBit, SendComplete, SendComplete);
      case OtherButton(_) =>
    }
  }

  lemma CountOfPair(a: Call, b: Call, x: Call)
    ensures Count([a, b], x) == (if a == x then 1 else 0) + (if b == x then 1 else 0)
  {
    assert [a][..0] == [];
    assert Count([a], x) == (if a == x then 1 else 0);
    assert [a, b][..1] == [a];
  }

  /** `k` iterations of the read task. */
  function ReadRun(mode: Mode, s: AppState, k: nat, recorderLen: int): AppState {
    if k == 0 then s else ReadTask(mode, ReadRun(mode, s, k - 1, recorderLen), recorderLen)
  }

  function Repeat(c: Call, k: nat): (r: seq<Call>)
    ensures |r| == k
    ensures forall i :: 0 <= i < k ==> r[i] == c
  {
    if k == 0 then [] else Repeat(c, k - 1) + [c]
  }

  /** While the button is held the wait never clears the bit, so every iteration
      sends another (empty) frame: k iterations send k frames. */
  lemma {:induction false} HeldButtonKeepsSending(s: AppState, k: nat, recorderLen: int)
    requires s.recReading
    ensures ReadRun(KeyPressDialog, s, k, recorderLen) == s.(trace := s.trace + Repeat(SendAudio(0), k))
    decreases k
  {
    if k == 0 {
      assert s.trace + [] == s.trace;
    } else {
      HeldButtonKeepsSending(s, k - 1, recorderLen);
      assert s.trace + Repeat(SendAudio(0), k - 1) + [SendAudio(0)] == s.trace + Repeat(SendAudio(0), k);
    }
  }

  /** `init_coze_chat` starts the session only after the init succeeded, and
      reports ESP_FAIL without starting it otherwise. */
  lemma InitStartsOnlyOnSuccess(initResult: int)
    ensures InitCalls(initResult)[0] == ChatInit
    ensures ChatStart in InitCalls(initResult) <==> initResult == ESP_OK
    ensures InitResult(initResult) == ESP_OK <==> initResult == ESP_OK
    ensures InitResult(initResult) != ESP_OK ==> InitResult(initResult) == ESP_FAIL
  {
  }

  // ---------------------------------------------------------------------------
  // The controller

  class ChatApp {
    /** The build configuration. */
    const mode: Mode
    var wakeuped: bool
    var recReading: bool
    var trace: seq<Call>
    var btnQueue: Queue

    predicate Valid()
      reads this, btnQueue
    {
      btnQueue.Valid()
    }

    function State(): AppState
      reads this
    {
      AppState(wakeuped, recReading, trace)
    }

    /** The zero-initialised static `coze_chat` in a given build. */
    constructor (mode: Mode)
      ensures this.mode == mode && Valid() && State() == AppState(false, false, [])
      ensures btnQueue.Contents() == []
    {
      this.mode := mode;
      wakeuped := false;
      recReading := false;
      trace := [];
      btnQueue := new Queue();
    }

    /** `coze_chat_app_init`: it ignores what `init_coze_chat` returns and reports
        ESP_OK in every case. */
    method AppInit(initResult: int) returns (ret: int)
      requires Valid()
      modifies this
      ensures Valid() && ret == ESP_OK
      ensures State() == AppState(false, if mode.KeyPressDialog? then false else old(recReading),
                                  old(trace) + InitCalls(initResult) + PipeOpenCalls(mode))
      ensures mode.KeyPressDialog? ==> fresh(btnQueue) && btnQueue.Contents() == []
    {
      wakeuped := false;
      if mode.KeyPressDialog? {
        btnQueue := new Queue();
        recReading := false;
      }
      var _ := InitCozeChat(initResult);
      AudioPipeOpen();
      return ESP_OK;
    }

    /** `init_coze_chat`, given what `esp_coze_chat_init` returns. */
    method InitCozeChat(initResult: int) returns (ret: int)
      modifies this
      ensures ret == InitResult(initResult)
      ensures State() == old(State()).(trace := old(trace) + InitCalls(initResult))
      ensures btnQueue == old(btnQueue)
    {
      trace := trace + [ChatInit];
      if initResult != ESP_OK {
        return ESP_FAIL;
      }
      trace := trace + [ChatStart];
      return ESP_OK;
    }

    /** `audio_pipe_open`. */
    method AudioPipeOpen()
      modifies this
      ensures State() == old(State()).(trace := old(trace) + PipeOpenCalls(mode))
      ensures btnQueue == old(btnQueue)
    {
      trace := trace + [AudioManagerInit];
      if mode.KeyPressDialog? {
        trace := trace + [RecorderOpen(false)];
      } else {
        trace := trace + [PromptOpen, RecorderOpen(true)];
      }
      trace := trace + [PlaybackOpen, PlaybackRun];
    }

    /** `recorder_event_callback_fn` (built only outside key-press mode). */
    method OnRecorderEvent(ev: AfeEvent)
      requires !mode.KeyPressDialog?
      modifies this
      ensures State() == RecorderEvent(old(State()), ev)
      ensures btnQueue == old(btnQueue)
    {
      match ev
      case WakeupStart =>
        if wakeuped {
          trace := trace + [SendCancel];
        }
        trace := trace + [PromptPlay(DINGDING_URI)];
        wakeuped := true;
      case WakeupEnd =>
        wakeuped := false;
      case _ =>
    }

    /** `button_event_cb`: queue the event with timeout 0, ignoring the result. */
    method OnButtonEvent(e: ButtonEvent)
      requires mode.KeyPressDialog? && Valid()
      modifies btnQueue, btnQueue.buf
      ensures Valid()
      ensures btnQueue.Contents() == Send(old(btnQueue.Contents()), e).queue
    {
      var _ := btnQueue.Push(e);
    }

    /** One iteration of `btn_event_task`: nothing happens while the queue is empty. */
    method ButtonTaskStep()
      requires mode.KeyPressDialog? && Valid()
      modifies this, btnQueue, btnQueue.buf
      ensures Valid() && btnQueue == old(btnQueue)
      ensures var r := Receive(old(btnQueue.Contents()));
              btnQueue.Contents() == r.queue &&
              State() == (if r.event.None? then old(State()) else ButtonTask(old(State()), r.event.value))
    {
      var got := btnQueue.Pop();
      if got.Some? {
        match got.value
        case PressDown =>
          trace := trace + [SendCancel];
          trace := trace + [SetRecBit];
          recReading := true;
        case PressUp =>
          trace := trace + [ClearRecBit];
          recReading := false;
          trace := trace + [SendComplete];
        case OtherButton(_) =>
      }
    }

    /** One iteration of `audio_data_read_task`; `recorderLen` is what the recorder
        returns when it is read. */
    method ReadTaskStep(recorderLen: int)
      modifies this
      ensures State() == ReadTask(mode, old(State()), recorderLen)
      ensures btnQueue == old(btnQueue)
    {
      var ret := 0;
      match mode
      case KeyPressDialog =>
        if recReading {
          trace := trace + [SendAudio(ret)];
        }
      case VoiceWakeup =>
        if wakeuped {
          trace := trace + [SendAudio(ret)];
        }
      case Normal =>
        trace := trace + [RecorderRead(NORMAL_READ_SIZE)];
        ret := recorderLen;
        trace := trace + [SendAudio(ret)];
    }
  }
}

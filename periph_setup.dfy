/**
 * The decision and bookkeeping layer of
 * components/audio_manage/common/esp_gmf_setup_peripheral.c: which I2S channels
 * are created for which requested devices, the early returns on failure, and the
 * global handles `tx_handle`, `rx_handle` and `i2c_handle` that creation sets and
 * teardown clears.
 *
 * Every vendor constructor becomes an outcome passed in as a parameter (an
 * `esp_err_t`, or whether a bus came up), and every vendor call an entry of an
 * append-only trace.  A handle is modelled as whether it is non-NULL.
 */
module PeriphSetup {
  import opened EspCommon

  /** `ESP_GMF_ERR_OK` and `ESP_GMF_ERR_FAIL`, the results of `esp_gmf_setup_periph_codec`. */
  const ESP_GMF_ERR_OK: int := 0
  const ESP_GMF_ERR_FAIL: int := -1

  /** `i2s_create_mode_t`. */
  datatype I2sMode = TxOnly | RxOnly | TxAndRx

  /** `esp_gmf_setup_periph_aud_info`: the fields the bring-up reads. */
  datatype AudInfo = AudInfo(port: int, sampleRate: int, bitsPerSample: int, channel: int)

  /** The vendor calls, in the order they are made. */
  datatype Call =
    | NewChannel(mode: I2sMode, info: AudInfo)  // i2s_new_channel with the channel config of `info`
    | TxInit(info: AudInfo)                     // setup_periph_i2s_tx_init
    | RxInit(info: AudInfo)                     // setup_periph_i2s_rx_init
    | SetupPlayCodec(info: AudInfo)             // setup_periph_play_codec
    | SetupRecordCodec(info: AudInfo)           // setup_periph_record_codec
    | TeardownPlayCodec                         // teardown_periph_play_codec: close, delete, i2s_del_channel
    | TeardownRecordCodec                       // teardown_periph_record_codec
    | NewI2cBus                                 // i2c_new_master_bus
    | DeleteI2cBus                              // i2c_del_master_bus

  /** What the vendor calls of one `setup_periph_create_i2s` return; a field is
      only looked at when its call is made. */
  datatype I2sOutcome = I2sOutcome(newChannel: int, txInit: int, rxInit: int)

  /** The module's globals: whether each handle is non-NULL, and the calls so far. */
  datatype Periph = Periph(tx: bool, rx: bool, i2c: bool, trace: seq<Call>)

  datatype Out = Out(periph: Periph, err: int)

  // ---------------------------------------------------------------------------
  // setup_periph_create_i2s

  /** The steps of a mode, in order, and what each returns: an independent
      statement of the sequence `setup_periph_create_i2s` runs through. */
  function Steps(mode: I2sMode, info: AudInfo): seq<Call> {
    match mode
    case TxOnly => [NewChannel(mode, info), TxInit(info)]
    case RxOnly => [NewChannel(mode, info), RxInit(info)]
    case TxAndRx => [NewChannel(mode, info), TxInit(info), RxInit(info)]
  }

  function Results(mode: I2sMode, o: I2sOutcome): (rs: seq<int>)
    ensures forall info :: |rs| == |Steps(mode, info)|
  {
    match mode
    case TxOnly => [o.newChannel, o.txInit]
    case RxOnly => [o.newChannel, o.rxInit]
    case TxAndRx => [o.newChannel, o.txInit, o.rxInit]
  }

  /** The index of the first result from `i` on that is not ESP_OK, or the length
      when all of them are. */
  function FirstFailure(rs: seq<int>, i: nat): (k: nat)
    requires i <= |rs|
    ensures i <= k <= |rs|
    ensures forall j :: i <= j < k ==> rs[j] == ESP_OK
    ensures k < |rs| ==> rs[k] != ESP_OK
    decreases |rs| - i
  {
    if i == |rs| then i
    else if rs[i] != ESP_OK then i
    else FirstFailure(rs, i + 1)
  }

  /** The steps a creation gets through: up to and including the first failing one. */
  function Attempted(mode: I2sMode, info: AudInfo, o: I2sOutcome): seq<Call> {
    var k := FirstFailure(Results(mode, o), 0);
    Steps(mode, info)[..if k < |Steps(mode, info)| then k + 1 else k]
  }

  /** Where the first failure of each mode lies. */
  lemma FailurePoint(mode: I2sMode, o: I2sOutcome)
    ensures var k := FirstFailure(Results(mode, o), 0);
            if o.newChannel != ESP_OK then k == 0
            else if mode == TxOnly then k == (if o.txInit != ESP_OK then 1 else 2)
            else if mode == RxOnly then k == (if o.rxInit != ESP_OK then 1 else 2)
            else if o.txInit != ESP_OK then k == 1
            else k == (if o.rxInit != ESP_OK then 2 else 3)
  {
    var rs := Results(mode, o);
    if o.newChannel == ESP_OK {
      assert FirstFailure(rs, 0) == FirstFailure(rs, 1);
      if mode == TxAndRx && o.txInit == ESP_OK {
        assert FirstFailure(rs, 1) == FirstFailure(rs, 2);
      }
    }
  }

  /** Every step of the mode returns ESP_OK. */
  predicate Succeeds(mode: I2sMode, o: I2sOutcome) {
    FirstFailure(Results(mode, o), 0) == |Results(mode, o)|
  }

  /** `setup_periph_create_i2s`: the channel is created, then each direction is
      initialised, and the first call that does not return ESP_OK ends it with
      that call's error: the calls made are exactly the steps up to the first
      failure, and the result is that failure's error, or ESP_OK. */
  function CreateI2s(p: Periph, mode: I2sMode, info: AudInfo, o: I2sOutcome): (r: Out)
    ensures r.periph.i2c == p.i2c
    ensures r.periph.tx == (p.tx || (mode != RxOnly && o.newChannel == ESP_OK))
    ensures r.periph.rx == (p.rx || (mode != TxOnly && o.newChannel == ESP_OK))
    ensures r.periph.trace == p.trace + Attempted(mode, info, o)
    ensures var rs, k := Results(mode, o), FirstFailure(Results(mode, o), 0);
            r.err == if k < |rs| then rs[k] else ESP_OK
    ensures r.err == ESP_OK <==> Succeeds(mode, o)
  {
    FailurePoint(mode, o);
    var p1 := p.(trace := p.trace + [NewChannel(mode, info)]);
    if o.newChannel != ESP_OK then Out(p1, o.newChannel)
    else
      match mode
      case TxOnly => Out(p1.(tx := true, trace := p1.trace + [TxInit(info)]), o.txInit)
      case RxOnly => Out(p1.(rx := true, trace := p1.trace + [RxInit(info)]), o.rxInit)
      case TxAndRx =>
        var p2 := p1.(tx := true, rx := true, trace := p1.trace + [TxInit(info)]);
        if o.txInit != ESP_OK then Out(p2, o.txInit)
        else Out(p2.(trace := p2.trace + [RxInit(info)]), o.rxInit)
  }

  /** A failing TX initialisation leaves the channel just created allocated:
      the handle stays non-NULL although the call reports the error. */
  lemma FailedInitKeepsChannel(p: Periph, info: AudInfo, o: I2sOutcome)
    requires o.newChannel == ESP_OK && o.txInit != ESP_OK
    ensures CreateI2s(p, TxOnly, info, o).err != ESP_OK
    ensures CreateI2s(p, TxOnly, info, o).periph.tx
    ensures CreateI2s(p, TxAndRx, info, o).err != ESP_OK
    ensures CreateI2s(p, TxAndRx, info, o).periph.tx && CreateI2s(p, TxAndRx, info, o).periph.rx
    ensures RxInit(info) !in CreateI2s(p, TxAndRx, info, o).periph.trace[|p.trace|..]
  {
  }

  // ---------------------------------------------------------------------------
  // esp_gmf_setup_periph_codec

  /** The result of `esp_gmf_setup_periph_codec`, with whether `*play_dev` and
      `*record_dev` were assigned a codec device. */
  datatype CodecOut = CodecOut(periph: Periph, err: int, playSet: bool, recordSet: bool)

  function PlayCodec(p: Periph, info: AudInfo): Periph {
    p.(trace := p.trace + [SetupPlayCodec(info)])
  }

  function RecordCodec(p: Periph, info: AudInfo): Periph {
    p.(trace := p.trace + [SetupRecordCodec(info)])
  }

  /** `esp_gmf_setup_periph_codec(play_info, rec_info, play_dev, record_dev)`:
      `wantPlay` and `wantRecord` say whether `play_dev` and `record_dev` are
      non-NULL; `first` and `second` are the outcomes of the first and second
      `setup_periph_create_i2s` call. */
  function SetupCodec(p: Periph, playInfo: AudInfo, recInfo: AudInfo, wantPlay: bool, wantRecord: bool,
                      first: I2sOutcome, second: I2sOutcome): (r: CodecOut)
    ensures r.err == ESP_GMF_ERR_OK || r.err == ESP_GMF_ERR_FAIL
    ensures !wantPlay && !wantRecord ==> r.err == ESP_GMF_ERR_FAIL && r.periph == p
    ensures r.playSet <==> wantPlay && r.err == ESP_GMF_ERR_OK
    ensures r.recordSet <==> wantRecord && r.err == ESP_GMF_ERR_OK
  {
    if wantPlay && wantRecord then
      if playInfo.port == recInfo.port then
        var c := CreateI2s(p, TxAndRx, playInfo, first);
        if c.err != ESP_OK then CodecOut(c.periph, ESP_GMF_ERR_FAIL, false, false)
        else CodecOut(RecordCodec(PlayCodec(c.periph, playInfo), recInfo), ESP_GMF_ERR_OK, true, true)
      else
        var c1 := CreateI2s(p, TxOnly, playInfo, first);
        if c1.err != ESP_OK then CodecOut(c1.periph, ESP_GMF_ERR_FAIL, false, false)
        else
          var c2 := CreateI2s(c1.periph, RxOnly, recInfo, second);
          if c2.err != ESP_OK then CodecOut(c2.periph, ESP_GMF_ERR_FAIL, false, false)
          else CodecOut(RecordCodec(PlayCodec(c2.periph, playInfo), recInfo), ESP_GMF_ERR_OK, true, true)
    else if wantPlay then
      var c := CreateI2s(p, TxOnly, playInfo, first);
      if c.err != ESP_OK then CodecOut(c.periph, ESP_GMF_ERR_FAIL, false, false)
      else CodecOut(PlayCodec(c.periph, playInfo), ESP_GMF_ERR_OK, true, false)
    else if wantRecord then
      var c := CreateI2s(p, RxOnly, recInfo, first);
      if c.err != ESP_OK then CodecOut(c.periph, ESP_GMF_ERR_FAIL, false, false)
      else CodecOut(RecordCodec(c.periph, recInfo), ESP_GMF_ERR_OK, false, true)
    else
      CodecOut(p, ESP_GMF_ERR_FAIL, false, false)
  }

  /** The codec set-ups both devices get once their channels exist. */
  function BothCodecs(playInfo: AudInfo, recInfo: AudInfo): seq<Call> {
    [SetupPlayCodec(playInfo), SetupRecordCodec(recInfo)]
  }

  /** Neither device requested: ESP_GMF_ERR_FAIL, and no call at all. */
  lemma NeitherRequestedFails(p: Periph, playInfo: AudInfo, recInfo: AudInfo, first: I2sOutcome, second: I2sOutcome)
    ensures var r := SetupCodec(p, playInfo, recInfo, false, false, first, second);
            r.err == ESP_GMF_ERR_FAIL && r.periph == p && !r.playSet && !r.recordSet
  {
  }

  /** Both devices on the same port: one TX_AND_RX creation with `play_info`,
      then, only when every step of it succeeded, the play codec and the record
      codec. */
  lemma SamePortCreatesDuplex(p: Periph, playInfo: AudInfo, recInfo: AudInfo, first: I2sOutcome, second: I2sOutcome)
    requires playInfo.port == recInfo.port
    ensures var r := SetupCodec(p, playInfo, recInfo, true, true, first, second);
            (r.err == ESP_GMF_ERR_OK <==> Succeeds(TxAndRx, first)) &&
            r.periph.trace == p.trace + Attempted(TxAndRx, playInfo, first)
                                      + (if r.err == ESP_GMF_ERR_OK then BothCodecs(playInfo, recInfo) else [])
  {
  }

  /** Both devices on different ports: TX_ONLY with `play_info`, then RX_ONLY with
      `rec_info` only when the first creation succeeded, then the codecs only when
      both succeeded; ESP_GMF_ERR_FAIL as soon as either fails. */
  lemma DifferentPortsCreateInTurn(p: Periph, playInfo: AudInfo, recInfo: AudInfo, first: I2sOutcome, second: I2sOutcome)
    requires playInfo.port != recInfo.port
    ensures var r := SetupCodec(p, playInfo, recInfo, true, true, first, second);
            (r.err == ESP_GMF_ERR_OK <==> Succeeds(TxOnly, first) && Succeeds(RxOnly, second)) &&
            r.periph.trace == p.trace + Attempted(TxOnly, playInfo, first)
                                      + (if Succeeds(TxOnly, first) then Attempted(RxOnly, recInfo, second) else [])
                                      + (if r.err == ESP_GMF_ERR_OK then BothCodecs(playInfo, recInfo) else [])
  {
  }

  /** Play only: TX_ONLY with `play_info`, then the play codec only when it succeeded. */
  lemma PlayOnlyCreatesTx(p: Periph, playInfo: AudInfo, recInfo: AudInfo, first: I2sOutcome, second: I2sOutcome)
    ensures var r := SetupCodec(p, playInfo, recInfo, true, false, first, second);
            (r.err == ESP_GMF_ERR_OK <==> Succeeds(TxOnly, first)) &&
            r.periph.trace == p.trace + Attempted(TxOnly, playInfo, first)
                                      + (if r.err == ESP_GMF_ERR_OK then [SetupPlayCodec(playInfo)] else [])
  {
  }

  /** Record only: RX_ONLY with `rec_info`, then the record codec only when it succeeded. */
  lemma RecordOnlyCreatesRx(p: Periph, playInfo: AudInfo, recInfo: AudInfo, first: I2sOutcome, second: I2sOutcome)
    ensures var r := SetupCodec(p, playInfo, recInfo, false, true, first, second);
            (r.err == ESP_GMF_ERR_OK <==> Succeeds(RxOnly, first)) &&
            r.periph.trace == p.trace + Attempted(RxOnly, recInfo, first)
                                      + (if r.err == ESP_GMF_ERR_OK then [SetupRecordCodec(recInfo)] else [])
  {
  }

  // ---------------------------------------------------------------------------
  // Teardown and the I2C bus

  /** `teardown_periph_play_codec`: releases the play side and nulls `tx_handle`. */
  function TeardownPlay(p: Periph): (r: Periph)
    ensures !r.tx && r.rx == p.rx && r.i2c == p.i2c
  {
    p.(tx := false, trace := p.trace + [TeardownPlayCodec])
  }

  /** `teardown_periph_record_codec`: releases the record side and nulls `rx_handle`. */
  function TeardownRecord(p: Periph): (r: Periph)
    ensures !r.rx && r.tx == p.tx && r.i2c == p.i2c
  {
    p.(rx := false, trace := p.trace + [TeardownRecordCodec])
  }

  /** `esp_gmf_teardown_periph_codec`: each side is torn down only when its device
      is non-NULL. */
  function TeardownCodec(p: Periph, playDev: bool, recordDev: bool): (r: Periph)
    ensures r.i2c == p.i2c
    ensures r.tx == (p.tx && !playDev) && r.rx == (p.rx && !recordDev)
    ensures r.trace == p.trace + (if playDev then [TeardownPlayCodec] else [])
                               + (if recordDev then [TeardownRecordCodec] else [])
  {
    var p1 := if playDev then TeardownPlay(p) else p;
    if recordDev then TeardownRecord(p1) else p1
  }

  /** `esp_gmf_setup_periph_i2c`: the bus call's result is not checked; `ok` says
      whether it set the handle. */
  function SetupI2c(p: Periph, ok: bool): (r: Periph)
    ensures r.i2c == (p.i2c || ok) && r.tx == p.tx && r.rx == p.rx
    ensures r.trace == p.trace + [NewI2cBus]
  {
    p.(i2c := p.i2c || ok, trace := p.trace + [NewI2cBus])
  }

  /** `esp_gmf_teardown_periph_i2c`: deletes the bus only when the handle is set. */
  function TeardownI2c(p: Periph): (r: Periph)
    ensures !r.i2c && r.tx == p.tx && r.rx == p.rx
    ensures r.trace == p.trace + (if p.i2c then [DeleteI2cBus] else [])
  {
    if p.i2c then p.(i2c := false, trace := p.trace + [DeleteI2cBus]) else p
  }

  /** A second I2C teardown deletes nothing and changes nothing. */
  lemma TeardownI2cIdempotent(p: Periph)
    ensures TeardownI2c(TeardownI2c(p)) == TeardownI2c(p)
    ensures |TeardownI2c(p).trace| <= |p.trace| + 1
  {
  }

  /** Bringing the devices up and tearing down what was set leaves neither I2S
      handle behind when the bring-up succeeded. */
  lemma SetupThenTeardownReleases(p: Periph, playInfo: AudInfo, recInfo: AudInfo, wantPlay: bool, wantRecord: bool,
                                  first: I2sOutcome, second: I2sOutcome)
    requires !p.tx && !p.rx
    ensures var r := SetupCodec(p, playInfo, recInfo, wantPlay, wantRecord, first, second);
            var t := TeardownCodec(r.periph, r.playSet, r.recordSet);
            r.err == ESP_GMF_ERR_OK ==> !t.tx && !t.rx
  {
  }

  // ---------------------------------------------------------------------------
  // The handle bookkeeping as the globals

  class Peripherals {
    var txHandle: bool
    var rxHandle: bool
    var i2cHandle: bool
    var trace: seq<Call>

    function State(): Periph
      reads this
    {
      Periph(txHandle, rxHandle, i2cHandle, trace)
    }

    /** The globals at start-up: every handle NULL. */
    constructor ()
      ensures State() == Periph(false, false, false, [])
    {
      txHandle, rxHandle, i2cHandle, trace := false, false, false, [];
    }

    /** `setup_periph_create_i2s`. */
    method CreateI2sChannels(mode: I2sMode, info: AudInfo, o: I2sOutcome) returns (err: int)
      modifies this
      ensures State() == CreateI2s(old(State()), mode, info, o).periph
      ensures err == CreateI2s(old(State()), mode, info, o).err
    {
      trace := trace + [NewChannel(mode, info)];
      if o.newChannel != ESP_OK {
        return o.newChannel;
      }
      if mode == TxOnly {
        txHandle := true;
        trace := trace + [TxInit(info)];
        err := o.txInit;
      } else if mode == RxOnly {
        rxHandle := true;
        trace := trace + [RxInit(info)];
        err := o.rxInit;
      } else {
        txHandle, rxHandle := true, true;
        trace := trace + [TxInit(info)];
        if o.txInit != ESP_OK {
          return o.txInit;
        }
        trace := trace + [RxInit(info)];
        err := o.rxInit;
      }
    }

    /** `esp_gmf_setup_periph_codec`. */
    method SetupPeriphCodec(playInfo: AudInfo, recInfo: AudInfo, wantPlay: bool, wantRecord: bool,
                            first: I2sOutcome, second: I2sOutcome)
      returns (err: int, playSet: bool, recordSet: bool)
      modifies this
      ensures var r := SetupCodec(old(State()), playInfo, recInfo, wantPlay, wantRecord, first, second);
              State() == r.periph && err == r.err && playSet == r.playSet && recordSet == r.recordSet
    {
      playSet, recordSet := false, false;
      var e: int;
      if wantPlay && wantRecord {
        if playInfo.port == recInfo.port {
          e := CreateI2sChannels(TxAndRx, playInfo, first);
          if e != ESP_OK {
            return ESP_GMF_ERR_FAIL, false, false;
          }
        } else {
          e := CreateI2sChannels(TxOnly, playInfo, first);
          if e != ESP_OK {
            return ESP_GMF_ERR_FAIL, false, false;
          }
          e := CreateI2sChannels(RxOnly, recInfo, second);
          if e != ESP_OK {
            return ESP_GMF_ERR_FAIL, false, false;
          }
        }
        trace := trace + [SetupPlayCodec(playInfo)];
        trace := trace + [SetupRecordCodec(recInfo)];
        playSet, recordSet := true, true;
      } else if wantPlay {
        e := CreateI2sChannels(TxOnly, playInfo, first);
        if e != ESP_OK {
          return ESP_GMF_ERR_FAIL, false, false;
        }
        trace := trace + [SetupPlayCodec(playInfo)];
        playSet := true;
      } else if wantRecord {
        e := CreateI2sChannels(RxOnly, recInfo, first);
        if e != ESP_OK {
          return ESP_GMF_ERR_FAIL, false, false;
        }
        trace := trace + [SetupRecordCodec(recInfo)];
        recordSet := true;
      } else {
        return ESP_GMF_ERR_FAIL, false, false;
      }
      err := ESP_GMF_ERR_OK;
    }

    /** `esp_gmf_teardown_periph_codec`. */
    method TeardownPeriphCodec(playDev: bool, recordDev: bool)
      modifies this
      ensures State() == TeardownCodec(old(State()), playDev, recordDev)
    {
      if playDev {
        trace := trace + [TeardownPlayCodec];
        txHandle := false;
      }
      if recordDev {
        trace := trace + [TeardownRecordCodec];
        rxHandle := false;
      }
    }

    /** `esp_gmf_setup_periph_i2c`. */
    method SetupPeriphI2c(ok: bool)
      modifies this
      ensures State() == SetupI2c(old(State()), ok)
    {
      trace := trace + [NewI2cBus];
      if ok {
        i2cHandle := true;
      }
    }

    /** `esp_gmf_teardown_periph_i2c`. */
    method TeardownPeriphI2c()
      modifies this
      ensures State() == TeardownI2c(old(State()))
    {
      if i2cHandle {
        trace := trace + [DeleteI2cBus];
        i2cHandle := false;
      }
    }
  }
}

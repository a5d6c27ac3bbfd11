/** Turning the body of a frame into at most one report or response.

    Distances and speeds of the underlying-open-function report are kept in half units. */
module Decoder {
  import opened Protocol
  import opened ParserMachine
  import opened Scanner
  import opened Chunking
  import opened Delivery

  datatype Kind =
    | Heartbeat | ModuleReset | ProductModel | ProductId | HardwareModel
    | FirmwareVersion | SceneSettings | SceneSettingsI | SensitivityI | Sensitivity
    | Presence | Motion | Bmp | TimeForNoPersonI | TimeForNoPerson
    | Proximity | OutputSwitch | OutputSwitchI | ExistenceEnergy | MotionEnergy
    | StaticDistance | MotionDistance | MotionSpeed | CustomMode | CustomModeEnd
    | CustomModeI | ExistenceJudgmentThreshI | MotionTriggerThreshI | ExistencePerceptionBoundI | MotionTriggerBoundI
    | MotionTriggerTimeI | MotionToStillTimeI | CmTimeForNoPersonI | ExistenceJudgmentThresh | MotionTriggerThresh
    | ExistencePerceptionBound | MotionTriggerBound | MotionTriggerTime | MotionToStillTime | CmTimeForNoPerson

  datatype Code = Code(ctrl: byte, cmd: byte, len: nat)

  datatype Option<T> = None | Some(value: T)

  datatype Uof = Uof(existenceEnergy: int, staticHalves: int, motionEnergy: int, motionHalves: int, speedHalves: int)

  datatype DecodedReport = DecodedReport(
    hasInitCompleted: bool, hasPresence: bool, hasMotion: bool, hasBmp: bool, hasProximity: bool, hasUof: bool,
    initCompleted: bool, presence: nat, motion: nat, bmp: nat, proximity: nat, uof: Uof)

  /** data is the used part of the fixed 64-byte array. */
  datatype DecodedResponse = DecodedResponse(kind: Kind, data: seq<byte>)

  datatype AppEvent = Report(report: DecodedReport) | Response(response: DecodedResponse)

  const MAX_RESPONSE_DATA_LEN: nat := 64

  const BLANK := DecodedReport(false, false, false, false, false, false, false, 0, 0, 0, 0, Uof(0, 0, 0, 0, 0))

  /** Control word, command word and payload length of every inquiry and its response. */
  function CodeOf(kind: Kind): Code {
    match kind
      case Heartbeat => Code(0x01, 0x01, 1)
      case ModuleReset => Code(0x01, 0x02, 1)
      case ProductModel => Code(0x02, 0xA1, 1)
      case ProductId => Code(0x02, 0xA2, 1)
      case HardwareModel => Code(0x02, 0xA3, 1)
      case FirmwareVersion => Code(0x02, 0xA4, 1)
      case SceneSettings => Code(0x05, 0x07, 1)
      case SceneSettingsI => Code(0x05, 0x87, 1)
      case SensitivityI => Code(0x05, 0x88, 1)
      case Sensitivity => Code(0x05, 0x08, 1)
      case Presence => Code(0x80, 0x81, 1)
      case Motion => Code(0x80, 0x82, 1)
      case Bmp => Code(0x80, 0x83, 1)
      case TimeForNoPersonI => Code(0x80, 0x8A, 1)
      case TimeForNoPerson => Code(0x80, 0x0A, 1)
      case Proximity => Code(0x80, 0x8B, 1)
      case OutputSwitch => Code(0x08, 0x00, 1)
      case OutputSwitchI => Code(0x08, 0x80, 1)
      case ExistenceEnergy => Code(0x08, 0x81, 1)
      case MotionEnergy => Code(0x08, 0x82, 1)
      case StaticDistance => Code(0x08, 0x83, 1)
      case MotionDistance => Code(0x08, 0x84, 1)
      case MotionSpeed => Code(0x05, 0x85, 1)
      case CustomMode => Code(0x05, 0x09, 1)
      case CustomModeEnd => Code(0x05, 0x0A, 1)
      case CustomModeI => Code(0x05, 0x89, 1)
      case ExistenceJudgmentThreshI => Code(0x08, 0x88, 1)
      case MotionTriggerThreshI => Code(0x08, 0x89, 1)
      case ExistencePerceptionBoundI => Code(0x08, 0x8A, 1)
      case MotionTriggerBoundI => Code(0x08, 0x8B, 1)
      case MotionTriggerTimeI => Code(0x08, 0x8C, 1)
      case MotionToStillTimeI => Code(0x08, 0x8D, 1)
      case CmTimeForNoPersonI => Code(0x08, 0x8E, 1)
      case ExistenceJudgmentThresh => Code(0x08, 0x08, 1)
      case MotionTriggerThresh => Code(0x08, 0x09, 1)
      case ExistencePerceptionBound => Code(0x08, 0x0A, 1)
      case MotionTriggerBound => Code(0x08, 0x0B, 1)
      case MotionTriggerTime => Code(0x08, 0x0C, 4)
      case MotionToStillTime => Code(0x08, 0x0D, 4)
      case CmTimeForNoPerson => Code(0x08, 0x0E, 4)
  }

  const KINDS: nat := 40

  /** The kind of the decoder's i-th response test. */
  function KindAt(i: nat): Kind
    requires i < KINDS
  {
    if i == 0 then Heartbeat
    else if i == 1 then ModuleReset
    else if i == 2 then ProductModel
    else if i == 3 then ProductId
    else if i == 4 then HardwareModel
    else if i == 5 then FirmwareVersion
    else if i == 6 then SceneSettings
    else if i == 7 then SceneSettingsI
    else if i == 8 then SensitivityI
    else if i == 9 then Sensitivity
    else if i == 10 then Presence
    else if i == 11 then Motion
    else if i == 12 then Bmp
    else if i == 13 then TimeForNoPersonI
    else if i == 14 then TimeForNoPerson
    else if i == 15 then Proximity
    else if i == 16 then OutputSwitch
    else if i == 17 then OutputSwitchI
    else if i == 18 then ExistenceEnergy
    else if i == 19 then MotionEnergy
    else if i == 20 then StaticDistance
    else if i == 21 then MotionDistance
    else if i == 22 then MotionSpeed
    else if i == 23 then CustomMode
    else if i == 24 then CustomModeEnd
    else if i == 25 then CustomModeI
    else if i == 26 then ExistenceJudgmentThreshI
    else if i == 27 then MotionTriggerThreshI
    else if i == 28 then ExistencePerceptionBoundI
    else if i == 29 then MotionTriggerBoundI
    else if i == 30 then MotionTriggerTimeI
    else if i == 31 then MotionToStillTimeI
    else if i == 32 then CmTimeForNoPersonI
    else if i == 33 then ExistenceJudgmentThresh
    else if i == 34 then MotionTriggerThresh
    else if i == 35 then ExistencePerceptionBound
    else if i == 36 then MotionTriggerBound
    else if i == 37 then MotionTriggerTime
    else if i == 38 then MotionToStillTime
    else CmTimeForNoPerson
  }

  /** Underlying-open-function codes; anything out of range leaves the reset value. */
  function StaticHalves(code: byte): int {
    if 1 <= code <= 6 then code else 0
  }

  function MotionHalves(code: byte): int {
    if 1 <= code <= 8 then code else 0
  }

  function SpeedHalves(code: byte): int {
    if 1 <= code <= 0x14 then code - 10 else 0
  }

  /** The report branch of the decoder (source lines 156-344). */
  function Reports(ctrl: byte, cmd: byte, p: seq<byte>): seq<DecodedReport> {
    if ctrl == 0x05 && cmd == 0x01 then [BLANK.(hasInitCompleted := true, initCompleted := true)]
    else if ctrl == 0x80 then
      if cmd == 0x01 && |p| == 1 && p[0] <= 1 then [BLANK.(hasPresence := true, presence := p[0])]
      else if cmd == 0x02 && |p| == 1 && p[0] <= 2 then [BLANK.(hasMotion := true, motion := p[0])]
      else if cmd == 0x03 && |p| == 1 then [BLANK.(hasBmp := true, bmp := p[0])]
      else if cmd == 0x0B && |p| == 1 && p[0] <= 2 then [BLANK.(hasProximity := true, proximity := p[0])]
      else []
    else if ctrl == 0x08 && |p| == 5 then
      [BLANK.(hasUof := true, uof := Uof(p[0], StaticHalves(p[1]), p[2], MotionHalves(p[3]), SpeedHalves(p[4])))]
    else []
  }

  /** send_response_safe. */
  function Safe(kind: Kind, p: seq<byte>): seq<DecodedResponse> {
    if |p| <= MAX_RESPONSE_DATA_LEN then [DecodedResponse(kind, p)] else []
  }

  /** Independent tests one after the other: nothing in the source stops a second one from firing. */
  function Responses(i: nat, ctrl: byte, cmd: byte, p: seq<byte>): seq<DecodedResponse>
    requires i <= KINDS
    decreases KINDS - i
  {
    if i == KINDS then []
    else
      (if CodeOf(KindAt(i)) == Code(ctrl, cmd, |p|) then Safe(KindAt(i), p) else [])
      + Responses(i + 1, ctrl, cmd, p)
  }

  function AsEvents(reports: seq<DecodedReport>, responses: seq<DecodedResponse>): seq<AppEvent> {
    seq(|reports|, i requires 0 <= i < |reports| => Report(reports[i]))
    + seq(|responses|, i requires 0 <= i < |responses| => Response(responses[i]))
  }

  /** app_mmwave_decoder_process_frame: every callback it makes, in order. */
  function Decode(data: seq<byte>): seq<AppEvent> {
    if |data| < 2 then []
    else AsEvents(Reports(data[0], data[1], data[2..]), Responses(0, data[0], data[1], data[2..]))
  }

  // ----- an independent reading, organised by control word -----

  function KindOf(ctrl: byte, cmd: byte, len: nat): Option<Kind> {
    if ctrl == 0x01 || ctrl == 0x02 then ProductKind(ctrl, cmd, len)
    else if ctrl == 0x05 then WorkKind(cmd, len)
    else if ctrl == 0x08 then OpenKind(cmd, len)
    else if ctrl == 0x80 then HumanKind(cmd, len)
    else None
  }

  function ProductKind(ctrl: byte, cmd: byte, len: nat): Option<Kind> {
    if ctrl == 0x01 && cmd == 0x01 && len == 1 then Some(Heartbeat)
    else if ctrl == 0x01 && cmd == 0x02 && len == 1 then Some(ModuleReset)
    else if ctrl == 0x02 && cmd == 0xA1 && len == 1 then Some(ProductModel)
    else if ctrl == 0x02 && cmd == 0xA2 && len == 1 then Some(ProductId)
    else if ctrl == 0x02 && cmd == 0xA3 && len == 1 then Some(HardwareModel)
    else if ctrl == 0x02 && cmd == 0xA4 && len == 1 then Some(FirmwareVersion)
    else None
  }

  function WorkKind(cmd: byte, len: nat): Option<Kind> {
    if cmd == 0x07 && len == 1 then Some(SceneSettings)
    else if cmd == 0x87 && len == 1 then Some(SceneSettingsI)
    else if cmd == 0x88 && len == 1 then Some(SensitivityI)
    else if cmd == 0x08 && len == 1 then Some(Sensitivity)
    else if cmd == 0x85 && len == 1 then Some(MotionSpeed)
    else if cmd == 0x09 && len == 1 then Some(CustomMode)
    else if cmd == 0x0A && len == 1 then Some(CustomModeEnd)
    else if cmd == 0x89 && len == 1 then Some(CustomModeI)
    else None
  }

  function OpenKind(cmd: byte, len: nat): Option<Kind> {
    if cmd == 0x00 && len == 1 then Some(OutputSwitch)
    else if cmd == 0x80 && len == 1 then Some(OutputSwitchI)
    else if cmd == 0x81 && len == 1 then Some(ExistenceEnergy)
    else if cmd == 0x82 && len == 1 then Some(MotionEnergy)
    else if cmd == 0x83 && len == 1 then Some(StaticDistance)
    else if cmd == 0x84 && len == 1 then Some(MotionDistance)
    else if cmd == 0x88 && len == 1 then Some(ExistenceJudgmentThreshI)
    else if cmd == 0x89 && len == 1 then Some(MotionTriggerThreshI)
    else if cmd == 0x8A && len == 1 then Some(ExistencePerceptionBoundI)
    else if cmd == 0x8B && len == 1 then Some(MotionTriggerBoundI)
    else if cmd == 0x8C && len == 1 then Some(MotionTriggerTimeI)
    else if cmd == 0x8D && len == 1 then Some(MotionToStillTimeI)
    else if cmd == 0x8E && len == 1 then Some(CmTimeForNoPersonI)
    else if cmd == 0x08 && len == 1 then Some(ExistenceJudgmentThresh)
    else if cmd == 0x09 && len == 1 then Some(MotionTriggerThresh)
    else if cmd == 0x0A && len == 1 then Some(ExistencePerceptionBound)
    else if cmd == 0x0B && len == 1 then Some(MotionTriggerBound)
    else if cmd == 0x0C && len == 4 then Some(MotionTriggerTime)
    else if cmd == 0x0D && len == 4 then Some(MotionToStillTime)
    else if cmd == 0x0E && len == 4 then Some(CmTimeForNoPerson)
    else None
  }

  function HumanKind(cmd: byte, len: nat): Option<Kind> {
    if cmd == 0x81 && len == 1 then Some(Presence)
    else if cmd == 0x82 && len == 1 then Some(Motion)
    else if cmd == 0x83 && len == 1 then Some(Bmp)
    else if cmd == 0x8A && len == 1 then Some(TimeForNoPersonI)
    else if cmd == 0x0A && len == 1 then Some(TimeForNoPerson)
    else if cmd == 0x8B && len == 1 then Some(Proximity)
    else None
  }

  function Ordinal(kind: Kind): nat {
    match kind
      case Heartbeat => 0
      case ModuleReset => 1
      case ProductModel => 2
      case ProductId => 3
      case HardwareModel => 4
      case FirmwareVersion => 5
      case SceneSettings => 6
      case SceneSettingsI => 7
      case SensitivityI => 8
      case Sensitivity => 9
      case Presence => 10
      case Motion => 11
      case Bmp => 12
      case TimeForNoPersonI => 13
      case TimeForNoPerson => 14
      case Proximity => 15
      case OutputSwitch => 16
      case OutputSwitchI => 17
      case ExistenceEnergy => 18
      case MotionEnergy => 19
      case StaticDistance => 20
      case MotionDistance => 21
      case MotionSpeed => 22
      case CustomMode => 23
      case CustomModeEnd => 24
      case CustomModeI => 25
      case ExistenceJudgmentThreshI => 26
      case MotionTriggerThreshI => 27
      case ExistencePerceptionBoundI => 28
      case MotionTriggerBoundI => 29
      case MotionTriggerTimeI => 30
      case MotionToStillTimeI => 31
      case CmTimeForNoPersonI => 32
      case ExistenceJudgmentThresh => 33
      case MotionTriggerThresh => 34
      case ExistencePerceptionBound => 35
      case MotionTriggerBound => 36
      case MotionTriggerTime => 37
      case MotionToStillTime => 38
      case CmTimeForNoPerson => 39
  }

  lemma OrdinalOfKindAt(i: nat)
    requires i < KINDS
    ensures Ordinal(KindAt(i)) == i
  {
  }

  lemma KindAtOrdinal(kind: Kind)
    ensures Ordinal(kind) < KINDS && KindAt(Ordinal(kind)) == kind
  {
  }

  lemma KindOfCode(kind: Kind)
    ensures KindOf(CodeOf(kind).ctrl, CodeOf(kind).cmd, CodeOf(kind).len) == Some(kind)
    ensures CodeOf(kind).len <= 4
  {
  }

  predicate Codes(kind: Option<Kind>, ctrl: byte, cmd: byte, len: nat) {
    kind.Some? ==> CodeOf(kind.value) == Code(ctrl, cmd, len)
  }

  lemma WorkCodes(cmd: byte, len: nat)
    ensures Codes(WorkKind(cmd, len), 0x05, cmd, len)
  {
  }

  lemma OpenCodes(cmd: byte, len: nat)
    ensures Codes(OpenKind(cmd, len), 0x08, cmd, len)
  {
  }

  lemma HumanCodes(cmd: byte, len: nat)
    ensures Codes(HumanKind(cmd, len), 0x80, cmd, len)
  {
  }

  lemma CodeOfKindOf(ctrl: byte, cmd: byte, len: nat)
    ensures Codes(KindOf(ctrl, cmd, len), ctrl, cmd, len)
  {
    WorkCodes(cmd, len);
    OpenCodes(cmd, len);
    HumanCodes(cmd, len);
    hide WorkKind, OpenKind, HumanKind;
  }

  // ----- one frame, at most one event -----

  lemma {:induction false} NoMatchNoResponse(i: nat, ctrl: byte, cmd: byte, p: seq<byte>)
    requires i <= KINDS && forall k :: i <= k < KINDS ==> CodeOf(KindAt(k)) != Code(ctrl, cmd, |p|)
    ensures Responses(i, ctrl, cmd, p) == []
    decreases KINDS - i
  {
    hide KindAt, CodeOf;
    if i < KINDS {
      NoMatchNoResponse(i + 1, ctrl, cmd, p);
    }
  }

  lemma {:induction false} OneMatchOneResponse(i: nat, k: nat, ctrl: byte, cmd: byte, p: seq<byte>)
    requires i <= k < KINDS && CodeOf(KindAt(k)) == Code(ctrl, cmd, |p|)
    requires forall j :: i <= j < KINDS && j != k ==> CodeOf(KindAt(j)) != Code(ctrl, cmd, |p|)
    ensures Responses(i, ctrl, cmd, p) == Safe(KindAt(k), p)
    decreases KINDS - i
  {
    hide KindAt, CodeOf;
    if i == k {
      NoMatchNoResponse(i + 1, ctrl, cmd, p);
    } else {
      OneMatchOneResponse(i + 1, k, ctrl, cmd, p);
    }
  }

  /** The 40 separate tests amount to one lookup: exactly one of them fires if the code is known, none otherwise. */
  lemma ResponsesAreALookup(ctrl: byte, cmd: byte, p: seq<byte>)
    ensures Responses(0, ctrl, cmd, p)
         == match KindOf(ctrl, cmd, |p|) case Some(kind) => [DecodedResponse(kind, p)] case None => []
  {
    forall k | 0 <= k < KINDS && CodeOf(KindAt(k)) == Code(ctrl, cmd, |p|)
      ensures KindOf(ctrl, cmd, |p|) == Some(KindAt(k)) && k == Ordinal(KindAt(k)) && |p| <= 4
    {
      KindOfCode(KindAt(k));
      OrdinalOfKindAt(k);
    }
    match KindOf(ctrl, cmd, |p|)
    case None =>
      NoMatchNoResponse(0, ctrl, cmd, p);
    case Some(kind) =>
      CodeOfKindOf(ctrl, cmd, |p|);
      KindAtOrdinal(kind);
      KindOfCode(kind);
      OneMatchOneResponse(0, Ordinal(kind), ctrl, cmd, p);
  }

  /** A frame that is a report is no response. */
  lemma ReportsAreNoResponses(ctrl: byte, cmd: byte, p: seq<byte>)
    requires Reports(ctrl, cmd, p) != []
    ensures KindOf(ctrl, cmd, |p|) == None
  {
  }

  function Flags(r: DecodedReport): nat {
    (if r.hasInitCompleted then 1 else 0) + (if r.hasPresence then 1 else 0) + (if r.hasMotion then 1 else 0)
    + (if r.hasBmp then 1 else 0) + (if r.hasProximity then 1 else 0) + (if r.hasUof then 1 else 0)
  }

  lemma NoMoreThanOneReport(ctrl: byte, cmd: byte, p: seq<byte>)
    ensures var reports := Reports(ctrl, cmd, p);
            reports == [] || (reports == [reports[0]] && Flags(reports[0]) == 1)
  {
  }

  /** The report, or else the response looked up, or nothing. */
  lemma DecodeIsReportOrLookup(data: seq<byte>)
    requires |data| >= 2
    ensures var (reports, kind) := (Reports(data[0], data[1], data[2..]), KindOf(data[0], data[1], |data| - 2));
            Decode(data) == if reports != [] then [Report(reports[0])]
                            else if kind.Some? then [Response(DecodedResponse(kind.value, data[2..]))] else []
  {
    hide Reports, Responses, KindOf, CodeOf;
    var p := data[2..];
    ResponsesAreALookup(data[0], data[1], p);
    NoMoreThanOneReport(data[0], data[1], p);
    if Reports(data[0], data[1], p) != [] {
      ReportsAreNoResponses(data[0], data[1], p);
    }
  }

  /** Every frame body causes at most one callback; a report sets exactly one flag, a response has a known code
      and carries the payload unchanged. */
  lemma DecodingIsSingleValued(data: seq<byte>)
    ensures |Decode(data)| <= 1
    ensures forall e :: e in Decode(data) ==>
      match e
      case Report(r) => Flags(r) == 1
      case Response(r) => CodeOf(r.kind) == Code(data[0], data[1], |r.data|) && r.data == data[2..]
  {
    if |data| >= 2 {
      hide Reports, Responses, KindOf, CodeOf, AsEvents, Decode;
      DecodeIsReportOrLookup(data);
      NoMoreThanOneReport(data[0], data[1], data[2..]);
      CodeOfKindOf(data[0], data[1], |data| - 2);
    }
  }

  /** What a frame body must be for report r to come out of it. */
  predicate Reported(data: seq<byte>, r: DecodedReport) {
    && |data| >= 2
    && (r.hasInitCompleted ==> data[0] == 0x05 && data[1] == 0x01 && r.initCompleted)
    && (r.hasPresence ==> r.presence <= 1 && data == [0x80, 0x01, r.presence])
    && (r.hasMotion ==> r.motion <= 2 && data == [0x80, 0x02, r.motion])
    && (r.hasBmp ==> r.bmp < 0x100 && data == [0x80, 0x03, r.bmp])
    && (r.hasProximity ==> r.proximity <= 2 && data == [0x80, 0x0B, r.proximity])
    && (r.hasUof ==>
          && |data| == 7 && data[0] == 0x08
          && data[2] == r.uof.existenceEnergy && data[4] == r.uof.motionEnergy
          && (if 1 <= data[3] <= 6 then r.uof.staticHalves == data[3] else r.uof.staticHalves == 0)
          && (if 1 <= data[5] <= 8 then r.uof.motionHalves == data[5] else r.uof.motionHalves == 0)
          && (if 1 <= data[6] <= 20 then r.uof.speedHalves == (data[6] as int) - 10 else r.uof.speedHalves == 0))
  }

  /** A report says truthfully what was in the frame: except for out-of-range codes the frame can be read back. */
  lemma ReportsMirrorFrames(data: seq<byte>, r: DecodedReport)
    requires Report(r) in Decode(data)
    ensures Reported(data, r)
  {
    hide Responses, KindOf, AsEvents, Decode;
    TooShortIsNothing(data);
    var p := data[2..];
    DecodeIsReportOrLookup(data);
    NoMoreThanOneReport(data[0], data[1], p);
    assert Reports(data[0], data[1], p) == [r];
    assert |p| == 1 ==> data == [data[0], data[1], p[0]];
  }

  lemma TooShortIsNothing(data: seq<byte>)
    ensures |data| < 2 ==> Decode(data) == []
  {
  }

  /** The codes of the sensor's own reports, as the protocol constants give them (app_mmwave_constants.h). */
  const INIT_REPORT := Code(0x05, 0x01, 1)
  const PRESENCE_REPORT := Code(0x80, 0x01, 1)
  const MOTION_REPORT := Code(0x80, 0x02, 1)
  const BMP_REPORT := Code(0x80, 0x03, 1)
  const PROXIMITY_REPORT := Code(0x80, 0x0B, 1)
  const UOF_REPORT := Code(0x08, 0x01, 5)

  /** The one data byte of the init report (INIT_COMPL_INFO_DATA). */
  const INIT_DATA: byte := 0x0F

  predicate HasCode(data: seq<byte>, code: Code) {
    |data| == code.len + 2 && data[0] == code.ctrl && data[1] == code.cmd
  }

  /** The body of a report frame of the protocol, with a value the protocol names. */
  predicate IsReportFrame(data: seq<byte>) {
    || (HasCode(data, INIT_REPORT) && data[2] == INIT_DATA) || HasCode(data, BMP_REPORT) || HasCode(data, UOF_REPORT)
    || (HasCode(data, PRESENCE_REPORT) && data[2] <= 1)
    || (HasCode(data, MOTION_REPORT) && data[2] <= 2)
    || (HasCode(data, PROXIMITY_REPORT) && data[2] <= 2)
  }

  /** Not a report frame, but taken for one: the decoder looks neither at the command word of the open-function
      report nor at what follows the command word of the init report. */
  predicate IsMisread(data: seq<byte>) {
    && |data| >= 2
    && ((data[0] == UOF_REPORT.ctrl && |data| == UOF_REPORT.len + 2 && data[1] != UOF_REPORT.cmd)
        || (data[0] == INIT_REPORT.ctrl && data[1] == INIT_REPORT.cmd && data[2..] != [INIT_DATA]))
  }

  /** Every report frame of the protocol is reported, truthfully and once; what else is reported is exactly the
      misread frames. */
  lemma ReportsAreReportFramesUnlessMisread(data: seq<byte>)
    ensures (exists r :: Decode(data) == [Report(r)]) <==> IsReportFrame(data) || IsMisread(data)
    ensures !(IsReportFrame(data) && IsMisread(data))
    ensures forall r :: Decode(data) == [Report(r)] ==> Reported(data, r) && Flags(r) == 1
  {
    if |data| >= 2 {
      hide Reports, KindOf, Decode, Reported, Flags, IsReportFrame, IsMisread;
      DecodeIsReportOrLookup(data);
      forall r | Decode(data) == [Report(r)] ensures Reported(data, r) && Flags(r) == 1 {
        assert Report(r) in Decode(data);
        ReportsMirrorFrames(data, r);
        NoMoreThanOneReport(data[0], data[1], data[2..]);
      }
    }
  }

  /** Four bodies that are no report frames and are reported all the same: an open-function body under command
      0x55, and init reports with no payload, with three bytes of it and with another data byte. */
  lemma MisreadFramesAreReported()
    ensures !IsReportFrame([0x08, 0x55, 1, 2, 3, 4, 5])
    ensures exists r :: Decode([0x08, 0x55, 1, 2, 3, 4, 5]) == [Report(r)] && r.hasUof
    ensures !IsReportFrame([0x05, 0x01]) && exists r :: Decode([0x05, 0x01]) == [Report(r)] && r.hasInitCompleted
    ensures !IsReportFrame([0x05, 0x01, 9, 9, 9])
    ensures exists r :: Decode([0x05, 0x01, 9, 9, 9]) == [Report(r)] && r.hasInitCompleted
    ensures !IsReportFrame([0x05, 0x01, 0]) && exists r :: Decode([0x05, 0x01, 0]) == [Report(r)] && r.hasInitCompleted
  {
    hide KindOf, Decode;
    DecodeIsReportOrLookup([0x08, 0x55, 1, 2, 3, 4, 5]);
    DecodeIsReportOrLookup([0x05, 0x01]);
    DecodeIsReportOrLookup([0x05, 0x01, 9, 9, 9]);
    DecodeIsReportOrLookup([0x05, 0x01, 0]);
  }

  /** The body of a frame that echoes an inquiry decodes to exactly the paired response. */
  lemma EchoDecodes(kind: Kind, payload: seq<byte>)
    requires |payload| == CodeOf(kind).len
    ensures Decode([CodeOf(kind).ctrl, CodeOf(kind).cmd] + payload) == [Response(DecodedResponse(kind, payload))]
  {
    var code := CodeOf(kind);
    var data := [code.ctrl, code.cmd] + payload;
    assert data[2..] == payload;
    ResponsesAreALookup(code.ctrl, code.cmd, payload);
    KindOfCode(kind);
    if Reports(code.ctrl, code.cmd, payload) != [] {
      ReportsAreNoResponses(code.ctrl, code.cmd, payload);
      assert false;
    }
  }

  /** Build an inquiry, have it echoed over the wire in any pieces, parse it, decode it: the result is exactly the
      response of the inquiry's kind with the payload that was sent. */
  lemma EchoRoundTrip(mode: Rewind, env: nat -> Answers, kind: Kind, payload: seq<byte>, chunks: seq<seq<byte>>)
    requires Benign(env) && |payload| == CodeOf(kind).len
    requires Joined(chunks) == Frame(CodeOf(kind).ctrl, CodeOf(kind).cmd, payload)
    ensures var bodies := Delivered(Run(mode, env, [], chunks, INITIAL).events);
            |bodies| == 1 && Decode(bodies[0]) == [Response(DecodedResponse(kind, payload))]
  {
    KindOfCode(kind);
    BuildParseRoundTrip(mode, env, CodeOf(kind).ctrl, CodeOf(kind).cmd, payload, chunks);
    EchoDecodes(kind, payload);
  }
}

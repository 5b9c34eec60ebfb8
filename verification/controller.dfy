/** The dose round of `interaction`: the controller's endless loop as a step
    function over a state and three input streams.

    Every foreign read becomes the next entry of a stream: a clock reading per
    `time.strftime` call, an utterance (or `None`) per `recognize_speech` call,
    an OCR outcome per `recognize_medication` call. One step is one pass of the
    loop at the top level, or one wait inside a round. A step that needs an
    entry the trace does not supply gives `None`: the trace ends there. An
    exception that would end the thread moves to `Crashed`, which has no
    further step. */
module Controller {
  import opened Wrappers
  import opened Text
  import opened Days
  import opened Commands
  import opened Registry
  import opened TherapyPlan
  import opened Recognition
  import opened Dialogue
  import opened PatientHelper

  type Hour = h: nat | h < 24
  type Minute = m: nat | m < 60

  /** One `time.strftime` call: the lower-case English weekday, hour and minute. */
  datatype Reading = Reading(day: Weekday, hour: Hour, minute: Minute)

  /** `strftime('%H:%M')`. */
  function ClockKey(r: Reading): string {
    Pad2(r.hour) + ":" + Pad2(r.minute)
  }

  /** The plan key is `HH:MM`: two digits of the hour, a colon, two digits
      of the minute. */
  lemma ClockKeyLayout(r: Reading)
    ensures |ClockKey(r)| == 5 && ClockKey(r)[2] == ':'
    ensures Decimal(ClockKey(r)[..2]) == r.hour && Decimal(ClockKey(r)[3..]) == r.minute
  {
    assert ClockKey(r)[..2] == Pad2(r.hour);
    assert ClockKey(r)[3..] == Pad2(r.minute);
  }

  /** Two readings give the same plan key exactly when they show the same
      hour and minute. */
  lemma ClockKeyInjective(a: Reading, b: Reading)
    ensures ClockKey(a) == ClockKey(b) <==> a.hour == b.hour && a.minute == b.minute
  {
    if ClockKey(a) == ClockKey(b) {
      ClockKeyLayout(a);
      ClockKeyLayout(b);
    }
  }

  /** The exceptions that end the loop's thread. */
  datatype Fault =
    | ScheduleUnavailable(day: string)  // `read_csv` of a day with no plan file
    | PlanUnbound                       // `therapy_plan` read before any assignment
    | UnresolvedCaregiver               // a `None` chat id concatenated into the URL
    | OcrNonePage                       // iterating a `None` OCR page

  /** Where the loop is waiting. Inside a round the dose list is the one the
      round's time maps to; `index` is the dose being handled. */
  datatype Phase =
    | Idle
    | AwaitingFeeling(doses: seq<Dose>)
    | AwaitingAnswer(doses: seq<Dose>)
    | AwaitingPhoto(doses: seq<Dose>, index: nat, feeling: Feeling)
    | AwaitingNext(doses: seq<Dose>, index: nat, feeling: Feeling)
    | Finishing(doses: seq<Dose>, feeling: Feeling)
    | Crashed(fault: Fault)

  /** The fixed world: the patient record, the per-day plan files (their rows),
      and the similarity score. */
  datatype Config = Config(patient: Patient, schedules: map<string, seq<Row>>, ratio: Similarity)

  /** `recognised` lists the medications whose box was confirmed in the
      current round, in order; the program keeps no such list, the model keeps
      it to state what a recap certifies. */
  datatype State = State(
    phase: Phase,
    lastDay: string,
    today: string,
    plan: Option<Plan>,
    recognised: seq<string>,
    log: seq<Output>,
    clock: seq<Reading>,
    speech: seq<Option<string>>,
    ocr: seq<seq<Page>>)

  /** Before the loop: `last_day = 'monday'`, `today = ''`, no plan yet. */
  function Init(clock: seq<Reading>, speech: seq<Option<string>>, ocr: seq<seq<Page>>): State {
    State(Idle, "monday", "", None, [], [], clock, speech, ocr)
  }

  /** The medication names of a dose list. */
  function Names(doses: seq<Dose>): (r: seq<string>)
    ensures |r| == |doses|
  {
    seq(|doses|, k requires 0 <= k < |doses| => doses[k].0)
  }

  lemma NamesSnoc(doses: seq<Dose>, i: nat)
    requires i < |doses|
    ensures Names(doses[..i + 1]) == Names(doses[..i]) + [doses[i].0]
  {
  }

  /** `speech != None and word in speech`. */
  predicate Heard(u: Option<string>, word: string) {
    u.Some? && Contains(u.value, word)
  }

  /** Lines 508-515: announce the plan, then ask for the first box; an empty
      dose list goes straight to the goodbye. */
  function BeginDoses(cfg: Config, s: State, doses: seq<Dose>, f: Feeling, before: seq<Output>): State {
    var announce := before + [Say(PlanAnnouncement(cfg.patient.name, doses)), Say(PlanRules)];
    if |doses| == 0 then s.(phase := Finishing(doses, f), log := s.log + announce)
    else s.(phase := AwaitingPhoto(doses, 0, f), log := s.log + announce + [Say(Instruction(doses[0].0))])
  }

  /** Lines 474-477: read the weekday and, on a new day, load that day's plan. */
  function NewDay(cfg: Config, s: State): State
    requires |s.clock| >= 1 && (s.clock[0].day == s.lastDay || s.clock[0].day in cfg.schedules)
  {
    var day := s.clock[0].day;
    var plan := if day != s.lastDay then Some(GetTherapyPlan(cfg.schedules[day])) else s.plan;
    s.(today := day, lastDay := day, plan := plan, clock := s.clock[1..])
  }

  /** Lines 480-489: one listening attempt; "aiuto" anywhere in it starts the
      help procedure. */
  function Listen(cfg: Config, s: State): State
    requires |s.speech| >= 1
  {
    if Heard(s.speech[0], "aiuto") then
      var help := HelpEscalation(cfg.patient);
      s.(speech := s.speech[1..], log := s.log + help.0,
         phase := if help.1 then Crashed(UnresolvedCaregiver) else s.phase)
    else s.(speech := s.speech[1..])
  }

  /** Lines 490-496: read `%H:%M` and start the round when the plan lists it. */
  function DoseTimeCheck(cfg: Config, s: State): Option<State> {
    if |s.clock| == 0 then None
    else
      var key := ClockKey(s.clock[0]);
      var s1 := s.(clock := s.clock[1..]);
      match s.plan
      case None => Some(s1.(phase := Crashed(PlanUnbound)))
      case Some(p) =>
        if key in p then
          Some(s1.(phase := AwaitingFeeling(p[key]), recognised := [],
                   log := s1.log + [Say(Greeting(cfg.patient.name))]))
        else Some(s1)
  }

  /** One pass of the outer loop (lines 471-496). A day without a plan file
      makes `read_csv` raise before anything is heard. */
  function IdleStep(cfg: Config, s: State): Option<State> {
    if |s.clock| == 0 then None
    else
      var day := s.clock[0].day;
      if day != s.lastDay && day !in cfg.schedules then
        Some(s.(phase := Crashed(ScheduleUnavailable(day)), today := day, clock := s.clock[1..]))
      else if |s.speech| == 0 then None
      else
        var s1 := Listen(cfg, NewDay(cfg, s));
        if s1.phase.Crashed? then Some(s1) else DoseTimeCheck(cfg, s1)
  }

  /** One reply to "come ti senti?" (lines 498-507 and 292-325). */
  function FeelingStep(cfg: Config, s: State, doses: seq<Dose>): Option<State> {
    if |s.speech| == 0 then None
    else
      var s1 := s.(speech := s.speech[1..]);
      match s.speech[0]
      case None => Some(s1)
      case Some(reply) =>
        match ClassifyFeeling(reply)
        case Good => Some(BeginDoses(cfg, s1, doses, Good, [Say(GladReply(cfg.patient.name))]))
        case Bad =>
          Some(s1.(phase := AwaitingAnswer(doses),
                   log := s1.log + [Say(SorryReply(cfg.patient.name, Plural(cfg.patient.chatIds)))]))
        case Unknown => Some(s1.(log := s1.log + [Say(FeelingReprompt)]))
  }

  /** One reply to the offer of help after "male" (lines 306-321). */
  function AnswerStep(cfg: Config, s: State, doses: seq<Dose>): Option<State> {
    if |s.speech| == 0 then None
    else
      var s1 := s.(speech := s.speech[1..]);
      match s.speech[0]
      case None => Some(s1)
      case Some(reply) =>
        match ClassifyAnswer(reply)
        case Yes =>
          var help := HelpEscalation(cfg.patient);
          if help.1 then Some(s1.(phase := Crashed(UnresolvedCaregiver), log := s1.log + help.0))
          else Some(BeginDoses(cfg, s1, doses, Bad, help.0))
        case No => Some(BeginDoses(cfg, s1, doses, Bad, []))
        case Unclear => Some(s1.(log := s1.log + [Say(AnswerReprompt)]))
  }

  /** One listening attempt while waiting for "foto", and the box check it
      triggers (lines 518-542). */
  function PhotoStep(cfg: Config, s: State, doses: seq<Dose>, index: nat, f: Feeling): Option<State> {
    if index >= |doses| || |s.speech| == 0 then None
    else
      var s1 := s.(speech := s.speech[1..]);
      if !Heard(s.speech[0], "foto") then Some(s1)
      else if |s1.ocr| == 0 then None
      else
        var dose := doses[index];
        var s2 := s1.(ocr := s1.ocr[1..]);
        match RecognizeMedication(cfg.ratio, dose.0, s1.ocr[0], DefaultThreshold)
        case Err(_) => Some(s2.(phase := Crashed(OcrNonePage)))
        case Ok(true) =>
          Some(s2.(phase := AwaitingNext(doses, index, f), recognised := s2.recognised + [dose.0],
                   log := s2.log + [Say(CorrectBox(cfg.patient.name, dose.1))]))
        case Ok(false) => Some(s2.(log := s2.log + [Say(WrongBox)]))
  }

  /** One listening attempt while waiting for "avanti" (lines 533-538), then
      the next dose or the end of the round. */
  function NextStep(cfg: Config, s: State, doses: seq<Dose>, index: nat, f: Feeling): Option<State> {
    if |s.speech| == 0 then None
    else
      var s1 := s.(speech := s.speech[1..]);
      if !Heard(s.speech[0], "avanti") then Some(s1)
      else if index + 1 < |doses| then
        Some(s1.(phase := AwaitingPhoto(doses, index + 1, f),
                 log := s1.log + [Say(Instruction(doses[index + 1].0))]))
      else Some(s1.(phase := Finishing(doses, f)))
  }

  /** The recap the round sends, from the two clock reads of lines 546-547. */
  function RoundRecap(cfg: Config, s: State, f: Feeling): Recap
    requires |s.clock| >= 2
  {
    Recap(cfg.patient.name, FeelingWord(f), s.today, Pad2(s.clock[0].hour), Pad2(s.clock[1].minute))
  }

  /** Goodbye, then `text` to every caregiver; the thread dies at an
      unresolved caregiver. */
  function Farewell(cfg: Config, s: State, text: string): State {
    var sent := Broadcast(cfg.patient.chatIds, text);
    var s1 := s.(log := s.log + [Say(Goodbye(cfg.patient.name, Plural(cfg.patient.chatIds)))] + sent.0);
    if sent.1 then s1.(phase := Crashed(UnresolvedCaregiver)) else s1.(phase := Idle)
  }

  /** The `/sendrecap` command of the round. */
  function RoundMessage(cfg: Config, s: State, f: Feeling): string
    requires |s.clock| >= 2
  {
    RecapCommand(RoundRecap(cfg, s, f))
  }

  /** The end of the round (lines 543-549): goodbye, then one recap per caregiver. */
  function FinishStep(cfg: Config, s: State, f: Feeling): Option<State> {
    if |s.clock| < 2 then None
    else Some(Farewell(cfg, s.(clock := s.clock[2..]), RoundMessage(cfg, s, f)))
  }

  function Step(cfg: Config, s: State): Option<State> {
    match s.phase
    case Idle => IdleStep(cfg, s)
    case AwaitingFeeling(doses) => FeelingStep(cfg, s, doses)
    case AwaitingAnswer(doses) => AnswerStep(cfg, s, doses)
    case AwaitingPhoto(doses, index, f) => PhotoStep(cfg, s, doses, index, f)
    case AwaitingNext(doses, index, f) => NextStep(cfg, s, doses, index, f)
    case Finishing(doses, f) => FinishStep(cfg, s, f)
    case Crashed(_) => None
  }

  /** Up to `fuel` steps, stopping where the trace ends or the thread dies. */
  function Run(cfg: Config, s: State, fuel: nat): State
    decreases fuel
  {
    if fuel == 0 then s
    else
      match Step(cfg, s)
      case None => s
      case Some(t) => Run(cfg, t, fuel - 1)
  }

  /** What a round certifies at each point: the feeling is settled once the
      doses start, the dose index is in range, the boxes confirmed so far are
      exactly the doses before the current one, in plan order, and the day
      the round runs on is a weekday. */
  predicate Inv(s: State) {
    match s.phase
    case Idle => true
    case AwaitingFeeling(_) => s.recognised == [] && IsWeekday(s.today)
    case AwaitingAnswer(_) => s.recognised == [] && IsWeekday(s.today)
    case AwaitingPhoto(doses, index, f) =>
      index < |doses| && f != Unknown && s.recognised == Names(doses[..index]) && IsWeekday(s.today)
    case AwaitingNext(doses, index, f) =>
      index < |doses| && f != Unknown && s.recognised == Names(doses[..index + 1]) && IsWeekday(s.today)
    case Finishing(doses, f) => f != Unknown && s.recognised == Names(doses) && IsWeekday(s.today)
    case Crashed(_) => true
  }

  lemma BeginDosesInv(cfg: Config, s: State, doses: seq<Dose>, f: Feeling, before: seq<Output>)
    requires s.recognised == [] && f != Unknown && IsWeekday(s.today)
    ensures Inv(BeginDoses(cfg, s, doses, f, before))
  {
    assert doses[..0] == [];
  }

  lemma IdleStepInv(cfg: Config, s: State)
    requires s.phase == Idle
    ensures IdleStep(cfg, s).Some? ==> Inv(IdleStep(cfg, s).value)
  {
  }

  lemma FeelingStepInv(cfg: Config, s: State, doses: seq<Dose>)
    requires s.phase == AwaitingFeeling(doses) && s.recognised == [] && IsWeekday(s.today)
    ensures FeelingStep(cfg, s, doses).Some? ==> Inv(FeelingStep(cfg, s, doses).value)
  {
    if s.speech != [] && s.speech[0].Some? {
      var s1 := s.(speech := s.speech[1..]);
      match ClassifyFeeling(s.speech[0].value)
      case Good => BeginDosesInv(cfg, s1, doses, Good, [Say(GladReply(cfg.patient.name))]);
      case Bad =>
      case Unknown =>
    }
  }

  lemma AnswerStepInv(cfg: Config, s: State, doses: seq<Dose>)
    requires s.phase == AwaitingAnswer(doses) && s.recognised == [] && IsWeekday(s.today)
    ensures AnswerStep(cfg, s, doses).Some? ==> Inv(AnswerStep(cfg, s, doses).value)
  {
    if s.speech != [] && s.speech[0].Some? {
      var s1 := s.(speech := s.speech[1..]);
      match ClassifyAnswer(s.speech[0].value)
      case Yes => BeginDosesInv(cfg, s1, doses, Bad, HelpEscalation(cfg.patient).0);
      case No => BeginDosesInv(cfg, s1, doses, Bad, []);
      case Unclear =>
    }
  }

  lemma PhotoStepInv(cfg: Config, s: State, doses: seq<Dose>, index: nat, f: Feeling)
    requires s.phase == AwaitingPhoto(doses, index, f) && Inv(s)
    ensures PhotoStep(cfg, s, doses, index, f).Some? ==> Inv(PhotoStep(cfg, s, doses, index, f).value)
  {
    NamesSnoc(doses, index);
  }

  lemma NextStepInv(cfg: Config, s: State, doses: seq<Dose>, index: nat, f: Feeling)
    requires s.phase == AwaitingNext(doses, index, f) && Inv(s)
    ensures NextStep(cfg, s, doses, index, f).Some? ==> Inv(NextStep(cfg, s, doses, index, f).value)
  {
    if index + 1 == |doses| {
      assert doses[..index + 1] == doses;
    }
  }

  lemma StepPreservesInv(cfg: Config, s: State)
    requires Inv(s)
    ensures Step(cfg, s).Some? ==> Inv(Step(cfg, s).value)
  {
    match s.phase
    case Idle => IdleStepInv(cfg, s);
    case AwaitingFeeling(doses) => FeelingStepInv(cfg, s, doses);
    case AwaitingAnswer(doses) => AnswerStepInv(cfg, s, doses);
    case AwaitingPhoto(doses, index, f) => PhotoStepInv(cfg, s, doses, index, f);
    case AwaitingNext(doses, index, f) => NextStepInv(cfg, s, doses, index, f);
    case Finishing(_, _) =>
    case Crashed(_) =>
  }

  /** The round invariant holds for every state a trace reaches from the start. */
  lemma {:induction false} RunPreservesInv(cfg: Config, s: State, fuel: nat)
    requires Inv(s)
    ensures Inv(Run(cfg, s, fuel))
    decreases fuel
  {
    if fuel > 0 && Step(cfg, s).Some? {
      StepPreservesInv(cfg, s);
      RunPreservesInv(cfg, Step(cfg, s).value, fuel - 1);
    }
  }

  // ---- What reaches the caregivers ----

  /** A Telegram message carrying a recap command. */
  predicate IsRecapMessage(o: Output) {
    o.Send? && IsPrefix("/sendrecap<", o.text)
  }

  /** Outputs that are spoken, or help commands for `name`. */
  predicate Quiet(out: seq<Output>, name: string) {
    forall k :: 0 <= k < |out| ==> out[k].Say? || out[k].text == HelpCommand(name)
  }

  lemma QuietHasNoRecap(out: seq<Output>, name: string)
    requires Quiet(out, name)
    ensures forall k :: 0 <= k < |out| ==> !IsRecapMessage(out[k])
  {
    HelpCommandStart(name, "");
    assert HelpCommand(name) + "" == HelpCommand(name);
    PrefixesDisagree("/sendrecap<", "/sendhelp<", HelpCommand(name), 5);
  }

  lemma QuietHelp(p: Patient)
    ensures Quiet(HelpEscalation(p).0, p.name)
  {
  }

  lemma QuietAppend(a: seq<Output>, b: seq<Output>, name: string)
    requires Quiet(a, name) && Quiet(b, name)
    ensures Quiet(a + b, name)
  {
    forall k | 0 <= k < |a + b|
      ensures (a + b)[k].Say? || (a + b)[k].text == HelpCommand(name)
    {
      if k >= |a| {
        assert (a + b)[k] == b[k - |a|];
      }
    }
  }

  /** `after` is `before` with only speech and help commands appended. */
  predicate QuietAfter(before: seq<Output>, after: seq<Output>, name: string) {
    |before| <= |after| && after[..|before|] == before && Quiet(after[|before|..], name)
  }

  lemma QuietExtend(log: seq<Output>, out: seq<Output>, name: string)
    requires Quiet(out, name)
    ensures QuietAfter(log, log + out, name)
  {
    assert (log + out)[|log|..] == out;
  }

  lemma QuietBegin(cfg: Config, s: State, doses: seq<Dose>, f: Feeling, before: seq<Output>)
    requires Quiet(before, cfg.patient.name)
    ensures QuietAfter(s.log, BeginDoses(cfg, s, doses, f, before).log, cfg.patient.name)
  {
    var name := cfg.patient.name;
    var announce := [Say(PlanAnnouncement(name, doses)), Say(PlanRules)];
    QuietAppend(before, announce, name);
    if |doses| > 0 {
      QuietAppend(before + announce, [Say(Instruction(doses[0].0))], name);
      QuietExtend(s.log, before + announce + [Say(Instruction(doses[0].0))], name);
      assert s.log + (before + announce + [Say(Instruction(doses[0].0))])
          == s.log + (before + announce) + [Say(Instruction(doses[0].0))];
    } else {
      QuietExtend(s.log, before + announce, name);
    }
  }

  lemma QuietAfterTrans(a: seq<Output>, b: seq<Output>, c: seq<Output>, name: string)
    requires QuietAfter(a, b, name) && QuietAfter(b, c, name)
    ensures QuietAfter(a, c, name)
  {
    assert c[..|a|] == b[..|a|];
    assert c[|a|..] == b[|a|..] + c[|b|..];
    QuietAppend(b[|a|..], c[|b|..], name);
  }

  lemma QuietListen(cfg: Config, s: State)
    requires |s.speech| >= 1
    ensures QuietAfter(s.log, Listen(cfg, s).log, cfg.patient.name)
  {
    QuietHelp(cfg.patient);
    QuietExtend(s.log, HelpEscalation(cfg.patient).0, cfg.patient.name);
    QuietExtend(s.log, [], cfg.patient.name);
    assert s.log + [] == s.log;
  }

  lemma QuietDoseTimeCheck(cfg: Config, s: State)
    requires DoseTimeCheck(cfg, s).Some?
    ensures QuietAfter(s.log, DoseTimeCheck(cfg, s).value.log, cfg.patient.name)
  {
    QuietExtend(s.log, [Say(Greeting(cfg.patient.name))], cfg.patient.name);
    QuietExtend(s.log, [], cfg.patient.name);
    assert s.log + [] == s.log;
  }

  lemma QuietIdle(cfg: Config, s: State)
    requires s.phase == Idle && IdleStep(cfg, s).Some?
    ensures QuietAfter(s.log, IdleStep(cfg, s).value.log, cfg.patient.name)
  {
    var day := s.clock[0].day;
    if day != s.lastDay && day !in cfg.schedules {
      QuietExtend(s.log, [], cfg.patient.name);
      assert s.log + [] == s.log;
    } else {
      var s0 := NewDay(cfg, s);
      var s1 := Listen(cfg, s0);
      QuietListen(cfg, s0);
      if !s1.phase.Crashed? {
        QuietDoseTimeCheck(cfg, s1);
        QuietAfterTrans(s.log, s1.log, DoseTimeCheck(cfg, s1).value.log, cfg.patient.name);
      }
    }
  }

  lemma QuietFeeling(cfg: Config, s: State, doses: seq<Dose>)
    requires FeelingStep(cfg, s, doses).Some?
    ensures QuietAfter(s.log, FeelingStep(cfg, s, doses).value.log, cfg.patient.name)
  {
    var name := cfg.patient.name;
    var s1 := s.(speech := s.speech[1..]);
    QuietExtend(s.log, [], name);
    assert s.log + [] == s.log;
    QuietExtend(s.log, [Say(SorryReply(name, Plural(cfg.patient.chatIds)))], name);
    QuietExtend(s.log, [Say(FeelingReprompt)], name);
    QuietBegin(cfg, s1, doses, Good, [Say(GladReply(name))]);
  }

  lemma QuietAnswer(cfg: Config, s: State, doses: seq<Dose>)
    requires AnswerStep(cfg, s, doses).Some?
    ensures QuietAfter(s.log, AnswerStep(cfg, s, doses).value.log, cfg.patient.name)
  {
    var name := cfg.patient.name;
    var s1 := s.(speech := s.speech[1..]);
    QuietHelp(cfg.patient);
    QuietExtend(s.log, [], name);
    assert s.log + [] == s.log;
    QuietExtend(s.log, HelpEscalation(cfg.patient).0, name);
    QuietExtend(s.log, [Say(AnswerReprompt)], name);
    QuietBegin(cfg, s1, doses, Bad, HelpEscalation(cfg.patient).0);
    QuietBegin(cfg, s1, doses, Bad, []);
  }

  lemma QuietPhoto(cfg: Config, s: State, doses: seq<Dose>, index: nat, f: Feeling)
    requires PhotoStep(cfg, s, doses, index, f).Some?
    ensures QuietAfter(s.log, PhotoStep(cfg, s, doses, index, f).value.log, cfg.patient.name)
  {
    var name := cfg.patient.name;
    QuietExtend(s.log, [], name);
    assert s.log + [] == s.log;
    QuietExtend(s.log, [Say(CorrectBox(name, doses[index].1))], name);
    QuietExtend(s.log, [Say(WrongBox)], name);
  }

  lemma QuietNext(cfg: Config, s: State, doses: seq<Dose>, index: nat, f: Feeling)
    requires NextStep(cfg, s, doses, index, f).Some?
    ensures QuietAfter(s.log, NextStep(cfg, s, doses, index, f).value.log, cfg.patient.name)
  {
    var name := cfg.patient.name;
    QuietExtend(s.log, [], name);
    assert s.log + [] == s.log;
    if index + 1 < |doses| {
      QuietExtend(s.log, [Say(Instruction(doses[index + 1].0))], name);
    }
  }

  /** Every step outside `Finishing` appends to the log and appends only
      speech and help commands. */
  lemma QuietStep(cfg: Config, s: State)
    requires !s.phase.Finishing? && Step(cfg, s).Some?
    ensures QuietAfter(s.log, Step(cfg, s).value.log, cfg.patient.name)
  {
    match s.phase
    case Idle => QuietIdle(cfg, s);
    case AwaitingFeeling(doses) => QuietFeeling(cfg, s, doses);
    case AwaitingAnswer(doses) => QuietAnswer(cfg, s, doses);
    case AwaitingPhoto(doses, index, f) => QuietPhoto(cfg, s, doses, index, f);
    case AwaitingNext(doses, index, f) => QuietNext(cfg, s, doses, index, f);
  }

  /** A recap leaves the device only from `Finishing`, and there the round has
      confirmed every box of the dose list in plan order with a settled
      feeling. */
  lemma RecapCertifiesRound(cfg: Config, s: State, k: nat)
    requires Inv(s) && Step(cfg, s).Some?
    requires |s.log| <= k < |Step(cfg, s).value.log|
    requires IsRecapMessage(Step(cfg, s).value.log[k])
    ensures s.phase.Finishing?
    ensures s.phase.feeling != Unknown && s.recognised == Names(s.phase.doses)
  {
    if !s.phase.Finishing? {
      var t := Step(cfg, s).value;
      QuietStep(cfg, s);
      QuietHasNoRecap(t.log[|s.log|..], cfg.patient.name);
      assert false;
    }
  }

  /** The end of a round returns to waiting exactly when every caregiver is
      resolved, and dies otherwise; the inputs and the day's plan are kept. */
  lemma FarewellPhase(cfg: Config, s: State, text: string)
    ensures Farewell(cfg, s, text).phase == Idle <==> AllResolved(cfg.patient.chatIds)
    ensures Farewell(cfg, s, text).phase == Crashed(UnresolvedCaregiver) <==> !AllResolved(cfg.patient.chatIds)
    ensures Farewell(cfg, s, text).clock == s.clock
    ensures Farewell(cfg, s, text).speech == s.speech
    ensures Farewell(cfg, s, text).plan == s.plan
    ensures Farewell(cfg, s, text).lastDay == s.lastDay
  {
    var sent := Broadcast(cfg.patient.chatIds, text);
    assert Farewell(cfg, s, text).phase == if sent.1 then Crashed(UnresolvedCaregiver) else Idle;
  }

  /** The end of a round says goodbye and sends the one recap to every
      caregiver in list order; an unresolved caregiver ends the thread
      after the sends before it. */
  lemma FarewellSends(cfg: Config, s: State, text: string)
    ensures |Farewell(cfg, s, text).log| > |s.log| && Farewell(cfg, s, text).log[..|s.log|] == s.log
    ensures Farewell(cfg, s, text).log[|s.log|] == Say(Goodbye(cfg.patient.name, Plural(cfg.patient.chatIds)))
    ensures AllResolved(cfg.patient.chatIds) ==>
              |Farewell(cfg, s, text).log| == |s.log| + 1 + |cfg.patient.chatIds|
    ensures forall k :: |s.log| + 1 <= k < |Farewell(cfg, s, text).log| ==>
              Farewell(cfg, s, text).log[k] == Send(cfg.patient.chatIds[k - |s.log| - 1].value, text)
  {
    var sent := Broadcast(cfg.patient.chatIds, text);
    var head := s.log + [Say(Goodbye(cfg.patient.name, Plural(cfg.patient.chatIds)))];
    assert Farewell(cfg, s, text).log == head + sent.0;
    SendsAfter(head, sent.0, cfg.patient.chatIds, text);
  }

  lemma SendsAfter(head: seq<Output>, sent: seq<Output>, ids: seq<Option<int>>, text: string)
    requires |sent| <= |ids|
    requires forall k :: 0 <= k < |sent| ==> ids[k].Some? && sent[k] == Send(ids[k].value, text)
    ensures (head + sent)[..|head|] == head
    ensures forall k :: |head| <= k < |head + sent| ==> (head + sent)[k] == Send(ids[k - |head|].value, text)
  {
  }

  /** The end of a round says goodbye and sends the one recap to every
      caregiver in list order; an unresolved caregiver ends the thread
      after the sends before it. */
  lemma FinishSendsOneRecapEach(cfg: Config, s: State, t: State)
    requires s.phase.Finishing? && Step(cfg, s) == Some(t)
    ensures t.phase == Idle <==> AllResolved(cfg.patient.chatIds)
    ensures t.phase == Crashed(UnresolvedCaregiver) <==> !AllResolved(cfg.patient.chatIds)
    ensures |t.log| > |s.log| && t.log[..|s.log|] == s.log
    ensures t.log[|s.log|] == Say(Goodbye(cfg.patient.name, Plural(cfg.patient.chatIds)))
    ensures AllResolved(cfg.patient.chatIds) ==> |t.log| == |s.log| + 1 + |cfg.patient.chatIds|
    ensures forall k :: |s.log| + 1 <= k < |t.log| ==>
              t.log[k] == Send(cfg.patient.chatIds[k - |s.log| - 1].value, RoundMessage(cfg, s, s.phase.feeling))
  {
    var text := RoundMessage(cfg, s, s.phase.feeling);
    var s1 := s.(clock := s.clock[2..]);
    FarewellPhase(cfg, s1, text);
    FarewellSends(cfg, s1, text);
    assert t == Farewell(cfg, s1, text);
  }

  /** End to end: given a name the bot's pattern accepts, every recap a round
      sends is parsed back by the bot into exactly the recap that was built,
      and the bot answers with the recap text and the day's photographs. The
      hour and minute fields carry the clock values, and the feeling field is
      "bene" exactly when the patient said they felt well. */
  lemma RecapReachesBot(cfg: Config, s: State)
    requires Inv(s) && s.phase.Finishing? && |s.clock| >= 2
    requires ValidName(cfg.patient.name)
    ensures WellFormed(RoundRecap(cfg, s, s.phase.feeling))
    ensures ParseRecap(RecapCommand(RoundRecap(cfg, s, s.phase.feeling))) == Some(RoundRecap(cfg, s, s.phase.feeling))
    ensures Dispatch(RecapCommand(RoundRecap(cfg, s, s.phase.feeling)))
         == [Respond(RecapReply(RoundRecap(cfg, s, s.phase.feeling))), SendImagesFrom("../medications/" + s.today)]
    ensures RoundRecap(cfg, s, s.phase.feeling).feeling == "bene" <==> s.phase.feeling == Good
    ensures Decimal(RoundRecap(cfg, s, s.phase.feeling).hour) == s.clock[0].hour
    ensures Decimal(RoundRecap(cfg, s, s.phase.feeling).minute) == s.clock[1].minute
  {
    var r := RoundRecap(cfg, s, s.phase.feeling);
    ClockFieldsAccepted(s.clock[0].hour, s.clock[1].minute);
    assert ValidFeeling(r.feeling);
    RecapRoundTrip(r, "");
    DispatchRecapCommand(r, "");
    assert RecapCommand(r) + "" == RecapCommand(r);
  }

  // ---- The outer loop ----

  /** With `last_day` starting as 'monday', a process started on a Monday
      skips the plan load and the dose-time check reads an unbound
      `therapy_plan`: the first pass ends the thread, unless a help request
      heard on that pass already did. */
  lemma MondayStartCrashes(cfg: Config, clock: seq<Reading>, speech: seq<Option<string>>, ocr: seq<seq<Page>>)
    requires |clock| >= 2 && clock[0].day == "monday" && |speech| >= 1
    requires !Heard(speech[0], "aiuto") || AllResolved(cfg.patient.chatIds)
    ensures Step(cfg, Init(clock, speech, ocr)).Some?
    ensures Step(cfg, Init(clock, speech, ocr)).value.phase == Crashed(PlanUnbound)
  {
  }

  /** On any other first day the plan of that day is loaded, or the thread
      ends because the day has no plan file. */
  lemma OtherStartLoadsPlan(cfg: Config, clock: seq<Reading>, speech: seq<Option<string>>, ocr: seq<seq<Page>>)
    requires |clock| >= 1 && clock[0].day != "monday"
    ensures clock[0].day !in cfg.schedules ==>
              Step(cfg, Init(clock, speech, ocr)) == Some(Init(clock, speech, ocr).(
                phase := Crashed(ScheduleUnavailable(clock[0].day)), today := clock[0].day, clock := clock[1..]))
    ensures clock[0].day in cfg.schedules && Step(cfg, Init(clock, speech, ocr)).Some? ==>
              Step(cfg, Init(clock, speech, ocr)).value.plan == Some(GetTherapyPlan(cfg.schedules[clock[0].day]))
    ensures Step(cfg, Init(clock, speech, ocr)).Some? ==>
              Step(cfg, Init(clock, speech, ocr)).value.phase != Crashed(PlanUnbound)
  {
    var s := Init(clock, speech, ocr);
    if Step(cfg, s).Some? {
      DayRollover(cfg, s);
      if clock[0].day in cfg.schedules {
        var s0 := NewDay(cfg, s);
        ListenKeepsDay(cfg, s0);
        var s1 := Listen(cfg, s0);
        if !s1.phase.Crashed? {
          DoseTimeCheckKeepsDay(cfg, s1);
        }
      }
    }
  }

  /** Listening leaves the day, the plan and the clock alone. */
  lemma ListenKeepsDay(cfg: Config, s: State)
    requires |s.speech| >= 1
    ensures Listen(cfg, s).today == s.today && Listen(cfg, s).lastDay == s.lastDay
    ensures Listen(cfg, s).plan == s.plan && Listen(cfg, s).clock == s.clock
    ensures Listen(cfg, s).phase.Crashed? <==>
              s.phase.Crashed? || (Heard(s.speech[0], "aiuto") && !AllResolved(cfg.patient.chatIds))
    ensures Listen(cfg, s).phase == s.phase || Listen(cfg, s).phase == Crashed(UnresolvedCaregiver)
  {
  }

  /** The dose-time check leaves the day and the plan alone and sends nothing. */
  lemma DoseTimeCheckKeepsDay(cfg: Config, s: State)
    requires DoseTimeCheck(cfg, s).Some?
    ensures DoseTimeCheck(cfg, s).value.today == s.today
    ensures DoseTimeCheck(cfg, s).value.lastDay == s.lastDay
    ensures DoseTimeCheck(cfg, s).value.plan == s.plan
    ensures SendCount(DoseTimeCheck(cfg, s).value.log) == SendCount(s.log)
    ensures s.plan.Some? && !s.phase.Crashed? ==> !DoseTimeCheck(cfg, s).value.phase.Crashed?
  {
    SendCountSays([Say(Greeting(cfg.patient.name))]);
    SendCountAppend(s.log, [Say(Greeting(cfg.patient.name))]);
  }

  /** Day rollover (lines 474-477): the plan is reloaded exactly when the
      weekday read differs from `last_day`, from that day's plan file. */
  lemma DayRollover(cfg: Config, s: State)
    requires s.phase == Idle && |s.clock| >= 1 && Step(cfg, s).Some?
    ensures Step(cfg, s).value.today == s.clock[0].day
    ensures !Step(cfg, s).value.phase.Crashed? ==> Step(cfg, s).value.lastDay == s.clock[0].day
    ensures s.clock[0].day != s.lastDay && s.clock[0].day !in cfg.schedules <==>
              Step(cfg, s).value.phase == Crashed(ScheduleUnavailable(s.clock[0].day))
    ensures s.clock[0].day != s.lastDay && s.clock[0].day in cfg.schedules ==>
              Step(cfg, s).value.plan == Some(GetTherapyPlan(cfg.schedules[s.clock[0].day]))
    ensures s.clock[0].day == s.lastDay ==> Step(cfg, s).value.plan == s.plan
  {
    var day := s.clock[0].day;
    if day == s.lastDay || day in cfg.schedules {
      var s0 := NewDay(cfg, s);
      ListenKeepsDay(cfg, s0);
      var s1 := Listen(cfg, s0);
      if !s1.phase.Crashed? {
        DoseTimeCheckKeepsDay(cfg, s1);
      }
    }
  }

  /** The round starts on every pass whose `%H:%M` reading is a time of the
      plan: nothing records that the round for that minute already ran. */
  lemma RoundStartsWheneverListed(cfg: Config, s: State, p: Plan)
    requires s.phase == Idle && s.plan == Some(p)
    requires |s.clock| >= 2 && s.clock[0].day == s.lastDay
    requires |s.speech| >= 1 && !Heard(s.speech[0], "aiuto")
    ensures Step(cfg, s).Some?
    ensures Step(cfg, s).value.phase.AwaitingFeeling? <==> ClockKey(s.clock[1]) in p
    ensures ClockKey(s.clock[1]) in p ==>
              Step(cfg, s).value.phase == AwaitingFeeling(p[ClockKey(s.clock[1])])
              && Step(cfg, s).value.log == s.log + [Say(Greeting(cfg.patient.name))]
    ensures ClockKey(s.clock[1]) !in p ==>
              Step(cfg, s).value == s.(clock := s.clock[2..], speech := s.speech[1..], today := s.lastDay)
  {
    assert s.log + [] == s.log;
  }

  /** A round that ends within the minute it started is followed by a second
      round for the same time. */
  lemma RoundRepeatsWithinMinute(cfg: Config, s: State, p: Plan)
    requires s.phase.Finishing? && s.plan == Some(p) && AllResolved(cfg.patient.chatIds)
    requires |s.clock| >= 4 && s.clock[2].day == s.lastDay && ClockKey(s.clock[3]) in p
    requires |s.speech| >= 1 && !Heard(s.speech[0], "aiuto")
    ensures Run(cfg, s, 2).phase == AwaitingFeeling(p[ClockKey(s.clock[3])])
  {
    var text := RoundMessage(cfg, s, s.phase.feeling);
    var s1 := s.(clock := s.clock[2..]);
    FarewellPhase(cfg, s1, text);
    FarewellSends(cfg, s1, text);
    var t := Farewell(cfg, s1, text);
    assert Step(cfg, s) == Some(t);
    RoundStartsWheneverListed(cfg, t, p);
    assert Run(cfg, s, 2) == Run(cfg, Step(cfg, t).value, 0);
  }

  // ---- Inside a round ----

  /** The feeling loop (lines 498-507): it waits through silence and
      re-asks after an unclassified reply; "ben…" goes on to the doses with
      the feeling settled, "mal…" goes on to the offer of help. */
  lemma FeelingOutcome(cfg: Config, s: State, doses: seq<Dose>)
    requires s.phase == AwaitingFeeling(doses) && |s.speech| >= 1
    ensures Step(cfg, s).Some?
    ensures Step(cfg, s).value.speech == s.speech[1..]
    ensures Step(cfg, s).value.phase == AwaitingFeeling(doses) <==>
              s.speech[0].None? || ClassifyFeeling(s.speech[0].value) == Unknown
    ensures Step(cfg, s).value.phase == AwaitingAnswer(doses) <==>
              s.speech[0].Some? && IsPrefix("mal", s.speech[0].value)
    ensures Step(cfg, s).value.phase in {AwaitingPhoto(doses, 0, Good), Finishing(doses, Good)} <==>
              s.speech[0].Some? && IsPrefix("ben", s.speech[0].value)
    ensures s.speech[0].Some? && ClassifyFeeling(s.speech[0].value) == Unknown ==>
              Step(cfg, s).value.log == s.log + [Say(FeelingReprompt)]
    ensures s.speech[0].None? ==> Step(cfg, s).value == s.(speech := s.speech[1..])
  {
  }

  /** The number of Telegram messages in a log. */
  function SendCount(log: seq<Output>): nat {
    if log == [] then 0
    else SendCount(log[..|log| - 1]) + (if log[|log| - 1].Send? then 1 else 0)
  }

  lemma {:induction false} SendCountAppend(a: seq<Output>, b: seq<Output>)
    ensures SendCount(a + b) == SendCount(a) + SendCount(b)
    decreases |b|
  {
    if b != [] {
      assert (a + b)[..|a + b| - 1] == a + b[..|b| - 1];
      SendCountAppend(a, b[..|b| - 1]);
    } else {
      assert a + b == a;
    }
  }

  lemma {:induction false} SendCountSays(out: seq<Output>)
    requires forall k :: 0 <= k < |out| ==> out[k].Say?
    ensures SendCount(out) == 0
    decreases |out|
  {
    if out != [] {
      SendCountSays(out[..|out| - 1]);
    }
  }

  lemma {:induction false} SendCountSends(out: seq<Output>)
    requires forall k :: 0 <= k < |out| ==> out[k].Send?
    ensures SendCount(out) == |out|
    decreases |out|
  {
    if out != [] {
      SendCountSends(out[..|out| - 1]);
    }
  }

  /** `send_help_message` with every caregiver resolved sends exactly one
      message per caregiver. */
  lemma HelpSendCount(p: Patient)
    requires AllResolved(p.chatIds)
    ensures SendCount(HelpEscalation(p).0) == |p.chatIds|
  {
    var sent := Broadcast(p.chatIds, HelpCommand(p.name));
    var a := [Say(HelpAnnouncement(p.name, Plural(p.chatIds)))];
    var c := [Say(HelpConfirmation(p.name, Plural(p.chatIds)))];
    assert HelpEscalation(p).0 == a + sent.0 + c;
    SendCountSends(sent.0);
    SendCountSays(a);
    SendCountSays(c);
    SendCountAppend(a, sent.0);
    SendCountAppend(a + sent.0, c);
  }

  /** `send_help_message` that meets an unresolved caregiver sends to
      exactly the caregivers listed before it, then raises. */
  lemma HelpSendsUntilUnresolved(p: Patient)
    requires !AllResolved(p.chatIds)
    ensures SendCount(HelpEscalation(p).0) < |p.chatIds|
    ensures p.chatIds[SendCount(HelpEscalation(p).0)].None?
    ensures forall k :: 0 <= k < SendCount(HelpEscalation(p).0) ==> p.chatIds[k].Some?
  {
    var sent := Broadcast(p.chatIds, HelpCommand(p.name));
    var a := [Say(HelpAnnouncement(p.name, Plural(p.chatIds)))];
    assert HelpEscalation(p).0 == a + sent.0;
    SendCountSends(sent.0);
    SendCountSays(a);
    SendCountAppend(a, sent.0);
  }

  lemma BeginDosesSays(cfg: Config, s: State, doses: seq<Dose>, f: Feeling, before: seq<Output>)
    ensures SendCount(BeginDoses(cfg, s, doses, f, before).log) == SendCount(s.log) + SendCount(before)
  {
    var name := cfg.patient.name;
    var announce := [Say(PlanAnnouncement(name, doses)), Say(PlanRules)];
    SendCountSays(announce);
    SendCountAppend(s.log, before);
    SendCountAppend(s.log + before, announce);
    assert s.log + (before + announce) == s.log + before + announce;
    if |doses| > 0 {
      SendCountSays([Say(Instruction(doses[0].0))]);
      SendCountAppend(s.log + before + announce, [Say(Instruction(doses[0].0))]);
      assert s.log + (before + announce + [Say(Instruction(doses[0].0))])
          == s.log + before + announce + [Say(Instruction(doses[0].0))];
    }
  }

  /** The reply to the offer of help (lines 306-321): "sì…" sends one help
      message to every caregiver, "no…" sends none, and both go on to the
      doses with the feeling "male"; anything else re-asks. A "sì…" that
      meets an unresolved caregiver kills the thread after the messages to
      the caregivers listed before it. */
  lemma AnswerOutcome(cfg: Config, s: State, doses: seq<Dose>)
    requires s.phase == AwaitingAnswer(doses) && |s.speech| >= 1
    ensures Step(cfg, s).Some?
    ensures Step(cfg, s).value.phase == AwaitingAnswer(doses) <==>
              s.speech[0].None? || ClassifyAnswer(s.speech[0].value) == Unclear
    ensures Step(cfg, s).value.phase in {AwaitingPhoto(doses, 0, Bad), Finishing(doses, Bad)} <==>
              s.speech[0].Some? && ClassifyAnswer(s.speech[0].value) != Unclear
              && (IsPrefix("sì", s.speech[0].value) ==> AllResolved(cfg.patient.chatIds))
    ensures Step(cfg, s).value.phase == Crashed(UnresolvedCaregiver) <==>
              s.speech[0].Some? && IsPrefix("sì", s.speech[0].value) && !AllResolved(cfg.patient.chatIds)
    ensures s.speech[0].Some? && IsPrefix("sì", s.speech[0].value) ==>
              SendCount(Step(cfg, s).value.log) == SendCount(s.log) + SendCount(HelpEscalation(cfg.patient).0)
    ensures s.speech[0].Some? && IsPrefix("sì", s.speech[0].value) && AllResolved(cfg.patient.chatIds) ==>
              SendCount(Step(cfg, s).value.log) == SendCount(s.log) + |cfg.patient.chatIds|
    ensures s.speech[0].Some? && !IsPrefix("sì", s.speech[0].value) ==>
              SendCount(Step(cfg, s).value.log) == SendCount(s.log)
  {
    var s1 := s.(speech := s.speech[1..]);
    if s.speech[0].Some? {
      match ClassifyAnswer(s.speech[0].value)
      case Yes =>
        if AllResolved(cfg.patient.chatIds) {
          HelpSendCount(cfg.patient);
          BeginDosesSays(cfg, s1, doses, Bad, HelpEscalation(cfg.patient).0);
        } else {
          SendCountAppend(s1.log, HelpEscalation(cfg.patient).0);
        }
      case No =>
        BeginDosesSays(cfg, s1, doses, Bad, []);
        SendCountSays([]);
      case Unclear =>
        SendCountSays([Say(AnswerReprompt)]);
        SendCountAppend(s.log, [Say(AnswerReprompt)]);
    }
  }

  /** One listening attempt for the photo cue (lines 518-542): without "foto"
      nothing is photographed; with it the box is checked against the
      current dose, and only a recognised box moves on, appending that dose's
      medication to the confirmed ones. */
  lemma PhotoOutcome(cfg: Config, s: State, doses: seq<Dose>, index: nat, f: Feeling)
    requires s.phase == AwaitingPhoto(doses, index, f) && index < |doses| && |s.speech| >= 1
    requires Heard(s.speech[0], "foto") ==> |s.ocr| >= 1
    ensures Step(cfg, s).Some?
    ensures !Heard(s.speech[0], "foto") ==> Step(cfg, s).value == s.(speech := s.speech[1..])
    ensures Heard(s.speech[0], "foto") ==> Step(cfg, s).value.ocr == s.ocr[1..]
    ensures Step(cfg, s).value.phase == AwaitingNext(doses, index, f) <==>
              Heard(s.speech[0], "foto")
              && RecognizeMedication(cfg.ratio, doses[index].0, s.ocr[0], DefaultThreshold) == Ok(true)
    ensures Step(cfg, s).value.phase == AwaitingPhoto(doses, index, f) <==>
              !Heard(s.speech[0], "foto")
              || RecognizeMedication(cfg.ratio, doses[index].0, s.ocr[0], DefaultThreshold) == Ok(false)
    ensures Step(cfg, s).value.phase == Crashed(OcrNonePage) <==>
              Heard(s.speech[0], "foto")
              && RecognizeMedication(cfg.ratio, doses[index].0, s.ocr[0], DefaultThreshold).Err?
    ensures Step(cfg, s).value.phase.AwaitingNext? ==>
              Step(cfg, s).value.recognised == s.recognised + [doses[index].0]
              && Step(cfg, s).value.log == s.log + [Say(CorrectBox(cfg.patient.name, doses[index].1))]
  {
  }

  /** After a confirmed box (lines 533-538): only "avanti" moves on, to the
      next dose's instruction or, after the last dose, to the goodbye. */
  lemma NextOutcome(cfg: Config, s: State, doses: seq<Dose>, index: nat, f: Feeling)
    requires s.phase == AwaitingNext(doses, index, f) && |s.speech| >= 1
    ensures Step(cfg, s).Some?
    ensures !Heard(s.speech[0], "avanti") <==> Step(cfg, s).value.phase == AwaitingNext(doses, index, f)
    ensures Heard(s.speech[0], "avanti") && index + 1 < |doses| ==>
              Step(cfg, s).value.phase == AwaitingPhoto(doses, index + 1, f)
              && Step(cfg, s).value.log == s.log + [Say(Instruction(doses[index + 1].0))]
    ensures Heard(s.speech[0], "avanti") && index + 1 >= |doses| ==>
              Step(cfg, s).value.phase == Finishing(doses, f)
  {
  }

  /** The help trigger of the outer loop (lines 480-489): an utterance
      containing "aiuto" sends one help message to every caregiver; any
      other pass sends nothing. With an unresolved caregiver, "aiuto" kills
      the thread after the messages to the caregivers listed before it. */
  lemma IdleHelpTrigger(cfg: Config, s: State)
    requires s.phase == Idle && |s.clock| >= 2 && |s.speech| >= 1
    requires s.clock[0].day == s.lastDay || s.clock[0].day in cfg.schedules
    ensures Step(cfg, s).Some?
    ensures SendCount(Step(cfg, s).value.log)
            == SendCount(s.log) + (if Heard(s.speech[0], "aiuto") then SendCount(HelpEscalation(cfg.patient).0) else 0)
    ensures AllResolved(cfg.patient.chatIds) ==>
              SendCount(Step(cfg, s).value.log)
              == SendCount(s.log) + (if Heard(s.speech[0], "aiuto") then |cfg.patient.chatIds| else 0)
    ensures Step(cfg, s).value.phase == Crashed(UnresolvedCaregiver) <==>
              Heard(s.speech[0], "aiuto") && !AllResolved(cfg.patient.chatIds)
  {
    var s0 := NewDay(cfg, s);
    var s1 := Listen(cfg, s0);
    ListenKeepsDay(cfg, s0);
    if Heard(s.speech[0], "aiuto") {
      if AllResolved(cfg.patient.chatIds) {
        HelpSendCount(cfg.patient);
      }
      SendCountAppend(s0.log, HelpEscalation(cfg.patient).0);
    }
    if !s1.phase.Crashed? {
      DoseTimeCheckKeepsDay(cfg, s1);
    }
  }
}

/** The controller's side of the conversation: how replies are classified,
    what is spoken, and how a message fans out to the caregivers. Speech
    synthesis and Telegram delivery are foreign; both appear as entries of an
    output log. */
module Dialogue {
  import opened Wrappers
  import opened Text
  import opened Commands
  import opened Registry
  import opened TherapyPlan

  /** One effect of the controller: a sentence spoken to the patient, or a
      Telegram message sent to a caregiver chat. */
  datatype Output = Say(line: Utterance) | Send(chatId: int, text: string)

  datatype Feeling = Good | Bad | Unknown

  /** `analyze_feelings`' classification of the reply to "come ti senti?". */
  function ClassifyFeeling(reply: string): (f: Feeling)
    ensures f == Good <==> IsPrefix("ben", reply)
    ensures f == Bad <==> IsPrefix("mal", reply)
  {
    if IsPrefix("ben", reply) then Good
    else if IsPrefix("mal", reply) then Bad
    else Unknown
  }

  /** The string `analyze_feelings` returns. */
  function FeelingWord(f: Feeling): string {
    match f
    case Good => "bene"
    case Bad => "male"
    case Unknown => ""
  }

  /** Every classified reply yields a feeling the bot's `(bene|male)` group
      accepts, and an unclassified one yields the empty string that makes the
      controller ask again. */
  lemma {:induction false} FeelingWordAccepted(reply: string)
    ensures ValidFeeling(FeelingWord(ClassifyFeeling(reply))) <==> ClassifyFeeling(reply) != Unknown
    ensures ClassifyFeeling(reply) == Unknown <==> FeelingWord(ClassifyFeeling(reply)) == ""
  {
  }

  datatype Answer = Yes | No | Unclear

  /** The yes/no reply after "male": "sì…" is yes, "no…" is no. */
  function ClassifyAnswer(reply: string): (a: Answer)
    ensures a == Yes <==> IsPrefix("sì", reply)
    ensures a == No <==> IsPrefix("no", reply)
  {
    if IsPrefix("sì", reply) then Yes
    else if IsPrefix("no", reply) then No
    else Unclear
  }

  /** `has_multiple_caregivers`: more than one entry, resolved or not. */
  predicate Plural(chatIds: seq<Option<int>>) {
    |chatIds| > 1
  }

  /** The sentences the controller speaks, one per `speech_synthesis` text of
      the source; `plural` selects the wording for several caregivers. */
  datatype Utterance =
    | HelpAnnouncement(name: string, plural: bool)
    | HelpConfirmation(name: string, plural: bool)
    | Greeting(name: string)
    | GladReply(name: string)
    | SorryReply(name: string, plural: bool)
    | FeelingReprompt
    | AnswerReprompt
    | PlanAnnouncement(name: string, doses: seq<Dose>)
    | PlanRules
    | Instruction(medication: string)
    | CorrectBox(name: string, quantity: string)
    | WrongBox
    | Goodbye(name: string, plural: bool)

  /** The medication names followed by ", ", in plan order. */
  function MedicationList(doses: seq<Dose>): string {
    if |doses| == 0 then "" else doses[0].0 + ", " + MedicationList(doses[1..])
  }

  /** The announced list names every medication of the dose list. */
  lemma {:induction false} MedicationListNamesEach(doses: seq<Dose>, i: nat)
    requires i < |doses|
    ensures Contains(MedicationList(doses), doses[i].0)
    decreases |doses|
  {
    var head := doses[0].0 + ", ";
    assert MedicationList(doses) == head + MedicationList(doses[1..]);
    if i == 0 {
      ContainsInfix("", doses[0].0, ", " + MedicationList(doses[1..]));
      assert "" + doses[0].0 + (", " + MedicationList(doses[1..])) == MedicationList(doses);
    } else {
      MedicationListNamesEach(doses[1..], i - 1);
      ContainsPrepend(head, MedicationList(doses[1..]), doses[i].0);
    }
  }

  /** The exact text synthesised for each sentence. */
  function Spoken(u: Utterance): string {
    match u
    case HelpAnnouncement(name, plural) =>
      if plural then name + " invio un messaggio ai tuoi caregiver."
      else name + " invio  un messaggio al tuo caregiver."
    case HelpConfirmation(name, plural) =>
      if plural then "Okay " + name + ", ho inviato un messaggio ai tuoi caregiver, ti contatteranno al più presto."
      else "Okay " + name + ", ho inviato un messaggio al tuo caregiver, ti contatterà al più presto."
    case Greeting(name) => "Ciao " + name + ", come ti senti?"
    case GladReply(name) => "Bene " + name + ", sono contento di sentire che ti senti bene!"
    case SorryReply(name, plural) =>
      "Mi dispiace " + name + ", spero tu ti senta meglio presto."
      + (if plural then "Vuoi inviare un messaggio di aiuto ai tuoi caregiver?"
         else "Vuoi inviare un messaggio di aiuto al tuo caregiver?")
    case FeelingReprompt => "Scusa non ho capito, potresti rispondermi con bene o male?"
    case AnswerReprompt => "Scusa non ho capito, potresti rispondermi con sì o no?"
    case PlanAnnouncement(name, doses) =>
      name + " è il momento di prendere i seguenti farmaci: " + MedicationList(doses)
    case PlanRules =>
      "Per ogni farmaco mi mostrerai la scatola e io ti dirò se è quella corretta;"
      + "nel caso in cui lo sia ti dirò quanto prenderne"
    case Instruction(medication) =>
      "Prendi " + medication + "; quando sei pronto a farmi riconoscere la scatola dimmi foto."
    case CorrectBox(name, quantity) =>
      "Bene " + name + " è la scatola corretta, devi prenderne " + quantity + "."
      + "Quando sei pronto a procedere con il prossimo farmaco pronuncia avanti"
    case WrongBox => "Scusa non è la scatola corretta, potresti riprovare?"
    case Goodbye(name, plural) =>
      "Bene " + name + " hai preso tutti i farmaci necessari."
      + (if plural then "Ora invierò un messaggio di riepilogo ai tuoi caregiver"
         else "Ora invierò un messaggio di riepilogo al tuo caregiver")
      + "Noi ci risentiamo quando dovrai prendere i prossimi farmaci."
      + "Intanto, nel caso tu abbia bisogno di aiuto, ricorda di pronunciare aiuto"
      + (if plural then "così invierò un messaggio di aiuto ai tuoi caregiver"
         else "così invierò un messaggio di aiuto al tuo caregiver")
  }

  /** The help sentences say the patient's name. */
  lemma SpokenNamesPatientInHelp(name: string, plural: bool)
    ensures Contains(Spoken(HelpAnnouncement(name, plural)), name)
    ensures Contains(Spoken(HelpConfirmation(name, plural)), name)
  {
    var announced := if plural then " invio un messaggio ai tuoi caregiver."
      else " invio  un messaggio al tuo caregiver.";
    assert Spoken(HelpAnnouncement(name, plural)) == "" + name + announced;
    ContainsInfix("", name, announced);
    var confirmed := if plural then ", ho inviato un messaggio ai tuoi caregiver, ti contatteranno al più presto."
      else ", ho inviato un messaggio al tuo caregiver, ti contatterà al più presto.";
    assert Spoken(HelpConfirmation(name, plural)) == "Okay " + name + confirmed;
    ContainsInfix("Okay ", name, confirmed);
  }

  /** The feeling dialogue says the patient's name. */
  lemma SpokenNamesPatientInFeeling(name: string, plural: bool)
    ensures Contains(Spoken(Greeting(name)), name)
    ensures Contains(Spoken(GladReply(name)), name)
    ensures Contains(Spoken(SorryReply(name, plural)), name)
  {
    ContainsInfix("Ciao ", name, ", come ti senti?");
    ContainsInfix("Bene ", name, ", sono contento di sentire che ti senti bene!");
    var sorry := ", spero tu ti senta meglio presto."
      + (if plural then "Vuoi inviare un messaggio di aiuto ai tuoi caregiver?"
         else "Vuoi inviare un messaggio di aiuto al tuo caregiver?");
    assert Spoken(SorryReply(name, plural)) == "Mi dispiace " + name + sorry;
    ContainsInfix("Mi dispiace ", name, sorry);
  }

  /** The plan announcement says the patient's name. */
  lemma SpokenNamesPatientInPlan(name: string, doses: seq<Dose>)
    ensures Contains(Spoken(PlanAnnouncement(name, doses)), name)
  {
    var listed := " è il momento di prendere i seguenti farmaci: " + MedicationList(doses);
    assert Spoken(PlanAnnouncement(name, doses)) == "" + name + listed;
    ContainsInfix("", name, listed);
  }

  /** The confirmation of the right box says the patient's name. */
  lemma SpokenNamesPatientInCorrectBox(name: string, quantity: string)
    ensures Contains(Spoken(CorrectBox(name, quantity)), name)
  {
    var confirmed := " è la scatola corretta, devi prenderne " + quantity + "."
      + "Quando sei pronto a procedere con il prossimo farmaco pronuncia avanti";
    assert Spoken(CorrectBox(name, quantity)) == "Bene " + name + confirmed;
    ContainsInfix("Bene ", name, confirmed);
  }

  /** The goodbye says the patient's name. */
  lemma SpokenNamesPatientInGoodbye(name: string, plural: bool)
    ensures Contains(Spoken(Goodbye(name, plural)), name)
  {
    var s := "Bene " + name + " hai preso tutti i farmaci necessari.";
    ContainsInfix("Bene ", name, " hai preso tutti i farmaci necessari.");
    var t1 := if plural then "Ora invierò un messaggio di riepilogo ai tuoi caregiver"
      else "Ora invierò un messaggio di riepilogo al tuo caregiver";
    ContainsAppend(s, t1, name);
    var t2 := "Noi ci risentiamo quando dovrai prendere i prossimi farmaci.";
    ContainsAppend(s + t1, t2, name);
    var t3 := "Intanto, nel caso tu abbia bisogno di aiuto, ricorda di pronunciare aiuto";
    ContainsAppend(s + t1 + t2, t3, name);
    var t4 := if plural then "così invierò un messaggio di aiuto ai tuoi caregiver"
      else "così invierò un messaggio di aiuto al tuo caregiver";
    ContainsAppend(s + t1 + t2 + t3, t4, name);
  }

  /** The instruction names the medication to take. */
  lemma SpokenNamesMedication(medication: string)
    ensures Contains(Spoken(Instruction(medication)), medication)
  {
    ContainsInfix("Prendi ", medication, "; quando sei pronto a farmi riconoscere la scatola dimmi foto.");
  }

  /** The confirmation of the right box names the quantity to take. */
  lemma SpokenNamesQuantity(name: string, quantity: string)
    ensures Contains(Spoken(CorrectBox(name, quantity)), quantity)
  {
    var front := "Bene " + name + " è la scatola corretta, devi prenderne ";
    var back := "." + "Quando sei pronto a procedere con il prossimo farmaco pronuncia avanti";
    assert Spoken(CorrectBox(name, quantity)) == front + quantity + back;
    ContainsInfix(front, quantity, back);
  }

  predicate AllResolved(chatIds: seq<Option<int>>) {
    forall k :: 0 <= k < |chatIds| ==> chatIds[k].Some?
  }

  /** `for chat_id in chat_ids: send_telegram_message(chat_id, text)`: one
      message per chat id in list order; a `None` id makes the URL
      concatenation raise `TypeError`, so sending stops there and the second
      component reports the failure. */
  function Broadcast(chatIds: seq<Option<int>>, text: string): (r: (seq<Output>, bool))
    ensures r.1 <==> !AllResolved(chatIds)
    ensures |r.0| <= |chatIds|
    ensures forall k :: 0 <= k < |r.0| ==> chatIds[k].Some? && r.0[k] == Send(chatIds[k].value, text)
    ensures !r.1 ==> |r.0| == |chatIds|
    ensures r.1 ==> |r.0| < |chatIds| && chatIds[|r.0|].None?
  {
    if |chatIds| == 0 then ([], false)
    else
      match chatIds[0]
      case None => ([], true)
      case Some(id) =>
        var tail := Broadcast(chatIds[1..], text);
        assert forall k :: 1 <= k < |chatIds| ==> chatIds[k] == chatIds[1..][k - 1];
        ([Send(id, text)] + tail.0, tail.1)
  }

  /** `send_help_message`: announce, send `/sendhelp<name>` to every caregiver,
      confirm; the second component reports a failed send. */
  function HelpEscalation(p: Patient): (r: (seq<Output>, bool))
    ensures |r.0| > 0 && r.0[0] == Say(HelpAnnouncement(p.name, Plural(p.chatIds)))
    ensures !r.1 <==> AllResolved(p.chatIds)
    ensures !r.1 ==> |r.0| == |p.chatIds| + 2
    ensures !r.1 ==> forall k :: 0 <= k < |p.chatIds| ==> r.0[k + 1] == Send(p.chatIds[k].value, HelpCommand(p.name))
    ensures !r.1 ==> r.0[|r.0| - 1] == Say(HelpConfirmation(p.name, Plural(p.chatIds)))
    ensures forall k :: 0 <= k < |r.0| && r.0[k].Send? ==> r.0[k].text == HelpCommand(p.name)
  {
    var sent := Broadcast(p.chatIds, HelpCommand(p.name));
    var plural := Plural(p.chatIds);
    if sent.1 then ([Say(HelpAnnouncement(p.name, plural))] + sent.0, true)
    else ([Say(HelpAnnouncement(p.name, plural))] + sent.0 + [Say(HelpConfirmation(p.name, plural))], false)
  }

  /** The caregiver wording is plural exactly when there is more than one
      caregiver entry: zero and one both read "al tuo caregiver". */
  lemma {:induction false} HelpWordingPlural(name: string, chatIds: seq<Option<int>>)
    ensures IsSuffix("ai tuoi caregiver.", Spoken(HelpAnnouncement(name, Plural(chatIds)))) <==> |chatIds| > 1
    ensures IsSuffix("al tuo caregiver.", Spoken(HelpAnnouncement(name, Plural(chatIds)))) <==> |chatIds| <= 1
  {
    var t := Spoken(HelpAnnouncement(name, Plural(chatIds)));
    if |chatIds| > 1 {
      assert t == (name + " invio un messaggio ") + "ai tuoi caregiver.";
      SuffixOfAppend(name + " invio un messaggio ", "ai tuoi caregiver.");
      assert t[|t| - 18..] == "ai tuoi caregiver.";
      assert t[|t| - 17] == 'i';
      assert t[|t| - 17..] != "al tuo caregiver." by {
        assert t[|t| - 17..][0] == 'i';
      }
    } else {
      assert t == (name + " invio  un messaggio ") + "al tuo caregiver.";
      SuffixOfAppend(name + " invio  un messaggio ", "al tuo caregiver.");
      var front := name + " invio  un messaggio ";
      assert t[|t| - 18] == front[|front| - 1] == ' ';
      assert t[|t| - 18..] != "ai tuoi caregiver." by {
        assert t[|t| - 18..][0] == ' ';
      }
    }
  }
}

# Medication helper: a Dafny model of the dose round

This project models the core of a voice-driven medication helper. There are two processes:

- **The controller** (`web_application/app.py`) runs an endless loop on the patient's device. Each pass it:
  - reads the weekday and loads that day's therapy plan;
  - listens for "aiuto", which sends a help request to every caregiver;
  - when the clock shows a time listed in the plan, runs a dose round:
    - asks how the patient feels, with a yes/no offer of help on "male";
    - announces the doses;
    - for every dose, waits for "foto" and checks the photographed box by OCR, then waits for "avanti";
    - says goodbye and sends a `/sendrecap<name><feeling><day-HH:MM>` message to every caregiver.
- **The Telegram bot** (`telegram_bot/patient_helper.py`) parses the `/sendhelp<name>` and `/sendrecap<...>` commands with regular expressions and replies to the caregiver.

The model is split into modules that follow the program:

- `Wrappers`: `Option` and `Result`.
- `Text`: prefixes, containment, `str.lower()`, and Python's string order.
- `Days`: the English-to-Italian weekday table, which both processes carry.
- `Commands`: the two command texts and the bot's field alphabets.
- `PatientHelper`: the bot.
  - Each regex is modelled as a scan that splits the message at each field's terminator and then validates the field.
  - Each handler runs when its pattern matches the start of the message.
- `Registry`: `get_chat_id` and `get_patient_data`. `getUpdates` is an input.
- `TherapyPlan`: `get_therapy_plan` and `next_medication`.
- `Recognition`: `recognize_medication`. `fuzz.partial_ratio` is an uninterpreted function parameter.
- `Dialogue`: classification of replies, the spoken sentences, and the fan-out of a message to the caregivers.
- `Controller`: the loop of `interaction` as a step function.
  - The state records where the loop waits, the day bookkeeping (`last_day`, `today`, the plan), and an output log of spoken sentences and sent Telegram messages.
  - There are three input streams: clock readings, recognised utterances (or none), and OCR results.
  - A step that needs an entry the trace does not have gives `None`.
  - An exception that kills the thread moves the state to `Crashed`, with the exception as its fault.

The model keeps the program's quirks:

- There is no once-per-minute guard, so a round that ends within its minute starts again.
- `last_day` starts as `'monday'`, so a process started on a Monday reads `therapy_plan` before it is assigned and dies.
- A caregiver handle that no update names stays in the list as `None`. The first message sent to it raises, after the messages to the caregivers listed before it.
- Only the OCR fragment is lower-cased, not the medication name.

## Model

| member | source | states |
|---|---|---|
| Registry.GetChatIdFindsFirst | web_application/app.py:142-145 | `get_chat_id` answers with the first update that is not skipped: that chat's id when its username is the handle, a `KeyError` when the chat has no username. It finds nothing exactly when every update is skipped. |
| Registry.GetChatId | web_application/app.py:142-145 | A chat id it returns belongs to an update whose chat has the handle as its username. An error comes only from an update whose chat has no username. `GetChatIdFindsFirst` says which update answers. |
| Registry.ResolveHandles | web_application/app.py:163-167 | One entry per handle of the flattened handle list, in order, each being `get_chat_id`'s answer for that handle. The list holds the `cg_handle_` cells of every registry row, row by row. Fails exactly when some lookup raises. |
| Registry.GetPatientData | web_application/app.py:159-167 | The record is built exactly when every handle's lookup succeeds. It carries the first registry row's name, gender and age, and one chat-id entry per handle of the flattened handle list, in order, each being the lookup of its handle. |
| Registry.UnknownHandleKeepsEntry | web_application/app.py:165-167 | A handle that no update names still takes its place in the caregiver list, as `None`. |
| Days.TranslateDay | web_application/app.py:557-576 | Defined exactly on the seven lower-case English weekdays, giving an Italian day name; any other key raises. |
| Days.TranslationInjective | telegram_bot/patient_helper.py:14-22 | Distinct weekdays get distinct Italian names, so the bot's reply still identifies the day. |
| Days.WeekdayHasNoHyphen | telegram_bot/patient_helper.py:68 | No day alternative contains the `-` that ends the day field. |
| Commands.Pad2 | web_application/app.py:490 | `%H`/`%M`: two digits whose decimal value is the clock value. |
| Commands.ClockFieldsAccepted | web_application/app.py:546-548 | Any padded hour below 24 and minute below 60 is accepted by the bot's hour and minute groups. |
| Commands.TimeFieldBounds | telegram_bot/patient_helper.py:68 | The bot's hour group only accepts values 0-23, and its minute group only 0-59. |
| Commands.HourFieldExact | telegram_bot/patient_helper.py:68 | The hour group (`[01]?[0-9]` or `2[0-3]`) accepts a digit string exactly when it is one digit, or two digits worth at most 23. |
| Commands.HelpCommand | web_application/app.py:237 | The `/sendhelp<name>` text sent to each caregiver. `PatientHelper.HelpRoundTrip` states that the bot parses it back to the name. |
| Commands.RecapCommand | web_application/app.py:438 | The `/sendrecap<name><feeling><day-hour:minute>` text. `PatientHelper.RecapRoundTrip` states that the bot parses it back to the same five fields. |
| PatientHelper.HelpReply | telegram_bot/patient_helper.py:66 | The help reply names the patient. `DispatchHelpCommand` states that it is the bot's only action on a help command. |
| PatientHelper.RecapReply | telegram_bot/patient_helper.py:83-88 | The recap reply, with the day translated to Italian. `DispatchRecapCommand` states that it is sent, with the day's photographs, for every well-formed recap. |
| PatientHelper.Dispatch | telegram_bot/patient_helper.py:31-90 | Every handler whose pattern matches the start of the message runs, in registration order. `FixedHandlersSilent`, `DispatchHelpCommand`, `DispatchRecapMatch` and `DispatchRecapCommand` state the outcome for each command. |
| PatientHelper.Scan | telegram_bot/patient_helper.py:78-79 | A successful scan yields one field per segment, none containing its terminator. Rendering the fields back gives the message. |
| PatientHelper.ScanRender | telegram_bot/patient_helper.py:78-79 | Scanning a rendered command whose fields avoid their terminators recovers exactly those fields and the unmatched rest. |
| PatientHelper.ParseHelp | telegram_bot/patient_helper.py:61-64 | A match yields a name in `[a-zA-Z' ]+`, and the message starts with `/sendhelp<name>`. |
| PatientHelper.ParseRecap | telegram_bot/patient_helper.py:78-85 | A match yields a recap whose fields all satisfy their groups, and the message starts with that recap's command. |
| PatientHelper.HelpRoundTrip | telegram_bot/patient_helper.py:61-64 | The help command sent for a valid name, followed by anything, parses back to that name. |
| PatientHelper.RecapRoundTrip | telegram_bot/patient_helper.py:78-85 | A well-formed recap command, followed by anything, parses back to the same five fields. |
| PatientHelper.HelpPrefixOnly | telegram_bot/patient_helper.py:62 | `re.match` anchors only at the start: text after a matching help command does not change the result. |
| PatientHelper.RecapPrefixOnly | telegram_bot/patient_helper.py:79 | Text after a matching recap command does not change the result. |
| PatientHelper.HelpRejectsForeignName | telegram_bot/patient_helper.py:61-63 | A name that has no `>` but has a character outside letters, apostrophe and space is not matched. A `>` would end the field early: `Ann>1` matches as `Ann`. |
| PatientHelper.RecapRejectsBadFields | telegram_bot/patient_helper.py:78-80 | A recap none of whose fields contains its own terminator (`>`, or `-` and `:` in the day and hour) is not matched when any field lies outside its group. A terminator cuts a field short instead: minute `00>x` matches as `00`. |
| PatientHelper.HelpIsNoRecap | telegram_bot/patient_helper.py:68 | A message starting with `/sendhelp<` never matches the recap pattern. |
| PatientHelper.RecapIsNoHelp | telegram_bot/patient_helper.py:51 | A message starting with `/sendrecap<` never matches the help pattern. |
| PatientHelper.FixedHandlersSilent | telegram_bot/patient_helper.py:31-49 | The `/start` and `/help` handlers stay silent on both commands. |
| PatientHelper.DispatchHelpCommand | telegram_bot/patient_helper.py:31-66 | The help command for a valid name makes the bot do one thing: reply that the patient needs help. |
| PatientHelper.DispatchRecapMatch | telegram_bot/patient_helper.py:68-90 | A message the recap pattern matches makes the bot reply with the recap text and send that day's photographs, nothing else. |
| PatientHelper.DispatchRecapCommand | telegram_bot/patient_helper.py:68-90 | Every well-formed recap command makes the bot reply with the recap (Italian day name, hour and minute) and send the day's photographs. |
| TherapyPlan.Present | web_application/app.py:185 | `dropna` keeps only present cells, all of them when none is missing, and the first when it is present. |
| TherapyPlan.PresentAppend | web_application/app.py:185 | `dropna` works cell by cell: the present cells of two adjacent runs of columns are those of the first run, then those of the second. |
| TherapyPlan.PresentSingleton | web_application/app.py:185 | A present cell is kept as its value and a missing one is dropped. With `PresentAppend` this fixes the result on every row: the present cells in column order. |
| TherapyPlan.EveryOther | web_application/app.py:186 | `xs[::2]` and `xs[1::2]`: `(n+1)/2` cells, element `i` being cell `2i` of the list sliced. |
| TherapyPlan.Zip | web_application/app.py:186 | `zip`: as long as the shorter list, element `i` pairing the two lists' elements `i`. |
| TherapyPlan.Pairs | web_application/app.py:186 | Built as the zip of the even-position cells with the odd-position cells. Proved: half as many doses as cells, an odd last cell dropped, and dose `i` is cell `2i` with cell `2i+1` as its quantity. |
| TherapyPlan.PairsCons | web_application/app.py:186 | Two leading cells form the first dose, and the remaining cells pair up exactly as on their own. |
| TherapyPlan.PairsFlatten | web_application/app.py:186 | Flattening the doses gives back the cells in order. Only an odd trailing cell is lost. |
| TherapyPlan.Therapy | web_application/app.py:185-186 | A row never yields more doses than half its non-hour cells, rounded up. |
| TherapyPlan.TherapyReadsPresentCells | web_application/app.py:185-186 | For any row, the doses, flattened, are the row's present cells in column order, an odd trailing cell dropped. |
| TherapyPlan.MissingQuantityShifts | web_application/app.py:185-186 | The pairing ignores column names. With `quantity_medication_1` missing, `medication_1` is paired with `medication_2` as if it were its quantity. |
| TherapyPlan.GetTherapyPlan | web_application/app.py:183-187 | Every time in the plan holds the dose list of some kept row with that hour. `PlanTimes` and `PlanLastRowWins` say which rows and which row. |
| TherapyPlan.PlanStep | web_application/app.py:183-187 | One more row: a kept row sets its hour to its dose list, overwriting any earlier one, and a row with a missing `medication_1` leaves the plan unchanged. |
| TherapyPlan.PlanTimes | web_application/app.py:183-187 | The plan's times are exactly the hours of rows with a first medication. |
| TherapyPlan.PlanLastRowWins | web_application/app.py:183-187 | Each time holds the dose list of the last such row with that hour. |
| TherapyPlan.FirstDoseIsMedicationOne | web_application/app.py:185-186 | The first dose of a kept row is `medication_1` with its quantity, when that quantity is present. |
| TherapyPlan.CompleteRowPairs | web_application/app.py:185-186 | A row with no missing cell yields its cells paired in column order, with an odd last cell dropped. |
| TherapyPlan.NextMedication | web_application/app.py:649-661 | Nothing exactly when no plan time is later than now. Otherwise the least later time, in Python string order, with its dose list. |
| Text.LexLessTransitive | web_application/app.py:653-654 | Python's string order is transitive, so the first later time in sorted order is the least later time. |
| Text.LexLessTotal | web_application/app.py:653-654 | Python's string order is total on distinct strings. |
| Text.Lower | web_application/app.py:381 | `lower()` keeps the length and leaves no upper-case letter. Each upper-case letter becomes the letter 32 code points above it, its lower-case form, and every other character is kept. |
| Recognition.AnyFragment | web_application/app.py:379-383 | True exactly when some fragment of the page scores at least the threshold. |
| Recognition.ScanPages | web_application/app.py:378-384 | Pages are read in order. True exactly when some page has a matching fragment and every page before it exists and has none. An error exactly when a `None` page is reached before any match, since iterating it raises. False exactly when every page exists and none matches. |
| Recognition.RecognizeMedication | web_application/app.py:375-384 | `[None]` is "not recognised". Otherwise it is true exactly when some page matches and every page before it exists and has no match, and an error exactly when a `None` page comes before any matching page. It is false exactly for `[None]` or when every page exists and none matches. |
| Recognition.HitBeforeNoneRecognised | web_application/app.py:378-383 | A matching page answers true before a later `None` page is reached. |
| Recognition.NoneBeforeHitRaises | web_application/app.py:377-379 | A `None` page followed by a readable page raises, whatever the readable page holds. |
| Recognition.EmptyOcrNotRecognised | web_application/app.py:377-384 | No text found, or only empty pages, is never recognised. |
| Recognition.OnlyFragmentLowered | web_application/app.py:380-382 | The score compares the medication name as given with the lower-cased fragment. |
| Dialogue.ClassifyFeeling | web_application/app.py:293-325 | "Bene" exactly when the reply starts with "ben", "male" exactly when it starts with "mal". |
| Dialogue.FeelingWordAccepted | web_application/app.py:297-325 | The returned feeling is one the bot's feeling group (`bene` or `male`) accepts exactly when the reply was classified. It is `""` exactly when it was not. |
| Dialogue.ClassifyAnswer | web_application/app.py:312-317 | Yes exactly when the reply starts with "sì", no exactly when it starts with "no". |
| Dialogue.Broadcast | web_application/app.py:236-237 | One message per chat id, in list order. It stops at the first unresolved id, and reports failure exactly when some id is unresolved. |
| Dialogue.HelpEscalation | web_application/app.py:225-242 | Announce, send `/sendhelp<name>` to every caregiver in order, confirm. It fails exactly when a caregiver is unresolved, and sends nothing but help commands. |
| Dialogue.Spoken | web_application/app.py:222-421 | The text of every `speech_synthesis` call. The `SpokenNames…` lemmas state that each sentence addressing the patient contains the name, and that the instruction and the confirmation contain the medication and the quantity. |
| Dialogue.SpokenNamesPatientInHelp | web_application/app.py:229-241 | The help announcement and the help confirmation both say the patient's name. |
| Dialogue.SpokenNamesPatientInFeeling | web_application/app.py:254-305 | The greeting, the glad reply and the sorry reply all say the patient's name. |
| Dialogue.SpokenNamesPatientInPlan | web_application/app.py:268 | The plan announcement says the patient's name. |
| Dialogue.SpokenNamesPatientInCorrectBox | web_application/app.py:396 | The right-box confirmation says the patient's name. |
| Dialogue.SpokenNamesPatientInGoodbye | web_application/app.py:411 | The goodbye says the patient's name. |
| Dialogue.SpokenNamesMedication | web_application/app.py:336 | The instruction names the medication to take. |
| Dialogue.SpokenNamesQuantity | web_application/app.py:396 | The right-box confirmation names the quantity to take. |
| Dialogue.HelpWordingPlural | web_application/app.py:230-234 | The help announcement uses the plural wording exactly when there is more than one caregiver entry. Zero and one read "al tuo caregiver". The lemma covers the announcement sentence only. |
| Dialogue.FeelingWord | web_application/app.py:297-325 | The feeling `analyze_feelings` returns. `FeelingWordAccepted` states that it is one the bot's feeling group accepts exactly when the reply was classified, and `""` otherwise. |
| Dialogue.MedicationList | web_application/app.py:268-270 | The medication names followed by ", ". `MedicationListNamesEach` states that every medication of the dose list appears in it. |
| Dialogue.MedicationListNamesEach | web_application/app.py:268-270 | The announced list contains the name of every medication of the dose list. |
| Controller.Step | web_application/app.py:470-549 | One pass through the phase the loop waits in. `StepPreservesInv` states the invariant it keeps, and `QuietStep` what it may send. |
| Controller.IdleStep | web_application/app.py:470-496 | One pass of the outer loop. `DayRollover`, `IdleHelpTrigger` and `RoundStartsWheneverListed` state its outcome. |
| Controller.NewDay | web_application/app.py:474-477 | The day bookkeeping. `DayRollover` states that a new day loads that day's plan and the same day keeps it. |
| Controller.Listen | web_application/app.py:480-488 | One listening attempt. `ListenKeepsDay` states that it keeps the day and the plan and dies exactly when "aiuto" meets an unresolved caregiver. |
| Controller.DoseTimeCheck | web_application/app.py:490-496 | The dose-time check. `DoseTimeCheckKeepsDay` and `RoundStartsWheneverListed` state that a round starts exactly when the time is listed. |
| Controller.FeelingStep | web_application/app.py:498-507 | One reply to the greeting. `FeelingOutcome` states the outcome of each kind of reply. |
| Controller.AnswerStep | web_application/app.py:306-321 | One reply to the offer of help. `AnswerOutcome` states the outcome of each kind of reply, including the death of the thread when "sì" meets an unresolved caregiver. |
| Controller.PhotoStep | web_application/app.py:518-542 | One wait for "foto" and the box check. `PhotoOutcome` states the three outcomes of the check. |
| Controller.NextStep | web_application/app.py:533-538 | One wait for "avanti". `NextOutcome` states that the next instruction or the goodbye follows. |
| Controller.FinishStep | web_application/app.py:543-549 | The end of a round. `FinishSendsOneRecapEach` states the goodbye and the one recap per caregiver. |
| Controller.StepPreservesInv | web_application/app.py:470-549 | Every step keeps the round invariant. Inside a round the feeling is classified, and the confirmed boxes are exactly the doses before the current one, in plan order. |
| Controller.RunPreservesInv | web_application/app.py:470-549 | The invariant holds after any number of steps. |
| Controller.QuietStep | web_application/app.py:470-542 | No step except the end of a round sends a recap. Whatever else it sends is a help command for the patient, and the earlier log is kept. |
| Controller.RecapCertifiesRound | web_application/app.py:543-548 | A recap sent in a step means that step ended a round. The feeling was classified, and every dose of the round's time was recognised, in order. |
| Controller.FarewellPhase | web_application/app.py:545-549 | The end of a round returns to polling exactly when every caregiver is resolved, and dies otherwise. The inputs and the plan are kept. |
| Controller.FarewellSends | web_application/app.py:545-548 | Goodbye first, then one copy of the recap to each caregiver in list order. |
| Controller.FinishSendsOneRecapEach | web_application/app.py:543-549 | The last step of a round says goodbye, then sends the round's recap once to every caregiver, in order, and goes back to polling exactly when all are resolved. |
| Controller.RecapReachesBot | web_application/app.py:546-548 | For a name the bot accepts, the round's recap is well formed. The bot parses it back to the same recap, and answers with the recap and that day's photographs. Its hour and minute fields denote the two clock reads, and its feeling is "bene" exactly when the patient felt well. |
| Controller.MondayStartCrashes | web_application/app.py:462-491 | Started on a Monday, the first pass reads `therapy_plan` before it is ever assigned, and the thread dies. |
| Controller.OtherStartLoadsPlan | web_application/app.py:462-477 | Started on another day, the first pass loads that day's plan, or dies because the day has no plan file. It never hits the unbound plan. |
| Controller.DayRollover | web_application/app.py:474-477 | A pass records the day it read. On a new day it loads that day's plan or dies for lack of one; on the same day it keeps the plan. |
| Controller.ListenKeepsDay | web_application/app.py:480-488 | Listening changes neither the day nor the plan. It kills the thread exactly when "aiuto" is heard and a caregiver is unresolved. |
| Controller.DoseTimeCheckKeepsDay | web_application/app.py:490-496 | The dose-time check sends nothing, keeps the day and the plan, and does not die once a plan is loaded. |
| Controller.RoundStartsWheneverListed | web_application/app.py:490-496 | On a pass that stays on the same day and hears no "aiuto", a round starts exactly when the `HH:MM` key is in the plan: it greets the patient and waits for the feeling. Otherwise such a pass changes nothing but the consumed inputs. A day change is `DayRollover`'s case, and "aiuto" is `IdleHelpTrigger`'s. |
| Controller.RoundRepeatsWithinMinute | web_application/app.py:470-549 | There is no once-per-minute guard: a round that ends within its minute is followed by a new round for the same time. |
| Controller.FeelingOutcome | web_application/app.py:498-507 | Silence keeps waiting and says nothing. A recognised reply that starts with neither "ben" nor "mal" is answered with the re-prompt, and the wait goes on. "mal" leads to the offer of help. "ben" starts the doses, or goes straight to the goodbye when the list is empty. |
| Controller.AnswerOutcome | web_application/app.py:306-321 | "sì" runs the help escalation. With every caregiver resolved it sends one help command per caregiver and starts the doses. With an unresolved caregiver the thread dies. "no" starts the doses sending nothing. Anything else, or silence, asks again. |
| Controller.PhotoOutcome | web_application/app.py:518-542 | Without "foto" only the utterance is consumed. With it, the box check decides: on a match, confirm and state the quantity; on a miss, retry the same dose. A `None` page reached before any match kills the loop, except when the OCR result is the lone `[None]`: that counts as a miss and retries. |
| Controller.NextOutcome | web_application/app.py:513-538 | Without "avanti" it keeps waiting. With it, the next dose's instruction follows, or the goodbye after the last dose. |
| Controller.IdleHelpTrigger | web_application/app.py:480-488 | A polling pass sends help commands only when the utterance contains "aiuto". With every caregiver resolved it sends one per caregiver. It dies exactly when "aiuto" meets an unresolved caregiver. |
| Controller.HelpSendCount | web_application/app.py:236-237 | With every caregiver resolved, an escalation sends exactly one message per caregiver. |
| Controller.HelpSendsUntilUnresolved | web_application/app.py:236-237 | With an unresolved caregiver, an escalation sends to exactly the caregivers listed before the first unresolved one. |
| Controller.Init | web_application/app.py:460-463 | The loop starts polling with `last_day` `'monday'`, no plan and an empty log. `MondayStartCrashes` and `OtherStartLoadsPlan` state what the first pass does. |
| Controller.ClockKey | web_application/app.py:490 | `strftime('%H:%M')`. `ClockKeyLayout` and `ClockKeyInjective` state its form. |
| Controller.ClockKeyLayout | web_application/app.py:490 | The key is five characters: two digits worth the hour, a colon, and two digits worth the minute. |
| Controller.ClockKeyInjective | web_application/app.py:490 | Two readings give the same key exactly when they show the same hour and minute. |
| Controller.BeginDoses | web_application/app.py:508-515 | Announce the plan and its rules, then the first instruction, or the goodbye phase for an empty list. `BeginDosesInv` states that the round starts at dose 0 with nothing confirmed, and `BeginDosesSays` that it sends nothing of its own. |
| Controller.RoundRecap | web_application/app.py:545-548 | The recap fields of the round. `RecapReachesBot` states that they are well formed and that hour and minute denote the two clock reads. |
| Controller.RoundMessage | web_application/app.py:545-548 | The `/sendrecap` command of the round. `RecapReachesBot` states that the bot parses it back to the round's recap. |
| Controller.Farewell | web_application/app.py:543-548 | Goodbye, then the text to each caregiver. `FarewellPhase` and `FarewellSends` state the order of the log and when the thread dies. |

## Left out

- Speech recognition, speech synthesis, audio playback and the microphone stream are foreign. An utterance is the next entry of the speech input, and a spoken sentence is a `Say` entry of the output log.
- The `socketio` background events, the Flask routes other than `next_medication`, `get_therapy_plan_display`, the user-interface server in `ui/app.py` and the JavaScript are presentation only.
- `take_picture` and `delete_images` are file I/O. The OCR result of the photograph is the next entry of the OCR input.
- The OCR confidence value is not read by the source and is not modelled.
- `fuzz.partial_ratio` is a foreign library. It is an uninterpreted function parameter.
- The Telegram HTTP calls, `getUpdates` and URL building are I/O. `getUpdates` is an input list, and a sent message is a `Send` entry with its chat id and text. The model does not URL-encode the text.
- A missing `result` key in the `getUpdates` answer is not modelled.
- Chat ids are integers; `str(id)` is not modelled.
- `int(age)` and the pandas conversions of CSV cells are not modelled. Cells are strings or missing.
- Text.Lower: covers ASCII and Latin-1 upper-case letters only, not the full Unicode case mapping of `str.lower()`.
- Registry.GetPatientData: the flattening of the `cg_handle_` cells over the registry rows is done by the caller. The handle list is an input, already flattened.
- The plan rows assume `medication_1` is the first column after `hour`. The source tests that column by name (web_application/app.py:182) but pairs the cells by position (web_application/app.py:185-186). Other column orders are not modelled.
- Failures of the Telegram HTTP request in `send_telegram_message` (web_application/app.py:218-219) and of the directory listing and removal in `delete_images` (web_application/app.py:449-451) are assumed not to happen. In the source a network error or a missing directory would raise and end the thread.
- `strftime('%A')` is assumed to run under an English locale, so a day is one of the seven lower-case English weekday names.
- TherapyPlan.NextMedication: computes the least later time with a loop over the keys instead of sorting them. The result is the same.
- The bot sends the photographs listed in the image directory. That listing is I/O, so the model stops at `SendImagesFrom(directory)`.
- The bot's `event.delete()` and `asyncio.sleep` are I/O.
- The bot's `re.match` failure path, where `patient_name` is unbound, is not modelled: Telethon only calls a handler whose pattern already matched.
- Controller.Run: the number of steps is bounded by a fuel argument, because the loop never ends.
- A step gives `None` when the trace has no entry it needs. This models that the trace ends there, not a behaviour of the program.
- The `recognised` field of the state is kept by the model only, to state what a recap certifies. The program keeps no such list.
- Threading of the Flask server and the loop is not modelled: the loop is one sequential thread.

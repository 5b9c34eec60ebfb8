/** The patient record the controller works with, and the resolution of
    caregiver Telegram handles to chat ids from the bot's `getUpdates` data. */
module Registry {
  import opened Wrappers

  /** `update['message']['chat']`: a chat's id and, when it has one, its username. */
  datatype Chat = Chat(id: int, username: Option<string>)

  /** One entry of `getUpdates`' `result` list; `message` is absent for
      updates of other kinds (edited messages, membership changes, ...). */
  datatype Update = Update(message: Option<Chat>)

  /** Reading `['chat']['username']` of a chat that has no username raises `KeyError`. */
  datatype RegistryError = MissingUsername

  /** What one update says about `handle`: skip it, it names the chat, or
      looking at it raises. */
  datatype Probe = Skip | Hit(id: int) | Raises

  function ProbeUpdate(u: Update, handle: string): Probe {
    match u.message
    case None => Skip
    case Some(chat) =>
      match chat.username
      case None => Raises
      case Some(name) => if name == handle then Hit(chat.id) else Skip
  }

  /** All updates before position `k` are skipped. */
  ghost predicate SkippedBefore(updates: seq<Update>, k: int, handle: string) {
    forall j :: 0 <= j < k && j < |updates| ==> ProbeUpdate(updates[j], handle).Skip?
  }

  /** `get_chat_id`: scans the updates in order for a chat whose username is `handle`. */
  function GetChatId(handle: string, updates: seq<Update>): (r: Result<Option<int>, RegistryError>)
    ensures r.Ok? && r.value.Some? ==>
      exists k :: 0 <= k < |updates| && ProbeUpdate(updates[k], handle) == Hit(r.value.value)
    ensures r.Err? ==> exists k :: 0 <= k < |updates| && ProbeUpdate(updates[k], handle).Raises?
  {
    if |updates| == 0 then Ok(None)
    else
      match ProbeUpdate(updates[0], handle)
      case Hit(id) => Ok(Some(id))
      case Raises => Err(MissingUsername)
      case Skip =>
        assert forall k :: 1 <= k < |updates| ==> updates[k] == updates[1..][k - 1];
        GetChatId(handle, updates[1..])
  }

  /** `get_chat_id` answers with the first update that does not skip: its
      chat id when the username is `handle`, an error when it has no
      username; and `None` exactly when every update skips. */
  lemma {:induction false} GetChatIdFindsFirst(handle: string, updates: seq<Update>)
    ensures GetChatId(handle, updates) == Ok(None) <==> SkippedBefore(updates, |updates|, handle)
    ensures forall k :: 0 <= k < |updates| && SkippedBefore(updates, k, handle) ==>
      match ProbeUpdate(updates[k], handle)
      case Skip => true
      case Hit(id) => GetChatId(handle, updates) == Ok(Some(id))
      case Raises => GetChatId(handle, updates) == Err(MissingUsername)
    decreases |updates|
  {
    if |updates| > 0 && ProbeUpdate(updates[0], handle).Skip? {
      GetChatIdFindsFirst(handle, updates[1..]);
      assert forall k :: 1 <= k <= |updates| ==>
        (SkippedBefore(updates, k, handle) <==> SkippedBefore(updates[1..], k - 1, handle));
    }
  }

  /** The patient record: name, gender, age and one chat id per caregiver
      handle, `None` for a handle nobody with that username has messaged. */
  datatype Patient = Patient(name: string, gender: string, age: int, chatIds: seq<Option<int>>)

  /** The loop of `get_patient_data` over the caregiver handles. */
  function ResolveHandles(handles: seq<string>, updates: seq<Update>): (r: Result<seq<Option<int>>, RegistryError>)
    ensures r.Ok? <==> forall k :: 0 <= k < |handles| ==> GetChatId(handles[k], updates).Ok?
    ensures r.Ok? ==> |r.value| == |handles|
    ensures r.Ok? ==> forall k :: 0 <= k < |handles| ==> GetChatId(handles[k], updates) == Ok(r.value[k])
  {
    if |handles| == 0 then Ok([])
    else
      var first :- GetChatId(handles[0], updates);
      var others :- ResolveHandles(handles[1..], updates);
      assert forall k :: 1 <= k < |handles| ==> handles[k] == handles[1..][k - 1];
      Ok([first] + others)
  }

  /** `get_patient_data` once the registry row and the bot data are read. */
  function GetPatientData(name: string, gender: string, age: int, handles: seq<string>, updates: seq<Update>)
    : (r: Result<Patient, RegistryError>)
    ensures r.Ok? <==> forall k :: 0 <= k < |handles| ==> GetChatId(handles[k], updates).Ok?
    ensures r.Ok? ==> r.value.name == name && r.value.gender == gender && r.value.age == age
    ensures r.Ok? ==> |r.value.chatIds| == |handles|
    ensures r.Ok? ==> forall k :: 0 <= k < |handles| ==> GetChatId(handles[k], updates) == Ok(r.value.chatIds[k])
  {
    var ids :- ResolveHandles(handles, updates);
    Ok(Patient(name, gender, age, ids))
  }

  /** A caregiver handle that no update names still gets its own entry,
      holding `None`. */
  lemma UnknownHandleKeepsEntry(name: string, gender: string, age: int, handles: seq<string>, updates: seq<Update>, k: nat)
    requires k < |handles|
    requires forall j :: 0 <= j < |updates| ==> ProbeUpdate(updates[j], handles[k]).Skip?
    requires GetPatientData(name, gender, age, handles, updates).Ok?
    ensures GetPatientData(name, gender, age, handles, updates).value.chatIds[k] == None
  {
    GetChatIdFindsFirst(handles[k], updates);
  }
}

/** The caregiver bot: parsing of `/sendhelp` and `/sendrecap` commands and the
    replies its handlers compose.

    Each regex is parsed field by field: a field runs up to its terminator
    (`>` after name, feeling and minute, `-` after the day, `:` after the hour)
    and is then checked against its group. Because no group's alphabet contains
    its terminator, the regex can only succeed by ending each group at the first
    terminator, so this is the regex's match. `ParseHelp`'s and `ParseRecap`'s
    ensures and the round-trip lemmas below pin the accepted language down to
    exactly "a well-formed command followed by anything". */
module PatientHelper {
  import opened Wrappers
  import opened Text
  import opened Days
  import opened Commands

  /** Consumes the literal `lit` at the start of `s`. */
  function Literal(lit: string, s: string): (r: Option<string>)
    ensures r.Some? <==> IsPrefix(lit, s)
    ensures r.Some? ==> s == lit + r.value
  {
    if IsPrefix(lit, s) then Some(s[|lit|..]) else None
  }

  /** Position of the first `c` in `s`, or `|s|` if there is none. */
  function IndexOf(s: string, c: char): (k: nat)
    ensures k <= |s|
    ensures forall i :: 0 <= i < k ==> s[i] != c
    ensures k < |s| ==> s[k] == c
  {
    if |s| == 0 || s[0] == c then 0 else 1 + IndexOf(s[1..], c)
  }

  /** Splits `s` at its first `c`: the field before it and the text after it. */
  function SplitAt(s: string, c: char): (r: Option<(string, string)>)
    ensures r.Some? <==> c in s
    ensures r.Some? ==> c !in r.value.0 && s == r.value.0 + ([c] + r.value.1)
  {
    var k := IndexOf(s, c);
    if k < |s| then Some((s[..k], s[k + 1..])) else None
  }

  /** A field free of its terminator is split off exactly. */
  lemma SplitAtJoin(field: string, c: char, rest: string)
    requires c !in field
    ensures SplitAt(field + ([c] + rest), c) == Some((field, rest))
  {
    var s := field + ([c] + rest);
    var k := IndexOf(s, c);
    assert s[|field|] == c;
    assert k == |field|;
    assert s[..k] == field;
    assert s[k + 1..] == rest;
  }

  /** One piece of a command pattern: a literal, then a captured field that
      runs up to the terminator character. */
  datatype Segment = Segment(lead: string, terminator: char)

  /** The text a pattern produces from its fields, followed by `rest`. */
  function Render(segments: seq<Segment>, fields: seq<string>, rest: string): string
    requires |fields| == |segments|
  {
    if |segments| == 0 then rest
    else segments[0].lead + (fields[0] + ([segments[0].terminator] + Render(segments[1..], fields[1..], rest)))
  }

  /** No field contains the character that terminates it. */
  predicate Separable(segments: seq<Segment>, fields: seq<string>)
    requires |fields| == |segments|
  {
    forall i :: 0 <= i < |segments| ==> segments[i].terminator !in fields[i]
  }

  /** Matches a pattern at the start of `s`: the captured fields and the
      unmatched remainder. */
  function Scan(segments: seq<Segment>, s: string): (r: Option<(seq<string>, string)>)
    ensures r.Some? ==> |r.value.0| == |segments| && Separable(segments, r.value.0)
    ensures r.Some? ==> s == Render(segments, r.value.0, r.value.1)
  {
    if |segments| == 0 then Some(([], s))
    else
      var afterLead :- Literal(segments[0].lead, s);
      var field :- SplitAt(afterLead, segments[0].terminator);
      var tail :- Scan(segments[1..], field.1);
      var fields := [field.0] + tail.0;
      assert fields[0] == field.0 && fields[1..] == tail.0;
      assert Render(segments, fields, tail.1)
          == segments[0].lead + (field.0 + ([segments[0].terminator] + Render(segments[1..], tail.0, tail.1)));
      assert forall i :: 1 <= i < |segments| ==> fields[i] == tail.0[i - 1] && segments[i] == segments[1..][i - 1];
      Some((fields, tail.1))
  }

  /** Scanning what `Render` produced gives back its fields and the remainder. */
  lemma {:induction false} ScanRender(segments: seq<Segment>, fields: seq<string>, rest: string)
    requires |fields| == |segments| && Separable(segments, fields)
    ensures Scan(segments, Render(segments, fields, rest)) == Some((fields, rest))
    decreases |segments|
  {
    if |segments| > 0 {
      var seg := segments[0];
      var after := Render(segments[1..], fields[1..], rest);
      PrefixOfAppend(seg.lead, fields[0] + ([seg.terminator] + after));
      SplitAtJoin(fields[0], seg.terminator, after);
      assert Separable(segments[1..], fields[1..]) by {
        forall i | 0 <= i < |segments| - 1
          ensures segments[1..][i].terminator !in fields[1..][i]
        {
          assert segments[1..][i] == segments[i + 1];
        }
      }
      ScanRender(segments[1..], fields[1..], rest);
      assert [fields[0]] + fields[1..] == fields;
    }
  }

  /** `/sendhelp<([a-zA-Z' ]+)>`: one field, the name. */
  const HelpPattern := [Segment("/sendhelp<", '>')]

  /** `/sendrecap<(name)><(feeling)><(day)-(hour):(minute)>`. */
  const RecapPattern := [
    Segment("/sendrecap<", '>'), Segment("<", '>'), Segment("<", '-'), Segment("", ':'), Segment("", '>')
  ]

  lemma HelpCommandRendered(name: string, rest: string)
    ensures HelpCommand(name) + rest == Render(HelpPattern, [name], rest)
  {
    assert HelpPattern[1..] == [] && [name][1..] == [];
  }

  /** Text after a rendering can be moved into its remainder. */
  lemma {:induction false} RenderAppend(segments: seq<Segment>, fields: seq<string>, rest: string, more: string)
    requires |fields| == |segments|
    ensures Render(segments, fields, rest) + more == Render(segments, fields, rest + more)
    decreases |segments|
  {
    if |segments| > 0 {
      RenderAppend(segments[1..], fields[1..], rest, more);
      var t := [segments[0].terminator] + Render(segments[1..], fields[1..], rest);
      assert t + more == [segments[0].terminator] + Render(segments[1..], fields[1..], rest + more);
      assert (fields[0] + t) + more == fields[0] + (t + more);
    }
  }

  lemma RecapCommandRendered(r: Recap, rest: string)
    ensures RecapCommand(r) + rest == Render(RecapPattern, [r.name, r.feeling, r.day, r.hour, r.minute], rest)
  {
    var fs := [r.name, r.feeling, r.day, r.hour, r.minute];
    var S := RecapPattern;
    assert Render(S[4..], fs[4..], "") == r.minute + ">" by {
      assert S[4..][1..] == [] && fs[4..][1..] == [];
      assert ">" + "" == ">";
    }
    assert Render(S[3..], fs[3..], "") == r.hour + (":" + (r.minute + ">")) by {
      assert S[3..][1..] == S[4..] && fs[3..][1..] == fs[4..];
    }
    assert Render(S[2..], fs[2..], "") == "<" + (r.day + ("-" + (r.hour + (":" + (r.minute + ">"))))) by {
      assert S[2..][1..] == S[3..] && fs[2..][1..] == fs[3..];
    }
    assert Render(S[1..], fs[1..], "")
        == "<" + (r.feeling + (">" + ("<" + (r.day + ("-" + (r.hour + (":" + (r.minute + ">")))))))) by {
      assert S[1..][1..] == S[2..] && fs[1..][1..] == fs[2..];
    }
    assert RecapCommand(r) == Render(S, fs, "");
    RenderAppend(S, fs, "", rest);
    assert "" + rest == rest;
  }

  /** The `/sendhelp` regex match: the patient's name, or `None` when the
      message does not match. */
  function ParseHelp(msg: string): (r: Option<string>)
    ensures r.Some? ==> ValidName(r.value) && IsPrefix(HelpCommand(r.value), msg)
  {
    var m :- Scan(HelpPattern, msg);
    var name := m.0[0];
    if ValidName(name) then
      assert m.0 == [name];
      HelpCommandRendered(name, m.1);
      PrefixOfAppend(HelpCommand(name), m.1);
      Some(name)
    else None
  }

  /** The recap a list of five captured groups stands for. */
  function RecapOf(fields: seq<string>): Recap
    requires |fields| == 5
  {
    Recap(fields[0], fields[1], fields[2], fields[3], fields[4])
  }

  /** A message rendered from the recap pattern starts with the recap command
      of its groups. */
  lemma RenderedRecapPrefix(fields: seq<string>, rest: string, msg: string)
    requires |fields| == 5 && msg == Render(RecapPattern, fields, rest)
    ensures IsPrefix(RecapCommand(RecapOf(fields)), msg)
  {
    var r := RecapOf(fields);
    assert fields == [r.name, r.feeling, r.day, r.hour, r.minute];
    RecapCommandRendered(r, rest);
    PrefixOfAppend(RecapCommand(r), rest);
  }

  /** The `/sendrecap` regex match: the five groups, or `None` when the
      message does not match. */
  function ParseRecap(msg: string): (r: Option<Recap>)
    ensures r.Some? ==> WellFormed(r.value) && IsPrefix(RecapCommand(r.value), msg)
  {
    var m :- Scan(RecapPattern, msg);
    if WellFormed(RecapOf(m.0)) then
      RenderedRecapPrefix(m.0, m.1, msg);
      Some(RecapOf(m.0))
    else None
  }

  lemma NameHasNoTerminator(name: string)
    requires ValidName(name)
    ensures '>' !in name
  {
    assert forall i :: 0 <= i < |name| ==> IsNameChar(name[i]);
  }

  /** Every field of a well-formed recap is free of its terminator. */
  lemma RecapSeparable(r: Recap)
    requires WellFormed(r)
    ensures Separable(RecapPattern, [r.name, r.feeling, r.day, r.hour, r.minute])
  {
    NameHasNoTerminator(r.name);
    WeekdayHasNoHyphen(r.day);
  }

  /** Round trip of the help command: the bot recovers the name the controller
      sent, whatever text follows the closing `>`. */
  lemma HelpRoundTrip(name: string, rest: string)
    requires ValidName(name)
    ensures ParseHelp(HelpCommand(name) + rest) == Some(name)
  {
    HelpCommandRendered(name, rest);
    NameHasNoTerminator(name);
    ScanRender(HelpPattern, [name], rest);
  }

  /** Round trip of the recap command: the bot recovers all five fields the
      controller sent, whatever text follows the closing `>`. */
  lemma RecapRoundTrip(r: Recap, rest: string)
    requires WellFormed(r)
    ensures ParseRecap(RecapCommand(r) + rest) == Some(r)
  {
    RecapCommandRendered(r, rest);
    RecapSeparable(r);
    ScanRender(RecapPattern, [r.name, r.feeling, r.day, r.hour, r.minute], rest);
  }

  /** `re.match` anchors only at the start: appending text to a matching help
      message changes neither the match nor the extracted name. */
  lemma HelpPrefixOnly(msg: string, tail: string)
    requires ParseHelp(msg).Some?
    ensures ParseHelp(msg + tail) == ParseHelp(msg)
  {
    var name := ParseHelp(msg).value;
    var cmd := HelpCommand(name);
    var rest := msg[|cmd|..];
    PrefixSplit(cmd, msg);
    assert msg + tail == cmd + (rest + tail);
    HelpRoundTrip(name, rest + tail);
  }

  /** `re.match` anchors only at the start: appending text to a matching recap
      message changes neither the match nor any of the five groups. */
  lemma RecapPrefixOnly(msg: string, tail: string)
    requires ParseRecap(msg).Some?
    ensures ParseRecap(msg + tail) == ParseRecap(msg)
  {
    var r := ParseRecap(msg).value;
    var cmd := RecapCommand(r);
    var rest := msg[|cmd|..];
    PrefixSplit(cmd, msg);
    assert msg + tail == cmd + (rest + tail);
    RecapRoundTrip(r, rest + tail);
  }

  /** A name with a character outside `[a-zA-Z' ]` (a digit, an accented
      letter) and no `>` is not matched: such a patient's help request gets no
      answer from the bot. */
  lemma HelpRejectsForeignName(name: string, rest: string)
    requires !ValidName(name) && '>' !in name
    ensures ParseHelp(HelpCommand(name) + rest) == None
  {
    HelpCommandRendered(name, rest);
    ScanRender(HelpPattern, [name], rest);
  }

  /** The feeling group accepts only "bene" and "male", the day group only
      the seven English weekdays: any other value in a recap command (free of
      the terminators) makes the whole command unmatched. */
  lemma RecapRejectsBadFields(r: Recap, rest: string)
    requires Separable(RecapPattern, [r.name, r.feeling, r.day, r.hour, r.minute])
    requires !WellFormed(r)
    ensures ParseRecap(RecapCommand(r) + rest) == None
  {
    RecapCommandRendered(r, rest);
    ScanRender(RecapPattern, [r.name, r.feeling, r.day, r.hour, r.minute], rest);
  }

  const WelcomeText := "Welcome to the patient helper!"
  const HelpText := "The bot will notify you when your assisted person needs help and when they took their medications."

  /** The `/sendhelp` handler's reply. */
  function HelpReply(name: string): string {
    name + " ha bisogno del tuo aiuto!\nMettiti in contatto il prima possible!"
  }

  /** The `/sendrecap` handler's reply; the Italian day comes from the
      English day group through the weekday table. */
  function RecapReply(r: Recap): string
    requires IsWeekday(r.day)
  {
    "Ecco il recap per " + r.name + ".\nSi sente " + r.feeling + ".\n"
    + ItalianNames[r.day] + " alle " + r.hour + ":" + r.minute + " ha preso i seguenti farmaci:"
  }

  /** The directory whose images the recap handler forwards. */
  function ImageDirectory(r: Recap): string {
    "../medications/" + r.day
  }

  /** What the bot does in answer to one message. */
  datatype Action = Respond(text: string) | SendImagesFrom(directory: string)

  function StartHandler(msg: string): seq<Action> {
    if IsPrefix("/start", msg) then [Respond(WelcomeText)] else []
  }

  function HelpHandler(msg: string): seq<Action> {
    if IsPrefix("/help", msg) then [Respond(HelpText)] else []
  }

  function SendHelpHandler(msg: string): seq<Action> {
    match ParseHelp(msg)
    case Some(name) => [Respond(HelpReply(name))]
    case None => []
  }

  function SendRecapHandler(msg: string): seq<Action> {
    match ParseRecap(msg)
    case Some(r) => [Respond(RecapReply(r)), SendImagesFrom(ImageDirectory(r))]
    case None => []
  }

  /** Every handler whose pattern `re.match`es the message runs, in
      registration order: `/start`, `/help`, `/sendhelp`, `/sendrecap`. */
  function Dispatch(msg: string): seq<Action> {
    StartHandler(msg) + HelpHandler(msg) + SendHelpHandler(msg) + SendRecapHandler(msg)
  }

  /** Every recap command starts with its command word. */
  lemma RecapCommandStart(r: Recap, rest: string)
    ensures IsPrefix("/sendrecap<", RecapCommand(r) + rest)
  {
    RecapCommandRendered(r, rest);
    PrefixOfAppend("/sendrecap<", (RecapCommand(r) + rest)[|"/sendrecap<"|..]);
  }

  lemma HelpCommandStart(name: string, rest: string)
    ensures IsPrefix("/sendhelp<", HelpCommand(name) + rest)
  {
    HelpCommandRendered(name, rest);
    PrefixOfAppend("/sendhelp<", name + (">" + rest));
  }

  lemma RecapCommandWord(r: Recap)
    ensures IsPrefix("/sendrecap<", RecapCommand(r))
  {
    RecapCommandStart(r, "");
    assert RecapCommand(r) + "" == RecapCommand(r);
  }

  /** Every message the recap pattern matches starts with its command word. */
  lemma ParseRecapWord(msg: string)
    ensures ParseRecap(msg).Some? ==> IsPrefix("/sendrecap<", msg)
  {
    if ParseRecap(msg).Some? {
      var r := ParseRecap(msg).value;
      RecapCommandWord(r);
      PrefixTransitive("/sendrecap<", RecapCommand(r), msg);
    }
  }

  /** Every message the help pattern matches starts with its command word. */
  lemma ParseHelpWord(msg: string)
    ensures ParseHelp(msg).Some? ==> IsPrefix("/sendhelp<", msg)
  {
    if ParseHelp(msg).Some? {
      var name := ParseHelp(msg).value;
      HelpCommandRendered(name, "");
      PrefixOfAppend("/sendhelp<", name + ">");
      PrefixTransitive("/sendhelp<", HelpCommand(name), msg);
    }
  }

  /** A message starting with the help command word is no recap command. */
  lemma HelpIsNoRecap(msg: string)
    requires IsPrefix("/sendhelp<", msg)
    ensures ParseRecap(msg) == None
  {
    ParseRecapWord(msg);
    PrefixesDisagree("/sendrecap<", "/sendhelp<", msg, 5);
  }

  /** A message starting with the recap command word is no help command. */
  lemma RecapIsNoHelp(msg: string)
    requires IsPrefix("/sendrecap<", msg)
    ensures ParseHelp(msg) == None
  {
    ParseHelpWord(msg);
    PrefixesDisagree("/sendhelp<", "/sendrecap<", msg, 5);
  }

  /** The handlers `/start` and `/help` do not answer a message that starts
      with another command word sharing no prefix with theirs. */
  lemma FixedHandlersSilent(msg: string, word: string)
    requires word == "/sendhelp<" || word == "/sendrecap<"
    requires IsPrefix(word, msg)
    ensures StartHandler(msg) == [] && HelpHandler(msg) == []
  {
    PrefixesDisagree("/start", word, msg, 2);
    PrefixesDisagree("/help", word, msg, 1);
  }

  lemma SendHelpHandlerOn(msg: string, name: string)
    requires ParseHelp(msg) == Some(name)
    ensures SendHelpHandler(msg) == [Respond(HelpReply(name))]
  {
  }

  lemma SendRecapHandlerOn(msg: string, r: Recap)
    requires ParseRecap(msg) == Some(r)
    ensures SendRecapHandler(msg) == [Respond(RecapReply(r)), SendImagesFrom("../medications/" + r.day)]
  {
  }

  lemma SendHelpHandlerOff(msg: string)
    requires ParseHelp(msg) == None
    ensures SendHelpHandler(msg) == []
  {
  }

  lemma SendRecapHandlerOff(msg: string)
    requires ParseRecap(msg) == None
    ensures SendRecapHandler(msg) == []
  {
  }

  /** A help command from the controller makes the bot answer exactly once,
      naming the patient. */
  lemma DispatchHelpCommand(name: string, rest: string)
    requires ValidName(name)
    ensures Dispatch(HelpCommand(name) + rest) == [Respond(HelpReply(name))]
  {
    var msg := HelpCommand(name) + rest;
    HelpRoundTrip(name, rest);
    HelpCommandStart(name, rest);
    FixedHandlersSilent(msg, "/sendhelp<");
    HelpIsNoRecap(msg);
    SendHelpHandlerOn(msg, name);
    SendRecapHandlerOff(msg);
  }

  lemma DispatchRecapMatch(msg: string, r: Recap)
    requires IsPrefix("/sendrecap<", msg) && ParseRecap(msg) == Some(r)
    ensures Dispatch(msg) == [Respond(RecapReply(r)), SendImagesFrom("../medications/" + r.day)]
  {
    FixedHandlersSilent(msg, "/sendrecap<");
    RecapIsNoHelp(msg);
    SendHelpHandlerOff(msg);
    SendRecapHandlerOn(msg, r);
  }

  /** A recap command from the controller makes the bot answer with the recap
      text (Italian day name included) and forward that day's images. */
  lemma DispatchRecapCommand(r: Recap, rest: string)
    requires WellFormed(r)
    ensures Dispatch(RecapCommand(r) + rest)
         == [Respond(RecapReply(r)), SendImagesFrom("../medications/" + r.day)]
  {
    RecapRoundTrip(r, rest);
    RecapCommandStart(r, rest);
    DispatchRecapMatch(RecapCommand(r) + rest, r);
  }
}

/** The caregiver command protocol spoken between the controller (which
    serialises commands into Telegram messages) and the bot (which parses them):
    `/sendhelp<name>` and `/sendrecap<name><feeling><day-HH:MM>`. */
module Commands {
  import opened Days

  /** One character of the bot's name class `[a-zA-Z' ]`. */
  predicate IsNameChar(c: char) {
    ('a' <= c <= 'z') || ('A' <= c <= 'Z') || c == '\'' || c == ' '
  }

  /** A name the bot's `([a-zA-Z' ]+)` group accepts. */
  predicate ValidName(name: string) {
    |name| > 0 && forall i :: 0 <= i < |name| ==> IsNameChar(name[i])
  }

  /** The bot's `(bene|male)` group. */
  predicate ValidFeeling(feeling: string) {
    feeling == "bene" || feeling == "male"
  }

  predicate IsDigit(c: char) {
    '0' <= c <= '9'
  }

  /** The bot's hour group `([01]?[0-9]|2[0-3])`. */
  predicate ValidHour(hour: string) {
    || (|hour| == 1 && IsDigit(hour[0]))
    || (|hour| == 2 && (hour[0] == '0' || hour[0] == '1') && IsDigit(hour[1]))
    || (|hour| == 2 && hour[0] == '2' && '0' <= hour[1] <= '3')
  }

  /** The bot's minute group `([0-5][0-9])`. */
  predicate ValidMinute(minute: string) {
    |minute| == 2 && '0' <= minute[0] <= '5' && IsDigit(minute[1])
  }

  function DigitValue(c: char): int {
    c as int - '0' as int
  }

  /** The number a string of decimal digits denotes. */
  function Decimal(digits: string): int {
    if |digits| == 0 then 0
    else 10 * Decimal(digits[..|digits| - 1]) + DigitValue(digits[|digits| - 1])
  }

  lemma DecimalOfShort(digits: string)
    requires 1 <= |digits| <= 2
    ensures |digits| == 1 ==> Decimal(digits) == DigitValue(digits[0])
    ensures |digits| == 2 ==> Decimal(digits) == 10 * DigitValue(digits[0]) + DigitValue(digits[1])
  {
    var front := digits[..|digits| - 1];
    assert Decimal(digits) == 10 * Decimal(front) + DigitValue(digits[|digits| - 1]);
    if |digits| == 2 {
      assert front[..0] == [];
      assert Decimal(front) == DigitValue(digits[0]);
    } else {
      assert front == [];
    }
  }

  /** `strftime('%H')` / `strftime('%M')`: a number below 100, zero-padded to two digits. */
  function Pad2(n: nat): (s: string)
    requires n < 100
    ensures |s| == 2 && IsDigit(s[0]) && IsDigit(s[1])
    ensures Decimal(s) == n
  {
    var s := [('0' as int + n / 10) as char, ('0' as int + n % 10) as char];
    DecimalOfShort(s);
    s
  }

  /** Every accepted hour denotes 0..23 and every accepted minute 0..59. */
  lemma TimeFieldBounds(hour: string, minute: string)
    requires ValidHour(hour) && ValidMinute(minute)
    ensures 0 <= Decimal(hour) <= 23
    ensures 0 <= Decimal(minute) <= 59
  {
    DecimalOfShort(hour);
    DecimalOfShort(minute);
  }

  /** Every hour and minute the clock formats is accepted by the bot. */
  lemma ClockFieldsAccepted(hour: nat, minute: nat)
    requires hour < 24 && minute < 60
    ensures ValidHour(Pad2(hour)) && ValidMinute(Pad2(minute))
  {
  }

  /** The accepted hour strings are exactly the one-digit numbers and the
      two-digit numbers up to 23 (so "24" is rejected, "7" and "07" accepted). */
  lemma HourFieldExact(hour: string)
    requires forall i :: 0 <= i < |hour| ==> IsDigit(hour[i])
    ensures ValidHour(hour) <==> (|hour| == 1 || (|hour| == 2 && Decimal(hour) <= 23))
  {
    if 1 <= |hour| <= 2 {
      DecimalOfShort(hour);
    }
  }

  /** The fields of one `/sendrecap` command. */
  datatype Recap = Recap(name: string, feeling: string, day: string, hour: string, minute: string)

  /** The fields the bot's recap regex accepts. */
  predicate WellFormed(r: Recap) {
    ValidName(r.name) && ValidFeeling(r.feeling) && IsWeekday(r.day)
    && ValidHour(r.hour) && ValidMinute(r.minute)
  }

  /** The message `send_help_message` sends to every caregiver. */
  function HelpCommand(name: string): string {
    "/sendhelp<" + name + ">"
  }

  /** The message `send_recap_message` sends to every caregiver,
      `/sendrecap<name><feeling><day-hour:minute>`, built from the right. */
  function RecapCommand(r: Recap): string {
    "/sendrecap<" + (r.name + (">" + ("<" + (r.feeling + (">" + ("<" + (r.day + ("-" + (r.hour + (":" + (r.minute + ">")))))))))))
  }
}

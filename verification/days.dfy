/** The English-to-Italian weekday table. The web application
    (`translate_day`) and the bot (`italian_days`) each carry an identical
    copy; the model defines it once. */
module Days {
  import opened Wrappers

  const ItalianNames: map<string, string> := map[
    "monday" := "Lunedì",
    "tuesday" := "Martedì",
    "wednesday" := "Mercoledì",
    "thursday" := "Giovedì",
    "friday" := "Venerdì",
    "saturday" := "Sabato",
    "sunday" := "Domenica"
  ]

  /** The seven lower-case English weekday names `strftime('%A').lower()`
      produces, which are also the bot's accepted day alternatives. */
  predicate IsWeekday(day: string) {
    day in ItalianNames
  }

  /** A value of `strftime('%A').lower()` under an English locale. */
  type Weekday = d: string | IsWeekday(d) witness "monday"

  /** `translate_day`: a day outside the table raises `KeyError`, modelled as `None`. */
  function TranslateDay(day: string): (r: Option<string>)
    ensures r.Some? <==> IsWeekday(day)
    ensures r.Some? ==> r.value in ItalianNames.Values
  {
    if day in ItalianNames then Some(ItalianNames[day]) else None
  }

  /** No weekday name contains a hyphen: the hyphen after the day in a recap
      command always terminates the day field. */
  lemma WeekdayHasNoHyphen(day: string)
    requires IsWeekday(day)
    ensures '-' !in day
  {
  }

  /** Distinct weekdays get distinct Italian names, so the translated day still
      identifies the day that was sent. */
  lemma TranslationInjective(a: string, b: string)
    requires IsWeekday(a) && IsWeekday(b) && a != b
    ensures TranslateDay(a) != TranslateDay(b)
  {
  }
}

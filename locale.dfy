/** The picker's built-in strings: Russian keys, an English table, and `Locale.getItem`
    (index.tsx:40-83). */
module Locale {
  import opened Options

  datatype Language = Ru | En

  /** `props.language || 'en'`. */
  function CurrentLanguage(prop: Option<Language>): Language {
    prop.GetOr(En)
  }

  /** `Locale.weekDayNamesShort`, Sunday first as `moment().day()` counts. */
  const WeekDayNamesShort: seq<string> := ["Вс", "Пн", "Вт", "Ср", "Чт", "Пт", "Сб"]

  /** The month names `getMonths` walks through, January first. */
  const MonthNames: seq<string> := [
    "Январь", "Февраль", "Март", "Апрель", "Май", "Июнь",
    "Июль", "Август", "Сентябрь", "Октябрь", "Ноябрь", "Декабрь"
  ]

  /** `Locale.locale.en`, with the month entries listed last (a map has no order). */
  const EnglishTable: map<string, string> := map[
    "Вс" := "Sun",
    "Пн" := "Mon",
    "Вт" := "Tue",
    "Ср" := "Wed",
    "Чт" := "Thu",
    "Пт" := "Fri",
    "Сб" := "Sat",
    "Время" := "Time",
    "Выберите месяц" := "Select Month",
    "Выберите год" := "Select Year",
    "начало" := "beginning",
    "окончание" := "end",
    "OK" := "OK",
    "Отмена" := "Cancel",
    "Назад" := "Ago",
    "Январь" := "January",
    "Февраль" := "February",
    "Март" := "March",
    "Апрель" := "April",
    "Май" := "May",
    "Июнь" := "June",
    "Июль" := "July",
    "Август" := "August",
    "Сентябрь" := "September",
    "Октябрь" := "October",
    "Ноябрь" := "November",
    "Декабрь" := "December"
  ]

  /** `Locale.locale[language]`: the Russian table is empty. */
  function Table(lang: Language): map<string, string> {
    match lang
    case En => EnglishTable
    case Ru => map[]
  }

  /** `getItem(text)` without `strict`: the translation when there is a non-empty one,
      the key itself otherwise. */
  function GetItem(lang: Language, text: string): (r: string)
    ensures text in Table(lang) && Table(lang)[text] != "" ==> r == Table(lang)[text]
    ensures text !in Table(lang) || Table(lang)[text] == "" ==> r == text
    ensures lang == Ru ==> r == text
  {
    var table := Table(lang);
    if text in table && table[text] != "" then table[text] else text
  }

  /** English month names, January first: the reference the table is checked against. */
  const EnglishMonthNames: seq<string> := [
    "January", "February", "March", "April", "May", "June",
    "July", "August", "September", "October", "November", "December"
  ]

  /** Month labels are the Russian names in Russian and the English names in English. */
  lemma MonthLabel(lang: Language, m: int)
    requires 0 <= m < 12
    ensures GetItem(lang, MonthNames[m]) == if lang == En then EnglishMonthNames[m] else MonthNames[m]
  {
    if lang == En {
      if m == 0 { assert EnglishTable["Январь"] == "January"; }
      else if m == 1 { assert EnglishTable["Февраль"] == "February"; }
      else if m == 2 { assert EnglishTable["Март"] == "March"; }
      else if m == 3 { assert EnglishTable["Апрель"] == "April"; }
      else if m == 4 { assert EnglishTable["Май"] == "May"; }
      else if m == 5 { assert EnglishTable["Июнь"] == "June"; }
      else if m == 6 { assert EnglishTable["Июль"] == "July"; }
      else if m == 7 { assert EnglishTable["Август"] == "August"; }
      else if m == 8 { assert EnglishTable["Сентябрь"] == "September"; }
      else if m == 9 { assert EnglishTable["Октябрь"] == "October"; }
      else if m == 10 { assert EnglishTable["Ноябрь"] == "November"; }
      else { assert EnglishTable["Декабрь"] == "December"; }
    }
  }

  /** English short weekday names, Sunday first. */
  const EnglishWeekDayNamesShort: seq<string> := ["Sun", "Mon", "Tue", "Wed", "Thu", "Fri", "Sat"]

  /** Column headings are the Russian short names in Russian and the English ones in
      English. */
  lemma WeekdayLabel(lang: Language, w: int)
    requires 0 <= w < 7
    ensures GetItem(lang, WeekDayNamesShort[w]) == if lang == En then EnglishWeekDayNamesShort[w] else WeekDayNamesShort[w]
  {
  }
}

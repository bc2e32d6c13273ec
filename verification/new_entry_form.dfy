/**
 * The new-entry form's submit handler: it emits the submitted values with
 * the two period dates written as `dd/MM/yyyy` (or "" when not chosen),
 * then clears the form and both date pickers.
 */
module NewEntryForm {
  import opened Wrappers
  import opened Dates
  import Text

  /** A submitted form value; the handler passes it through untouched. */
  datatype Value = Number(number: real) | Str(text: string)

  type FormData = map<string, Value>

  /** The form's values and the two date pickers' selections. */
  datatype FormState = FormState(values: FormData, startDate: Option<CalendarDate>, endDate: Option<CalendarDate>)

  const StartKey: string := "Periodo Inicio"
  const EndKey: string := "Periodo Fin"

  /** The form and both pickers as they are after `reset()` and the two `set...(undefined)` calls. */
  const Cleared: FormState := FormState(map[], None, None)

  /** `date ? format(date, "dd/MM/yyyy") : ""`. */
  function DateText(date: Option<CalendarDate>): (s: string)
    ensures date.None? <==> s == ""
  {
    match date
    case Some(d) => FormatDayMonthYear(d)
    case None => ""
  }

  /** What one submit does: the record handed to `onSubmit`, and the form state afterwards. */
  datatype Submission = Submission(emitted: FormData, after: FormState)

  /** `handleFormSubmit`. */
  function HandleFormSubmit(st: FormState): (r: Submission)
    ensures r.emitted.Keys == st.values.Keys + {StartKey, EndKey}
    ensures forall k :: k in st.values && k != StartKey && k != EndKey ==> r.emitted[k] == st.values[k]
    ensures r.emitted[StartKey] == Str(DateText(st.startDate))
    ensures r.emitted[EndKey] == Str(DateText(st.endDate))
    ensures r.after == Cleared
  {
    var emitted := st.values + map[StartKey := Str(DateText(st.startDate)), EndKey := Str(DateText(st.endDate))];
    Submission(emitted, Cleared)
  }

  /**
   * A chosen end date is emitted as `dd/MM/yyyy`: two digits, '/', two
   * digits, '/', and at least four digits for the year.
   */
  lemma EmittedDateShape(st: FormState)
    requires st.endDate.Some?
    ensures var s := HandleFormSubmit(st).emitted[EndKey].text;
      |s| >= 10 && s[2] == '/' && s[5] == '/'
      && Text.AllDigits(s[..2]) && Text.AllDigits(s[3..5]) && Text.AllDigits(s[6..])
  {
  }

  /**
   * The emitted end date is exactly what the charts' year lookup reverses:
   * rewritten with `split("/").reverse().join("-")` it reads `yyyy-MM-dd`
   * with the chosen day, month and year, and it parses back to the chosen
   * date. An unset end date is emitted as "" and has no year.
   */
  lemma EmittedEndDateRoundTrip(st: FormState)
    ensures st.endDate.Some? ==>
      IsoText(HandleFormSubmit(st).emitted[EndKey].text)
        == Text.PaddedDecimal(EraYear(st.endDate.value.year), 4) + "-"
           + Text.PaddedDecimal(st.endDate.value.month, 2) + "-"
           + Text.PaddedDecimal(st.endDate.value.day, 2)
    ensures st.endDate.Some? && st.endDate.value.year >= 1 ==>
      ParseDayMonthYear(HandleFormSubmit(st).emitted[EndKey].text) == Some(st.endDate.value)
      && YearOf(HandleFormSubmit(st).emitted[EndKey].text) == Known(st.endDate.value.year)
    ensures st.endDate.None? ==> YearOf(HandleFormSubmit(st).emitted[EndKey].text) == NaN
  {
    match st.endDate
    case Some(d) =>
      IsoTextOfFormat(d);
      if d.year >= 1 {
        ParseFormatRoundTrip(d);
      }
    case None =>
      EmptyDateHasNoYear();
  }

  /**
   * What the handler emits when it is called again on the cleared form: no
   * dates and none of the earlier values. The form marks its inputs as
   * required, so the browser does not submit an empty form; this is the
   * handler's own behaviour should it be called.
   */
  lemma SecondSubmitIsEmpty(st: FormState)
    ensures HandleFormSubmit(HandleFormSubmit(st).after).emitted == map[StartKey := Str(""), EndKey := Str("")]
  {
  }
}

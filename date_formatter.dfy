/**
 * The textual branches of `DateFormatter` (utils.js): recognising the
 * `DD/MM/YYYY` display form and the `YYYY-MM-DD` form of an HTML date input,
 * the sentinel strings returned for a missing date, and the rearrangement of a
 * display date into an input date.  Every other input is handed by the source
 * to the host's `Date` constructor and `Intl.DateTimeFormat`; the model returns
 * such inputs as `ViaHostDate` without computing what those engines produce.
 */
module DateFormatter {
  import opened Wrappers
  import opened Text

  /** Returned by `toDisplay` for a missing date. */
  const NotProvided: string := "Non renseignée"
  /** Returned by `toDateTime` for a missing date. */
  const UnknownDate: string := "Date inconnue"

  /**
   * A formatter's answer: a string computed from the text alone, or the input
   * passed on to the host date engine.
   */
  datatype Formatted = Literal(text: string) | ViaHostDate(input: string)

  /** A falsy argument: `null`, `undefined` or the empty string. */
  predicate Missing(d: Option<string>)
    ensures !Missing(d) <==> d.Some? && |d.value| > 0
  {
    d.None? || d.value == ""
  }

  /** The display shape: two digits, `/`, two digits, `/`, four digits, and nothing else. */
  predicate IsDisplayShape(s: string)
    ensures IsDisplayShape(s) <==>
      |s| == 10 && forall i :: 0 <= i < 10 ==> if i == 2 || i == 5 then s[i] == '/' else IsDigit(s[i])
  {
    && |s| == 10
    && AllDigits(s[..2]) && s[2] == '/'
    && AllDigits(s[3..5]) && s[5] == '/'
    && AllDigits(s[6..])
  }

  /** The date-input shape: four digits, `-`, two digits, `-`, two digits, and nothing else. */
  predicate IsInputShape(s: string)
    ensures IsInputShape(s) <==>
      |s| == 10 && forall i :: 0 <= i < 10 ==> if i == 4 || i == 7 then s[i] == '-' else IsDigit(s[i])
  {
    && |s| == 10
    && AllDigits(s[..4]) && s[4] == '-'
    && AllDigits(s[5..7]) && s[7] == '-'
    && AllDigits(s[8..])
  }

  /** Splitting a display date at `/` yields its day, month and year groups. */
  lemma SplitDisplayShape(s: string)
    requires IsDisplayShape(s)
    ensures Split(s, '/') == [s[..2], s[3..5], s[6..]]
  {
    var day, month, year := s[..2], s[3..5], s[6..];
    assert AllDigits(day) && AllDigits(month) && AllDigits(year);
    assert forall k :: 0 <= k < |day| ==> day[k] != '/';
    assert forall k :: 0 <= k < |month| ==> month[k] != '/';
    assert forall k :: 0 <= k < |year| ==> year[k] != '/';
    // the year group, then "/" + year, then the month group before it
    SplitSegment(year, "", '/');
    assert year + "" == year && Split(year, '/') == [year];
    assert s[5..] == "/" + year && s[5..][1..] == year;
    assert Split(s[5..], '/') == ["", year];
    assert s[3..] == month + s[5..];
    SplitSegment(month, s[5..], '/');
    assert month + "" == month;
    assert Split(s[3..], '/') == [month, year];
    // "/" + the rest, then the day group before it
    assert s[2..] == "/" + s[3..] && s[2..][1..] == s[3..];
    assert Split(s[2..], '/') == [""] + Split(s[3..], '/');
    assert s == day + s[2..];
    SplitSegment(day, s[2..], '/');
    assert day + "" == day;
  }

  /** `DateFormatter.toDisplay`, on its textual branches. */
  function ToDisplay(d: Option<string>): (r: Formatted)
    ensures Missing(d) ==> r == Literal(NotProvided)
    ensures d.Some? && IsDisplayShape(d.value) ==> r == Literal(d.value)
    ensures r.Literal? ==> r.text == NotProvided || IsDisplayShape(r.text)
    ensures r.ViaHostDate? ==> d == Some(r.input) && r.input != "" && !IsDisplayShape(r.input)
    ensures r.ViaHostDate? <==> !Missing(d) && !IsDisplayShape(d.value)
  {
    if Missing(d) then Literal(NotProvided)
    else if IsDisplayShape(d.value) then Literal(d.value)
    else ViaHostDate(d.value)
  }

  /** `DateFormatter.toDateTime`: only the missing-date sentinel is textual. */
  function ToDateTime(d: Option<string>): (r: Formatted)
    ensures r.Literal? <==> Missing(d)
    ensures r.Literal? ==> r.text == UnknownDate
    ensures r.ViaHostDate? ==> d == Some(r.input)
  {
    if Missing(d) then Literal(UnknownDate) else ViaHostDate(d.value)
  }

  /** `DateFormatter.toInput`, on its textual branches. */
  function ToInput(d: Option<string>): (r: Formatted)
    ensures Missing(d) ==> r == Literal("")
    ensures d.Some? && IsInputShape(d.value) ==> r == Literal(d.value)
    ensures r.Literal? ==> r.text == "" || IsInputShape(r.text)
    ensures r.ViaHostDate? ==>
      d == Some(r.input) && r.input != "" && !IsDisplayShape(r.input) && !IsInputShape(r.input)
    ensures r.ViaHostDate? <==> !Missing(d) && !IsInputShape(d.value) && !IsDisplayShape(d.value)
  {
    if Missing(d) then Literal("")
    else if IsInputShape(d.value) then Literal(d.value)
    else if IsDisplayShape(d.value) then
      SplitDisplayShape(d.value);
      var parts := Split(d.value, '/');
      var day, month, year := parts[0], parts[1], parts[2];
      Literal(year + "-" + month + "-" + day)
    else ViaHostDate(d.value)
  }

  /** No string has both shapes, so the order of the two tests in `toInput` does not matter. */
  lemma ShapesDisjoint(s: string)
    ensures !(IsDisplayShape(s) && IsInputShape(s))
  {
  }

  /** `toDisplay` returns every display date unchanged, so applying it twice changes nothing. */
  lemma ToDisplayIdempotent(s: string)
    requires IsDisplayShape(s)
    ensures ToDisplay(Some(s)) == Literal(s)
    ensures ToDisplay(Some(ToDisplay(Some(s)).text)) == ToDisplay(Some(s))
  {
  }

  /** A display date becomes an input date built from the same year, month and day digits. */
  lemma ToInputRearranges(s: string)
    requires IsDisplayShape(s)
    ensures ToInput(Some(s)) == Literal(s[6..] + "-" + s[3..5] + "-" + s[..2])
  {
    ShapesDisjoint(s);
    SplitDisplayShape(s);
  }

  /** Distinct display dates give distinct input dates. */
  lemma ToInputInjective(s: string, t: string)
    requires IsDisplayShape(s) && IsDisplayShape(t)
    requires ToInput(Some(s)) == ToInput(Some(t))
    ensures s == t
  {
    ToInputRearranges(s);
    ToInputRearranges(t);
    var u, v := ToInput(Some(s)).text, ToInput(Some(t)).text;
    assert s[6..] == u[..4] == v[..4] == t[6..];
    assert s[3..5] == u[5..7] == v[5..7] == t[3..5];
    assert s[..2] == u[8..] == v[8..] == t[..2];
    assert s == s[..2] + [s[2]] + s[3..5] + [s[5]] + s[6..];
    assert t == t[..2] + [t[2]] + t[3..5] + [t[5]] + t[6..];
  }

  /** Feeding `toInput` its own textual output changes nothing. */
  lemma ToInputIdempotent(d: Option<string>)
    requires ToInput(d).Literal?
    ensures ToInput(Some(ToInput(d).text)) == ToInput(d)
  {
  }
}

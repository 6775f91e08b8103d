/**
 * The page state that script.js changes in place: the three preferences
 * (script.js:12-14), the two toggle buttons' labels, the body's `dark` class
 * and the clock's text elements; and the handlers that update them
 * (`updateTime`, `updateDigitalClock`, `toggleFormat`, `changeTimezone`,
 * `toggleTheme`).
 */
module ClockPage {
  import opened Results
  import opened TimeFormat

  /** One of the hours, minutes or seconds elements: its text and whether it has the `updated` class. */
  datatype Element = Element(text: string, updated: bool)

  /** The clock's four text elements. */
  datatype Display = Display(hours: Element, minutes: Element, seconds: Element, amPm: string)

  /**
   * The rule that `updateDigitalClock` applies to each element
   * (script.js:79-83): the element ends up showing the new text, and gains
   * the `updated` class exactly when its text changed; an element that
   * already showed that text is left as it was.
   */
  function Refresh(e: Element, padded: string): (r: Element)
    ensures r.text == padded
    ensures r.updated <==> e.updated || e.text != padded
    ensures e.text == padded ==> r == e
  {
    if e.text != padded then Element(padded, true) else e
  }

  /**
   * The page after a successful tick that rendered `t`: every text shows the
   * new value, and each of the three numeric elements is marked `updated` on
   * its own account, when its own text changed (or it was marked before).
   */
  function Show(d: Display, t: Rendered): (r: Display)
    ensures r.hours.text == t.hours && r.minutes.text == t.minutes && r.seconds.text == t.seconds
    ensures r.amPm == t.amPm
    ensures r.hours.updated <==> d.hours.updated || d.hours.text != t.hours
    ensures r.minutes.updated <==> d.minutes.updated || d.minutes.text != t.minutes
    ensures r.seconds.updated <==> d.seconds.updated || d.seconds.text != t.seconds
  {
    Display(Refresh(d.hours, t.hours), Refresh(d.minutes, t.minutes), Refresh(d.seconds, t.seconds), t.amPm)
  }

  /** Showing the same time twice changes nothing the second time. */
  lemma ShowIdempotent(d: Display, t: Rendered)
    ensures Show(Show(d, t), t) == Show(d, t)
  {
  }

  /** The page after `updateTime` has run or thrown; a throw happens before anything is written. */
  function AfterUpdate(d: Display, r: Result<Rendered, FormatError>): (a: Display)
    ensures r.Failure? ==> a == d
    ensures r.Success? ==>
      && a.hours.text == r.value.hours && a.minutes.text == r.value.minutes && a.seconds.text == r.value.seconds
      && a.amPm == r.value.amPm
    ensures a.hours.updated <==> d.hours.updated || (r.Success? && d.hours.text != r.value.hours)
    ensures a.minutes.updated <==> d.minutes.updated || (r.Success? && d.minutes.text != r.value.minutes)
    ensures a.seconds.updated <==> d.seconds.updated || (r.Success? && d.seconds.text != r.value.seconds)
  {
    match r
    case Success(t) => Show(d, t)
    case Failure(_) => d
  }

  /** The format button's label (script.js:105) names the mode a click switches to. */
  function FormatLabel(is24Hour: bool): (text: string)
    ensures text == "Switch to 12-Hour" <==> is24Hour
    ensures text == "Switch to 24-Hour" <==> !is24Hour
  {
    if is24Hour then "Switch to 12-Hour" else "Switch to 24-Hour"
  }

  /** The theme button's label (script.js:123) names the theme a click switches to. */
  function ThemeLabel(isDarkMode: bool): (text: string)
    ensures text == "Light Mode" <==> isDarkMode
    ensures text == "Dark Mode" <==> !isDarkMode
  {
    if isDarkMode then "Light Mode" else "Dark Mode"
  }

  /** The module-level state of script.js and the parts of the page it writes. */
  class Clock {
    var is24Hour: bool
    var selectedTimezone: string
    var isDarkMode: bool
    var formatButtonLabel: string
    var themeButtonLabel: string
    /** Whether the body carries the `dark` class. */
    var bodyDark: bool
    var display: Display

    /** The buttons and the body's class agree with the preferences. */
    ghost predicate Valid()
      reads this
    {
      && formatButtonLabel == FormatLabel(is24Hour)
      && themeButtonLabel == ThemeLabel(isDarkMode)
      && bodyDark == isDarkMode
    }

    /**
     * The state when the script is loaded (script.js:12-14): 12-hour mode,
     * the host's own time zone (the sentinel 'local') and the light theme,
     * with the page's initial buttons and clock texts.
     */
    constructor (initial: Display)
      ensures Valid()
      ensures !is24Hour && selectedTimezone == "local" && !isDarkMode
      ensures display == initial
    {
      is24Hour := false;
      selectedTimezone := "local";
      isDarkMode := false;
      formatButtonLabel := FormatLabel(false);
      themeButtonLabel := ThemeLabel(false);
      bodyDark := false;
      display := initial;
    }

    /**
     * `updateDigitalClock` (script.js:77-98): each of the three elements is
     * refreshed on its own; nothing else on the page changes.
     */
    method UpdateDigitalClock(paddedHours: string, paddedMinutes: string, paddedSeconds: string)
      modifies this`display
      ensures display.hours == Refresh(old(display.hours), paddedHours)
      ensures display.minutes == Refresh(old(display.minutes), paddedMinutes)
      ensures display.seconds == Refresh(old(display.seconds), paddedSeconds)
      ensures display.amPm == old(display.amPm)
    {
      if display.hours.text != paddedHours {
        display := display.(hours := Element(paddedHours, true));
      }
      if display.minutes.text != paddedMinutes {
        display := display.(minutes := Element(paddedMinutes, true));
      }
      if display.seconds.text != paddedSeconds {
        display := display.(seconds := Element(paddedSeconds, true));
      }
    }

    /**
     * `updateTime` (script.js:28-69), given what the host formatter returned
     * for the current instant under the current preferences. It either shows
     * the rendered time or throws before writing anything; the preferences
     * are never touched.
     */
    method UpdateTime(parts: seq<Part>) returns (r: Result<Rendered, FormatError>)
      modifies this`display
      ensures r == FormatParts(parts, is24Hour)
      ensures display == AfterUpdate(old(display), r)
    {
      var fields := ExtractFields(parts);
      r := RenderTime(fields, is24Hour);
      if r.Success? {
        display := display.(amPm := r.value.amPm);
        UpdateDigitalClock(r.value.hours, r.value.minutes, r.value.seconds);
      }
    }

    /**
     * `toggleFormat` (script.js:103-107): flips the format, relabels its
     * button and re-renders with `parts`, the formatter's output under the
     * new format. The time zone and the theme are left alone.
     */
    method ToggleFormat(parts: seq<Part>) returns (r: Result<Rendered, FormatError>)
      modifies this
      ensures is24Hour == !old(is24Hour)
      ensures formatButtonLabel == FormatLabel(is24Hour)
      ensures selectedTimezone == old(selectedTimezone) && isDarkMode == old(isDarkMode)
      ensures themeButtonLabel == old(themeButtonLabel) && bodyDark == old(bodyDark)
      ensures r == FormatParts(parts, is24Hour)
      ensures display == AfterUpdate(old(display), r)
      ensures old(Valid()) ==> Valid()
    {
      is24Hour := !is24Hour;
      formatButtonLabel := FormatLabel(is24Hour);
      r := UpdateTime(parts);
    }

    /**
     * `changeTimezone` (script.js:112-115): records the selector's value and
     * re-renders with `parts`, the formatter's output for that zone.
     */
    method ChangeTimezone(value: string, parts: seq<Part>) returns (r: Result<Rendered, FormatError>)
      modifies this
      ensures selectedTimezone == value
      ensures is24Hour == old(is24Hour) && isDarkMode == old(isDarkMode)
      ensures formatButtonLabel == old(formatButtonLabel) && themeButtonLabel == old(themeButtonLabel)
      ensures bodyDark == old(bodyDark)
      ensures r == FormatParts(parts, is24Hour)
      ensures display == AfterUpdate(old(display), r)
      ensures old(Valid()) ==> Valid()
    {
      selectedTimezone := value;
      r := UpdateTime(parts);
    }

    /**
     * `toggleTheme` (script.js:120-124): flips the theme, sets the body's
     * `dark` class to match and relabels its button; the clock is not
     * re-rendered and the other preferences are left alone.
     */
    method ToggleTheme()
      modifies this`isDarkMode, this`bodyDark, this`themeButtonLabel
      ensures isDarkMode == !old(isDarkMode)
      ensures bodyDark == isDarkMode
      ensures themeButtonLabel == ThemeLabel(isDarkMode)
      ensures old(Valid()) ==> Valid()
    {
      isDarkMode := !isDarkMode;
      bodyDark := isDarkMode;
      themeButtonLabel := ThemeLabel(isDarkMode);
    }
  }

  /**
   * Two clicks on the format button bring the format and its label back;
   * the other preferences are untouched throughout.
   */
  method ToggleFormatTwice(clock: Clock, first: seq<Part>, second: seq<Part>)
    requires clock.Valid()
    modifies clock
    ensures clock.Valid()
    ensures clock.is24Hour == old(clock.is24Hour) && clock.formatButtonLabel == old(clock.formatButtonLabel)
    ensures clock.selectedTimezone == old(clock.selectedTimezone) && clock.isDarkMode == old(clock.isDarkMode)
  {
    var r1 := clock.ToggleFormat(first);
    var r2 := clock.ToggleFormat(second);
  }

  /** Two clicks on the theme button bring the theme, the body class and the label back. */
  method ToggleThemeTwice(clock: Clock)
    requires clock.Valid()
    modifies clock
    ensures clock.Valid()
    ensures clock.isDarkMode == old(clock.isDarkMode) && clock.bodyDark == old(clock.bodyDark)
    ensures clock.themeButtonLabel == old(clock.themeButtonLabel)
    ensures clock.is24Hour == old(clock.is24Hour) && clock.selectedTimezone == old(clock.selectedTimezone)
    ensures clock.display == old(clock.display)
  {
    clock.ToggleTheme();
    clock.ToggleTheme();
  }
}

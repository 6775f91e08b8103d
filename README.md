# DigitalClock: the clock logic of script.js in Dafny

The page shows a digital clock with hours, minutes, seconds and an AM/PM
label. Once a second, `updateTime` asks the host's date formatter for the
current time as a list of parts. It picks out the hour, minute, second and
day period, converts the hour to 12-hour time unless 24-hour mode is on,
pads every number to two digits, and writes the texts to the page. Each of
the three number elements is rewritten, and given the `updated` class,
only when its text changes. Three preferences drive the page: the 12/24-hour
format, the selected time zone and the dark theme. Two buttons toggle the
format and the theme and are relabelled to match, and a selector changes
the time zone.

The model has four modules:

- `Results` (`results.dfy`): `Option` (with `None` for JavaScript's
  `undefined`) and `Result` (for an operation that throws).
- `Decimal` (`decimal.dfy`): `toString` of a non-negative integer,
  `padStart` with a one-character fill, and `padNumber`. Decimal reading of
  digit strings serves as their inverse.
- `TimeFormat` (`time_format.dfy`): the formatter's parts, the extraction
  loop, the 12-hour conversion, the meridiem choice and the rendering of a
  tick. These are pure functions, plus one method for the `forEach` loop.
- `ClockPage` (`clock_page.dfy`): the class `Clock`. It holds the module-level
  state of script.js and the parts of the page it writes. Its methods are
  the script's handlers, and each one states the whole new state.

The host formatter's output is an input to the model: a sequence of parts
whose numeric values `parseInt` has already read. JavaScript's `%` agrees
with Dafny's on the non-negative hours the formatter produces. Hour values
are unbounded naturals, so an hour of 24, which some locales print at
midnight in 24-hour mode, is covered too.

Behaviour worth noting:

- The format button flips the current mode (script.js:104).
- A formatter output without a minute or a second part makes `padNumber`
  throw, so the page is left as it was. So does a missing hour in 24-hour
  mode. In 12-hour mode a missing hour still renders as "12",
  because `undefined % 12 || 12` is 12. Its meridiem is the formatter's
  `dayPeriod` when there is one, and "AM" only when there is none, because
  `undefined >= 12` is false.
- When the rendering throws inside `toggleFormat` or `changeTimezone`, the
  new preference and label have already been written and they stay.

## Model

| member | source | states |
|---|---|---|
| `Decimal.NatToString` | script.js:22 | `toString` of a non-negative integer is a non-empty digit string. It has one digit exactly when the number is below 10, and no leading zero unless the number is 0 |
| `Decimal.ParseNatToString` | script.js:22 | reading the decimal spelling back gives the number |
| `Decimal.NatToStringInjective` | script.js:22 | different numbers have different spellings |
| `Decimal.PadStart` | script.js:22 | `padStart` returns a string already at the target length unchanged. Otherwise it returns (target − length) fill characters followed by the string |
| `Decimal.PadNumber` | script.js:21-23 | `padNumber` gives "0" and the digit for n below 10, and n's own spelling for n of 10 or more. The result is always at least two digits |
| `Decimal.PadNumberRoundTrip` | script.js:21-23 | the padded string reads back as the number that was padded |
| `Decimal.PadNumberTwoDigits` | script.js:21-23 | for n below 100 the padded string is the tens digit followed by the units digit |
| `Decimal.PadNumberLength` | script.js:21-23 | the padded string has exactly two characters exactly when n is below 100 |
| `TimeFormat.LastValueWins` | script.js:41-48 | hour, minute and second are `undefined` exactly when no part of their type exists. Otherwise each holds the value of the last part of its type, so the value comes from a part that is present |
| `TimeFormat.LastDayPeriodWins` | script.js:41-48 | `amPm` stays "" without a `dayPeriod` part, and otherwise holds the last one's value. A non-empty `amPm` is the value of a `dayPeriod` part that is present |
| `TimeFormat.Extract` | script.js:41-48 | the four extracted values: each number is `undefined` exactly when no part of its type exists, and otherwise is the value of a part of that type. `amPm` is "" when there is no `dayPeriod` part, and a non-empty `amPm` is the value of one |
| `TimeFormat.ExtractFields` | script.js:41-48 | the `forEach` loop leaves in its four locals exactly the last-occurrence values above |
| `TimeFormat.To12Hour` | script.js:54 | the 12-hour hour lies in 1..12 and keeps the hour's remainder modulo 12. It keeps hours 1..12 and takes 12 off hours 13..23 |
| `TimeFormat.To12HourIdempotent` | script.js:54 | converting an already converted hour changes nothing |
| `TimeFormat.TwelveHourReversible` | script.js:52-54 | for hours 0..23 with no formatter label, the converted hour and the derived AM/PM together determine the original hour |
| `TimeFormat.DisplayHour` | script.js:51-54 | in 24-hour mode the parsed hour is shown unchanged, even when it is `undefined`. In 12-hour mode the shown hour is always defined, lies in 1..12, and keeps the hour's remainder modulo 12. It is 12 when the hour is missing |
| `TimeFormat.Meridiem` | script.js:53 | a non-empty day period from the formatter is kept. Otherwise the label is "PM" exactly when the hour is defined and at least 12, and "AM" in every other case |
| `TimeFormat.RenderTime` | script.js:50-62 | rendering throws exactly when minute or second is missing, or when the hour is missing in 24-hour mode. Otherwise every text is at least two digits. The meridiem is "" in 24-hour mode. In 12-hour mode it is non-empty and equals the formatter's label when there is one. Without a label it is "PM" exactly when the hour is defined and at least 12 |
| `TimeFormat.RenderTimeReadsBack` | script.js:50-62 | the rendered minute and second read back as parsed. The hour reads back as parsed in 24-hour mode, and in 12-hour mode as a value in 1..12 with the same remainder modulo 12 |
| `TimeFormat.FormatParts` | script.js:41-62 | a tick's formatter output renders unless it has no minute part or no second part, or, in 24-hour mode, no hour part. On success every text is a digit string. The meridiem is "" in 24-hour mode. In 12-hour mode it is non-empty and the hour reads as a value in 1..12 |
| `TimeFormat.FormatPartsReadsBack` | script.js:41-62 | the rendered minute and second read back as the values of a minute part and a second part of the formatter output. In 24-hour mode the hour reads back as the value of an hour part |
| `TimeFormat.MissingHourShowsTwelve` | script.js:41-62 | in 12-hour mode a formatter output without an hour part still renders. The hours show "12" and the meridiem falls back to "AM" |
| `TimeFormat.TwelveHourMidnightExample` | script.js:28-62 | in 12-hour mode, 00:05:09 with no day-period part shows 12, 05, 09 and AM |
| `TimeFormat.TwentyFourHourExample` | script.js:28-62 | in 24-hour mode, 13:00:00 shows 13, 00, 00 and an empty meridiem, even when the formatter supplied "PM" |
| `TimeFormat.TwelveHourFormatterExample` | script.js:28-62 | in 12-hour mode, a formatter output of hour 12, 05, 09 and day period "AM" shows 12, 05, 09 and AM |
| `ClockPage.Refresh` | script.js:79-83 | an element ends up showing the new text. It gains the `updated` class exactly when its text changed, and it is left untouched when the text was already equal |
| `ClockPage.Show` | script.js:65-68 | after a tick every element shows the rendered text. Each number element is marked on its own account, only when its own text changed |
| `ClockPage.ShowIdempotent` | script.js:77-98 | rendering the same time a second time changes nothing on the page |
| `ClockPage.AfterUpdate` | script.js:60-68 | when rendering throws, the page is unchanged. Otherwise the elements show the rendered texts and the meridiem. Each number element is marked `updated` exactly when it was already marked or its text changed |
| `ClockPage.FormatLabel` | script.js:105 | the format button reads "Switch to 12-Hour" exactly in 24-hour mode and "Switch to 24-Hour" exactly in 12-hour mode |
| `ClockPage.ThemeLabel` | script.js:123 | the theme button reads "Light Mode" exactly in dark mode and "Dark Mode" exactly in light mode |
| `ClockPage.Clock.constructor` | script.js:12-14 | the page starts in 12-hour mode with the 'local' time zone and the light theme, and the buttons agree with those preferences |
| `ClockPage.Clock.UpdateDigitalClock` | script.js:77-98 | each of the three elements is refreshed independently by `Refresh`, and the meridiem text is left alone |
| `ClockPage.Clock.UpdateTime` | script.js:28-69 | the result is the rendering of the formatter's parts under the current mode. On success the page shows it. On a throw nothing changes. Preferences and labels are never touched |
| `ClockPage.Clock.ToggleFormat` | script.js:103-107 | the mode is negated and the format label follows the new mode. The clock is re-rendered in the new mode. Time zone, theme, theme label and body class are unchanged, and the page invariant is kept |
| `ClockPage.Clock.ChangeTimezone` | script.js:112-115 | the time zone becomes the selector's value and the clock is re-rendered. Every other preference and label is unchanged |
| `ClockPage.Clock.ToggleTheme` | script.js:120-124 | the theme is negated. The body's `dark` class and the theme label follow it. The clock texts and the other preferences are not touched |
| `ClockPage.ToggleFormatTwice` | script.js:103-107 | two format toggles restore the mode and its label, and leave the time zone and theme alone |
| `ClockPage.ToggleThemeTwice` | script.js:120-124 | two theme toggles restore the theme, the body class and the label, and leave the clock texts and the other preferences alone |

## Left out

- background.js (the particle animation) is not part of this model. It is floating-point positions drawn from `Math.random`, canvas drawing and an endless `requestAnimationFrame` loop.
- `new Date()` and `Intl.DateTimeFormat` (script.js:29-40) are host calls backed by the time-zone database. Their output is a parameter of `UpdateTime`, `ToggleFormat` and `ChangeTimezone`. That includes how the 'local' sentinel is resolved to the host's zone, and the error the formatter raises for an unknown zone.
- `parseInt` (script.js:44-46) is not modelled. Numeric parts carry the already-parsed non-negative integer, so a `NaN` from a malformed part cannot arise.
- The 500 ms `setTimeout` that removes the `updated` class (script.js:82, 89, 96) is a timer and is not modelled. So are the overlapping removals when ticks come within 500 ms. Once set, the marker stays set in the model.
- The 1000 ms `setInterval` and the `DOMContentLoaded` / `init` wiring (script.js:129-141) are scheduling and are not modelled. A tick is a call of `UpdateTime`.
- The `getElementById` lookups (script.js:2-9) are not modelled. Elements are fields of `Clock`, so a missing element cannot arise.
- Decimal.NatToString: models `toString` on unbounded naturals. JavaScript's exponent form from 1e21 on, and the inexact integers above 2^53, are not modelled. The formatter's values stay below 100, far from either.
- index.html is not part of this model. `Clock.constructor` takes the clock's initial texts as a parameter. It gives the buttons and the body class the values that match the default preferences.

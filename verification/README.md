# Sleep-cycle bot, modelled in Dafny

`bot.py` is a Telegram bot that suggests wake-up times. Given a bedtime, it
adds 15 minutes to fall asleep and then 1 to 9 sleep cycles of 90 minutes
each. It shows the nine wake-up times as inline buttons, three to a row. When
the user presses a button, it shows the detail of that option and a
recommendation band.

A bedtime can be given in two ways:
- typed as text (`23:30`, `2315`, `130`, `7`), which is placed on today's
  date, or on tomorrow's if that moment has already passed;
- by the "now" command, which takes the current time shifted by three hours.

The bot remembers one bedtime per user between messages.

The model has seven modules:

- `Clock` (clock.dfy): instants and times of day.
  - An instant is an `int` count of microseconds (a Python datetime's
    resolution) since an arbitrary midnight. A calendar day starts at every
    multiple of `DAY`.
  - `ClockOf` is the hour and minute that `strftime('%H:%M')` shows.
  - `FormatHHMM` is that text.
- `Text` (text.dfy): the pieces of Python string handling the bot relies on.
  These are `str.strip()`, `str.split(sep)`, `int(text)` and `str(n)`.
- `Cycles` (cycles.dfy): the calculator.
  - `calculate_all_wake_up_times` is a method with a loop, proved equal to
    the specification function `AllWakeUpTimes`.
  - The single-option detail and its band are recomputed on their own, as
    the button handler does. They are proved to agree with the list.
- `Bedtime` (bedtime.dfy): reading a typed bedtime.
  - The text is read by its shape (colon, or 1 to 4 characters), then
    range-checked.
  - It is then placed on the calendar relative to `now`.
- `Keyboard` (keyboard.dfy): the inline keyboard.
  - `create_time_keyboard` is a method that flushes a row after every third
    button. It is proved equal to `Chunks` of the buttons.
  - It also covers the `time_<n>` callback data and its decoding.
- `Bot` (bot.dfy): one user's session.
  - The class `Session` holds the remembered bedtime (`context.user_data`).
  - Its methods are the text-message handler, the command router and the
    inline-button handler.
  - A reply is modelled as which message is sent and the data it is built
    from. The wording is not modelled.
- `Wrappers` (wrappers.dfy): `Option`.

The clock is a parameter: every handler that reads `datetime.now()` takes
`now` instead.

The two ways of giving a bedtime do not use the same clock. The "now" path
adds three hours to the clock (bot.py:114), but a typed bedtime is placed
against the unshifted clock (bot.py:263, bot.py:271). The model keeps this
difference as written.

## Model

| member | source | states |
|---|---|---|
| Clock.Midnight | bot.py:263-268 | the start of an instant's day is a multiple of a day, at or before it and less than a day before it |
| Clock.ClockOf | bot.py:36 | the hour and minute shown for an instant are a valid time of day, and the instant lies within that minute of its day |
| Clock.FormatHHMM | bot.py:36 | `strftime('%H:%M')` is five characters: two digits giving the hour, a colon, and two digits giving the minute |
| Clock.ClockOfPlaced | bot.py:263-268 | setting a day's hour and minute, with zero seconds, stays on that day and reads back as the same hour and minute |
| Text.NatToString | bot.py:53 | `str(n)` of a natural number is non-empty, made only of digits, and starts with `0` only for zero |
| Text.DigitsValueOfNatToString | bot.py:53 | the digits `str(n)` writes have value `n` |
| Text.IntToString | bot.py:53 | `str(n)` is a non-empty run of digits for n ≥ 0, and a minus sign followed by digits for n < 0; `ParseIntToString` gives its value back |
| Text.ParseInt | bot.py:244-254 | no contract of its own: `int()` as an optional sign and ASCII digits, with whitespace around them. `int()` skips all of `strip()`'s whitespace except the information separators U+001C to U+001F, and any of those makes it fail. `ParseIntOfDigits`, `ParsePadded`, `ParseIntToString` and `InfoSeparatorRejected` state what it returns |
| Text.InfoSeparatorRejected | bot.py:244-254 | a string holding any of U+001C to U+001F never parses as a number, even though `strip()` would remove them |
| Text.IntToStringChars | bot.py:53 | `str(n)` holds only digits and possibly a minus sign, so it never contains `_` |
| Text.ParseIntToString | bot.py:305 | `int(str(n)) == n` for every integer `n` |
| Text.ParseIntOfDigits | bot.py:244-254 | `int` of a run of ASCII digits is its decimal value, and negated after a minus sign |
| Text.ParsePadded | bot.py:247-254 | one digit, or two digits with a possible leading zero, read back as their number |
| Text.Strip | bot.py:225 | no contract of its own: `strip()` over all the characters Python counts as whitespace, ASCII and Unicode. `StripDrops`, `StripUntrimmed` and `StripTrailing` state what it keeps |
| Text.TrimStartDrops | bot.py:225 | stripping the start drops only whitespace (Python's full set, including U+00A0 and U+3000), and what remains does not start with whitespace |
| Text.TrimEndDrops | bot.py:225 | stripping the end drops only whitespace, and what remains does not end with whitespace |
| Text.StripDrops | bot.py:225 | `strip()` keeps a contiguous part of the text with only whitespace dropped on each side, and the result has no whitespace at either end |
| Text.StripUntrimmed | bot.py:225 | text with no whitespace at either end is unchanged by `strip()` |
| Text.StripTrailing | bot.py:225 | one trailing whitespace character of any kind, such as a no-break space, is dropped by `strip()` |
| Text.Split | bot.py:244 | `split` always yields at least one piece |
| Text.SplitJoin | bot.py:244 | joining the pieces with the separator gives back the text |
| Text.SplitPieces | bot.py:244 | no piece contains the separator, and there is one more piece than separators |
| Text.SplitAtFirst | bot.py:305 | the text before the first separator is the first piece, and the rest is split on its own |
| Text.SplitWithout | bot.py:244 | text without the separator is a single piece |
| Cycles.WakeOptionFor | bot.py:27-40 | the entry for n cycles has cycle count n, hours·60 + minutes equal to n·90 + 15 with minutes in 0..59, wakes that many minutes after the bedtime, and displays its wake-up time as HH:MM |
| Cycles.AllWakeUpTimes | bot.py:24-42 | nine entries, entry i for i + 1 cycles |
| Cycles.CalculateAllWakeUpTimes | bot.py:17-42 | the loop builds exactly the list of options for 1, 2, …, 9 cycles, in order |
| Cycles.WakeUpTimesExact | bot.py:26-40 | there are nine entries, and entry i is for i + 1 cycles. Each wakes (cycles·90 + 15) minutes after the bedtime. Its hours·60 + minutes equals that duration, with minutes in 0..59. It displays its wake-up time as HH:MM |
| Cycles.WakeUpTimesIncrease | bot.py:26-28 | consecutive wake-up times are exactly 90 minutes apart, so they strictly increase with the cycle count |
| Cycles.BandOf | bot.py:333-338 | no contract of its own: the band by the branches `cycles <= 3` and `cycles <= 6`. `BandRanges` states each band's range |
| Cycles.DetailFor | bot.py:313-319 | the detail keeps the bedtime and the cycle count n, splits n·90 + 15 minutes into hours and minutes in 0..59, wakes that many minutes after the bedtime, and carries n's band |
| Cycles.BandRanges | bot.py:333-338 | the band is short iff cycles ≤ 3, optimal iff 4 ≤ cycles ≤ 6, and full iff cycles ≥ 7 |
| Cycles.DetailMatchesList | bot.py:313-319 | for 1 ≤ n ≤ 9, the recomputed detail has the same cycles, wake-up time, hours and minutes as entry n of the list |
| Bedtime.ParseFields | bot.py:243-256 | no contract of its own: the hour and minute fields by the text's shape. `OneColon`, `ManyColons`, `ColonDigits`, `ShortDigits`, `ThreeDigits`, `FourDigits` and `TooLong` state each shape |
| Bedtime.ParseTimeOfDay | bot.py:243-260 | a result is always a valid time of day, and it is exactly the hour and minute read from the fields. There is a result exactly when the fields parse and are in range |
| Bedtime.PlaceOnCalendar | bot.py:263-272 | the bedtime lies in [now, now + 1 day) and shows the given hour and minute with zero seconds. It is on now's date when that time of day has not passed, otherwise on the next date |
| Bedtime.PlacedIsUnique | bot.py:263-272 | the placed bedtime is the only moment in [now, now + 1 day) that shows that hour and minute with zero seconds |
| Bedtime.ParseBedtime | bot.py:243-272 | a bedtime results exactly when the time of day parses. It then lies in [now, now + 1 day) and shows the parsed hour and minute with zero seconds and microseconds. It is on now's date when that time of day has not passed, otherwise on the next date |
| Bedtime.OneColon | bot.py:243-244 | with exactly one colon, the hour and minute are the integers on either side of it |
| Bedtime.ManyColons | bot.py:244 | two or more colons never parse |
| Bedtime.ColonDigits | bot.py:243-244 | `HH:MM` with two-digit fields, and `H:MM` with a one-digit hour, give exactly those numbers |
| Bedtime.ShortDigits | bot.py:246-248 | one or two digits are the hour, with minute 0 |
| Bedtime.ThreeDigits | bot.py:249-251 | three digits: the first is the hour and the other two the minute |
| Bedtime.FourDigits | bot.py:252-254 | four digits: the first two are the hour and the last two the minute |
| Bedtime.TooLong | bot.py:255-256 | five or more characters without a colon never parse |
| Bedtime.FormatParses | bot.py:276 | the stored display `HH:MM` of a bedtime reads back as the same time of day |
| Bedtime.ColonExample | bot.py:243-244 | "23:30" is 23:30 |
| Bedtime.FourDigitExample | bot.py:252-254 | "2315" is 23:15 |
| Bedtime.ThreeDigitExample | bot.py:249-251 | "130" is 01:30 |
| Bedtime.OneDigitExample | bot.py:246-248 | "7" is 07:00 |
| Bedtime.ShortHourExample | bot.py:243-244 | "2:15" is 02:15 |
| Bedtime.NoBreakSpaceExample | bot.py:225 | "7" followed by a no-break space is stripped to "7", which is 07:00 |
| Bedtime.InfoSeparatorExample | bot.py:243-244 | "23:" then U+001C then "30" is rejected, because `int()` does not skip that separator |
| Bedtime.HourOutOfRangeExample | bot.py:259-260 | "25:00" is rejected by the range check |
| Bedtime.MinuteOutOfRangeExample | bot.py:259-260 | "12:60" is rejected by the range check |
| Bedtime.ShapeExamples | bot.py:243-256 | "99999" and "1:2:3" are rejected by their shape |
| Keyboard.IsTimeCallback | bot.py:304 | no contract of its own: `data.startswith("time_")`. `DecodeEncode` states that every option's data passes it, and `TimeCallbackField` states what decoding then reads |
| Keyboard.TimeKeyboard | bot.py:358-360 | no contract of its own: the rows of three buttons for the nine options of a bedtime, built in the same way at bot.py:120-129 and bot.py:279-286. `NineOptionKeyboard` states its shape and every button |
| Keyboard.EncodeCallback | bot.py:53 | no contract of its own: `time_` followed by `str(cycles)`. `DecodeEncode` states its round trip |
| Keyboard.DecodeCallback | bot.py:305 | no contract of its own: `int` of the second `_`-field, if any. `DecodeEncode` and `TimeCallbackField` state what it returns |
| Keyboard.ButtonFor | bot.py:52-55 | no contract of its own: the clock face and the option's display time, with the option's callback data. `NineOptionKeyboard` states what each keyboard button holds |
| Keyboard.Chunks | bot.py:57-64 | no contract of its own: rows of three in order, the last holding the rest. `ChunksFlatten` and `ChunksShape` state its content and shape |
| Keyboard.ButtonsFor | bot.py:51-55 | one button per option |
| Keyboard.CreateTimeKeyboard | bot.py:45-66 | the loop with its every-third-button flush builds exactly the rows of three of the buttons, in order |
| Keyboard.ChunksFlatten | bot.py:57-64 | reading the rows in order gives back the buttons in their original order |
| Keyboard.ChunksShape | bot.py:57-64 | there are ⌈n/3⌉ rows, no row is empty, and every row but the last has exactly three buttons |
| Keyboard.NineInThreeRows | bot.py:57-64 | nine buttons make three full rows of consecutive buttons |
| Keyboard.NineCell | bot.py:57-64 | in three rows of nine buttons, row r, column c holds button 3r + c |
| Keyboard.DecodeEncode | bot.py:53 | `time_<n>` is recognised as option data and decodes back to n |
| Keyboard.TimeCallbackField | bot.py:304-305 | data starting with `time_` always has a second `_`-field, so decoding reads the text after the prefix up to the next `_` |
| Keyboard.NineOptionKeyboard | bot.py:45-66 | the keyboard for a bedtime is three rows of three. The button in row r, column c shows option 3r + c's wake-up time and decodes to 3r + c + 1 cycles |
| Bot.IsMenuLabel | bot.py:228-237 | no contract of its own: the four menu-label comparisons. `HandleSleepTimeInput` states what each label does, and `LabelWithTrailingSpace` states that stripping keeps a label |
| Bot.ChoicesFor | bot.py:354-361 | the options answer for a bedtime carries that bedtime and a three-by-three keyboard |
| Bot.LabelWithTrailingSpace | bot.py:225-233 | the "now" label followed by a no-break space is still that label once stripped |
| Bot.PressedButtonDetails | bot.py:304-338 | pressing the button in row r, column c decodes to 3r + c + 1 cycles. Its detail's wake-up time is the one the button showed, and its band is that cycle count's |
| Bot.Session.constructor | bot.py:308 | a new session remembers no bedtime |
| Bot.Session.NowCommand | bot.py:113-131 | the session remembers now + 3 h with display "сейчас", and the reply is the options for that bedtime |
| Bot.Session.HandleSleepTimeInput | bot.py:224-295 | after stripping, a menu label runs its command. Otherwise a parsed bedtime is remembered with its HH:MM display and answered with its options. Text that does not parse leaves the session unchanged and asks again. The display stays consistent with the bedtime |
| Bot.Session.HandleCommand | bot.py:374-378 | /now behaves as the now path, and the other commands send their text and leave the session unchanged |
| Bot.Session.HandleButtonClick | bot.py:298-367 | option data shows the detail for the decoded cycle count and the remembered bedtime. "show_all" shows the options again, and the other actions send their message. Without a remembered bedtime neither the detail nor the options are shown, and the session is never changed |

## Left out

- Telegram transport: `reply_text`, `edit_message_text`, `query.answer()`, the async plumbing and the difference between editing a message and sending a new one. A reply is a tag plus the data it is built from.
- The wording of every message (bot.py:39, bot.py:81-153, bot.py:158-204, bot.py:282-283, bot.py:291-295, bot.py:322-340, bot.py:352, bot.py:365) and the `sleep_duration_text` field of each option. The hours and minutes it is made from are modelled.
- `create_main_menu` (bot.py:69-75) and the action buttons under a detail (bot.py:343-347). They are fixed layouts; the menu's labels and the action buttons' callback data appear as constants.
- `start` greets the user by first name. The model only records that the welcome message is sent.
- `main` (bot.py:370-390): `Application` setup, polling, and routing by Telegram's message filters. The command names it registers are modelled by `HandleCommand`.
- Logging setup and `BOT_TOKEN` (bot.py:8-14), which do not affect behaviour.
- The system clock: `datetime.now()` is the parameter `now`. The parse path reads the clock twice (bot.py:263 and bot.py:271). The model uses one reading for both, so it ignores a clock that moves between the two calls.
- Text.ParseInt: Python's `int()` also accepts `_` between digits and non-ASCII decimal digits (such as Arabic-Indic digits). The model accepts only an optional sign and ASCII digits, with whitespace other than U+001C to U+001F around them. Such input is rejected in the model where the bot would accept it. The model never accepts input that the bot rejects.
- Datetime range limits: Python raises `OverflowError` past year 9999. Instants here are unbounded integers.
- An exception raised in the `time_` branch (data after `time_` that is not a number, bot.py:305) escapes the handler, and nothing is sent. It is modelled as `NoReply`. The `IndexError` case cannot arise (see `Keyboard.TimeCallbackField`).
- `sleep_time_display` is read at bot.py:309 but never used. It is stored and kept consistent, but not read.
- `if sleep_time:` (bot.py:311, bot.py:357) tests a datetime, which is always truthy. It is modelled as "a bedtime is remembered".
- The date part of a bedtime is never displayed, since all output is `%H:%M`. The rollover to the next day therefore only affects the stored instant.

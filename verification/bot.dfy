/**
 * One user's conversation with the bot: the bedtime remembered between
 * messages (`context.user_data`), the text-message handler that reads menu
 * labels and typed bedtimes, the command router, and the inline-button
 * handler. Replies are reduced to which message the bot sends and the data it
 * is built from; the wording of the messages is not modelled.
 */
module Bot {
  import opened Wrappers
  import opened Text
  import opened Clock
  import opened Cycles
  import opened Bedtime
  import opened Keyboard

  /** The labels of the reply-keyboard menu, as `create_main_menu` lays them out. */
  const CALCULATE_LABEL: string := "\U{1F6CC} Рассчитать сон"
  const NOW_LABEL: string := "\U{23F0} Сейчас"
  const HELP_LABEL: string := "\U{2753} Помощь"
  const ABOUT_LABEL: string := "\U{2139}\U{FE0F} О боте"

  /** What the now path stores as the bedtime's display text. */
  const NOW_DISPLAY: string := "сейчас"
  /** The now path shifts the clock by three hours (Moscow time). */
  const NOW_SHIFT: int := 3 * HOUR

  /** Callback data of the buttons under a detail message. */
  const RECALCULATE: string := "recalculate"
  const SHOW_ALL: string := "show_all"
  const MAIN_MENU: string := "main_menu"

  predicate IsMenuLabel(text: string) {
    text == CALCULATE_LABEL || text == NOW_LABEL || text == HELP_LABEL || text == ABOUT_LABEL
  }

  /** `user_data['sleep_time']` together with `user_data['sleep_time_display']`. */
  datatype Saved = Saved(sleepTime: Instant, display: string)

  /** Which message the bot sends in answer, and what it carries. */
  datatype Reply =
    | Choices(sleepTime: Instant, keyboard: seq<seq<Button>>)  // bedtime and the nine-option keyboard
    | Details(detail: Detail)                                  // one picked option
    | Welcome
    | CalculatePrompt
    | HelpText
    | AboutText
    | FormatError
    | RecalculatePrompt
    | MainMenu
    | NoReply

  /** The answer listing every option for a bedtime. */
  function ChoicesFor(sleepTime: Instant): (r: Reply)
    ensures r.Choices? && r.sleepTime == sleepTime
    ensures |r.keyboard| == 3 && forall row | 0 <= row < 3 :: |r.keyboard[row]| == 3
  {
    NineOptionKeyboard(sleepTime);
    Choices(sleepTime, TimeKeyboard(sleepTime))
  }

  class Session {
    /** Nothing is stored until the user gives a bedtime. */
    var saved: Option<Saved>

    /** The display text is either the now marker or the bedtime's own clock reading. */
    predicate Consistent()
      reads this
    {
      saved.Some? ==>
        saved.value.display == NOW_DISPLAY || saved.value.display == FormatHHMM(ClockOf(saved.value.sleepTime))
    }

    constructor()
      ensures saved == None && Consistent()
    {
      saved := None;
    }

    /** `now_command`: bedtime is the shifted current time, remembered as "сейчас". */
    method NowCommand(now: Instant) returns (reply: Reply)
      modifies this
      ensures saved == Some(Saved(now + NOW_SHIFT, NOW_DISPLAY)) && Consistent()
      ensures reply == ChoicesFor(now + NOW_SHIFT)
    {
      var currentTime := now + NOW_SHIFT;
      saved := Some(Saved(currentTime, NOW_DISPLAY));
      var sleepTimes := CalculateAllWakeUpTimes(currentTime);
      var keyboard := CreateTimeKeyboard(sleepTimes);
      reply := Choices(currentTime, keyboard);
    }

    /**
     * `handle_sleep_time_input`: a menu label runs its command; any other text
     * is read as a bedtime, which is remembered and answered with the options,
     * or the user is asked again and nothing changes.
     */
    method HandleSleepTimeInput(message: string, now: Instant) returns (reply: Reply)
      modifies this
      ensures var text := Strip(message);
        && (text == CALCULATE_LABEL ==> reply == CalculatePrompt && saved == old(saved))
        && (text == NOW_LABEL ==> reply == ChoicesFor(now + NOW_SHIFT) && saved == Some(Saved(now + NOW_SHIFT, NOW_DISPLAY)))
        && (text == HELP_LABEL ==> reply == HelpText && saved == old(saved))
        && (text == ABOUT_LABEL ==> reply == AboutText && saved == old(saved))
        && (!IsMenuLabel(text) && ParseBedtime(text, now).None? ==> reply == FormatError && saved == old(saved))
        && (!IsMenuLabel(text) && ParseBedtime(text, now).Some? ==>
              var bedtime := ParseBedtime(text, now).value;
              reply == ChoicesFor(bedtime) && saved == Some(Saved(bedtime, FormatHHMM(ClockOf(bedtime)))))
      ensures old(Consistent()) ==> Consistent()
    {
      var text := Strip(message);
      if text == CALCULATE_LABEL {
        reply := CalculatePrompt;
      } else if text == NOW_LABEL {
        reply := NowCommand(now);
      } else if text == HELP_LABEL {
        reply := HelpText;
      } else if text == ABOUT_LABEL {
        reply := AboutText;
      } else {
        match ParseBedtime(text, now)
        case Some(sleepTime) =>
          saved := Some(Saved(sleepTime, FormatHHMM(ClockOf(sleepTime))));
          var sleepTimes := CalculateAllWakeUpTimes(sleepTime);
          var keyboard := CreateTimeKeyboard(sleepTimes);
          reply := Choices(sleepTime, keyboard);
        case None =>
          reply := FormatError;
      }
    }

    /** The commands `main` registers: /start, /help, /calculate, /now and /about. */
    method HandleCommand(command: string, now: Instant) returns (reply: Reply)
      modifies this
      ensures command == "now" ==> reply == ChoicesFor(now + NOW_SHIFT) && saved == Some(Saved(now + NOW_SHIFT, NOW_DISPLAY))
      ensures command != "now" ==> saved == old(saved)
      ensures command == "start" ==> reply == Welcome
      ensures command == "help" ==> reply == HelpText
      ensures command == "calculate" ==> reply == CalculatePrompt
      ensures command == "about" ==> reply == AboutText
      ensures command !in {"start", "help", "calculate", "now", "about"} ==> reply == NoReply
      ensures old(Consistent()) ==> Consistent()
    {
      if command == "now" {
        reply := NowCommand(now);
      } else if command == "start" {
        reply := Welcome;
      } else if command == "help" {
        reply := HelpText;
      } else if command == "calculate" {
        reply := CalculatePrompt;
      } else if command == "about" {
        reply := AboutText;
      } else {
        reply := NoReply;
      }
    }

    /**
     * `handle_button_click`: an option button shows that option's detail for
     * the remembered bedtime; "show_all" shows the options again. Both need a
     * remembered bedtime, and the session is never changed. Data after `time_`
     * that is not a number raises in the source, and nothing is sent.
     */
    method HandleButtonClick(data: string) returns (reply: Reply)
      ensures IsTimeCallback(data) ==>
        if DecodeCallback(data).Some? && saved.Some?
        then reply == Details(DetailFor(saved.value.sleepTime, DecodeCallback(data).value))
        else reply == NoReply
      ensures data == RECALCULATE ==> reply == RecalculatePrompt
      ensures data == SHOW_ALL ==> reply == if saved.Some? then ChoicesFor(saved.value.sleepTime) else NoReply
      ensures data == MAIN_MENU ==> reply == MainMenu
      ensures !IsTimeCallback(data) && data !in {RECALCULATE, SHOW_ALL, MAIN_MENU} ==> reply == NoReply
      ensures saved.None? ==> !reply.Details? && !reply.Choices?
    {
      ActionsAreNotOptions();
      if IsTimeCallback(data) {
        var cycles := DecodeCallback(data);
        if cycles.Some? && saved.Some? {
          reply := Details(DetailFor(saved.value.sleepTime, cycles.value));
        } else {
          reply := NoReply;
        }
      } else if data == RECALCULATE {
        reply := RecalculatePrompt;
      } else if data == SHOW_ALL {
        if saved.Some? {
          var sleepTimes := CalculateAllWakeUpTimes(saved.value.sleepTime);
          var keyboard := CreateTimeKeyboard(sleepTimes);
          reply := Choices(saved.value.sleepTime, keyboard);
        } else {
          reply := NoReply;
        }
      } else if data == MAIN_MENU {
        reply := MainMenu;
      } else {
        reply := NoReply;
      }
    }
  }

  /** The three action callbacks are not option callbacks. */
  lemma ActionsAreNotOptions()
    ensures !IsTimeCallback(RECALCULATE) && !IsTimeCallback(SHOW_ALL) && !IsTimeCallback(MAIN_MENU)
  {
    assert RECALCULATE[0] != TIME_PREFIX[0];
    assert SHOW_ALL[0] != TIME_PREFIX[0];
    assert MAIN_MENU[0] != TIME_PREFIX[0];
  }

  /** A menu label followed by a no-break space is still that label once stripped. */
  lemma LabelWithTrailingSpace()
    ensures Strip(NOW_LABEL + ['\U{A0}']) == NOW_LABEL
  {
    StripTrailing(NOW_LABEL, '\U{A0}');
  }

  /**
   * Pressing the button in row r, column c of the options for a bedtime shows
   * the detail of 3r + c + 1 cycles, whose wake-up time is the one the button
   * showed and whose band is that cycle count's.
   */
  lemma PressedButtonDetails(sleepTime: Instant, r: int, c: int)
    requires 0 <= r < 3 && 0 <= c < 3
    ensures var button := ChoicesFor(sleepTime).keyboard[r][c];
      && IsTimeCallback(button.callbackData)
      && DecodeCallback(button.callbackData) == Some(3 * r + c + 1)
      && var detail := DetailFor(sleepTime, 3 * r + c + 1);
      && button.text == CLOCK_FACE + FormatHHMM(ClockOf(detail.wakeUpTime))
      && detail.band == BandOf(3 * r + c + 1)
  {
    var n := 3 * r + c + 1;
    var buttons := ButtonsFor(AllWakeUpTimes(sleepTime));
    NineCell(buttons, r, c);
    assert buttons[n - 1] == ButtonFor(WakeOptionFor(sleepTime, n));
    assert DetailFor(sleepTime, n).wakeUpTime == WakeOptionFor(sleepTime, n).wakeUpTime;
    DecodeEncode(n);
  }
}

/**
 * The inline keyboard of wake-up options (`create_time_keyboard`): one button
 * per option, three buttons to a row, each carrying `time_<cycles>` as its
 * callback data; and the decoding of that data when a button is pressed.
 */
module Keyboard {
  import opened Wrappers
  import opened Text
  import opened Clock
  import opened Cycles

  /** A button reduced to what the bot puts in it: its text and its callback data. */
  datatype Button = Button(text: string, callbackData: string)

  const ROW_WIDTH: int := 3
  /** The clock face (U+1F552) that starts every option's label. */
  const CLOCK_FACE: string := "\U{1F552} "
  const TIME_PREFIX: string := "time_"

  /** `f"time_{cycles}"`. */
  function EncodeCallback(cycles: int): string {
    TIME_PREFIX + IntToString(cycles)
  }

  predicate IsTimeCallback(data: string) {
    |data| >= |TIME_PREFIX| && data[..|TIME_PREFIX|] == TIME_PREFIX
  }

  /**
   * `int(data.split("_")[1])`: fails when there is no second field or it is
   * not a number.
   */
  function DecodeCallback(data: string): Option<int> {
    var fields := Split(data, '_');
    if |fields| >= 2 then ParseInt(fields[1]) else None
  }

  function ButtonFor(option: WakeOption): Button {
    Button(CLOCK_FACE + option.displayTime, EncodeCallback(option.cycles))
  }

  function ButtonsFor(options: seq<WakeOption>): (buttons: seq<Button>)
    ensures |buttons| == |options|
  {
    seq(|options|, i requires 0 <= i < |options| => ButtonFor(options[i]))
  }

  /** Rows of three, in order, the last row holding what is left over. */
  function Chunks<T>(items: seq<T>): seq<seq<T>>
    decreases |items|
  {
    if |items| == 0 then []
    else if |items| <= ROW_WIDTH then [items]
    else [items[..ROW_WIDTH]] + Chunks(items[ROW_WIDTH..])
  }

  function Flatten<T>(rows: seq<seq<T>>): seq<T> {
    if rows == [] then [] else rows[0] + Flatten(rows[1..])
  }

  /** The keyboard offered for a bedtime. */
  function TimeKeyboard(sleepTime: Instant): seq<seq<Button>> {
    Chunks(ButtonsFor(AllWakeUpTimes(sleepTime)))
  }

  /** `create_time_keyboard`: fills a row, flushing it after every third button. */
  method CreateTimeKeyboard(sleepTimes: seq<WakeOption>) returns (keyboard: seq<seq<Button>>)
    ensures keyboard == Chunks(ButtonsFor(sleepTimes))
  {
    ghost var buttons := ButtonsFor(sleepTimes);
    ghost var flushed := 0;
    keyboard := [];
    var row: seq<Button> := [];
    for i := 0 to |sleepTimes|
      invariant flushed % 3 == 0 && flushed <= i < flushed + 3
      invariant keyboard == Chunks(buttons[..flushed])
      invariant row == buttons[flushed..i]
    {
      var button := Button(CLOCK_FACE + sleepTimes[i].displayTime, EncodeCallback(sleepTimes[i].cycles));
      assert buttons[flushed..i + 1] == buttons[flushed..i] + [button];
      row := row + [button];
      FlushPoint(i, flushed);
      if (i + 1) % 3 == 0 {
        assert keyboard + [row] == Chunks(buttons[..i + 1]) by {
          RowsContinue(buttons, flushed, i + 1);
        }
        keyboard := keyboard + [row];
        row := [];
        flushed := i + 1;
      }
    }
    assert keyboard + Chunks(row) == Chunks(buttons) by {
      RowsContinue(buttons, flushed, |buttons|);
      assert buttons[..|buttons|] == buttons;
    }
    if row != [] {
      keyboard := keyboard + [row];
    }
  }

  /** Inside a row, the third button is the one after which `(i + 1) % 3 == 0`. */
  lemma FlushPoint(i: int, flushed: int)
    requires flushed % 3 == 0 && flushed <= i < flushed + 3
    ensures (i + 1) % 3 == 0 <==> i + 1 == flushed + 3
  {
    var k := flushed / 3;
    assert flushed == 3 * k;
  }

  /** After whole rows, a short tail forms the next row, if it is not empty. */
  lemma RowsContinue<T>(items: seq<T>, flushed: nat, end: nat)
    requires flushed <= end <= |items| && flushed % ROW_WIDTH == 0 && end - flushed <= ROW_WIDTH
    ensures Chunks(items[..end]) == Chunks(items[..flushed]) + Chunks(items[flushed..end])
    ensures Chunks(items[flushed..end]) == if flushed == end then [] else [items[flushed..end]]
  {
    ChunksAppend(items[..flushed], items[flushed..end]);
    assert items[..flushed] + items[flushed..end] == items[..end];
  }

  /** A whole number of full rows followed by more items: the rows just continue. */
  lemma {:induction false} ChunksAppend<T>(full: seq<T>, rest: seq<T>)
    requires |full| % ROW_WIDTH == 0
    ensures Chunks(full + rest) == Chunks(full) + Chunks(rest)
    decreases |full|
  {
    if full != [] {
      var whole := full + rest;
      ChunksAppend(full[ROW_WIDTH..], rest);
      assert |full| >= ROW_WIDTH;
      if |full| == ROW_WIDTH {
        assert full[..ROW_WIDTH] == full && full[ROW_WIDTH..] == [];
      }
      assert Chunks(full) == [full[..ROW_WIDTH]] + Chunks(full[ROW_WIDTH..]);
      if |whole| <= ROW_WIDTH {
        assert rest == [] && whole == full && Chunks(rest) == [];
      } else {
        assert whole[..ROW_WIDTH] == full[..ROW_WIDTH];
        assert whole[ROW_WIDTH..] == full[ROW_WIDTH..] + rest;
        assert Chunks(whole) == [full[..ROW_WIDTH]] + Chunks(full[ROW_WIDTH..] + rest);
      }
    } else {
      assert full + rest == rest;
    }
  }

  /** Reading the rows in order gives back the buttons in their original order. */
  lemma {:induction false} ChunksFlatten<T>(items: seq<T>)
    ensures Flatten(Chunks(items)) == items
    decreases |items|
  {
    if |items| > ROW_WIDTH {
      ChunksFlatten(items[ROW_WIDTH..]);
      assert items == items[..ROW_WIDTH] + items[ROW_WIDTH..];
    }
  }

  /**
   * No row is empty, every row but the last has exactly three items, and the
   * last has between one and three.
   */
  lemma {:induction false} ChunksShape<T>(items: seq<T>)
    ensures |Chunks(items)| == (|items| + ROW_WIDTH - 1) / ROW_WIDTH
    ensures forall r | 0 <= r < |Chunks(items)| :: 1 <= |Chunks(items)[r]| <= ROW_WIDTH
    ensures forall r | 0 <= r < |Chunks(items)| - 1 :: |Chunks(items)[r]| == ROW_WIDTH
    decreases |items|
  {
    if |items| > ROW_WIDTH {
      ChunksShape(items[ROW_WIDTH..]);
    }
  }

  /** Nine items make three full rows. */
  lemma NineInThreeRows<T>(items: seq<T>)
    requires |items| == 9
    ensures Chunks(items) == [items[..3], items[3..6], items[6..]]
  {
    var tail := items[3..];
    assert Chunks(items) == [items[..3]] + Chunks(tail);
    assert tail[..3] == items[3..6] && tail[3..] == items[6..];
    assert Chunks(tail) == [items[3..6]] + Chunks(items[6..]);
  }

  /** In three rows of nine items, row r, column c holds item 3r + c. */
  lemma NineCell<T>(items: seq<T>, r: int, c: int)
    requires |items| == 9 && 0 <= r < 3 && 0 <= c < 3
    ensures |Chunks(items)| == 3 && |Chunks(items)[r]| == 3
    ensures Chunks(items)[r][c] == items[3 * r + c]
  {
    NineInThreeRows(items);
  }

  /** `int(str(n))` after `time_`: pressing a button gives back its cycle count. */
  lemma DecodeEncode(cycles: int)
    ensures IsTimeCallback(EncodeCallback(cycles))
    ensures DecodeCallback(EncodeCallback(cycles)) == Some(cycles)
  {
    var digits := IntToString(cycles);
    IntToStringChars(cycles);
    assert EncodeCallback(cycles) == "time" + ['_'] + digits;
    SplitAtFirst("time", '_', digits);
    SplitWithout(digits, '_');
    ParseIntToString(cycles);
  }

  /**
   * Data starting with `time_` always has a second `_`-field: decoding reads
   * the text after the prefix up to the next `_`, and cannot fail for lack of
   * a field.
   */
  lemma TimeCallbackField(data: string)
    requires IsTimeCallback(data)
    ensures DecodeCallback(data) == ParseInt(Split(data[|TIME_PREFIX|..], '_')[0])
  {
    var rest := data[|TIME_PREFIX|..];
    assert data == "time" + ['_'] + rest;
    SplitAtFirst("time", '_', rest);
  }

  /**
   * The keyboard for nine options is three full rows, and the button in row r,
   * column c shows the wake-up time of option 3r + c and decodes to its cycle
   * count 3r + c + 1.
   */
  lemma NineOptionKeyboard(sleepTime: Instant)
    ensures |TimeKeyboard(sleepTime)| == 3
    ensures forall r | 0 <= r < 3 :: |TimeKeyboard(sleepTime)[r]| == 3
    ensures forall r, c | 0 <= r < 3 && 0 <= c < 3 ::
      var button, option := TimeKeyboard(sleepTime)[r][c], AllWakeUpTimes(sleepTime)[3 * r + c];
      && button.text == CLOCK_FACE + option.displayTime
      && DecodeCallback(button.callbackData) == Some(3 * r + c + 1)
  {
    var buttons := ButtonsFor(AllWakeUpTimes(sleepTime));
    NineInThreeRows(buttons);
    WakeUpTimesExact(sleepTime);
    forall r, c | 0 <= r < 3 && 0 <= c < 3
      ensures TimeKeyboard(sleepTime)[r][c] == ButtonFor(AllWakeUpTimes(sleepTime)[3 * r + c])
      ensures DecodeCallback(TimeKeyboard(sleepTime)[r][c].callbackData) == Some(3 * r + c + 1)
    {
      NineCell(buttons, r, c);
      DecodeEncode(3 * r + c + 1);
    }
  }
}

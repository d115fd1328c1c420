/**
 * The load screen's `EmulatedConsole` (demo/zakk/src/load_state.js): pushed text is queued
 * and fed to the screen one character every third update; a newline starts a new line,
 * any other character extends the current one. The cursor blinks every fifteenth update
 * and shows steadily while characters arrive.
 */
module Consoles {
  import opened Wrappers
  import opened Strings
  import opened Timers

  /** Appending a line to a joined text appends the separator and the line. */
  lemma {:induction false} JoinPush(lines: seq<string>, line: string, sep: string)
    requires |lines| >= 1
    ensures JoinWith(lines + [line], sep) == JoinWith(lines, sep) + sep + line
    decreases |lines|
  {
    if |lines| > 1 {
      JoinPush(lines[1..], line, sep);
      assert (lines + [line])[1..] == lines[1..] + [line];
    }
  }

  /** Extending the last line of a joined text extends the text. */
  lemma JoinExtendLast(lines: seq<string>, c: char, sep: string)
    requires |lines| >= 1
    ensures JoinWith(lines[..|lines| - 1] + [lines[|lines| - 1] + [c]], sep) == JoinWith(lines, sep) + [c]
  {
    var init, last := lines[..|lines| - 1], lines[|lines| - 1];
    if |lines| > 1 {
      JoinPush(init, last, sep);
      JoinPush(init, last + [c], sep);
      assert init + [last] == lines;
    }
  }

  const BlinkInterval := 15
  const FeedInterval := 3

  class EmulatedConsole {
    /** The lines on screen. */
    var textBuffer: seq<string>
    /** The characters still to be fed. */
    var textQueue: seq<char>
    var currentLine: nat
    /** `cursor.show` */
    var show: bool
    /** `cursorBlinkTimer` and `textFeedTimer` */
    const blink: Timer
    const feed: Timer
    /** Everything pushed, and the part of it already fed to the screen. */
    ghost var pushed: string
    ghost var fed: string

    /** The two timers are distinct and valid; the current line is the last one; the screen
        shows exactly the characters fed, newlines as line breaks; and what is fed followed
        by what is queued is everything pushed, in order. */
    ghost predicate Valid()
      reads this, blink, feed
    {
      blink != feed && blink.Valid() && feed.Valid() &&
      blink.interval == BlinkInterval && feed.interval == FeedInterval &&
      |textBuffer| >= 1 && currentLine == |textBuffer| - 1 &&
      JoinWith(textBuffer, "\n") == fed &&
      fed + textQueue == pushed
    }

    constructor ()
      ensures Valid() && fresh(blink) && fresh(feed)
      ensures textBuffer == [""] && textQueue == [] && currentLine == 0 && show
      ensures blink.runs == 0 && feed.runs == 0 && pushed == ""
    {
      textBuffer := [""];
      textQueue := [];
      currentLine := 0;
      show := true;
      blink := new Timer(Some(BlinkInterval));
      feed := new Timer(Some(FeedInterval));
      pushed := "";
      fed := "";
    }

    /** `pushText(text)`: queues every character of the text, in order. */
    method PushText(text: string)
      requires Valid()
      modifies this
      ensures Valid() && textQueue == old(textQueue) + text && pushed == old(pushed) + text
      ensures textBuffer == old(textBuffer) && show == old(show) && fed == old(fed)
    {
      textQueue := textQueue + text;
      pushed := pushed + text;
    }

    /** `isQueueEmpty()`: everything pushed is on screen. */
    function IsQueueEmpty(): (r: bool)
      requires Valid()
      reads this, blink, feed
      ensures r <==> fed == pushed
    {
      |textQueue| == 0
    }

    /** `update()`: the blink timer runs and toggles the cursor when it ticks; while the
        queue is not empty the feed timer runs, and when it ticks the first queued character
        is fed: a newline opens a new line, any other character extends the current line,
        shows the cursor and restarts the blink. Returns whether a redraw is issued. */
    method Update() returns (redraw: bool)
      requires Valid()
      modifies this, blink, feed
      ensures Valid() && pushed == old(pushed)
      ensures var blinked := (old(blink.runs) + 1) % BlinkInterval == 0;
        var consumed := |old(textQueue)| > 0 && feed.runs % FeedInterval == 0;
        var c := if consumed then old(textQueue)[0] else ' ';
        feed.runs == old(feed.runs) + (if |old(textQueue)| > 0 then 1 else 0) &&
        (redraw <==> blinked || consumed) &&
        textQueue == (if consumed then old(textQueue)[1..] else old(textQueue)) &&
        fed == (if consumed then old(fed) + [c] else old(fed)) &&
        textBuffer == (if !consumed then old(textBuffer)
                       else if c == '\n' then old(textBuffer) + [""]
                       else old(textBuffer)[..old(currentLine)] + [old(textBuffer)[old(currentLine)] + [c]]) &&
        show == (if consumed && c != '\n' then true else if blinked then !old(show) else old(show)) &&
        blink.runs == (if consumed && c != '\n' then 0 else old(blink.runs) + 1)
    {
      var blinked := BlinkStep();
      var consumed := FeedStep();
      redraw := blinked || consumed;
    }

    /** The cursor half of `update()`: the blink timer runs and the cursor toggles when it
        ticks. */
    method BlinkStep() returns (blinked: bool)
      requires Valid()
      modifies this, blink
      ensures Valid() && pushed == old(pushed) && fed == old(fed)
      ensures blink.runs == old(blink.runs) + 1 && (blinked <==> blink.runs % BlinkInterval == 0)
      ensures show == (if blinked then !old(show) else old(show))
      ensures textBuffer == old(textBuffer) && textQueue == old(textQueue) && currentLine == old(currentLine)
      ensures feed.runs == old(feed.runs)
    {
      blinked := blink.Run();
      if blinked {
        show := !show;
      }
    }

    /** The text half of `update()`: while the queue is not empty the feed timer runs, and
        when it ticks the first queued character is fed. */
    method FeedStep() returns (consumed: bool)
      requires Valid()
      modifies this, blink, feed
      ensures Valid() && pushed == old(pushed)
      ensures feed.runs == old(feed.runs) + (if |old(textQueue)| > 0 then 1 else 0)
      ensures consumed <==> |old(textQueue)| > 0 && feed.runs % FeedInterval == 0
      ensures !consumed ==> (textQueue == old(textQueue) && fed == old(fed) && textBuffer == old(textBuffer) &&
        show == old(show) && blink.runs == old(blink.runs))
      ensures consumed ==> (textQueue == old(textQueue)[1..] && fed == old(fed) + [old(textQueue)[0]])
      ensures consumed ==> var c := old(textQueue)[0];
        textBuffer == (if c == '\n' then old(textBuffer) + [""]
                       else old(textBuffer)[..old(currentLine)] + [old(textBuffer)[old(currentLine)] + [c]]) &&
        show == (c != '\n' || old(show)) &&
        blink.runs == (if c != '\n' then 0 else old(blink.runs))
    {
      consumed := false;
      if |textQueue| > 0 {
        var tick := feed.Run();
        if tick {
          FeedChar();
          consumed := true;
        }
      }
    }

    /** The first queued character reaches the screen: a newline opens a new line, any
        other character extends the current line, shows the cursor and restarts the
        blink. */
    method FeedChar()
      requires Valid() && |textQueue| > 0
      modifies this, blink
      ensures Valid() && pushed == old(pushed)
      ensures textQueue == old(textQueue)[1..] && fed == old(fed) + [old(textQueue)[0]]
      ensures var c := old(textQueue)[0];
        textBuffer == (if c == '\n' then old(textBuffer) + [""]
                       else old(textBuffer)[..old(currentLine)] + [old(textBuffer)[old(currentLine)] + [c]]) &&
        show == (c != '\n' || old(show)) &&
        blink.runs == (if c != '\n' then 0 else old(blink.runs))
      ensures feed.runs == old(feed.runs)
    {
      var c := textQueue[0];
      assert textQueue == [c] + textQueue[1..];
      textQueue := textQueue[1..];
      if c == '\n' {
        JoinPush(textBuffer, "", "\n");
        textBuffer := textBuffer + [""];
        currentLine := currentLine + 1;
      } else {
        JoinExtendLast(textBuffer, c, "\n");
        textBuffer := textBuffer[..currentLine] + [textBuffer[currentLine] + [c]];
        show := true;
        blink.Reset();
      }
      fed := fed + [c];
    }
  }
}

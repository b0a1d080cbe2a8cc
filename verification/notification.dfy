/** The notification e-mail: its body is the configured header, every queued
    line each followed by a newline, and the configured footer. */
module Notification {
  import opened Records
  import opened Sync

  /** The queued lines, each followed by a newline, in queue order. */
  function Lines(lines: seq<string>): (text: string)
  {
    if lines == [] then "" else lines[0] + "\n" + Lines(lines[1..])
  }

  /** The message body for header `start`, queued `lines` and footer `end`.
      The header line always opens it and the footer always closes it, even
      when there are no lines. */
  function Body(start: string, lines: seq<string>, end: string): (b: string)
    ensures |b| >= |start| + 1 + |end|
    ensures b[..|start| + 1] == start + "\n"
    ensures b[|b| - |end|..] == end
    ensures lines == [] ==> b == start + "\n" + end
  {
    start + "\n" + Lines(lines) + end
  }

  /** Draining a queue in two batches writes the same text as in one. */
  lemma {:induction false} LinesAppend(a: seq<string>, b: seq<string>)
    ensures Lines(a + b) == Lines(a) + Lines(b)
  {
    if a == [] {
      assert a + b == b;
    } else {
      assert (a + b)[1..] == a[1..] + b;
      LinesAppend(a[1..], b);
    }
  }

  /** `s` cut at every newline; the independent reading of a body. */
  function SplitLines(s: string): (parts: seq<string>)
    ensures |parts| > 0
  {
    if s == [] then [""]
    else if s[0] == '\n' then [""] + SplitLines(s[1..])
    else
      var rest := SplitLines(s[1..]);
      [[s[0]] + rest[0]] + rest[1..]
  }

  predicate NoNewline(s: string)
  {
    forall k :: 0 <= k < |s| ==> s[k] != '\n'
  }

  lemma {:induction false} SplitNoNewline(s: string)
    requires NoNewline(s)
    ensures SplitLines(s) == [s]
  {
    if s != [] {
      SplitNoNewline(s[1..]);
      assert [s[0]] + s[1..] == s;
    }
  }

  lemma {:induction false} SplitAfterLine(a: string, rest: string)
    requires NoNewline(a)
    ensures SplitLines(a + "\n" + rest) == [a] + SplitLines(rest)
  {
    if a == [] {
      assert a + "\n" + rest == ['\n'] + rest;
      assert (a + "\n" + rest)[1..] == rest;
    } else {
      assert (a + "\n" + rest)[1..] == a[1..] + "\n" + rest;
      SplitAfterLine(a[1..], rest);
      assert [a[0]] + a[1..] == a;
    }
  }

  lemma {:induction false} SplitLinesThenEnd(lines: seq<string>, end: string)
    requires forall k :: 0 <= k < |lines| ==> NoNewline(lines[k])
    requires NoNewline(end)
    ensures SplitLines(Lines(lines) + end) == lines + [end]
  {
    if lines == [] {
      assert Lines(lines) + end == end;
      SplitNoNewline(end);
    } else {
      assert Lines(lines) + end == lines[0] + "\n" + (Lines(lines[1..]) + end);
      SplitAfterLine(lines[0], Lines(lines[1..]) + end);
      SplitLinesThenEnd(lines[1..], end);
      assert lines == [lines[0]] + lines[1..];
    }
  }

  /** When neither header, footer nor any line contains a newline, the body
      splits back into exactly the header, every line in queue order, and the
      footer: no line is lost, reordered or merged. */
  lemma BodyRoundTrip(start: string, lines: seq<string>, end: string)
    requires NoNewline(start) && NoNewline(end)
    requires forall k :: 0 <= k < |lines| ==> NoNewline(lines[k])
    ensures SplitLines(Body(start, lines, end)) == [start] + lines + [end]
  {
    assert Body(start, lines, end) == start + "\n" + (Lines(lines) + end);
    SplitAfterLine(start, Lines(lines) + end);
    SplitLinesThenEnd(lines, end);
  }

  class EmailHandler {
    const settings: Settings
    const emailEvent: Event
    const emailQueue: Queue<string>

    constructor (settings: Settings, emailEvent: Event, emailQueue: Queue<string>)
      ensures this.settings == settings && this.emailEvent == emailEvent
      ensures this.emailQueue == emailQueue
    {
      this.settings := settings;
      this.emailEvent := emailEvent;
      this.emailQueue := emailQueue;
    }

    /** Builds the body of the notification, draining the line queue.
        Delivery over SMTP is not part of this model. */
    method SendMail() returns (body: string)
      modifies emailQueue
      ensures body == Body(settings.messageStart, old(emailQueue.items), settings.messageEnd)
      ensures emailQueue.items == []
    {
      body := settings.messageStart + "\n";
      ghost var drained: seq<string> := [];
      while true
        invariant body == settings.messageStart + "\n" + Lines(drained)
        invariant drained + emailQueue.items == old(emailQueue.items)
        decreases |emailQueue.items|
      {
        var empty := emailQueue.Empty();
        if !empty {
          var line := emailQueue.Get();
          LinesAppend(drained, [line]);
          assert Lines([line]) == line + "\n";
          body := body + (line + "\n");
          drained := drained + [line];
        }
        empty := emailQueue.Empty();
        if empty {
          break;
        }
      }
      assert drained == old(emailQueue.items);
      body := body + settings.messageEnd;
    }
  }
}

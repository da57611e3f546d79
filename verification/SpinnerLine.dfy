/** One terminal line: its cells, and where the next character goes. */
module TerminalLines {
  datatype Line = Line(cells: string, cursor: nat)

  const EMPTY := Line("", 0)

  /** A carriage return goes back to the first cell, a line feed to a new line; anything else
      overwrites one cell. Cells past the end of `cells` are blank. */
  function Put(line: Line, c: char): Line {
    if c == '\r' then line.(cursor := 0)
    else if c == '\n' then EMPTY
    else if line.cursor < |line.cells| then Line(line.cells[line.cursor := c], line.cursor + 1)
    else Line(line.cells + Blanks(line.cursor - |line.cells|) + [c], line.cursor + 1)
  }

  function Type(line: Line, text: string): Line {
    if text == "" then line else Put(Type(line, text[..|text| - 1]), text[|text| - 1])
  }

  function Blanks(n: nat): (s: string)
    ensures |s| == n && forall c | c in s :: c == ' '
  {
    seq(n, _ => ' ')
  }

  predicate IsPrintable(text: string) {
    forall i | 0 <= i < |text| :: text[i] != '\r' && text[i] != '\n'
  }

  /** Every cell from the given one on is blank. */
  predicate BlankFrom(line: Line, from: nat) {
    forall i | from <= i < |line.cells| :: line.cells[i] == ' '
  }

  /** A blank line with the cursor at its start. */
  predicate IsFresh(line: Line) {
    line.cursor == 0 && BlankFrom(line, 0)
  }

  /** A reader of the line sees the text and nothing else. */
  predicate Shows(line: Line, text: string) {
    text <= line.cells && BlankFrom(line, |text|)
  }

  lemma {:induction false} TypeInTwo(line: Line, a: string, b: string)
    ensures Type(line, a + b) == Type(Type(line, a), b)
  {
    if b == "" {
      assert a + b == a;
    } else {
      TypeInTwo(line, a, b[..|b| - 1]);
      assert (a + b)[..|a + b| - 1] == a + b[..|b| - 1];
    }
  }

  lemma {:induction false} TypeOverStart(line: Line, text: string)
    requires line.cursor == 0 && IsPrintable(text)
    ensures Type(line, text)
         == Line(text + if |text| <= |line.cells| then line.cells[|text|..] else [], |text|)
  {
    if text == "" {
      assert "" + line.cells[0..] == line.cells;
    } else {
      var front, c := text[..|text| - 1], text[|text| - 1];
      assert IsPrintable(front);
      TypeOverStart(line, front);
      assert text == front + [c];
    }
  }

  lemma Return(line: Line, text: string)
    ensures Type(line, "\r" + text) == Type(line.(cursor := 0), text)
  {
    TypeInTwo(line, "\r", text);
    assert "\r"[..0] == "";
  }

  /** Returning to the start, writing a text and enough blanks over what was there before leaves
      just the text. */
  lemma RedrawShows(line: Line, text: string, width: nat)
    requires IsPrintable(text) && BlankFrom(line, width)
    ensures var padding := if width > |text| then width - |text| else 0;
            Shows(Type(line, "\r" + text + Blanks(padding)), text)
  {
    var padding := if width > |text| then width - |text| else 0;
    var written := text + Blanks(padding);
    assert "\r" + text + Blanks(padding) == "\r" + written;
    Return(line, written);
    TypeOverStart(line.(cursor := 0), written);
    var rest := if |written| <= |line.cells| then line.cells[|written|..] else [];
    PaddedShows(text, padding, rest, |written|);
  }

  lemma PaddedShows(text: string, padding: nat, rest: string, cursor: nat)
    requires BlankFrom(Line(rest, 0), 0)
    ensures Shows(Line(text + Blanks(padding) + rest, cursor), text)
  {
    assert text + Blanks(padding) + rest == text + (Blanks(padding) + rest);
  }

  lemma WipeLeavesFresh(line: Line, width: nat)
    requires BlankFrom(line, width)
    ensures IsFresh(Type(line, "\r" + Blanks(width) + "\r"))
  {
    RedrawShows(line, "", width);
    TypeInTwo(line, "\r" + Blanks(width), "\r");
    assert "\r" + "" + Blanks(width) == "\r" + Blanks(width);
    var wiped := Type(line, "\r" + Blanks(width));
    assert Type(wiped, "\r") == wiped.(cursor := 0) by { assert "\r"[..0] == ""; }
  }
}

/** The status line's state and what each event does to it. */
module SpinnerLines {
  import opened Options
  import opened Decimals
  import opened TerminalLines

  /** Labels hold no carriage return or line feed. */
  type Label = s: string | IsPrintable(s)

  const INDENT := "  "
  const FRAMES := "\U{280b}\U{2819}\U{2839}\U{2838}\U{283c}\U{2834}\U{2826}\U{2827}\U{2807}\U{280f}"
  const ROTATION_INTERVAL := 4000
  const ELAPSED_THRESHOLD := 10000

  const WAITING_LABELS: set<string> :=
    {"Thinking...", "Planning...", "Working...", "Checking context...", "Gathering information...",
     "Generating response..."}

  const EARLY_PHRASES: seq<Label> := [
    "Connecting ideas...", "Exploring possibilities...", "Gathering insights...", "Analyzing information..."]

  const MIDDLE_PHRASES: seq<Label> := [
    "Organizing information...", "Building the response...", "Reviewing the response..."]

  const LATE_PHRASES: seq<Label> := [
    "Refining the response...", "Checking final details...", "Finalizing response..."]

  const WAITING_ROTATION: seq<Label> := EARLY_PHRASES + MIDDLE_PHRASES + LATE_PHRASES

  /** Times are in milliseconds. `stream` is everything written to the terminal so far. */
  datatype Spinner = Spinner(
    active: nat,
    message: Label,
    isWaiting: bool,
    waitingSince: nat,
    turnStartedAt: Option<nat>,
    renderedWidth: nat,
    frameIndex: nat,
    suspended: bool,
    stream: string)

  function Screen(s: Spinner): Line {
    Type(EMPTY, s.stream)
  }

  function SetMessage(s: Spinner, message: Label, now: nat): Spinner {
    var waiting := message in WAITING_LABELS;
    if waiting && s.isWaiting then s.(message := message)
    else s.(message := message, isWaiting := waiting, waitingSince := if waiting then now else s.waitingSince)
  }

  function Begin(s: Spinner, message: Label, now: nat): Spinner {
    var started := if s.active == 0 then s.(turnStartedAt := Some(now)) else s;
    SetMessage(started.(active := s.active + 1), message, now)
  }

  function Update(s: Spinner, message: Label, now: nat): Spinner {
    if s.active > 0 then SetMessage(s, message, now) else s
  }

  function Clear(s: Spinner): Spinner {
    if s.renderedWidth == 0 then s
    else s.(stream := s.stream + ("\r" + Blanks(s.renderedWidth) + "\r"), renderedWidth := 0)
  }

  function End(s: Spinner): Spinner {
    if s.active > 1 then s.(active := s.active - 1)
    else Clear(s).(active := 0, message := "", isWaiting := false, turnStartedAt := None)
  }

  function Suspend(s: Spinner): Spinner {
    Clear(s).(suspended := true)
  }

  function Resume(s: Spinner): Spinner {
    s.(suspended := false)
  }

  /** How many rotation steps a waiting label is into its wait. */
  function RotationStep(s: Spinner, now: nat): nat {
    if now < s.waitingSince then 0 else (now - s.waitingSince) / ROTATION_INTERVAL
  }

  function CurrentMessage(s: Spinner, now: nat): Label {
    if s.message == "" || !s.isWaiting || RotationStep(s, now) == 0 then s.message
    else
      var k := RotationStep(s, now) - 1;
      WAITING_ROTATION[if k < |WAITING_ROTATION| then k else |WAITING_ROTATION| - 1]
  }

  function WithElapsed(s: Spinner, message: Label, now: nat): Label {
    if message == "" || s.turnStartedAt.None? || now < s.turnStartedAt.value + ELAPSED_THRESHOLD then message
    else message + " (" + Decimal((now - s.turnStartedAt.value) / 1000) + "s)"
  }

  function Frame(s: Spinner, now: nat): Label {
    var display := WithElapsed(s, CurrentMessage(s, now), now);
    var glyph := INDENT + [FRAMES[s.frameIndex % |FRAMES|]];
    assert IsPrintable(glyph) by { assert forall c | c in FRAMES :: c != '\r' && c != '\n'; }
    if display == "" then glyph else glyph + " " + display
  }

  function Draw(s: Spinner, now: nat): Spinner {
    var plain := Frame(s, now);
    var padding := if s.renderedWidth > |plain| then s.renderedWidth - |plain| else 0;
    s.(stream := s.stream + ("\r" + plain + Blanks(padding)), renderedWidth := |plain|, frameIndex := s.frameIndex + 1)
  }

  /** One round of the render thread. */
  function Render(s: Spinner, now: nat): Spinner {
    if s.active > 0 && !s.suspended then Draw(s, now) else Clear(s)
  }

  datatype Event =
    | BeginEvent(message: Label, now: nat)
    | UpdateEvent(message: Label, now: nat)
    | EndEvent
    | SuspendEvent
    | ResumeEvent
    | RenderEvent(now: nat)
    | Elsewhere(text: string)

  function Apply(s: Spinner, e: Event): Spinner {
    match e
    case BeginEvent(message, now) => Begin(s, message, now)
    case UpdateEvent(message, now) => Update(s, message, now)
    case EndEvent => End(s)
    case SuspendEvent => Suspend(s)
    case ResumeEvent => Resume(s)
    case RenderEvent(now) => Render(s, now)
    case Elsewhere(text) => s.(stream := s.stream + text)
  }

  function Run(s: Spinner, events: seq<Event>): Spinner {
    if events == [] then s else Apply(Run(s, events[..|events| - 1]), events[|events| - 1])
  }

  /** What `suspend` asks of the rest of the console: it writes only while the renderer is
      suspended, and leaves a fresh line for it to resume on. */
  predicate IsCourteous(s: Spinner, e: Event) {
    && (e.Elsewhere? ==> s.suspended)
    && (e.ResumeEvent? && s.suspended ==> IsFresh(Screen(s)))
  }

  ghost predicate AllCourteous(s: Spinner, events: seq<Event>) {
    events == [] ||
    (var front := events[..|events| - 1];
     AllCourteous(s, front) && IsCourteous(Run(s, front), events[|events| - 1]))
  }

  /** Whoever ends what it writes with a line feed leaves a fresh line. */
  lemma WholeLinesAreCourteous(s: Spinner, text: string)
    ensures IsFresh(Screen(Apply(s, Elsewhere(text + "\n"))))
  {
    TypeInTwo(EMPTY, s.stream, text + "\n");
    TypeInTwo(Screen(s), text, "\n");
    assert "\n"[..0] == "";
  }

  /** Nothing is left on the line past what the renderer remembers drawing. */
  ghost predicate Tidy(s: Spinner) {
    && (s.suspended ==> s.renderedWidth == 0)
    && (!s.suspended ==> BlankFrom(Screen(s), s.renderedWidth))
    && (!s.suspended && s.renderedWidth == 0 ==> Screen(s).cursor == 0)
    && (s.isWaiting <==> s.message in WAITING_LABELS)
    && (s.turnStartedAt.Some? <==> s.active > 0)
    && (s.active == 0 ==> s.message == "")
  }

  lemma ClearLeavesFresh(s: Spinner)
    requires Tidy(s)
    ensures Tidy(Clear(s)) && Clear(s).renderedWidth == 0
    ensures !s.suspended ==> IsFresh(Screen(Clear(s)))
  {
    if s.renderedWidth != 0 {
      TypeInTwo(EMPTY, s.stream, "\r" + Blanks(s.renderedWidth) + "\r");
      WipeLeavesFresh(Screen(s), s.renderedWidth);
    }
  }

  /** After a drawn frame the line reads exactly as that frame, whatever was on it before. */
  lemma DrawShowsFrame(s: Spinner, now: nat)
    requires Tidy(s) && s.active > 0 && !s.suspended
    ensures Tidy(Render(s, now)) && Shows(Screen(Render(s, now)), Frame(s, now))
  {
    var plain := Frame(s, now);
    var padding := if s.renderedWidth > |plain| then s.renderedWidth - |plain| else 0;
    TypeInTwo(EMPTY, s.stream, "\r" + plain + Blanks(padding));
    RedrawShows(Screen(s), plain, s.renderedWidth);
  }

  lemma ApplyKeepsTidy(s: Spinner, e: Event)
    requires Tidy(s) && IsCourteous(s, e)
    ensures Tidy(Apply(s, e))
  {
    match e
    case BeginEvent(message, now) => assert Screen(Apply(s, e)) == Screen(s);
    case UpdateEvent(message, now) => assert Screen(Apply(s, e)) == Screen(s);
    case EndEvent => ClearLeavesFresh(s);
    case SuspendEvent => ClearLeavesFresh(s);
    case ResumeEvent =>
    case RenderEvent(now) =>
      ClearLeavesFresh(s);
      if s.active > 0 && !s.suspended {
        DrawShowsFrame(s, now);
      }
    case Elsewhere(text) =>
  }

  /** Over any courteous run from a fresh line, the line stays tidy; it is blank the moment the
      last operation in flight ends or the renderer is suspended, and reads as the frame just
      drawn after any other render round. */
  lemma {:induction false} RunsStayTidy(s: Spinner, events: seq<Event>)
    requires Tidy(s) && AllCourteous(s, events)
    ensures Tidy(Run(s, events))
    ensures events != [] ==>
              var before, last := Run(s, events[..|events| - 1]), events[|events| - 1];
              && ((last.EndEvent? && Run(s, events).active == 0) || last.SuspendEvent? ==>
                    !before.suspended ==> IsFresh(Screen(Run(s, events))))
              && (last.RenderEvent? && !before.suspended ==>
                    Shows(Screen(Run(s, events)), if before.active > 0 then Frame(before, last.now) else ""))
  {
    if events != [] {
      var front, last := events[..|events| - 1], events[|events| - 1];
      RunsStayTidy(s, front);
      ApplyKeepsTidy(Run(s, front), last);
      ClearLeavesFresh(Run(s, front));
      if last.RenderEvent? && !Run(s, front).suspended && Run(s, front).active > 0 {
        DrawShowsFrame(Run(s, front), last.now);
      }
    }
  }

  /** The renderer alone leaves a fresh line behind when it is suspended. */
  ghost predicate TidyAlone(s: Spinner) {
    Tidy(s) && (s.suspended ==> IsFresh(Screen(s)))
  }

  lemma ApplyKeepsTidyAlone(s: Spinner, e: Event)
    requires TidyAlone(s) && !e.Elsewhere?
    ensures TidyAlone(Apply(s, e))
  {
    ApplyKeepsTidy(s, e);
    match e
    case BeginEvent(_, _) => assert Screen(Apply(s, e)) == Screen(s);
    case UpdateEvent(_, _) => assert Screen(Apply(s, e)) == Screen(s);
    case EndEvent => ClearLeavesFresh(s);
    case SuspendEvent => ClearLeavesFresh(s);
    case RenderEvent(_) => ClearLeavesFresh(s);
    case _ =>
  }

  /** Where only the renderer writes, every resume finds a fresh line by itself. */
  lemma {:induction false} AloneIsCourteous(s: Spinner, events: seq<Event>)
    requires TidyAlone(s) && forall e | e in events :: !e.Elsewhere?
    ensures AllCourteous(s, events) && TidyAlone(Run(s, events))
  {
    if events != [] {
      var front, last := events[..|events| - 1], events[|events| - 1];
      assert last in events;
      AloneIsCourteous(s, front);
      ApplyKeepsTidyAlone(Run(s, front), last);
    }
  }

  lemma SuspendedStaysFresh(s: Spinner, e: Event)
    requires TidyAlone(s)
    ensures s.suspended && (e.EndEvent? || e.SuspendEvent?) ==> IsFresh(Screen(Apply(s, e)))
    ensures s.suspended && e.RenderEvent? ==> Shows(Screen(Apply(s, e)), "")
  {
    if s.suspended && (e.EndEvent? || e.SuspendEvent? || e.RenderEvent?) {
      assert Apply(s, e).stream == s.stream;
    }
  }

  /** Over any run at all in which only the renderer writes: cells at or beyond the rendered width
      are blank; the line is fresh whenever it is suspended, and the moment the last operation ends
      or a suspension begins; after a render round it reads as the frame drawn, or is blank. */
  lemma AloneStaysTidy(s: Spinner, events: seq<Event>)
    requires TidyAlone(s) && forall e | e in events :: !e.Elsewhere?
    ensures BlankFrom(Screen(Run(s, events)), Run(s, events).renderedWidth)
    ensures Run(s, events).suspended ==> Run(s, events).renderedWidth == 0 && IsFresh(Screen(Run(s, events)))
    ensures events != [] ==>
              var before, last := Run(s, events[..|events| - 1]), events[|events| - 1];
              && ((last.EndEvent? && Run(s, events).active == 0) || last.SuspendEvent? ==>
                    IsFresh(Screen(Run(s, events))))
              && (last.RenderEvent? ==>
                    Shows(Screen(Run(s, events)),
                          if before.active > 0 && !before.suspended then Frame(before, last.now) else ""))
  {
    AloneIsCourteous(s, events);
    RunsStayTidy(s, events);
    if events != [] {
      AloneIsCourteous(s, events[..|events| - 1]);
      SuspendedStaysFresh(Run(s, events[..|events| - 1]), events[|events| - 1]);
    }
  }

  /** What the rest of the console wrote during a run. */
  function WrittenElsewhere(events: seq<Event>): string {
    if events == [] then ""
    else
      var last := events[|events| - 1];
      WrittenElsewhere(events[..|events| - 1]) + if last.Elsewhere? then last.text else ""
  }

  lemma SuspendedStep(s: Spinner, e: Event)
    requires s.suspended && s.renderedWidth == 0 && e != ResumeEvent
    ensures Apply(s, e).suspended && Apply(s, e).renderedWidth == 0
    ensures Apply(s, e).stream == s.stream + if e.Elsewhere? then e.text else ""
  {
  }

  /** From suspension until the next resume, the stream gets what others write and nothing else. */
  lemma {:induction false} SuspendedWritesNothing(s: Spinner, events: seq<Event>)
    requires Tidy(s) && s.suspended && ResumeEvent !in events
    ensures Run(s, events).stream == s.stream + WrittenElsewhere(events)
    ensures Run(s, events).suspended && Run(s, events).renderedWidth == 0
  {
    if events != [] {
      SuspendedWritesNothing(s, events[..|events| - 1]);
      SuspendedStep(Run(s, events[..|events| - 1]), events[|events| - 1]);
    }
  }

  predicate IsGeneric(e: Event) {
    (e.BeginEvent? || e.UpdateEvent?) ==> e.message in WAITING_LABELS
  }

  /** The operations in flight never run out during the run. */
  predicate StaysBusy(s: Spinner, events: seq<Event>) {
    Run(s, events).active > 0 && (events == [] || StaysBusy(s, events[..|events| - 1]))
  }

  /** Where the shown phrase stands: 0 for the label itself, k for the k-th rotation phrase. */
  function Place(s: Spinner, now: nat): nat {
    if RotationStep(s, now) < |WAITING_ROTATION| then RotationStep(s, now) else |WAITING_ROTATION|
  }

  /** Within one turn the clock the elapsed time is counted from never moves. While labels stay
      generic, neither does the start of the wait. */
  lemma {:induction false} ClocksStand(s: Spinner, events: seq<Event>)
    requires StaysBusy(s, events)
    ensures Run(s, events).turnStartedAt == s.turnStartedAt && Run(s, events).active > 0
    ensures s.isWaiting && s.message in WAITING_LABELS && (forall e | e in events :: IsGeneric(e)) ==>
              && Run(s, events).isWaiting && Run(s, events).message in WAITING_LABELS
              && Run(s, events).waitingSince == s.waitingSince
  {
    if events != [] {
      assert events[|events| - 1] in events;
      ClocksStand(s, events[..|events| - 1]);
    }
  }

  lemma StepsGrow(s: Spinner, r: Spinner, from: nat, until: nat)
    requires s.waitingSince == r.waitingSince && from <= until
    ensures RotationStep(s, from) <= RotationStep(r, until)
  {
    if from >= s.waitingSince {
      DivisionGrows(from - s.waitingSince, until - s.waitingSince);
    }
  }

  lemma DivisionGrows(a: nat, b: nat)
    requires a <= b
    ensures a / ROTATION_INTERVAL <= b / ROTATION_INTERVAL
  {
  }

  lemma PlaceGrows(s: Spinner, r: Spinner, from: nat, until: nat)
    requires s.waitingSince == r.waitingSince && from <= until
    ensures Place(s, from) <= Place(r, until)
  {
    StepsGrow(s, r, from, until);
  }

  lemma ShownAtPlace(s: Spinner, now: nat)
    requires s.isWaiting && s.message != ""
    ensures CurrentMessage(s, now) == if Place(s, now) == 0 then s.message else WAITING_ROTATION[Place(s, now) - 1]
  {
  }

  lemma GenericIsNotEmpty(message: Label)
    requires message in WAITING_LABELS
    ensures message != ""
  {
  }

  /** While every label is generic the shown phrase never steps back; past the first step it is
      the rotation phrase at its place, whichever generic label the wait is under. */
  lemma NeverStepsBack(s: Spinner, events: seq<Event>, from: nat, until: nat)
    requires Tidy(s) && s.isWaiting && StaysBusy(s, events) && from <= until
    requires forall e | e in events :: IsGeneric(e)
    ensures var r := Run(s, events);
            && Place(s, from) <= Place(r, until)
            && CurrentMessage(r, until)
                 == if Place(r, until) == 0 then r.message else WAITING_ROTATION[Place(r, until) - 1]
  {
    ClocksStand(s, events);
    var r := Run(s, events);
    PlaceGrows(s, r, from, until);
    GenericIsNotEmpty(r.message);
    ShownAtPlace(r, until);
  }

  /** The seconds appended to a label are those since the turn's first operation began, and they
      appear from ten seconds on, whatever labels and nested operations came in between. */
  lemma ElapsedCountsFromFirstBegin(s: Spinner, first: Label, began: nat, events: seq<Event>, message: Label, now: nat)
    requires s.active == 0 && StaysBusy(Begin(s, first, began), events) && began <= now && message != ""
    ensures var shown := WithElapsed(Run(Begin(s, first, began), events), message, now);
            if now - began < ELAPSED_THRESHOLD then shown == message
            else exists digits ::
              shown == message + " (" + digits + "s)" && DecimalValue(digits) == Some((now - began) / 1000)
  {
    var start := Begin(s, first, began);
    assert start.turnStartedAt == Some(began);
    ClocksStand(start, events);
    var digits := Decimal((now - began) / 1000);
    DecimalReadsBack((now - began) / 1000);
    assert now - began >= ELAPSED_THRESHOLD ==>
      WithElapsed(Run(start, events), message, now) == message + " (" + digits + "s)";
  }
  // ---------------------------------------------------------------------------
  // What the line says during a turn, in terms of the turn's events
  // ---------------------------------------------------------------------------

  /** The label given last. */
  function LastLabel(first: Label, events: seq<Event>): Label {
    if events == [] then first
    else
      match events[|events| - 1]
      case BeginEvent(text, _) => text
      case UpdateEvent(text, _) => text
      case _ => LastLabel(first, events[..|events| - 1])
  }

  /** Since when all labels given have been generic, if the last one is. */
  function WaitingFrom(first: Label, began: nat, events: seq<Event>): Option<nat> {
    if events == [] then if first in WAITING_LABELS then Some(began) else None
    else
      var before, last := WaitingFrom(first, began, events[..|events| - 1]), events[|events| - 1];
      if !last.BeginEvent? && !last.UpdateEvent? then before
      else if last.message !in WAITING_LABELS then None
      else if before.Some? then before
      else Some(last.now)
  }

  /** The phrase for a label that is given last: itself where it is concrete or the wait has lasted less
      than four seconds, and the k-th rotation phrase after k times four seconds, the tenth at most. */
  ghost predicate IsPhrase(phrase: string, lastLabel: Label, from: Option<nat>, now: nat) {
    if from.None? || now < from.value + 4000 then phrase == lastLabel
    else exists k | 1 <= k <= 10 ::
           && phrase == WAITING_ROTATION[k - 1] && from.value + 4000 * k <= now
           && (k < 10 ==> now < from.value + 4000 * (k + 1))
  }

  /** Nothing in the first ten seconds of a turn, then its age in whole seconds. */
  ghost predicate IsAge(age: string, began: nat, now: nat) {
    if now < began + 10000 then age == ""
    else exists digits ::
           age == " (" + digits + "s)" && DecimalValue(digits) == Some((now - began) / 1000)
  }

  lemma {:induction false} LabelsFollow(s: Spinner, first: Label, began: nat, events: seq<Event>)
    requires s.active == 0 && Tidy(s) && StaysBusy(Begin(s, first, began), events)
    ensures var r, from := Run(Begin(s, first, began), events), WaitingFrom(first, began, events);
            && r.message == LastLabel(first, events) && (r.isWaiting <==> from.Some?)
            && (from.Some? ==> r.waitingSince == from.value)
  {
    if events != [] {
      LabelsFollow(s, first, began, events[..|events| - 1]);
      LabelStep(Run(Begin(s, first, began), events[..|events| - 1]), events[|events| - 1]);
    }
  }

  lemma LabelStep(r: Spinner, e: Event)
    requires r.active > 0 && Apply(r, e).active > 0
    ensures var next := Apply(r, e);
            if !e.BeginEvent? && !e.UpdateEvent? then
              next.message == r.message && next.isWaiting == r.isWaiting && next.waitingSince == r.waitingSince
            else
              && next.message == e.message && next.isWaiting == (e.message in WAITING_LABELS)
              && (next.isWaiting ==> next.waitingSince == if r.isWaiting then r.waitingSince else e.now)
  {
  }

  lemma CurrentIsPhrase(s: Spinner, from: Option<nat>, now: nat)
    requires s.message != "" && (s.isWaiting <==> from.Some?) && (from.Some? ==> s.waitingSince == from.value)
    ensures IsPhrase(CurrentMessage(s, now), s.message, from, now)
  {
    if from.Some? && now >= from.value + 4000 {
      var steps := RotationStep(s, now);
      var k := if steps <= 10 then steps else 10;
      assert steps >= 1 && CurrentMessage(s, now) == WAITING_ROTATION[k - 1];
      assert from.value + 4000 * k <= now && (k < 10 ==> now < from.value + 4000 * (k + 1));
    }
  }

  lemma ElapsedIsAge(s: Spinner, message: Label, began: nat, now: nat) returns (age: string)
    requires s.turnStartedAt == Some(began) && began <= now && message != ""
    ensures WithElapsed(s, message, now) == message + age && IsAge(age, began, now)
  {
    if now < began + 10000 {
      age := "";
    } else {
      var digits := Decimal((now - began) / 1000);
      DecimalReadsBack((now - began) / 1000);
      age := " (" + digits + "s)";
      assert WithElapsed(s, message, now) == message + age;
    }
  }

  lemma PhrasesSay(phrase: string, lastLabel: Label, from: Option<nat>, now: nat)
    requires lastLabel != "" && IsPhrase(phrase, lastLabel, from, now)
    ensures phrase != ""
  {
  }

  /** During a turn, from the first operation on and whatever began, ended, was suspended or drawn in
      between, a round that draws leaves a line that reads: two blanks, a spinner glyph, a blank, the
      phrase for the label given last, and from ten seconds on the turn's age. */
  lemma TurnLineReads(s: Spinner, first: Label, began: nat, events: seq<Event>, now: nat)
    requires s.active == 0 && Tidy(s) && StaysBusy(Begin(s, first, began), events)
    requires AllCourteous(Begin(s, first, began), events) && !Run(Begin(s, first, began), events).suspended
    requires began <= now && LastLabel(first, events) != ""
    ensures var line := Screen(Render(Run(Begin(s, first, began), events), now));
            exists glyph, phrase, age ::
              && glyph in FRAMES && IsPhrase(phrase, LastLabel(first, events), WaitingFrom(first, began, events), now)
              && IsAge(age, began, now) && Shows(line, "  " + [glyph] + " " + phrase + age)
  {
    var start := Begin(s, first, began);
    var r, from := Run(start, events), WaitingFrom(first, began, events);
    ApplyKeepsTidy(s, BeginEvent(first, began));
    RunsStayTidy(start, events);
    ClocksStand(start, events);
    LabelsFollow(s, first, began, events);
    CurrentIsPhrase(r, from, now);
    var phrase, glyph := CurrentMessage(r, now), FRAMES[r.frameIndex % |FRAMES|];
    PhrasesSay(phrase, r.message, from, now);
    var age := ElapsedIsAge(r, phrase, began, now);
    DrawShowsFrame(r, now);
    assert Frame(r, now) == "  " + [glyph] + " " + phrase + age;
    assert glyph in FRAMES;
  }

  /** The glyphs follow one another: every drawn frame takes the next. */
  lemma GlyphsTurn(s: Spinner, now: nat)
    ensures s.active > 0 && !s.suspended ==>
              && |Frame(s, now)| >= 3 && Frame(s, now)[2] == FRAMES[s.frameIndex % 10]
              && Render(s, now).frameIndex == s.frameIndex + 1
  {
  }
}

/** The renderer whose locked state the model above describes. */
module SpinnerRenderers {
  import opened Options
  import opened TerminalLines
  import opened SpinnerLines
  import S = SpinnerLines

  class SpinnerProgressRenderer {
    var active: nat
    var message: Label
    var isWaiting: bool
    var waitingSince: nat
    var turnStartedAt: Option<nat>
    var renderedWidth: nat
    var frameIndex: nat
    var suspended: bool
    var stream: string

    constructor (written: string)
      ensures State() == Spinner(0, "", false, 0, None, 0, 0, false, written)
      ensures IsFresh(Type(EMPTY, written)) ==> TidyAlone(State())
    {
      active, message, isWaiting, waitingSince, turnStartedAt := 0, "", false, 0, None;
      renderedWidth, frameIndex, suspended, stream := 0, 0, false, written;
    }

    function State(): Spinner
      reads this
    {
      Spinner(active, message, isWaiting, waitingSince, turnStartedAt, renderedWidth, frameIndex, suspended, stream)
    }

    method Begin(text: Label, now: nat)
      modifies this
      ensures State() == S.Begin(old(State()), text, now) == S.Apply(old(State()), S.BeginEvent(text, now))
      ensures active == old(active) + 1 && message == text && stream == old(stream)
      ensures turnStartedAt == if old(active) == 0 then Some(now) else old(turnStartedAt)
      ensures isWaiting == (text in WAITING_LABELS)
      ensures waitingSince == if isWaiting && !old(isWaiting) then now else old(waitingSince)
    {
      if active == 0 {
        turnStartedAt := Some(now);
      }
      active := active + 1;
      SetMessageLocked(text, now);
    }

    method Update(text: Label, now: nat)
      modifies this
      ensures State() == S.Update(old(State()), text, now) == S.Apply(old(State()), S.UpdateEvent(text, now))
      ensures active == old(active) && turnStartedAt == old(turnStartedAt) && stream == old(stream)
      ensures active == 0 ==> State() == old(State())
      ensures active > 0 ==> message == text && isWaiting == (text in WAITING_LABELS)
      ensures active > 0 ==> waitingSince == if isWaiting && !old(isWaiting) then now else old(waitingSince)
    {
      if active > 0 {
        SetMessageLocked(text, now);
      }
    }

    method End()
      modifies this
      ensures State() == S.End(old(State())) == S.Apply(old(State()), S.EndEvent)
      ensures active == (if old(active) == 0 then 0 else old(active) - 1) && suspended == old(suspended)
      ensures active > 0 ==> State() == old(State()).(active := active)
      ensures active == 0 ==> message == "" && !isWaiting && turnStartedAt == None && renderedWidth == 0
    {
      active := if active > 0 then active - 1 else 0;
      if active == 0 {
        ClearLocked();
        message, isWaiting, turnStartedAt := "", false, None;
      }
    }

    method SetMessageLocked(text: Label, now: nat)
      modifies this
      ensures State() == S.SetMessage(old(State()), text, now)
      ensures message == text && isWaiting == (text in WAITING_LABELS)
      ensures waitingSince == if isWaiting && !old(isWaiting) then now else old(waitingSince)
    {
      var waiting := text in WAITING_LABELS;
      message := text;
      if waiting && isWaiting {
        return;
      }
      isWaiting := waiting;
      if waiting {
        waitingSince := now;
      }
    }

    method ClearLocked()
      modifies this
      ensures State() == S.Clear(old(State())) && renderedWidth == 0
      ensures stream == old(stream) + if old(renderedWidth) == 0 then ""
                                      else "\r" + seq(old(renderedWidth), _ => ' ') + "\r"
    {
      if renderedWidth != 0 {
        stream := stream + ("\r" + Blanks(renderedWidth) + "\r");
        renderedWidth := 0;
      }
    }

    method DrawLocked(now: nat)
      modifies this
      ensures State() == S.Draw(old(State()), now)
    {
      var plain := Frame(State(), now);
      var padding := if renderedWidth > |plain| then renderedWidth - |plain| else 0;
      stream := stream + ("\r" + plain + Blanks(padding));
      renderedWidth := |plain|;
      frameIndex := frameIndex + 1;
    }

    /** One round of the render loop. */
    method Render(now: nat)
      modifies this
      ensures State() == S.Render(old(State()), now) == S.Apply(old(State()), S.RenderEvent(now))
    {
      if active > 0 && !suspended {
        DrawLocked(now);
      } else {
        ClearLocked();
      }
    }

    method Suspend()
      modifies this
      ensures State() == S.Suspend(old(State())) == S.Apply(old(State()), S.SuspendEvent)
      ensures suspended && renderedWidth == 0 && active == old(active) && message == old(message)
    {
      suspended := true;
      ClearLocked();
    }

    method Resume()
      modifies this
      ensures State() == S.Resume(old(State())) == S.Apply(old(State()), S.ResumeEvent)
      ensures State() == old(State()).(suspended := false)
    {
      suspended := false;
    }
  }
}

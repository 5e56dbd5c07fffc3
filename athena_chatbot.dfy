/** The earlier command-line assistant: its own time record, the time-of-day and day phrases
    of its system prompt, the context refresh, the prepend-only system message and the
    command loop. */
module Chatbot {
  import opened Wrappers
  import opened Strings
  import opened ContextUtils
  import opened Messages

  /** This file's own `get_current_time_and_date`: the same flags as the context utilities,
      without the holiday, season and school-year fields. */
  datatype BasicTimeInfo = BasicTimeInfo(
    currentDate: string, currentTime: string, timezone: string,
    dayOfWeek: string, month: string, year: string,
    isWeekend: bool, isWeekday: bool, hour: Hour,
    isMorning: bool, isAfternoon: bool, isEvening: bool, isNight: bool)

  function BasicTimeAndDate(c: Clock): (t: BasicTimeInfo)
    ensures ExactlyOne(t.isMorning, t.isAfternoon, t.isEvening, t.isNight)
    ensures t.isNight <==> BucketOf(c.hour) == Night
  {
    BasicTimeInfo(
      c.dateText, c.timeText, "Local Time", c.dayName, c.monthName, c.yearText,
      c.weekday >= 5, c.weekday < 5, c.hour,
      5 <= c.hour < 12, 12 <= c.hour < 17, 17 <= c.hour < 21, c.hour >= 21 || c.hour < 5)
  }

  /** The two copies of the time record agree on every field they share. */
  lemma BasicAgreesWithContextUtils(c: Clock)
    ensures var b := BasicTimeAndDate(c);
      var t := CurrentTimeAndDate(c);
      && b.currentDate == t.currentDate && b.currentTime == t.currentTime
      && b.timezone == t.timezone && b.dayOfWeek == t.dayOfWeek
      && b.month == t.month && b.year == t.year && b.hour == t.hour
      && b.isWeekend == t.isWeekend && b.isWeekday == t.isWeekday
      && b.isMorning == t.isMorning && b.isAfternoon == t.isAfternoon
      && b.isEvening == t.isEvening && b.isNight == t.isNight
  {
  }

  const MorningPhrase: string := "It's morning - perfect for planning the day ahead!"
  const AfternoonPhrase: string := "It's afternoon - great time to check on daily progress!"
  const EveningPhrase: string := "It's evening - ideal for family dinner planning and evening activities!"
  const NightPhrase: string := "It's late - time to wind down and plan for tomorrow!"
  const WeekendPhrase: string := "It's the weekend - perfect for family activities and relaxation!"
  const WeekdayPhrase: string := "It's a weekday - time for school, work, and structured activities!"

  /** The time-of-day phrase of the system prompt; the late phrase is the fall-through. */
  function TimeContext(t: BasicTimeInfo): (phrase: string)
    ensures phrase in {MorningPhrase, AfternoonPhrase, EveningPhrase, NightPhrase}
    ensures phrase == NightPhrase <==> !t.isMorning && !t.isAfternoon && !t.isEvening
  {
    if t.isMorning then MorningPhrase
    else if t.isAfternoon then AfternoonPhrase
    else if t.isEvening then EveningPhrase
    else NightPhrase
  }

  /** Reference table: the phrase belonging to each part of the day. */
  function BucketPhrase(b: Bucket): string {
    match b
    case Morning => MorningPhrase
    case Afternoon => AfternoonPhrase
    case Evening => EveningPhrase
    case Night => NightPhrase
  }

  /** On a real clock reading the phrase is the one of the hour's part of the day, and the four
      phrases are distinct, so exactly one of them is chosen. */
  lemma TimeContextByBucket(c: Clock)
    ensures TimeContext(BasicTimeAndDate(c)) == BucketPhrase(BucketOf(c.hour))
    ensures forall b1, b2 :: BucketPhrase(b1) == BucketPhrase(b2) ==> b1 == b2
  {
    assert |MorningPhrase| == 50 && |AfternoonPhrase| == 55 && |EveningPhrase| == 71 && |NightPhrase| == 52;
  }

  /** The day phrase of the system prompt. */
  function DayContext(t: BasicTimeInfo): (phrase: string)
    ensures phrase == WeekendPhrase <==> t.isWeekend
    ensures phrase == WeekdayPhrase <==> !t.isWeekend
  {
    assert |WeekendPhrase| == 64 && |WeekdayPhrase| == 66;
    if t.isWeekend then WeekendPhrase else WeekdayPhrase
  }

  /** The history as sent to the model: a system message is put in front only when the
      history is empty or does not start with one; an existing one is kept. */
  function PrependSystemIfMissing(msgs: seq<Message>, prompt: string): (r: seq<Message>)
    ensures |msgs| > 0 && msgs[0].SystemMessage? ==> r == msgs
    ensures !(|msgs| > 0 && msgs[0].SystemMessage?) ==> r == [SystemMessage(prompt)] + msgs
  {
    if |msgs| == 0 || !msgs[0].SystemMessage? then [SystemMessage(prompt)] + msgs else msgs
  }

  /** Two successive turns (see `ChatState.Turn`, which sends `PrependSystemIfMissing` of the
      history and does not store what it sent): when the history already starts with a system
      message, the first turn sends the history as it is and the second sends the grown history
      `msgs + later`, still led by that same message, whatever the two prompts are. */
  lemma FirstPromptStays(msgs: seq<Message>, later: seq<Message>, p1: string, p2: string)
    requires |msgs| > 0 && msgs[0].SystemMessage?
    ensures PrependSystemIfMissing(msgs, p1) == msgs
    ensures PrependSystemIfMissing(msgs + later, p2) == msgs + later
    ensures PrependSystemIfMissing(msgs + later, p2)[0] == msgs[0]
  {
  }

  /** Two successive turns on a history without a leading system message, where the turns in
      between only added replies and user lines: the prepended prompt is not stored, so every
      turn puts its own current prompt in front. */
  lemma PromptPrependedEachTurn(msgs: seq<Message>, later: seq<Message>, p1: string, p2: string)
    requires |msgs| == 0 || !msgs[0].SystemMessage?
    requires forall j :: 0 <= j < |later| ==> !later[j].SystemMessage?
    ensures PrependSystemIfMissing(msgs, p1) == [SystemMessage(p1)] + msgs
    ensures PrependSystemIfMissing(msgs + later, p2) == [SystemMessage(p2)] + msgs + later
  {
    if |msgs| == 0 && |later| > 0 {
      assert (msgs + later)[0] == later[0];
    }
  }

  datatype ContextValue = Time(time: BasicTimeInfo) | Stamp(iso: string) | Other(repr: string)

  /** The conversation state of this assistant: its history and its context dictionary. */
  class ChatState {
    var messages: seq<Message>
    var context: map<string, ContextValue>

    constructor (msgs: seq<Message>, ctx: map<string, ContextValue>)
      ensures messages == msgs && context == ctx
    {
      messages := msgs;
      context := ctx;
    }

    /** `update_context`: overwrite "time" and "last_updated" in the state's own dictionary
        and hand the dictionary back. */
    method UpdateContext(c: Clock, nowIso: string) returns (update: map<string, ContextValue>)
      modifies this
      ensures messages == old(messages)
      ensures context == old(context)["time" := Time(BasicTimeAndDate(c))]["last_updated" := Stamp(nowIso)]
      ensures context.Keys == old(context).Keys + {"time", "last_updated"}
      ensures forall k :: k in old(context) && k != "time" && k != "last_updated" ==>
        context[k] == old(context)[k]
      ensures update == context
    {
      context := context["time" := Time(BasicTimeAndDate(c))];
      context := context["last_updated" := Stamp(nowIso)];
      update := context;
    }

    /** `chatbot` (with or without the search tool): refresh the context, then send the
        history with the system prompt put in front if it is missing. The prompt text and the
        model's reply (or the fact that the call raised) are inputs; a raising call gives no
        update and leaves the refreshed context in place. */
    method Turn(c: Clock, nowIso: string, systemPrompt: string, reply: Call<Content>)
      returns (sent: seq<Message>, newMessages: Call<seq<Message>>)
      modifies this
      ensures messages == old(messages)
      ensures context == old(context)["time" := Time(BasicTimeAndDate(c))]["last_updated" := Stamp(nowIso)]
      ensures sent == PrependSystemIfMissing(old(messages), systemPrompt)
      ensures reply.Raised? ==> newMessages.Raised?
      ensures reply.Returned? ==> newMessages == Returned([AIMessage(reply.value)])
    {
      var _ := UpdateContext(c, nowIso);
      sent := messages;
      if |sent| == 0 || !sent[0].SystemMessage? {
        sent := [SystemMessage(systemPrompt)] + sent;
      }
      newMessages := match reply
        case Raised => Raised
        case Returned(response) => Returned([AIMessage(response)]);
    }
  }

  // ---------------------------------------------------------------------------------------
  // The command loop

  datatype Command = Quit | NewThread | ShowMemory | Chat

  /** What one line typed at the prompt does, decided on its lower-cased form. */
  function Classify(input: string): (cmd: Command)
    ensures cmd == Quit <==> Lower(input) in ["quit", "exit", "q"]
    ensures cmd == NewThread <==> Lower(input) == "new"
    ensures cmd == ShowMemory <==> Lower(input) == "memory"
  {
    var lowered := Lower(input);
    if lowered in ["quit", "exit", "q"] then Quit
    else if lowered == "new" then NewThread
    else if lowered == "memory" then ShowMemory
    else Chat
  }

  /** Lower-casing twice is lower-casing once, so the command does not depend on case. */
  lemma ClassifyIgnoresCase(input: string)
    ensures Classify(Lower(input)) == Classify(input)
  {
    assert Lower(Lower(input)) == Lower(input);
  }

  /** What the loop does, line by line: sends a line to the assistant on a thread, starts a
      new thread, or reports the stored state of a thread. */
  datatype Event = Forwarded(threadId: string, input: string) | ThreadStarted(threadId: string) | MemoryReported(threadId: string)

  /** The events of the session that reads `inputs` on thread `thread`, where `newId(k)` is the
      k-th fresh thread id. Reading stops at the first quit command. */
  function Session(inputs: seq<string>, thread: string, next: nat, newId: nat -> string): (events: seq<Event>)
    ensures |events| <= |inputs|
    ensures events == [] <==> inputs == [] || Classify(inputs[0]) == Quit
    ensures forall k :: 0 <= k < |events| && events[k].Forwarded? ==> events[k].input in inputs
    decreases |inputs|
  {
    if inputs == [] then []
    else match Classify(inputs[0])
      case Quit => []
      case NewThread => [ThreadStarted(newId(next))] + Session(inputs[1..], newId(next), next + 1, newId)
      case ShowMemory => [MemoryReported(thread)] + Session(inputs[1..], thread, next, newId)
      case Chat => [Forwarded(thread, inputs[0])] + Session(inputs[1..], thread, next, newId)
  }

  /** `run_chatbot` over the lines the user types: a fresh thread id is drawn first and again
      at every `new`. */
  method RunChatbot(inputs: seq<string>, newId: nat -> string) returns (events: seq<Event>)
    ensures events == Session(inputs, newId(0), 1, newId)
  {
    var threadId := newId(0);
    var next := 1;
    events := [];
    ghost var total := Session(inputs, newId(0), 1, newId);
    var i := 0;
    assert inputs[0..] == inputs;
    assert events + Session(inputs[0..], threadId, next, newId) == total;
    while i < |inputs|
      invariant 0 <= i <= |inputs|
      invariant events + Session(inputs[i..], threadId, next, newId) == total
    {
      var userInput := inputs[i];
      ghost var here := Session(inputs[i..], threadId, next, newId);
      assert inputs[i..][1..] == inputs[i + 1..];
      assert inputs[i..][0] == userInput;
      var lowered := Lower(userInput);
      if lowered in ["quit", "exit", "q"] {
        assert here == [];
        return;
      } else if lowered == "new" {
        assert here == [ThreadStarted(newId(next))] + Session(inputs[i + 1..], newId(next), next + 1, newId);
        threadId := newId(next);
        next := next + 1;
        AppendStep(events, ThreadStarted(threadId), Session(inputs[i + 1..], threadId, next, newId), here);
        events := events + [ThreadStarted(threadId)];
      } else if lowered == "memory" {
        assert here == [MemoryReported(threadId)] + Session(inputs[i + 1..], threadId, next, newId);
        AppendStep(events, MemoryReported(threadId), Session(inputs[i + 1..], threadId, next, newId), here);
        events := events + [MemoryReported(threadId)];
      } else {
        assert here == [Forwarded(threadId, userInput)] + Session(inputs[i + 1..], threadId, next, newId);
        AppendStep(events, Forwarded(threadId, userInput), Session(inputs[i + 1..], threadId, next, newId), here);
        events := events + [Forwarded(threadId, userInput)];
      }
      i := i + 1;
    }
    assert inputs[i..] == [];
  }

  lemma AppendStep(events: seq<Event>, e: Event, rest: seq<Event>, here: seq<Event>)
    requires here == [e] + rest
    ensures (events + [e]) + rest == events + here
  {
  }

  /** No command word is ever sent to the assistant. */
  lemma {:induction false} OnlyChatForwarded(inputs: seq<string>, thread: string, next: nat, newId: nat -> string, k: nat)
    requires k < |Session(inputs, thread, next, newId)|
    requires Session(inputs, thread, next, newId)[k].Forwarded?
    ensures Classify(Session(inputs, thread, next, newId)[k].input) == Chat
    decreases |inputs|
  {
    var s := Session(inputs, thread, next, newId);
    match Classify(inputs[0])
    case Quit =>
    case NewThread =>
      if k > 0 { OnlyChatForwarded(inputs[1..], newId(next), next + 1, newId, k - 1); }
    case ShowMemory =>
      if k > 0 { OnlyChatForwarded(inputs[1..], thread, next, newId, k - 1); }
    case Chat =>
      if k > 0 { OnlyChatForwarded(inputs[1..], thread, next, newId, k - 1); }
  }

  /** Nothing typed after a quit command has any effect. */
  lemma {:induction false} QuitEndsSession(inputs: seq<string>, rest: seq<string>, quit: string,
                                           thread: string, next: nat, newId: nat -> string)
    requires Classify(quit) == Quit
    ensures Session(inputs + [quit] + rest, thread, next, newId) == Session(inputs, thread, next, newId)
    decreases |inputs|
  {
    if inputs == [] {
      assert inputs + [quit] + rest == [quit] + rest;
    } else {
      assert (inputs + [quit] + rest)[0] == inputs[0];
      assert (inputs + [quit] + rest)[1..] == inputs[1..] + [quit] + rest;
      match Classify(inputs[0])
      case Quit =>
      case NewThread => QuitEndsSession(inputs[1..], rest, quit, newId(next), next + 1, newId);
      case ShowMemory => QuitEndsSession(inputs[1..], rest, quit, thread, next, newId);
      case Chat => QuitEndsSession(inputs[1..], rest, quit, thread, next, newId);
    }
  }

  /** The number of `new` commands among `lines`. */
  function NewCount(lines: seq<string>): (k: nat)
    ensures k <= |lines|
    ensures k == 0 <==> forall j :: 0 <= j < |lines| ==> Classify(lines[j]) != NewThread
    decreases |lines|
  {
    if lines == [] then 0
    else (if Classify(lines[0]) == NewThread then 1 else 0) + NewCount(lines[1..])
  }

  /** The thread in effect and the next fresh-id index when line `i` is read. */
  function ThreadAt(inputs: seq<string>, thread: string, next: nat, newId: nat -> string, i: nat): (string, nat)
    requires i <= |inputs|
    decreases i
  {
    if i == 0 then (thread, next)
    else if Classify(inputs[0]) == NewThread then ThreadAt(inputs[1..], newId(next), next + 1, newId, i - 1)
    else ThreadAt(inputs[1..], thread, next, newId, i - 1)
  }

  /** The event a line that is not a quit command yields on thread `t` with next fresh index `n`. */
  function LineEvent(c: Command, line: string, t: string, n: nat, newId: nat -> string): Event {
    match c
    case NewThread => ThreadStarted(newId(n))
    case ShowMemory => MemoryReported(t)
    case _ => Forwarded(t, line)
  }

  /** Event `i` of the session is line `i`'s event on the thread in effect at that line. */
  lemma {:induction false} SessionAt(inputs: seq<string>, thread: string, next: nat, newId: nat -> string, i: nat)
    requires i < |inputs|
    requires forall j :: 0 <= j <= i ==> Classify(inputs[j]) != Quit
    ensures i < |Session(inputs, thread, next, newId)|
    ensures var tn := ThreadAt(inputs, thread, next, newId, i);
      Session(inputs, thread, next, newId)[i] == LineEvent(Classify(inputs[i]), inputs[i], tn.0, tn.1, newId)
    decreases i
  {
    assert Classify(inputs[0]) != Quit;
    if i > 0 {
      var rest := inputs[1..];
      forall j | 0 <= j <= i - 1
        ensures Classify(rest[j]) != Quit
      {
        assert rest[j] == inputs[j + 1];
      }
      assert rest[i - 1] == inputs[i];
      if Classify(inputs[0]) == NewThread {
        SessionAt(rest, newId(next), next + 1, newId, i - 1);
      } else {
        SessionAt(rest, thread, next, newId, i - 1);
      }
    }
  }

  /** The next fresh-id index at line `i` has moved on by one per `new` line before it. */
  lemma {:induction false} NextAtCount(inputs: seq<string>, thread: string, next: nat, newId: nat -> string, i: nat)
    requires i <= |inputs|
    ensures ThreadAt(inputs, thread, next, newId, i).1 == next + NewCount(inputs[..i])
    decreases i
  {
    if i == 0 {
      assert inputs[..0] == [];
    } else {
      var rest := inputs[1..];
      assert inputs[..i] == [inputs[0]] + rest[..i - 1];
      assert ([inputs[0]] + rest[..i - 1])[1..] == rest[..i - 1];
      if Classify(inputs[0]) == NewThread {
        NextAtCount(rest, newId(next), next + 1, newId, i - 1);
      } else {
        NextAtCount(rest, thread, next, newId, i - 1);
      }
    }
  }

  /** The thread in effect is the first one until a fresh id has been drawn, and afterwards
      the last id drawn. */
  lemma {:induction false} ThreadAtLastDrawn(inputs: seq<string>, thread: string, next: nat, newId: nat -> string, i: nat)
    requires i <= |inputs|
    ensures var tn := ThreadAt(inputs, thread, next, newId, i);
      tn.1 >= next && tn.0 == if tn.1 == next then thread else newId(tn.1 - 1)
    decreases i
  {
    if i > 0 {
      if Classify(inputs[0]) == NewThread {
        ThreadAtLastDrawn(inputs[1..], newId(next), next + 1, newId, i - 1);
      } else {
        ThreadAtLastDrawn(inputs[1..], thread, next, newId, i - 1);
      }
    }
  }

  /** Line `i`, typed before any quit command, yields event `i`. Its thread is the first one
      while no `new` has been typed before it, and otherwise the id drawn by the last `new`
      before it, the k-th fresh id for k `new` lines so far. A chat line is forwarded on that
      thread, `new` starts the next fresh thread, and `memory` reports on the current one. */
  lemma SessionLine(inputs: seq<string>, thread: string, next: nat, newId: nat -> string, i: nat)
    requires i < |inputs|
    requires forall j :: 0 <= j <= i ==> Classify(inputs[j]) != Quit
    ensures i < |Session(inputs, thread, next, newId)|
    ensures var k := NewCount(inputs[..i]);
      var t := if k == 0 then thread else newId(next + k - 1);
      var e := Session(inputs, thread, next, newId)[i];
      && (e == Forwarded(t, inputs[i]) <==> Classify(inputs[i]) == Chat)
      && (Classify(inputs[i]) == NewThread ==> e == ThreadStarted(newId(next + k)))
      && (Classify(inputs[i]) == ShowMemory ==> e == MemoryReported(t))
  {
    SessionAt(inputs, thread, next, newId, i);
    NextAtCount(inputs, thread, next, newId, i);
    ThreadAtLastDrawn(inputs, thread, next, newId, i);
    var tn := ThreadAt(inputs, thread, next, newId, i);
    var k := NewCount(inputs[..i]);
    var t := if k == 0 then thread else newId(next + k - 1);
    assert tn == (t, next + k);
    LineEventMeaning(Classify(inputs[i]), inputs[i], t, next + k, newId);
  }

  /** The event of a line that is not a quit command tells which command it was. */
  lemma LineEventMeaning(c: Command, line: string, t: string, n: nat, newId: nat -> string)
    requires c != Quit
    ensures LineEvent(c, line, t, n, newId) == Forwarded(t, line) <==> c == Chat
    ensures c == NewThread ==> LineEvent(c, line, t, n, newId) == ThreadStarted(newId(n))
    ensures c == ShowMemory ==> LineEvent(c, line, t, n, newId) == MemoryReported(t)
  {
  }

  /** A session without commands forwards every line, in order, on the first thread. */
  lemma {:induction false} PlainChatForwardsAll(inputs: seq<string>, thread: string, next: nat, newId: nat -> string)
    requires forall j :: 0 <= j < |inputs| ==> Classify(inputs[j]) == Chat
    ensures |Session(inputs, thread, next, newId)| == |inputs|
    ensures forall j :: 0 <= j < |inputs| ==>
      Session(inputs, thread, next, newId)[j] == Forwarded(thread, inputs[j])
    decreases |inputs|
  {
    if inputs != [] {
      PlainChatForwardsAll(inputs[1..], thread, next, newId);
    }
  }
}

/** The inbound half of a conversation: the listener that filters, renders,
    deduplicates and stores delivered samples, echoing them only when their
    conversation is in the foreground, and the receive loop's termination
    check. */
module Subscriber {
  import opened Globals

  /** What `take_next_sample` produced: nothing, or a sample together with
      its `valid_data` flag. */
  datatype SampleTake = TakeFailed | Taken(validData: bool, sample: UserChat)

  /** The listener's fields: the last stored line and the count of valid
      samples taken. */
  datatype SubState = SubState(lastReceived: string, samples: nat)

  /** The state after construction. */
  const Fresh := SubState("", 0)

  /** The history line for a received sample: the sender, `": "`, then
      the text. */
  function Render(sample: UserChat): (r: string)
    ensures |r| == |sample.username| + 2 + |sample.message|
    ensures r[..|sample.username|] == sample.username
    ensures r[|sample.username|..|sample.username| + 2] == ": "
    ensures r[|sample.username| + 2..] == sample.message
  {
    sample.username + ": " + sample.message
  }

  /** The console line for an echoed sample, stamped at `timestamp`: the
      sender, the stamp in parentheses, `": "`, then the text. */
  function EchoLine(sample: UserChat, timestamp: string): (r: string)
    ensures |r| == |sample.username| + |timestamp| + |sample.message| + 5
    ensures r[..|sample.username|] == sample.username && r[|sample.username|..|sample.username| + 2] == " ("
    ensures r[|sample.username| + 2..|sample.username| + 2 + |timestamp|] == timestamp
    ensures r[|r| - |sample.message| - 3..|r| - |sample.message|] == "): "
    ensures r[|r| - |sample.message|..] == sample.message
  {
    sample.username + " (" + timestamp + ")" + ": " + sample.message
  }

  /** The tab is on this subscriber's conversation. */
  predicate Echoes(tab: ChatTab, topic: string)
  {
    tab.mode == "in" && tab.topic == topic
  }

  /** A valid sample with both fields non-empty whose rendering differs from
      the last stored line: the only kind that reaches the history. */
  predicate Stores(take: SampleTake, last: string)
  {
    take.Taken? && take.validData && take.sample.username != "" && take.sample.message != ""
    && Render(take.sample) != last
  }

  datatype Delivery = Delivery(state: SubState, history: seq<string>, echoed: Option<string>)

  /** `on_data_available` for one take. */
  function ReceiveStep(s: SubState, history: seq<string>, tab: ChatTab, topic: string,
                       take: SampleTake, timestamp: string): (d: Delivery)
    // a failed take or an invalid sample changes nothing at all
    ensures !(take.Taken? && take.validData) ==> d == Delivery(s, history, None)
    // every valid sample is counted, including those that are then dropped
    ensures take.Taken? && take.validData ==> d.state.samples == s.samples + 1
    // append exactly the rendered line iff it differs from the last one stored
    ensures Stores(take, s.lastReceived) ==>
              d.history == history + [Render(take.sample)] && d.state.lastReceived == Render(take.sample)
    ensures !Stores(take, s.lastReceived) ==> d.history == history && d.state.lastReceived == s.lastReceived
    // echo exactly the stored lines of the foreground conversation
    ensures d.echoed.Some? <==> Stores(take, s.lastReceived) && Echoes(tab, topic)
    ensures d.echoed.Some? ==> d.echoed.value == EchoLine(take.sample, timestamp)
  {
    match take
    case TakeFailed => Delivery(s, history, None)
    case Taken(valid, sample) =>
      if !valid then Delivery(s, history, None)
      else
        var counted := s.(samples := s.samples + 1);
        if sample.username == "" || sample.message == "" then Delivery(counted, history, None)
        else
          var str := Render(sample);
          var echo := if Echoes(tab, topic) then Some(EchoLine(sample, timestamp)) else None;
          if s.lastReceived == "" then
            Delivery(counted.(lastReceived := str), history + [str], echo)
          else if s.lastReceived != str then
            Delivery(counted.(lastReceived := str), history + [str], echo)
          else
            Delivery(counted, history, None)
  }

  /** A run of deliveries in order; the echo of each is dropped. */
  function ReceiveAll(s: SubState, history: seq<string>, tab: ChatTab, topic: string,
                      takes: seq<SampleTake>): (d: Delivery)
    ensures |d.history| >= |history| && d.history[..|history|] == history
    decreases |takes|
  {
    if takes == [] then Delivery(s, history, None)
    else
      var first := ReceiveStep(s, history, tab, topic, takes[0], "");
      ReceiveAll(first.state, first.history, tab, topic, takes[1..])
  }

  ghost predicate NoAdjacentRepeats(lines: seq<string>)
  {
    forall i :: 0 < i < |lines| ==> lines[i - 1] != lines[i]
  }

  /** The lines a run of deliveries adds never repeat the line before them:
      the first differs from the last line stored before the run, each
      differs from its predecessor, and the last one stored is remembered. */
  lemma {:induction false} ReceivedLinesNeverRepeat(s: SubState, history: seq<string>, tab: ChatTab,
                                                    topic: string, takes: seq<SampleTake>)
    ensures var d := ReceiveAll(s, history, tab, topic, takes);
            var added := d.history[|history|..];
            && NoAdjacentRepeats(added)
            && (added == [] ==> d.state.lastReceived == s.lastReceived)
            && (added != [] ==> added[0] != s.lastReceived && added[|added| - 1] == d.state.lastReceived)
    decreases |takes|
  {
    if takes != [] {
      var first := ReceiveStep(s, history, tab, topic, takes[0], "");
      var d := ReceiveAll(s, history, tab, topic, takes);
      assert d == ReceiveAll(first.state, first.history, tab, topic, takes[1..]);
      ReceivedLinesNeverRepeat(first.state, first.history, tab, topic, takes[1..]);
      var rest := d.history[|first.history|..];
      var added := d.history[|history|..];
      if Stores(takes[0], s.lastReceived) {
        assert first.history == history + [Render(takes[0].sample)];
        assert added == [Render(takes[0].sample)] + rest;
        forall i | 0 < i < |added|
          ensures added[i - 1] != added[i]
        {
          if i > 1 {
            assert added[i - 1] == rest[i - 2] && added[i] == rest[i - 1];
          }
        }
      } else {
        assert first.history == history;
      }
    }
  }

  /** The same sample delivered twice in a row is stored at most once. */
  lemma DuplicateDeliveryStoredOnce(s: SubState, history: seq<string>, tab: ChatTab, topic: string,
                                    take: SampleTake)
    ensures ReceiveAll(s, history, tab, topic, [take, take]).history
         == ReceiveAll(s, history, tab, topic, [take]).history
  {
    var first := ReceiveStep(s, history, tab, topic, take, "");
    assert [take, take][1..] == [take];
    assert ReceiveAll(first.state, first.history, tab, topic, [take]).history == first.history;
  }

  /** For senders whose names hold no space, as the login reader guarantees,
      a rendered line determines the sender and the text. */
  lemma RenderDeterminesSample(a: UserChat, b: UserChat)
    requires ' ' !in a.username && ' ' !in b.username
    requires Render(a) == Render(b)
    ensures a.username == b.username && a.message == b.message
  {
    var r := Render(a);
    assert r[|a.username| + 1] == ' ';
    assert r[|b.username| + 1] == ' ';
    assert a.username == r[..|a.username|];
    assert b.username == r[..|b.username|];
    assert a.message == r[|a.username| + 2..];
    assert b.message == r[|b.username| + 2..];
  }

  /** `UserChatSubscriber` with its listener's fields. */
  class UserChatSubscriber {
    const topicName: string
    var lastReceived: string
    var samples: nat

    function State(): SubState
      reads this
    {
      SubState(lastReceived, samples)
    }

    constructor (topicName: string)
      ensures this.topicName == topicName && State() == Fresh
    {
      this.topicName := topicName;
      lastReceived := "";
      samples := 0;
    }

    method GetTopicName() returns (t: string)
      ensures t == topicName
    {
      t := topicName;
    }

    /** The listener's `on_data_available`: returns the conversation's new
        history and the line echoed to the console, if any. */
    method OnDataAvailable(take: SampleTake, history: seq<string>, tab: ChatTab, timestamp: string)
      returns (history': seq<string>, echoed: Option<string>)
      modifies this
      ensures Delivery(State(), history', echoed) == ReceiveStep(old(State()), history, tab, topicName, take, timestamp)
    {
      history', echoed := history, None;
      if take.Taken? && take.validData {
        samples := samples + 1;
        var sample := take.sample;
        if sample.username != "" && sample.message != "" {
          var str := Render(sample);
          if lastReceived == "" {
            if Echoes(tab, topicName) {
              echoed := Some(EchoLine(sample, timestamp));
            }
            history' := history + [str];
            lastReceived := str;
          } else if lastReceived != str {
            if Echoes(tab, topicName) {
              echoed := Some(EchoLine(sample, timestamp));
            }
            history' := history + [str];
            lastReceived := str;
          }
        }
      }
    }

    /** One poll of `run`: exit iff this subscriber's topic is signalled. */
    method RunTick(signal: seq<string>) returns (exit: bool)
      ensures exit <==> topicName in signal
    {
      exit := ShouldStop(signal);
    }

    predicate ShouldStop(signal: seq<string>)
    {
      PendingTermination(signal, topicName)
    }
  }
}

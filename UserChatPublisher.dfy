/** The outbound half of a conversation: the publisher's flags, its
    listener's presence transitions, the guarded `publish`, and one
    iteration of the send loop. */
module Publisher {
  import opened Globals

  /** A `PublicationMatchedStatus` event: the signed change of the matched
      reader count and the transport's total count. */
  datatype MatchedStatus = MatchedStatus(currentCountChange: int, totalCount: int)

  /** Everything the publisher and its listener update: `active` (accepting
      input), `status` (peer online), the listener's `matched_`, and the index
      and message of the sample it writes. */
  datatype PubState = PubState(active: bool, status: bool, matched: int, index: nat, message: string)

  /** The state after construction and `init`: both flags down, nothing
      matched, index 0, no message yet. */
  const Fresh := PubState(false, false, 0, 0, "")

  /** The input line that leaves a conversation. */
  const ExitCommand := "/exit"

  /** The history line for a message sent by `username` at `timestamp`:
      the sender's name, then the stamp in parentheses, then the text. */
  function Line(username: string, timestamp: string, message: string): (r: string)
    ensures |r| == |username| + |timestamp| + |message| + 5
    ensures r[..|username|] == username && r[|username|..|username| + 2] == " ("
    ensures r[|username| + 2..|username| + 2 + |timestamp|] == timestamp
    ensures r[|r| - |message| - 3..|r| - |message|] == "): " && r[|r| - |message|..] == message
  {
    username + " (" + timestamp + ")" + ": " + message
  }

  /** `on_publication_matched`: +1 brings the peer online, -1 takes it
      offline, both record the total count; any other change is ignored. */
  function MatchStep(s: PubState, info: MatchedStatus): (t: PubState)
    ensures info.currentCountChange == 1 ==> t.status && t.matched == info.totalCount
    ensures info.currentCountChange == -1 ==> !t.status && t.matched == info.totalCount
    ensures info.currentCountChange != 1 && info.currentCountChange != -1 ==> t == s
    ensures t.active == s.active && t.index == s.index && t.message == s.message
  {
    if info.currentCountChange == 1 then s.(matched := info.totalCount, status := true)
    else if info.currentCountChange == -1 then s.(matched := info.totalCount, status := false)
    else s
  }

  /** The state after a presence event that may or may not arrive. */
  function Observe(s: PubState, event: Option<MatchedStatus>): PubState
  {
    if event.Some? then MatchStep(s, event.value) else s
  }

  datatype Publication = Publication(state: PubState, written: Option<UserChat>)

  /** `publish`: with a matched reader, bump the index and write the current
      sample; otherwise write nothing and change nothing. */
  function PublishStep(s: PubState, username: string): (p: Publication)
    ensures p.written.Some? <==> s.matched > 0
    ensures p.written.Some? ==> p.state == s.(index := s.index + 1)
    ensures p.written.None? ==> p.state == s
    ensures p.written.Some? ==> p.written.value == UserChat(s.index + 1, username, s.message)
  {
    if s.matched > 0 then
      var t := s.(index := s.index + 1);
      Publication(t, Some(UserChat(t.index, username, t.message)))
    else
      Publication(s, None)
  }

  /** How one iteration of the send loop ended. */
  datatype TickResult =
    | Stopped      // own topic is pending termination: the loop exits
    | Idle         // not in a conversation
    | PeerOffline  // in a conversation, peer offline: leave it
    | NotMatched   // `publish` found no matched reader
    | Exited       // the user typed the exit command
    | Sent         // the line was appended to the history
    | Discarded    // the peer went offline while the line was being typed

  datatype Tick = Tick(state: PubState, history: seq<string>, result: TickResult, written: Option<UserChat>)

  /** One iteration of `run`. `input` is the line read after `publish`,
      `timestamp` the time it is stamped with, and `duringRead` a presence
      event delivered while the loop was blocked reading that line. */
  function RunStep(s: PubState, topic: string, username: string, signal: seq<string>, history: seq<string>,
                   input: string, timestamp: string, duringRead: Option<MatchedStatus>): (t: Tick)
    // the termination check comes first and, when it fires, nothing changes
    ensures t.result == Stopped <==> PendingTermination(signal, topic)
    ensures t.result == Stopped ==> t.state == s && t.history == history && t.written == None
    ensures t.result == Idle <==> !PendingTermination(signal, topic) && !s.active
    ensures t.result == Idle ==> t.state == s && t.history == history && t.written == None
    ensures t.result == PeerOffline <==> !PendingTermination(signal, topic) && s.active && !s.status
    ensures t.result == NotMatched <==> !PendingTermination(signal, topic) && s.active && s.status && s.matched <= 0
    // peer offline: leave the conversation without appending or writing
    ensures !PendingTermination(signal, topic) && s.active && !s.status ==>
              t.result == PeerOffline && t.state == s.(active := false) && t.history == history && t.written == None
    // the history only ever grows by the one stamped line, and only when sent
    ensures t.result == Sent ==> t.history == history + [Line(username, timestamp, input)] && t.state.message == input
    ensures t.result != Sent ==> t.history == history
    ensures t.result == Sent <==>
              !PendingTermination(signal, topic) && s.active && s.status && s.matched > 0 &&
              input != ExitCommand && Observe(s, duringRead).status
    // the exit command leaves send mode, after `publish` has already raised the index
    ensures t.result == Exited <==> t.written.Some? && input == ExitCommand
    ensures t.result == Exited ==> t.state == Observe(s, duringRead).(index := s.index + 1, active := false)
    ensures t.result == Sent ==> t.state == Observe(s, duringRead).(index := s.index + 1, message := input)
    ensures t.result == Discarded ==> t.state == Observe(s, duringRead).(index := s.index + 1)
    ensures t.result == NotMatched ==> t.state == s && t.written == None
    // a sample is written iff `publish` is reached with a matched reader; every
    // write bumps the index by one and carries the message of the previous send
    ensures t.written.Some? <==> !PendingTermination(signal, topic) && s.active && s.status && s.matched > 0
    ensures t.state.index == s.index + (if t.written.Some? then 1 else 0)
    ensures t.written.Some? ==> t.written.value == UserChat(s.index + 1, username, s.message)
  {
    if PendingTermination(signal, topic) then Tick(s, history, Stopped, None)
    else if !s.active then Tick(s, history, Idle, None)
    else if !s.status then Tick(s.(active := false), history, PeerOffline, None)
    else
      var p := PublishStep(s, username);
      if p.written.None? then Tick(p.state, history, NotMatched, None)
      else
        var r := Observe(p.state, duringRead);
        if input == ExitCommand then Tick(r.(active := false), history, Exited, p.written)
        else if r.status then
          Tick(r.(message := input), history + [Line(username, timestamp, input)], Sent, p.written)
        else Tick(r, history, Discarded, p.written)
  }

  /** The state after a series of presence events, applied in order. */
  function ApplyMatches(s: PubState, events: seq<MatchedStatus>): (t: PubState)
    ensures t.active == s.active && t.index == s.index && t.message == s.message
    decreases |events|
  {
    if events == [] then s
    else MatchStep(ApplyMatches(s, events[..|events| - 1]), events[|events| - 1])
  }

  /** No "peer count decreased by one" event after position `i`. */
  ghost predicate NoUnmatchAfter(events: seq<MatchedStatus>, i: int)
  {
    forall j :: 0 <= j < |events| && i < j ==> events[j].currentCountChange != -1
  }

  /** The peer is online after `events` iff some +1 event is followed by no
      -1 event, or it was online before and no -1 event arrived at all. */
  ghost predicate OnlineAfter(wasOnline: bool, events: seq<MatchedStatus>)
  {
    (exists i :: 0 <= i < |events| && events[i].currentCountChange == 1 && NoUnmatchAfter(events, i))
    || (wasOnline && NoUnmatchAfter(events, -1))
  }

  /** Presence is driven only by well-formed +1/-1 events: anomalous changes
      never flip the flag. */
  lemma {:induction false} PresenceFollowsEvents(s: PubState, events: seq<MatchedStatus>)
    ensures ApplyMatches(s, events).status <==> OnlineAfter(s.status, events)
    decreases |events|
  {
    if events != [] {
      var n := |events|;
      var pre := events[..n - 1];
      var e := events[n - 1];
      PresenceFollowsEvents(s, pre);
      assert forall j :: 0 <= j < n - 1 ==> pre[j] == events[j];
      if e.currentCountChange == 1 {
        assert events[n - 1].currentCountChange == 1 && NoUnmatchAfter(events, n - 1);
      } else if e.currentCountChange == -1 {
        assert !NoUnmatchAfter(events, -1);
        forall i | 0 <= i < n && events[i].currentCountChange == 1
          ensures !NoUnmatchAfter(events, i)
        {
          assert i < n - 1;
        }
      } else {
        forall i | -1 <= i < n - 1
          ensures NoUnmatchAfter(events, i) <==> NoUnmatchAfter(pre, i)
        {
        }
        if OnlineAfter(s.status, events) {
          if i :| 0 <= i < n && events[i].currentCountChange == 1 && NoUnmatchAfter(events, i) {
            assert i < n - 1;
            assert pre[i].currentCountChange == 1 && NoUnmatchAfter(pre, i);
          }
        }
        if OnlineAfter(s.status, pre) {
          if i :| 0 <= i < n - 1 && pre[i].currentCountChange == 1 && NoUnmatchAfter(pre, i) {
            assert events[i].currentCountChange == 1 && NoUnmatchAfter(events, i);
          }
        }
      }
    }
  }

  /** `UserChatPublisher`: the flags and sample the send loop and the
      transport listener share. The topic and the sender's name are fixed at
      construction. */
  class UserChatPublisher {
    const topicName: string
    const username: string
    var active: bool
    var status: bool
    var matched: int
    var index: nat
    var message: string

    function State(): PubState
      reads this
    {
      PubState(active, status, matched, index, message)
    }

    /** Constructor followed by `init`. */
    constructor (topicName: string, name: string)
      ensures this.topicName == topicName && username == name
      ensures State() == Fresh
    {
      this.topicName := topicName;
      username := name;
      active := false;
      status := false;
      matched := 0;
      index := 0;
      message := "";
    }

    /** The listener's `on_publication_matched`. */
    method OnPublicationMatched(info: MatchedStatus)
      modifies this
      ensures State() == MatchStep(old(State()), info)
    {
      if info.currentCountChange == 1 {
        matched := info.totalCount;
        SetStatus(true);
      } else if info.currentCountChange == -1 {
        matched := info.totalCount;
        SetStatus(false);
      }
    }

    method Publish() returns (written: Option<UserChat>)
      modifies this
      ensures Publication(State(), written) == PublishStep(old(State()), username)
    {
      if matched > 0 {
        index := index + 1;
        written := Some(UserChat(index, username, message));
      } else {
        written := None;
      }
    }

    method SetActive(b: bool)
      modifies this`active
      ensures active == b
    {
      active := b;
    }

    method GetActive() returns (b: bool)
      ensures b == active
    {
      b := active;
    }

    method SetStatus(b: bool)
      modifies this`status
      ensures status == b
    {
      status := b;
    }

    method GetStatus() returns (b: bool)
      ensures b == status
    {
      b := status;
    }

    /** The termination check at the head of `run`. */
    predicate ShouldStop(signal: seq<string>)
    {
      PendingTermination(signal, topicName)
    }

    /** One iteration of `run`, appending to the conversation's history. */
    method RunTick(signal: seq<string>, history: seq<string>, input: string, timestamp: string,
                   duringRead: Option<MatchedStatus>)
      returns (result: TickResult, written: Option<UserChat>, history': seq<string>)
      modifies this
      ensures Tick(State(), history', result, written)
           == RunStep(old(State()), topicName, username, signal, history, input, timestamp, duringRead)
    {
      history' := history;
      written := None;
      if ShouldStop(signal) {
        result := Stopped;
        return;
      }
      var isActive := GetActive();
      if !isActive {
        result := Idle;
        return;
      }
      var online := GetStatus();
      if !online {
        SetActive(false);
        result := PeerOffline;
        return;
      }
      written := Publish();
      if written.None? {
        result := NotMatched;
        return;
      }
      if duringRead.Some? {
        OnPublicationMatched(duringRead.value);
      }
      if input == ExitCommand {
        SetActive(false);
        result := Exited;
      } else {
        online := GetStatus();
        if online {
          message := input;
          history' := history + [Line(username, timestamp, input)];
          result := Sent;
        } else {
          result := Discarded;
        }
      }
    }
  }
}

/** The session registry of one local user: the contacts added, their
    publishers, subscribers and histories held in four index-aligned
    sequences, the active-tab state, and the end-of-thread signal through
    which contacts are removed and the program shuts down. */
module FastDDSUser {
  import opened Globals
  import Publisher
  import Subscriber

  /** `findIndex`: the position of the first element equal to `search`, or
      -1 when there is none. */
  function FindIndex(v: seq<string>, search: string): (r: int)
    ensures -1 <= r < |v|
    ensures r == -1 <==> search !in v
    ensures r >= 0 ==> v[r] == search && search !in v[..r]
    decreases |v|
  {
    if v == [] then -1
    else if v[0] == search then 0
    else
      var k := FindIndex(v[1..], search);
      if k == -1 then -1 else k + 1
  }

  /** The topic the local user publishes on to `contact`: the local name,
      a `_`, then the contact's name. */
  function OutTopic(local: string, contact: string): (r: string)
    ensures |r| == |local| + 1 + |contact|
    ensures r[..|local|] == local && r[|local|] == '_' && r[|local| + 1..] == contact
  {
    local + "_" + contact
  }

  /** The topic the local user listens on for `contact`: the contact's
      name, a `_`, then the local name. */
  function InTopic(local: string, contact: string): (r: string)
    ensures |r| == |contact| + 1 + |local|
    ensures r[..|contact|] == contact && r[|contact|] == '_' && r[|contact| + 1..] == local
  {
    contact + "_" + local
  }

  /** Each side publishes on the topic the other side listens on. */
  lemma PeerTopicsMeet(a: string, b: string)
    ensures OutTopic(a, b) == InTopic(b, a)
  {
  }

  lemma OutTopicDeterminesContact(local: string, x: string, y: string)
    requires OutTopic(local, x) == OutTopic(local, y)
    ensures x == y
  {
    assert x == OutTopic(local, x)[|local| + 1..];
    assert y == OutTopic(local, y)[|local| + 1..];
  }

  lemma InTopicDeterminesContact(local: string, x: string, y: string)
    requires InTopic(local, x) == InTopic(local, y)
    ensures x == y
  {
    assert |x| == |y|;
    assert x == InTopic(local, x)[..|x|];
    assert y == InTopic(local, y)[..|y|];
  }

  /** In `p + "_" + q` with no `_` in `p`, the first `_` is at `|p|`. */
  lemma FirstSeparator(p: string, q: string)
    requires '_' !in p
    ensures (p + "_" + q)[|p|] == '_'
    ensures forall i :: 0 <= i < |p| ==> (p + "_" + q)[i] != '_'
  {
    forall i | 0 <= i < |p|
      ensures (p + "_" + q)[i] != '_'
    {
      assert (p + "_" + q)[i] == p[i];
    }
  }

  /** Without `_` in the names, a contact's outbound topic is never another
      contact's inbound topic. */
  lemma SeparatorFreeTopicsDiffer(local: string, x: string, y: string)
    requires '_' !in local && '_' !in y && y != local
    ensures OutTopic(local, x) != InTopic(local, y)
  {
    FirstSeparator(local, x);
    FirstSeparator(y, local);
    if |local| == |y| {
      assert OutTopic(local, x)[..|local|] == local;
      assert InTopic(local, y)[..|y|] == y;
    }
  }

  /** With `_` in the names the two directions can coincide: removing
      `a_b_c` from user `a_b` signals the outbound topic of contact `c_a_b`. */
  lemma SeparatorInNamesSharesTopic()
    ensures Registered("a_b", ["a_b_c", "c_a_b"])
    ensures InTopic("a_b", "a_b_c") == OutTopic("a_b", "c_a_b")
  {
  }

  ghost predicate Distinct<T>(s: seq<T>)
  {
    forall i, j :: 0 <= i < j < |s| ==> s[i] != s[j]
  }

  /** The contact list as `addUser` builds it: no duplicates, no name with a
      space, and never the local user. */
  ghost predicate Registered(local: string, names: seq<string>)
  {
    Distinct(names) && forall i :: 0 <= i < |names| ==> ' ' !in names[i] && names[i] != local
  }

  /** The user `main` refuses to chat with is never found anyway. */
  lemma SelfNeverRegistered(local: string, names: seq<string>)
    requires Registered(local, names)
    ensures FindIndex(names, local) == -1
  {
  }

  /** Why `addUser` rejects a name. */
  datatype AddRejection = HasSpace | IsSelf | AlreadyAdded

  /** The acceptance rule of `addUser`, checked in the order the source does. */
  function CheckNewUser(newUser: string, local: string, names: seq<string>): (r: Option<AddRejection>)
    ensures r.None? <==> ' ' !in newUser && newUser != local && newUser !in names
    ensures r == Some(HasSpace) <==> ' ' in newUser
    ensures r == Some(IsSelf) <==> ' ' !in newUser && newUser == local
    ensures r == Some(AlreadyAdded) <==> ' ' !in newUser && newUser != local && newUser in names
  {
    if ' ' in newUser then Some(HasSpace)
    else if newUser == local then Some(IsSelf)
    else if FindIndex(names, newUser) != -1 then Some(AlreadyAdded)
    else None
  }

  /** The validation loop of `addUser` over the lines typed: the index of
      the first acceptable one, or -1 when the input runs out first. */
  method ReadNewUser(attempts: seq<string>, local: string, names: seq<string>) returns (k: int)
    ensures -1 <= k < |attempts|
    ensures k >= 0 ==> CheckNewUser(attempts[k], local, names).None?
    ensures forall j :: 0 <= j < |attempts| && (k == -1 || j < k) ==> CheckNewUser(attempts[j], local, names).Some?
  {
    k := 0;
    while k < |attempts|
      invariant 0 <= k <= |attempts|
      invariant forall j :: 0 <= j < k ==> CheckNewUser(attempts[j], local, names).Some?
    {
      var rejection := CheckNewUser(attempts[k], local, names);
      if rejection.None? {
        return;
      }
      k := k + 1;
    }
    k := -1;
  }

  /** An accepted name keeps the contact list well formed. */
  lemma AppendRegistered(local: string, names: seq<string>, x: string)
    requires Registered(local, names) && CheckNewUser(x, local, names).None?
    ensures Registered(local, names + [x])
  {
    var s := names + [x];
    forall i, j | 0 <= i < j < |s|
      ensures s[i] != s[j]
    {
      if j == |names| {
        assert s[i] == names[i];
      }
    }
  }

  const ReservedName := "Notes"
  const MinNameLength := 3
  const MaxNameLength := 32

  /** Why `getCredentials` rejects a login name. */
  datatype LoginRejection = Reserved | TooShort | TooLong

  /** The login-name rule of `getCredentials`, in the order it checks. */
  function CheckLogin(username: string): (r: Option<LoginRejection>)
    ensures r.None? <==> username != ReservedName && MinNameLength <= |username| <= MaxNameLength
    ensures r == Some(Reserved) <==> username == ReservedName
    ensures r == Some(TooShort) <==> username != ReservedName && |username| < MinNameLength
    ensures r == Some(TooLong) <==> username != ReservedName && |username| > MaxNameLength
  {
    if username == ReservedName then Some(Reserved)
    else if |username| < MinNameLength then Some(TooShort)
    else if |username| > MaxNameLength then Some(TooLong)
    else None
  }

  /** The loop of `getCredentials` over the names typed: the index of the
      first acceptable one, or -1 when the input runs out first. */
  method GetCredentials(attempts: seq<string>) returns (k: int)
    ensures -1 <= k < |attempts|
    ensures k >= 0 ==> CheckLogin(attempts[k]).None?
    ensures forall j :: 0 <= j < |attempts| && (k == -1 || j < k) ==> CheckLogin(attempts[j]).Some?
  {
    k := 0;
    while k < |attempts|
      invariant 0 <= k <= |attempts|
      invariant forall j :: 0 <= j < k ==> CheckLogin(attempts[j]).Some?
    {
      var rejection := CheckLogin(attempts[k]);
      if rejection.None? {
        return;
      }
      k := k + 1;
    }
    k := -1;
  }

  /** `vector::erase` at position `k`: the rest keep their order. */
  function RemoveAt<T>(s: seq<T>, k: nat): (r: seq<T>)
    requires k < |s|
    ensures |r| == |s| - 1
    ensures forall j :: 0 <= j < |r| ==> r[j] == if j < k then s[j] else s[j + 1]
  {
    s[..k] + s[k + 1..]
  }

  /** Erasing from a list without duplicates removes the element for good. */
  lemma RemoveAtDistinct<T>(s: seq<T>, k: nat)
    requires Distinct(s) && k < |s|
    ensures Distinct(RemoveAt(s, k)) && s[k] !in RemoveAt(s, k)
  {
    var r := RemoveAt(s, k);
    forall i, j | 0 <= i < j < |r|
      ensures r[i] != r[j]
    {
      assert r[i] == s[if i < k then i else i + 1];
      assert r[j] == s[if j < k then j else j + 1];
    }
    forall j | 0 <= j < |r|
      ensures r[j] != s[k]
    {
      assert r[j] == s[if j < k then j else j + 1];
    }
  }

  lemma RemoveAtRegistered(local: string, names: seq<string>, k: nat)
    requires Registered(local, names) && k < |names|
    ensures Registered(local, RemoveAt(names, k)) && names[k] !in RemoveAt(names, k)
  {
    RemoveAtDistinct(names, k);
  }

  /** With no `_` in the names, the two topics signalled to remove contact
      `k` stop none of the loops of another contact `j`. */
  lemma RemovalSignalsOnlyItsOwnLoops(local: string, names: seq<string>, k: nat, j: nat)
    requires Registered(local, names) && k < |names| && j < |names| && j != k
    requires '_' !in local && '_' !in names[k] && '_' !in names[j]
    ensures var signal := [OutTopic(local, names[k]), InTopic(local, names[k])];
            !PendingTermination(signal, OutTopic(local, names[j]))
            && !PendingTermination(signal, InTopic(local, names[j]))
  {
    if InTopic(local, names[j]) == InTopic(local, names[k]) {
      InTopicDeterminesContact(local, names[j], names[k]);
    }
    SeparatorFreeTopicsDiffer(local, names[j], names[k]);
    SeparatorFreeTopicsDiffer(local, names[k], names[j]);
  }

  /** The tab `chatUser` sets for contact `k` echoes on `k`'s subscriber and
      on no other. */
  lemma TabSelectsOneConversation(local: string, names: seq<string>, k: nat, j: nat)
    requires Registered(local, names) && k < |names| && j < |names|
    ensures Subscriber.Echoes(ChatTab("in", InTopic(local, names[k])), InTopic(local, names[j])) <==> j == k
  {
    if InTopic(local, names[k]) == InTopic(local, names[j]) {
      InTopicDeterminesContact(local, names[k], names[j]);
    }
  }

  /** What the cleanup loop of `main` signals: both topics of every contact,
      in contact order. */
  function ShutdownSignal(local: string, names: seq<string>): (r: seq<string>)
    ensures |r| == 2 * |names|
    ensures forall i :: 0 <= i < |names| ==> r[2 * i] == OutTopic(local, names[i]) && r[2 * i + 1] == InTopic(local, names[i])
    decreases |names|
  {
    if names == [] then []
    else
      var n := |names| - 1;
      ShutdownSignal(local, names[..n]) + [OutTopic(local, names[n]), InTopic(local, names[n])]
  }

  /** Entry `i` of each list belongs to contact `names[i]`: its publisher
      and subscriber are bound to that contact's two topics, and no object
      is shared between entries. */
  ghost predicate Aligned(local: string, names: seq<string>, pubs: seq<Publisher.UserChatPublisher>,
                          subs: seq<Subscriber.UserChatSubscriber>)
  {
    && |pubs| == |names| && |subs| == |names|
    && Registered(local, names) && Distinct(pubs) && Distinct(subs)
    && (forall i :: 0 <= i < |pubs| ==> pubs[i].topicName == OutTopic(local, names[i]) && pubs[i].username == local)
    && (forall i :: 0 <= i < |subs| ==> subs[i].topicName == InTopic(local, names[i]))
  }

  /** Appending an accepted contact with its new publisher and subscriber
      keeps the lists aligned. */
  lemma AppendAligned(local: string, names: seq<string>, pubs: seq<Publisher.UserChatPublisher>,
                      subs: seq<Subscriber.UserChatSubscriber>, x: string,
                      p: Publisher.UserChatPublisher, q: Subscriber.UserChatSubscriber)
    requires Aligned(local, names, pubs, subs) && CheckNewUser(x, local, names).None?
    requires p !in pubs && q !in subs
    requires p.topicName == OutTopic(local, x) && p.username == local && q.topicName == InTopic(local, x)
    ensures Aligned(local, names + [x], pubs + [p], subs + [q])
  {
    AppendRegistered(local, names, x);
    AppendDistinct(pubs, p);
    AppendDistinct(subs, q);
  }

  lemma AppendDistinct<T>(s: seq<T>, x: T)
    requires Distinct(s) && x !in s
    ensures Distinct(s + [x])
  {
    var t := s + [x];
    forall i, j | 0 <= i < j < |t|
      ensures t[i] != t[j]
    {
      if j == |s| {
        assert t[i] == s[i];
      }
    }
  }

  /** Erasing the same index from all lists keeps them aligned, and drops
      the contact for good. */
  lemma RemoveAtAligned(local: string, names: seq<string>, pubs: seq<Publisher.UserChatPublisher>,
                        subs: seq<Subscriber.UserChatSubscriber>, k: nat)
    requires Aligned(local, names, pubs, subs) && k < |names|
    ensures Aligned(local, RemoveAt(names, k), RemoveAt(pubs, k), RemoveAt(subs, k))
    ensures names[k] !in RemoveAt(names, k)
  {
    RemoveAtRegistered(local, names, k);
    RemoveAtDistinct(pubs, k);
    RemoveAtDistinct(subs, k);
  }

  /** After erasing contact `k`, with no `_` in the names, none of the
      remaining loops is stopped by the signal that drained `k`'s loops. */
  lemma RemainingLoopsSurvive(local: string, names: seq<string>, pubs: seq<Publisher.UserChatPublisher>,
                              subs: seq<Subscriber.UserChatSubscriber>, k: nat)
    requires Aligned(local, names, pubs, subs) && k < |names|
    requires '_' !in local && '_' !in names[k]
    ensures var signal := [OutTopic(local, names[k]), InTopic(local, names[k])];
            var rest := RemoveAt(names, k);
            forall j :: 0 <= j < |rest| && '_' !in rest[j] ==>
              !RemoveAt(pubs, k)[j].ShouldStop(signal) && !RemoveAt(subs, k)[j].ShouldStop(signal)
  {
    var rest := RemoveAt(names, k);
    forall j | 0 <= j < |rest| && '_' !in rest[j]
      ensures var signal := [OutTopic(local, names[k]), InTopic(local, names[k])];
              !RemoveAt(pubs, k)[j].ShouldStop(signal) && !RemoveAt(subs, k)[j].ShouldStop(signal)
    {
      var i := if j < k then j else j + 1;
      assert rest[j] == names[i];
      RemovalSignalsOnlyItsOwnLoops(local, names, k, i);
    }
  }

  /** The label `viewUsers` shows for a publisher's presence flag. */
  function StatusLabel(online: bool): (r: string)
    ensures r == "online" <==> online
    ensures r == "offline" <==> !online
  {
    if online then "online" else "offline"
  }

  /** A `viewUsers` line: two spaces, the name, then the label in
      parentheses. */
  function UserLine(name: string, online: bool): (r: string)
    ensures |r| == |name| + |StatusLabel(online)| + 5
    ensures r[..2] == "  " && r[2..2 + |name|] == name
    ensures r[2 + |name|..] == " (" + StatusLabel(online) + ")"
  {
    "  " + name + " (" + StatusLabel(online) + ")"
  }

  /** The local `main` variables of the chat program
      (`threaded_usernames`, `pubs`, `subs`, `chat_histories`), the global
      `curr_chat_tab` and the global `endThreadSignal`. */
  class Session {
    const username: string
    var threadedUsernames: seq<string>
    var pubs: seq<Publisher.UserChatPublisher>
    var subs: seq<Subscriber.UserChatSubscriber>
    var chatHistories: seq<seq<string>>
    var currChatTab: ChatTab
    var endThreadSignal: seq<string>

    /** The four lists are index-aligned: entry `i` of each belongs to
        contact `threadedUsernames[i]`, whose publisher and subscriber are
        bound to that contact's two topics. Between operations no topic is
        pending termination. */
    ghost predicate Valid()
      reads this
    {
      && Aligned(username, threadedUsernames, pubs, subs)
      && |chatHistories| == |threadedUsernames|
      && endThreadSignal == []
    }

    /** The state `main` sets up once the login name is known. */
    constructor (username: string)
      ensures Valid() && this.username == username
      ensures threadedUsernames == [] && pubs == [] && subs == [] && chatHistories == []
      ensures currChatTab == NoTab && endThreadSignal == []
    {
      this.username := username;
      threadedUsernames := [];
      pubs := [];
      subs := [];
      chatHistories := [];
      currChatTab := NoTab;
      endThreadSignal := [];
    }

    /** `viewUsers`: one line per contact, with its publisher's presence. */
    method ViewUsers() returns (lines: seq<string>)
      requires Valid()
      ensures |lines| == |threadedUsernames|
      ensures forall i :: 0 <= i < |lines| ==> lines[i] == UserLine(threadedUsernames[i], pubs[i].status)
    {
      lines := [];
      var i := 0;
      while i < |threadedUsernames|
        invariant 0 <= i <= |threadedUsernames|
        invariant |lines| == i
        invariant forall j :: 0 <= j < i ==> lines[j] == UserLine(threadedUsernames[j], pubs[j].status)
      {
        var online := pubs[i].GetStatus();
        var str := if online then "online" else "offline";
        lines := lines + ["  " + threadedUsernames[i] + " (" + str + ")"];
        i := i + 1;
      }
    }

    /** `addUser` over the lines typed: the first acceptable name gets an
        empty history and a fresh publisher and subscriber on its two
        topics, all appended at the same new index. */
    method AddUser(attempts: seq<string>) returns (k: int)
      requires Valid()
      modifies this
      ensures Valid()
      ensures -1 <= k < |attempts|
      ensures k >= 0 ==> CheckNewUser(attempts[k], username, old(threadedUsernames)).None?
      ensures forall j :: 0 <= j < |attempts| && (k == -1 || j < k) ==>
                CheckNewUser(attempts[j], username, old(threadedUsernames)).Some?
      ensures k == -1 ==> threadedUsernames == old(threadedUsernames) && pubs == old(pubs) && subs == old(subs)
                          && chatHistories == old(chatHistories)
      ensures k >= 0 ==>
                var n := |old(threadedUsernames)|;
                && threadedUsernames == old(threadedUsernames) + [attempts[k]]
                && chatHistories == old(chatHistories) + [[]]
                && |pubs| == n + 1 && pubs[..n] == old(pubs) && fresh(pubs[n])
                && |subs| == n + 1 && subs[..n] == old(subs) && fresh(subs[n])
                && pubs[n].topicName == OutTopic(username, attempts[k]) && pubs[n].State() == Publisher.Fresh
                && subs[n].topicName == InTopic(username, attempts[k]) && subs[n].State() == Subscriber.Fresh
      ensures currChatTab == old(currChatTab) && endThreadSignal == old(endThreadSignal)
    {
      k := ReadNewUser(attempts, username, threadedUsernames);
      if k == -1 {
        return;
      }
      var newUser := attempts[k];
      chatHistories := chatHistories + [[]];
      var pub := new Publisher.UserChatPublisher(OutTopic(username, newUser), username);
      var sub := new Subscriber.UserChatSubscriber(InTopic(username, newUser));
      AppendAligned(username, threadedUsernames, pubs, subs, newUser, pub, sub);
      pubs := pubs + [pub];
      subs := subs + [sub];
      threadedUsernames := threadedUsernames + [newUser];
    }

    /** `removeUser`: signal both of the contact's topics, let its two
        loops drain, then erase its entry at the same index from all four
        lists and clear the signal. `drainSignal` is the signal while the
        loops are joined. */
    method RemoveUser(removed: string) returns (found: bool, ghost drainSignal: seq<string>)
      requires Valid()
      modifies this
      ensures Valid()
      ensures found <==> removed in old(threadedUsernames)
      ensures !found ==> threadedUsernames == old(threadedUsernames) && pubs == old(pubs) && subs == old(subs)
                         && chatHistories == old(chatHistories) && drainSignal == []
      ensures found ==>
                var k := FindIndex(old(threadedUsernames), removed);
                && threadedUsernames == RemoveAt(old(threadedUsernames), k)
                && pubs == RemoveAt(old(pubs), k)
                && subs == RemoveAt(old(subs), k)
                && chatHistories == RemoveAt(old(chatHistories), k)
                && drainSignal == [OutTopic(username, removed), InTopic(username, removed)]
                && old(pubs)[k].ShouldStop(drainSignal) && old(subs)[k].ShouldStop(drainSignal)
      ensures found && '_' !in username && '_' !in removed ==>
                forall j :: 0 <= j < |threadedUsernames| && '_' !in threadedUsernames[j] ==>
                  !pubs[j].ShouldStop(drainSignal) && !subs[j].ShouldStop(drainSignal)
      ensures removed !in threadedUsernames
      ensures currChatTab == old(currChatTab) && endThreadSignal == []
    {
      var index := FindIndex(threadedUsernames, removed);
      if index == -1 {
        found, drainSignal := false, [];
        return;
      }
      found := true;
      RemoveAtAligned(username, threadedUsernames, pubs, subs, index);
      if '_' !in username && '_' !in removed {
        RemainingLoopsSurvive(username, threadedUsernames, pubs, subs, index);
      }
      threadedUsernames := RemoveAt(threadedUsernames, index);

      var pubTopic := OutTopic(username, removed);
      var subTopic := InTopic(username, removed);
      endThreadSignal := endThreadSignal + [pubTopic];
      endThreadSignal := endThreadSignal + [subTopic];
      drainSignal := endThreadSignal;
      // Both loops see their own topic on their next poll and exit, so the
      // joins complete before anything is released.

      pubs := RemoveAt(pubs, index);
      subs := RemoveAt(subs, index);
      chatHistories := RemoveAt(chatHistories, index);
      endThreadSignal := [];
    }

    /** Entering a conversation in `chatUser`: for a registered contact,
        show its history, point the tab at its inbound topic and put its
        publisher into active send mode; otherwise change nothing. */
    method EnterChat(other: string) returns (index: int, shown: seq<string>)
      requires Valid()
      modifies this`currChatTab, pubs
      ensures Valid()
      ensures index == FindIndex(threadedUsernames, other)
      ensures index == -1 ==> currChatTab == old(currChatTab) && shown == []
      ensures index == -1 ==> forall j :: 0 <= j < |pubs| ==> pubs[j].State() == old(pubs[j].State())
      ensures index >= 0 ==>
                && currChatTab == ChatTab("in", InTopic(username, other))
                && shown == chatHistories[index]
                && pubs[index].State() == old(pubs[index].State()).(active := true)
                && (forall j :: 0 <= j < |pubs| && j != index ==> pubs[j].State() == old(pubs[j].State()))
                && (forall j :: 0 <= j < |subs| ==> (Subscriber.Echoes(currChatTab, subs[j].topicName) <==> j == index))
    {
      index := FindIndex(threadedUsernames, other);
      if index == -1 {
        shown := [];
        return;
      }
      shown := chatHistories[index];
      currChatTab := ChatTab("in", InTopic(username, other));
      pubs[index].SetActive(true);
      forall j | 0 <= j < |subs|
        ensures Subscriber.Echoes(currChatTab, subs[j].topicName) <==> j == index
      {
        TabSelectsOneConversation(username, threadedUsernames, index, j);
      }
    }

    /** Leaving a conversation in `chatUser`, once the busy wait has seen the
        publisher drop out of active send mode: the tab is reset. */
    method LeaveChat(index: int)
      requires Valid() && 0 <= index < |pubs| && !pubs[index].active
      modifies this`currChatTab
      ensures Valid() && currChatTab == NoTab
    {
      currChatTab := NoTab;
    }

    /** One iteration of contact `i`'s send loop, appending to that
        contact's history and to no other. */
    method PublisherTick(i: nat, input: string, timestamp: string, duringRead: Option<Publisher.MatchedStatus>)
      returns (result: Publisher.TickResult, written: Option<UserChat>)
      requires Valid() && i < |pubs|
      modifies this`chatHistories, pubs[i]
      ensures Valid()
      ensures var t := Publisher.RunStep(old(pubs[i].State()), pubs[i].topicName, username, endThreadSignal,
                                         old(chatHistories[i]), input, timestamp, duringRead);
              && pubs[i].State() == t.state && result == t.result && written == t.written
              && chatHistories == old(chatHistories)[i := t.history]
    {
      var history;
      result, written, history := pubs[i].RunTick(endThreadSignal, chatHistories[i], input, timestamp, duringRead);
      chatHistories := chatHistories[i := history];
    }

    /** One delivery to contact `i`'s subscriber, appending to that
        contact's history and to no other. */
    method SubscriberDelivery(i: nat, take: Subscriber.SampleTake, timestamp: string) returns (echoed: Option<string>)
      requires Valid() && i < |subs|
      modifies this`chatHistories, subs[i]
      ensures Valid()
      ensures var d := Subscriber.ReceiveStep(old(subs[i].State()), old(chatHistories[i]), currChatTab,
                                              subs[i].topicName, take, timestamp);
              && subs[i].State() == d.state && echoed == d.echoed
              && chatHistories == old(chatHistories)[i := d.history]
    {
      var history;
      history, echoed := subs[i].OnDataAvailable(take, chatHistories[i], currChatTab, timestamp);
      chatHistories := chatHistories[i := history];
    }

    /** The cleanup loop at the end of `main`: signal both topics of every
        contact so that every loop exits and can be joined. */
    method Shutdown()
      requires Valid()
      modifies this`endThreadSignal
      ensures endThreadSignal == ShutdownSignal(username, threadedUsernames)
      ensures forall i :: 0 <= i < |pubs| ==> pubs[i].ShouldStop(endThreadSignal) && subs[i].ShouldStop(endThreadSignal)
    {
      var i := 0;
      while i < |pubs|
        invariant 0 <= i <= |pubs|
        invariant endThreadSignal == ShutdownSignal(username, threadedUsernames[..i])
      {
        var removedUser := threadedUsernames[i];
        assert threadedUsernames[..i + 1][..i] == threadedUsernames[..i];
        endThreadSignal := endThreadSignal + [OutTopic(username, removedUser)];
        endThreadSignal := endThreadSignal + [InTopic(username, removedUser)];
        i := i + 1;
      }
      assert threadedUsernames[..i] == threadedUsernames;
      forall j | 0 <= j < |pubs|
        ensures pubs[j].ShouldStop(endThreadSignal) && subs[j].ShouldStop(endThreadSignal)
      {
        assert endThreadSignal[2 * j] == pubs[j].topicName;
        assert endThreadSignal[2 * j + 1] == subs[j].topicName;
      }
    }
  }
}

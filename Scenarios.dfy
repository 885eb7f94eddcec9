/** Sessions run through the model's contracts alone: contacts added,
    listed and opened, a conversation with a peer that comes online, its
    exit and removal, and a peer that never comes online. */
module Scenarios {
  import opened Globals
  import Publisher
  import Subscriber
  import opened FastDDSUser

  /** alice adds bob, lists him as offline and opens the conversation. */
  method AliceAddsBob()
  {
    var session := new Session("alice");
    var k := session.AddUser(["bob"]);
    assert ["bob"][0] == "bob" && CheckNewUser("bob", "alice", []).None?;
    assert k == 0;
    var lines := session.ViewUsers();
    assert UserLine("bob", false) == "  bob (offline)";
    assert lines == ["  bob (offline)"];
    var index, shown := session.EnterChat("bob");
    assert index == 0 && shown == [];
    assert session.currChatTab == ChatTab("in", "bob_alice");
  }

  /** bob is online: alice's "hi" is stored, bob's "hey" is echoed and
      stored once, and the exit command leaves the conversation. */
  method AliceTalksToBob()
  {
    var pub := new Publisher.UserChatPublisher("alice_bob", "alice");
    var sub := new Subscriber.UserChatSubscriber("bob_alice");
    var tab := ChatTab("in", "bob_alice");
    pub.OnPublicationMatched(Publisher.MatchedStatus(1, 1));
    pub.SetActive(true);

    var result, written, history := pub.RunTick([], [], "hi", "t1", None);
    assert result == Publisher.Sent;
    assert written == Some(UserChat(1, "alice", ""));
    assert Publisher.Line("alice", "t1", "hi") == "alice (t1): hi";
    assert history == ["alice (t1): hi"];

    var sample := UserChat(1, "bob", "hey");
    assert Subscriber.Render(sample) == "bob: hey";
    assert Subscriber.EchoLine(sample, "t2") == "bob (t2): hey";
    var echoed;
    history, echoed := sub.OnDataAvailable(Subscriber.Taken(true, sample), history, tab, "t2");
    assert echoed == Some("bob (t2): hey");
    assert history == ["alice (t1): hi", "bob: hey"];

    // the same sample delivered again is not stored twice
    history, echoed := sub.OnDataAvailable(Subscriber.Taken(true, sample), history, tab, "t3");
    assert echoed == None;
    assert history == ["alice (t1): hi", "bob: hey"];

    // the exit command writes the previous message and leaves the chat
    result, written, history := pub.RunTick([], history, Publisher.ExitCommand, "t4", None);
    assert result == Publisher.Exited && !pub.active;
    assert written == Some(UserChat(2, "alice", "hi"));
    assert history == ["alice (t1): hi", "bob: hey"];
  }

  /** leaving through the session: the exit command, then the tab reset. */
  method AliceLeavesBob()
  {
    var session := new Session("alice");
    var k := session.AddUser(["bob"]);
    assert ["bob"][0] == "bob" && CheckNewUser("bob", "alice", []).None?;
    session.pubs[0].OnPublicationMatched(Publisher.MatchedStatus(1, 1));
    var index, shown := session.EnterChat("bob");
    assert index == 0;
    var result, written := session.PublisherTick(0, Publisher.ExitCommand, "t1", None);
    assert result == Publisher.Exited;
    assert written == Some(UserChat(1, "alice", ""));
    assert session.chatHistories[0] == [];
    session.LeaveChat(0);
    assert session.currChatTab == NoTab;
  }

  /** removing bob signals both of his loops; removing him again finds
      nothing. */
  method AliceRemovesBob()
  {
    var session := new Session("alice");
    var k := session.AddUser(["bob"]);
    assert ["bob"][0] == "bob" && CheckNewUser("bob", "alice", []).None?;
    assert OutTopic("alice", "bob") == "alice_bob" && InTopic("alice", "bob") == "bob_alice";
    ghost var drained: seq<string>;
    var found;
    found, drained := session.RemoveUser("bob");
    assert drained == ["alice_bob", "bob_alice"];
    assert found && session.threadedUsernames == [] && session.chatHistories == [];
    found, drained := session.RemoveUser("bob");
    assert !found;
  }

  /** names with a space, the local name and duplicates are refused. */
  method CarolRejections()
  {
    var session := new Session("alice");
    var attempts := ["carol carol", "alice", "carol", "dave"];
    var k := session.AddUser(attempts);
    assert attempts[0] == "carol carol" && attempts[1] == "alice" && attempts[2] == "carol";
    assert CheckNewUser("carol carol", "alice", []) == Some(HasSpace);
    assert CheckNewUser("alice", "alice", []) == Some(IsSelf);
    assert CheckNewUser("carol", "alice", []).None?;
    assert k == 2;
    k := session.AddUser(["carol"]);
    assert CheckNewUser("carol", "alice", ["carol"]) == Some(AlreadyAdded);
    assert k == -1 && session.threadedUsernames == ["carol"];
  }

  /** carol never comes online: sending leaves the conversation without
      touching the history. */
  method CarolNeverComes()
  {
    var session := new Session("alice");
    var k := session.AddUser(["carol"]);
    assert ["carol"][0] == "carol" && CheckNewUser("carol", "alice", []).None?;
    var index, shown := session.EnterChat("carol");
    assert index == 0;
    var result, written := session.PublisherTick(0, "anyone?", "t1", None);
    assert result == Publisher.PeerOffline && written == None;
    assert session.chatHistories[0] == [];
    assert !session.pubs[0].active;
    session.LeaveChat(0);
    assert |session.pubs| == 1;
  }
}

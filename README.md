# FastDDS chat: session registry, inbound filter, outbound send loop

This project models the chat layer that sits on top of Fast DDS in the console
chat program. It is written in Dafny, and the properties of the model are
proved there.

- **Session registry** (`FastDDSUser.cpp`). The local user's contacts are held
  in four index-aligned lists: names, publishers, subscribers and chat
  histories. The registry also holds the active-tab state and the process-wide
  `endThreadSignal`. Contacts are found by `findIndex`, added through
  `addUser`'s validation loop and removed by `removeUser`, which drains the
  contact's two loops. The model also covers the login-name rule of
  `getCredentials`, entering and leaving a conversation in `chatUser`, the
  labels of `viewUsers` and the cleanup loop at the end of `main`.
- **Inbound side** (`UserChatSubscriber.hpp`). One delivery through
  `on_data_available`: it filters out unusable samples, renders and
  deduplicates the rest, stores them in the history and echoes them when
  their conversation is in the foreground. It also models the termination
  check of `run`.
- **Outbound side** (`UserChatPublisher.hpp`). Presence transitions from
  `on_publication_matched`, the guarded `publish` with its sample index, the
  flag setters and getters, and one iteration of the `run` loop.

Each operation has two forms:

- A pure step function on a datatype state (`MatchStep`, `PublishStep`,
  `RunStep`, `ReceiveStep`, `CheckNewUser`, `CheckLogin` and so on). Its
  contract states the source's promises, and the lemmas are proved about it.
- A method on a class whose fields the source updates in place
  (`UserChatPublisher`, `UserChatSubscriber`, and `Session` for `main`'s
  locals plus the two globals). Each method's body follows the source's
  branches. Its contract ties the new state to the step function applied to
  the old state.

Each background loop iteration is one tick call. The typed input line, the
timestamp and a presence event that arrives during the blocking read are
parameters of that call. `Scenarios.dfy` uses the contracts alone to trace
short sessions: a contact added, listed and opened, a conversation with a
peer that is online, leaving it and removing the contact, rejected names,
and a peer that never comes online.

Three behaviours of the code worth noting:

- `addUser` checks three things only: the name has no space, it is not the
  local name, and it is not already added. There is no length or
  reserved-name check on contacts, so an empty line is accepted as a name.
  The 3–32 character and `"Notes"` rules apply only to the login name.
- The subscriber stores a received line as `"<user>: <msg>"`, with no
  timestamp. Only the echoed console line carries one.
- `publish` runs before the input line is read. Each written sample therefore
  carries the previous message (the first carries `""`), and the exit command
  still costs one index. The history line is appended for the new message.

## Model

| member | source | states |
|---|---|---|
| FastDDSUser.FindIndex | FastDDS-Chat-Source/src/FastDDSUser.cpp:115-124 | result is -1 iff the string is absent; otherwise it is an index holding the string with no earlier occurrence |
| FastDDSUser.OutTopic | FastDDS-Chat-Source/src/FastDDSUser.cpp:173 | the outbound topic is the local name, a `_`, then the contact's name (also built at lines 195 and 501) |
| FastDDSUser.InTopic | FastDDS-Chat-Source/src/FastDDSUser.cpp:174 | the inbound topic is the contact's name, a `_`, then the local name (also built at lines 196 and 502) |
| FastDDSUser.PeerTopicsMeet | FastDDS-Chat-Source/src/FastDDSUser.cpp:173-174 | a's outbound topic to b is b's inbound topic from a, so the two sides meet |
| FastDDSUser.OutTopicDeterminesContact | FastDDS-Chat-Source/src/FastDDSUser.cpp:173 | equal outbound topics of one user mean the same contact |
| FastDDSUser.InTopicDeterminesContact | FastDDS-Chat-Source/src/FastDDSUser.cpp:174 | equal inbound topics of one user mean the same contact |
| FastDDSUser.SeparatorFreeTopicsDiffer | FastDDS-Chat-Source/src/FastDDSUser.cpp:195-196 | with no `_` in the local name or in another contact's name, one contact's outbound topic is never the other's inbound topic |
| FastDDSUser.SeparatorInNamesSharesTopic | FastDDS-Chat-Source/src/FastDDSUser.cpp:195-199 | names containing `_` are accepted, and then one contact's inbound topic can equal another contact's outbound topic |
| FastDDSUser.SelfNeverRegistered | FastDDS-Chat-Source/src/FastDDSUser.cpp:473-477 | the local name is never in a contact list built by `addUser`, so the self check in `main` only shortens a lookup that would fail |
| FastDDSUser.CheckNewUser | FastDDS-Chat-Source/src/FastDDSUser.cpp:152-167 | a name is accepted iff it has no space, is not the local name and is not already added; each rejection reason holds exactly in its own case, checked in source order |
| FastDDSUser.ReadNewUser | FastDDS-Chat-Source/src/FastDDSUser.cpp:148-168 | returns the first acceptable line and rejects every earlier one; returns -1 only when every line was rejected |
| FastDDSUser.AppendRegistered | FastDDS-Chat-Source/src/FastDDSUser.cpp:170-179 | appending an accepted name keeps the list free of duplicates, spaces and the local name |
| FastDDSUser.CheckLogin | FastDDS-Chat-Source/src/FastDDSUser.cpp:244-253 | a login name is accepted iff it is not "Notes" and has 3 to 32 characters; each rejection holds exactly in its own case |
| FastDDSUser.GetCredentials | FastDDS-Chat-Source/src/FastDDSUser.cpp:238-254 | returns the first acceptable login name and rejects every earlier one; returns -1 only when all were rejected |
| FastDDSUser.RemoveAt | FastDDS-Chat-Source/src/FastDDSUser.cpp:193 | erasing position k shortens the list by one and keeps the other elements in order |
| FastDDSUser.RemoveAtRegistered | FastDDS-Chat-Source/src/FastDDSUser.cpp:193 | erasing a contact keeps the list well formed, and the erased name is gone for good |
| FastDDSUser.RemovalSignalsOnlyItsOwnLoops | FastDDS-Chat-Source/src/FastDDSUser.cpp:195-199 | with no `_` in the names, the two topics signalled for one contact stop neither loop of any other contact |
| FastDDSUser.TabSelectsOneConversation | FastDDS-Chat-Source/src/FastDDSUser.cpp:282-283 | the tab set for contact k makes k's subscriber echo, and no other subscriber |
| FastDDSUser.ShutdownSignal | FastDDS-Chat-Source/src/FastDDSUser.cpp:498-509 | the cleanup signal holds two entries per contact: its outbound topic, then its inbound topic, in contact order |
| FastDDSUser.AppendAligned | FastDDS-Chat-Source/src/FastDDSUser.cpp:170-179 | appending an accepted name with a new publisher and subscriber on its two topics keeps the four lists index-aligned |
| FastDDSUser.RemoveAtAligned | FastDDS-Chat-Source/src/FastDDSUser.cpp:193-215 | erasing the same index from every list keeps them index-aligned |
| FastDDSUser.RemainingLoopsSurvive | FastDDS-Chat-Source/src/FastDDSUser.cpp:195-215 | with no `_` in the names, the signal that drains a removed contact stops none of the remaining loops |
| FastDDSUser.StatusLabel | FastDDS-Chat-Source/src/FastDDSUser.cpp:133-136 | the label is "online" exactly when the presence flag is set, and "offline" exactly when it is not |
| FastDDSUser.UserLine | FastDDS-Chat-Source/src/FastDDSUser.cpp:138 | a listing line is two spaces, the name, then the status label in parentheses |
| FastDDSUser.Session.constructor | FastDDS-Chat-Source/src/FastDDSUser.cpp:417-424 | the session starts with no contacts, an empty tab and an empty signal |
| FastDDSUser.Session.ViewUsers | FastDDS-Chat-Source/src/FastDDSUser.cpp:127-142 | one line per contact, in order: the name followed by "online" or "offline" from that contact's publisher |
| FastDDSUser.Session.AddUser | FastDDS-Chat-Source/src/FastDDSUser.cpp:145-182 | for the first acceptable name, appends exactly one entry to each list: the name, an empty history, and a new publisher and subscriber on its two topics in their initial state; earlier entries are unchanged and alignment is kept; if every line is rejected, nothing changes |
| FastDDSUser.Session.RemoveUser | FastDDS-Chat-Source/src/FastDDSUser.cpp:185-220 | an absent name changes nothing; a present name is erased at its index from all four lists, keeping the rest in order; the drain signal holds both topics of that contact and stops both of its loops; without `_` in names it stops no other loop; afterwards the name is absent, so a second call misses, and the signal is empty |
| FastDDSUser.Session.EnterChat | FastDDS-Chat-Source/src/FastDDSUser.cpp:259-284 | an unregistered contact changes neither the tab nor any publisher; a registered one shows its history, points the tab at its inbound topic and activates only its publisher; only that contact's subscriber echoes |
| FastDDSUser.Session.LeaveChat | FastDDS-Chat-Source/src/FastDDSUser.cpp:285-289 | once the publisher has dropped out of send mode, the tab is reset to ["", ""] |
| FastDDSUser.Session.PublisherTick | FastDDS-Chat-Source/src/UserChatPublisher.hpp:197-241 | one send-loop iteration for contact i changes that contact's publisher and history as `RunStep` does, and no other history |
| FastDDSUser.Session.SubscriberDelivery | FastDDS-Chat-Source/src/UserChatSubscriber.hpp:59-100 | one delivery to contact i changes that contact's subscriber and history as `ReceiveStep` does, and no other history |
| FastDDSUser.Session.Shutdown | FastDDS-Chat-Source/src/FastDDSUser.cpp:498-509 | the loop builds exactly the cleanup signal, and every contact's two loops see their own topic in it |
| Globals.PendingTermination | FastDDS-Chat-Source/src/Globals.hpp:6 | a topic is pending termination exactly when it is listed in the signal |
| Publisher.Line | FastDDS-Chat-Source/src/UserChatPublisher.hpp:233 | a sent history line is the sender's name, the timestamp in parentheses, `": "`, then the text, with its length fixed by those parts |
| Publisher.MatchStep | FastDDS-Chat-Source/src/UserChatPublisher.hpp:49-65 | +1 sets presence and a -1 clears it, and both record the total count; any other change leaves the state unchanged; the active flag, index and message are never touched |
| Publisher.ApplyMatches | FastDDS-Chat-Source/src/UserChatPublisher.hpp:49-65 | no sequence of presence events changes the active flag, the index or the message |
| Publisher.PresenceFollowsEvents | FastDDS-Chat-Source/src/UserChatPublisher.hpp:49-65 | after a series of events the peer is online iff some +1 is followed by no -1, or it was online and no -1 arrived; anomalous changes never flip presence |
| Publisher.PublishStep | FastDDS-Chat-Source/src/UserChatPublisher.hpp:168-177 | writes iff the matched count is positive; a write raises the index by exactly one and carries the new index, the sender and the stored message; otherwise nothing changes |
| Publisher.RunStep | FastDDS-Chat-Source/src/UserChatPublisher.hpp:197-241 | each outcome holds exactly under its own condition: Stopped iff own topic is signalled (checked first, changing nothing); Idle iff not in send mode (changing nothing); PeerOffline iff in send mode with the peer offline (leaves send mode, appends and writes nothing); NotMatched iff in send mode, online, with no matched reader (changing nothing); Exited iff a sample was written and the input is the exit command (leaves send mode); Sent iff written, not the exit command and still online after the read (appends `user (time): msg` and stores the message); Discarded otherwise; a sample is written iff `publish` is reached with a positive matched count, raising the index by one and carrying the previous message; the new state after Exited, Sent and Discarded is given field by field, including a presence event during the read |
| Publisher.UserChatPublisher.constructor | FastDDS-Chat-Source/src/UserChatPublisher.hpp:71-84 | a new publisher is neither active nor online, nothing is matched, and the index is 0 |
| Publisher.UserChatPublisher.OnPublicationMatched | FastDDS-Chat-Source/src/UserChatPublisher.hpp:49-65 | the fields change exactly as `MatchStep` describes |
| Publisher.UserChatPublisher.Publish | FastDDS-Chat-Source/src/UserChatPublisher.hpp:168-177 | the fields and the written sample are exactly `PublishStep`'s |
| Publisher.UserChatPublisher.SetActive | FastDDS-Chat-Source/src/UserChatPublisher.hpp:180-182 | stores the active flag and nothing else |
| Publisher.UserChatPublisher.GetActive | FastDDS-Chat-Source/src/UserChatPublisher.hpp:184-186 | returns the active flag |
| Publisher.UserChatPublisher.SetStatus | FastDDS-Chat-Source/src/UserChatPublisher.hpp:189-191 | stores the presence flag and nothing else |
| Publisher.UserChatPublisher.GetStatus | FastDDS-Chat-Source/src/UserChatPublisher.hpp:193-195 | returns the presence flag |
| Publisher.UserChatPublisher.ShouldStop | FastDDS-Chat-Source/src/UserChatPublisher.hpp:202 | the send loop stops exactly when its own topic is in the signal |
| Publisher.UserChatPublisher.RunTick | FastDDS-Chat-Source/src/UserChatPublisher.hpp:197-241 | the imperative loop body yields exactly `RunStep`'s state, history, outcome and written sample |
| Subscriber.Render | FastDDS-Chat-Source/src/UserChatSubscriber.hpp:74 | a stored line is the sender's name, `": "`, then the text |
| Subscriber.EchoLine | FastDDS-Chat-Source/src/UserChatSubscriber.hpp:81-82 | an echoed line is the sender's name, the timestamp in parentheses, `": "`, then the text, with its length fixed by those parts |
| Subscriber.Echoes | FastDDS-Chat-Source/src/UserChatSubscriber.hpp:80 | the tab selects this subscriber exactly when its mode is "in" and its topic is the subscriber's (the same test as line 89) |
| Subscriber.Stores | FastDDS-Chat-Source/src/UserChatSubscriber.hpp:67-96 | a take reaches the history exactly when it is a valid sample with both fields non-empty whose rendered line differs from the last one stored |
| Subscriber.ReceiveStep | FastDDS-Chat-Source/src/UserChatSubscriber.hpp:59-100 | a failed take or invalid sample changes nothing; every valid sample is counted; the line `user: msg` is appended, and remembered, iff both fields are non-empty and it differs from the last stored line; it is echoed, with a timestamp, iff it is stored and the tab is on this topic |
| Subscriber.ReceiveAll | FastDDS-Chat-Source/src/UserChatSubscriber.hpp:85-95 | over any run of deliveries the earlier history stays a prefix: lines are only ever appended |
| Subscriber.ReceivedLinesNeverRepeat | FastDDS-Chat-Source/src/UserChatSubscriber.hpp:79-96 | in the lines a run of deliveries adds, no line equals its predecessor; the first differs from the last line stored before the run; the last remembered line is the last one added |
| Subscriber.DuplicateDeliveryStoredOnce | FastDDS-Chat-Source/src/UserChatSubscriber.hpp:79-96 | a sample delivered twice in a row leaves the same history as a single delivery |
| Subscriber.RenderDeterminesSample | FastDDS-Chat-Source/src/UserChatSubscriber.hpp:74 | for sender names without spaces, a stored line determines both the sender and the text |
| Subscriber.UserChatSubscriber.constructor | FastDDS-Chat-Source/src/UserChatSubscriber.hpp:109-120 | a new subscriber has its topic, no last line and no samples counted |
| Subscriber.UserChatSubscriber.GetTopicName | FastDDS-Chat-Source/src/UserChatSubscriber.hpp:176-178 | returns the topic |
| Subscriber.UserChatSubscriber.OnDataAvailable | FastDDS-Chat-Source/src/UserChatSubscriber.hpp:59-100 | the listener's fields, the new history and the echo are exactly `ReceiveStep`'s |
| Subscriber.UserChatSubscriber.RunTick | FastDDS-Chat-Source/src/UserChatSubscriber.hpp:189-196 | a poll exits iff the subscriber's topic is in the signal, and changes nothing |
| Subscriber.UserChatSubscriber.ShouldStop | FastDDS-Chat-Source/src/UserChatSubscriber.hpp:191 | the receive loop stops exactly when its own topic is in the signal |

## Left out

- Fast DDS itself is not modelled: participant, topic, writer and reader creation in `init`, the destructors, `writer_->write` and `take_next_sample`. A take is an input value (`SampleTake`), and a write is the returned sample.
- The peer list read from `ip_list.txt` in the publisher's `init` is not modelled. It is file input that only configures the transport.
- Threads, `join`, `sleep_for`, the busy wait in `chatUser` and the atomics are not modelled. Each loop iteration is one tick call. A drain is modelled as the point where both loops have seen their topic: `RemoveUser` returns that signal and proves both loops stop on it. Interleaving with other contacts' ticks during a drain is not modelled.
- Console input and output are parameters and results. This covers `getline`, `cin >>` tokenising, `getchar` and the prompts. Input lines are given as a sequence of attempts, and running out of input is reported as -1. Echoes are returned values.
- `saveChat`, `changeColor`, the text colours and `printHomeMenu` are not modelled, and neither is the menu dispatch in `main`. These are output and menu plumbing with no state of their own.
- Timestamps from `asctime` are parameters.
- Subscriber.ReceiveStep: the valid-sample counter `samples_` is an `atomic_int` that can wrap. The model counts with an unbounded natural. Nothing in the source reads the counter.
- `on_subscription_matched` is not modelled, because it only logs.
- The getters `getHistory` and `getCurrTab` are not modelled, and neither are the hazards of holding histories by address: a `push_back` can invalidate those addresses, and the thread objects are moved while their threads run. Histories are owned by `Session` and addressed by index. The publisher and subscriber side of a tick receive and return the history.
- Publisher.PublishStep: the sample index is an unbounded natural. The width of `UserChat`'s index field is not known, so its wrap-around is not modelled; the `UserChat` type definition is not part of this model.
- FastDDSUser.SeparatorInNamesSharesTopic: the model does not track whether a loop has ended. It shows that two topics can have the same name, but not what follows. In the program, removing `a_b_c` from user `a_b` signals `a_b_c_a_b` from the two pushes until the signal is cleared once the removed contact's loops have exited. That can also end the send loop of the still-registered contact `c_a_b`, if that loop polls before the signal is cleared. In that case a later `chatUser` with `c_a_b` waits forever, because no loop is left to clear the active flag.
- Lengths are counted in characters. The source counts bytes, so names with multi-byte characters may differ in length.

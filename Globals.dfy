/** Shapes shared by the publisher, the subscriber and the session: the
    sample the transport carries, the two-slot active-tab state, and the
    process-wide end-of-thread signal with its membership test. */
module Globals {

  datatype Option<+T> = None | Some(value: T)

  /** One `UserChat` sample: the sequence number the publisher stamps, the
      sender's name and the text. */
  datatype UserChat = UserChat(index: nat, username: string, message: string)

  /** `curr_chat_tab`: a mode (`"in"` while a conversation is in the
      foreground, `""` otherwise) and the inbound topic of that conversation. */
  datatype ChatTab = ChatTab(mode: string, topic: string)

  /** The tab as `main` creates it and as leaving a chat resets it. */
  const NoTab := ChatTab("", "")

  /** `endThreadSignal` names the topics whose loops must stop; a loop is
      pending termination exactly when its own topic is listed. */
  predicate PendingTermination(signal: seq<string>, topic: string)
  {
    topic in signal
  }
}

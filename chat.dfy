/** A one-to-one chat thread: the route parameter picks a conversation from
    a fixed table, and the composer appends the trimmed text of a non-blank
    message. */
module Chat {
  import opened Wrappers
  import opened Text

  datatype Message = Message(id: string, text: string, isMine: bool, timestamp: string)

  /** The other party of a conversation; the avatar URL is display-only. */
  datatype Peer = Peer(username: string)

  const MockConversations: map<string, Peer> := map[
    "1" := Peer("sarah.design"),
    "2" := Peer("alex.captures"),
    "3" := Peer("maya.lens"),
    "4" := Peer("travel.with.emma")
  ]

  const InitialMessages: seq<Message> := [
    Message("1", "Hey! How are you?", false, "10:30 AM"),
    Message("2", "I'm doing great! Just got back from a hike \U{1F3D4}\U{FE0F}", true, "10:32 AM"),
    Message("3", "That photo was amazing! Where was it taken?", false, "10:33 AM")
  ]

  /** The property names every plain JavaScript object inherits from
      `Object.prototype`; reading one of them on the conversation table
      yields a function or an object, never `undefined`. */
  const PrototypeKeys: set<string> := {
    "constructor", "__proto__", "hasOwnProperty", "isPrototypeOf",
    "propertyIsEnumerable", "toString", "toLocaleString", "valueOf",
    "__defineGetter__", "__defineSetter__", "__lookupGetter__", "__lookupSetter__"
  }

  /** What the page shows: a redirect, the thread with a peer, or a render
      that throws. */
  datatype ChatView = Redirect(path: string) | Thread(peer: Peer) | RenderError

  /** The route as written: the id indexes a plain object, so an inherited
      key passes the truthiness guard; its `username` is then `undefined`,
      and the avatar's `username.slice` throws. */
  function RouteAsWritten(id: Option<string>): (v: ChatView)
    ensures v.Redirect? ==> v.path == "/messages"
    ensures v.Thread? <==> id.Some? && id.value in MockConversations
    ensures v.Thread? ==> v.peer == MockConversations[id.value]
    ensures v.RenderError? <==>
      id.Some? && id.value !in MockConversations && id.value in PrototypeKeys
  {
    if id.None? || id.value == "" then Redirect("/messages")
    else if id.value in MockConversations then Thread(MockConversations[id.value])
    else if id.value in PrototypeKeys then RenderError
    else Redirect("/messages")
  }

  /** `/messages/constructor` is no conversation, yet it is not redirected:
      the render fails instead. */
  lemma PrototypeKeyBreaksRoute()
    ensures "constructor" !in MockConversations
    ensures RouteAsWritten(Some("constructor")) == RenderError
  {
  }

  /** The intended route: a thread exactly for a conversation of the table,
      a redirect to the message list for anything else. */
  function Route(id: Option<string>): (v: ChatView)
    ensures !v.RenderError?
    ensures v.Thread? <==> id.Some? && id.value in MockConversations
    ensures v.Thread? ==> v.peer == MockConversations[id.value]
    ensures v.Redirect? ==> v.path == "/messages"
  {
    if id.Some? && id.value in MockConversations then Thread(MockConversations[id.value])
    else Redirect("/messages")
  }

  /** The two routes differ only on inherited keys. */
  lemma RoutesAgreeOffPrototype(id: Option<string>)
    ensures RouteAsWritten(id) == Route(id) <==>
            !(id.Some? && id.value !in MockConversations && id.value in PrototypeKeys)
  {
  }

  class ChatPage {
    var messages: seq<Message>
    /** The composer's text. */
    var newMessage: string

    constructor ()
      ensures messages == InitialMessages && newMessage == ""
    {
      messages := InitialMessages;
      newMessage := "";
    }

    method SetInput(text: string)
      modifies this`newMessage
      ensures newMessage == text
    {
      newMessage := text;
    }

    /** The send button is disabled exactly when a send would do nothing. */
    predicate SendDisabled()
      reads this
      ensures SendDisabled() <==> AllSpace(newMessage)
    {
      IsBlank(newMessage)
    }

    /** The send button or the Enter key. A blank composer changes nothing;
        otherwise one message of mine with the trimmed text is appended,
        earlier messages stay as they were, and the composer is cleared.
        Every message this adds is mine and its text is trimmed and non-empty. */
    method HandleSend(id: string, timestamp: string)
      modifies this
      ensures old(SendDisabled()) ==> messages == old(messages) && newMessage == old(newMessage)
      ensures !old(SendDisabled()) ==>
        messages == old(messages) + [Message(id, Trim(old(newMessage)), true, timestamp)] &&
        newMessage == ""
      ensures forall i :: |old(messages)| <= i < |messages| ==>
        messages[i].isMine && Trimmed(messages[i].text)
    {
      if IsBlank(newMessage) {
        return;
      }
      var message := Message(id, Trim(newMessage), true, timestamp);
      messages := messages + [message];
      newMessage := "";
    }
  }
}

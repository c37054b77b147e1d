/**
  The holders `GameStateMessage` and `PrivateStateMessage`: each holds one
  sent chat message, or nothing (Go's nil `*discordgo.Message`). The lock
  around the pointer only serialises access and is not modelled. Calls to
  the chat service are returned as `MessageAction` values rather than
  performed; the embed content is not modelled.
 */
module StateMessage {
  import opened Wrappers

  /** The parts of a sent message the holders read. */
  datatype Message = Message(id: string, channelID: string, authorID: string)

  /** A `MessageReactionAdd` event: who reacted, to which message, in which channel. */
  datatype Reaction = Reaction(userID: string, channelID: string, messageID: string, emoji: string)

  /** A request the holder would make to the chat service. */
  datatype MessageAction =
    | EditEmbed(channelID: string, messageID: string)
    | AddReactionTo(channelID: string, messageID: string, emoji: string)
    | DeleteMessage(channelID: string, messageID: string)

  datatype MessageHolder = MessageHolder(message: Option<Message>)

  /** `MakeGameStateMessage` / `MakePrivateStateMessage`: a holder with nothing in it. */
  const Empty := MessageHolder(None)

  /** `Exists`: a message is held. */
  predicate Exists(h: MessageHolder)
  {
    h.message.Some?
  }

  /** `Delete`: ask for the held message to be deleted and forget it; nothing to do when empty. */
  function Delete(h: MessageHolder): (r: (MessageHolder, Option<MessageAction>))
    ensures !Exists(r.0)
    ensures r.1.Some? <==> Exists(h)
    ensures Exists(h) ==> r.1 == Some(DeleteMessage(h.message.value.channelID, h.message.value.id))
    ensures !Exists(h) ==> r.0 == h
  {
    match h.message
    case None => (h, None)
    case Some(m) => (Empty, Some(DeleteMessage(m.channelID, m.id)))
  }

  /** `Edit`: ask for the held message's embed to be replaced; nothing when empty. */
  function Edit(h: MessageHolder): (r: Option<MessageAction>)
    ensures r.Some? <==> Exists(h)
    ensures Exists(h) ==> r == Some(EditEmbed(h.message.value.channelID, h.message.value.id))
  {
    match h.message
    case None => None
    case Some(m) => Some(EditEmbed(m.channelID, m.id))
  }

  /** `AddReaction`: ask for `emoji` to be added to the held message; nothing when empty. */
  function AddReaction(h: MessageHolder, emoji: string): (r: Option<MessageAction>)
    ensures r.Some? <==> Exists(h)
    ensures Exists(h) ==> r == Some(AddReactionTo(h.message.value.channelID, h.message.value.id, emoji))
  {
    match h.message
    case None => None
    case Some(m) => Some(AddReactionTo(m.channelID, m.id, emoji))
  }

  /**
    `GameStateMessage.CreateMessage` (pointer receiver): the holder now holds
    whatever sending returned, which is nothing when the send failed.
   */
  function CreateMessage(h: MessageHolder, sent: Option<Message>): (r: MessageHolder)
    ensures Exists(r) <==> sent.Some?
    ensures sent.Some? ==> SameChannel(r, sent.value.channelID)
  {
    MessageHolder(sent)
  }

  /**
    `PrivateStateMessage.CreateMessage` has a value receiver: it stores the
    sent message into a copy of the holder and returns it, so the caller's
    holder is left exactly as it was.
   */
  function CreatePrivateMessage(h: MessageHolder, sent: Option<Message>): (r: (MessageHolder, Option<Message>))
    ensures r.0 == h
    ensures r.1 == sent
  {
    var copy := MessageHolder(sent);
    (h, copy.message)
  }

  /** `SameChannel`: a message is held and it lives in `channelID`. */
  predicate SameChannel(h: MessageHolder, channelID: string)
  {
    h.message.Some? && h.message.value.channelID == channelID
  }

  /**
    `IsReactionTo`: the reaction is to the held message (same channel and
    message ID) and was not made by the message's own author, the bot.
   */
  predicate IsReactionTo(h: MessageHolder, m: Reaction)
  {
    match h.message
    case None => false
    case Some(msg) => m.channelID == msg.channelID && m.messageID == msg.id && m.userID != msg.authorID
  }

  /** A held message is what every query is about: each gate opens only when one is held. */
  lemma QueriesNeedMessage(h: MessageHolder, channelID: string, m: Reaction)
    ensures SameChannel(h, channelID) ==> Exists(h)
    ensures IsReactionTo(h, m) ==> Exists(h)
    ensures !Exists(h) ==> Edit(h).None? && AddReaction(h, m.emoji).None? && Delete(h) == (h, None)
  {
  }

  /** A reaction that passes the gate was made in the held message's channel. */
  lemma ReactionIsInSameChannel(h: MessageHolder, m: Reaction)
    ensures IsReactionTo(h, m) ==> SameChannel(h, m.channelID)
  {
  }

  /** After a delete no reaction passes the gate and no channel matches. */
  lemma DeleteClosesGates(h: MessageHolder, m: Reaction, channelID: string)
    ensures !IsReactionTo(Delete(h).0, m)
    ensures !SameChannel(Delete(h).0, channelID)
    ensures Delete(Delete(h).0) == (Delete(h).0, None)
  {
  }

  /**
    After a successful send the gate admits exactly the reactions to the new
    message by someone other than its author; after a failed send it admits
    none.
   */
  lemma CreateOpensGate(h: MessageHolder, sent: Option<Message>, m: Reaction)
    ensures sent.Some? ==>
      (IsReactionTo(CreateMessage(h, sent), m) <==>
        m.channelID == sent.value.channelID && m.messageID == sent.value.id && m.userID != sent.value.authorID)
    ensures sent.None? ==> !IsReactionTo(CreateMessage(h, sent), m)
  {
  }

  /** The bot's own reactions (it authors the message) never pass the gate. */
  lemma AuthorReactionIgnored(h: MessageHolder, m: Reaction)
    requires Exists(h) && m.userID == h.message.value.authorID
    ensures !IsReactionTo(h, m)
  {
  }

  /**
    Because of the value receiver, creating a private message leaves the
    caller's gates exactly as they were.
   */
  lemma PrivateCreateKeepsGates(h: MessageHolder, sent: Option<Message>, m: Reaction)
    ensures Exists(CreatePrivateMessage(h, sent).0) <==> Exists(h)
    ensures IsReactionTo(CreatePrivateMessage(h, sent).0, m) <==> IsReactionTo(h, m)
  {
  }
}

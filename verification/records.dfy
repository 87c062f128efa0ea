/** The documents the engage trigger reads and writes. */
module Records {
  import opened Outcomes
  import opened Rules

  /**
   * A site visitor; `sessionCount` is `messengerData.sessionCount`. Any of the optional
   * fields may be unset, as it is for an anonymous visitor's name.
   */
  datatype Customer = Customer(id: string, name: Option<string>, email: Option<string>,
                               sessionCount: Option<int>)

  /** The team member an engage message is sent from; the profile fields may be unset. */
  datatype User = User(id: string, fullName: Option<string>, position: Option<string>,
                       email: Option<string>)

  /** The messenger integration passed in by the caller. */
  datatype Integration = Integration(id: string)

  /** What `Integrations.getIntegration(brandCode, 'messenger', true)` resolves to. */
  datatype BrandIntegration = BrandIntegration(brandId: string, hideConversationList: bool)

  /**
   * An engage message. `customerIds` is the Mongo array of customers it was already
   * fired for; it is appended to with `$push` and never shrinks. `channel` is the
   * source's `method` field (`method` is a Dafny keyword).
   */
  datatype EngageMessage = EngageMessage(
    id: string,
    brandId: string,
    kind: string,
    channel: string,
    isLive: bool,
    fromUserId: string,
    rules: seq<Rule>,
    content: string,
    customerIds: seq<string>)

  datatype Conversation = Conversation(
    id: string, userId: string, customerId: string, integrationId: string, content: string)

  /** The first message of a conversation, tagged with the engage message it came from. */
  datatype Message = Message(
    id: string, conversationId: string, userId: string, customerId: string, content: string,
    engageMessageId: string, fromUserId: string)

  /** What `createConversation` resolves to when both records were written. */
  datatype Pair = Pair(conversation: Conversation, message: Message)
}

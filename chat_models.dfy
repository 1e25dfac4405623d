/** The `Chat` model of the chat app (chat/models.py): one saved message. */
module ChatModels {
  /** `canal` is the channel-layer group the message was sent to. */
  datatype ChatRow = ChatRow(username: string, message: string, canal: string)
}

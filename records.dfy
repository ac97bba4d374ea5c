/** The records the dashboard keeps in localStorage and receives from the
    chat collection. Timestamps are epoch milliseconds. */
module Records {

  /** One saved prompt: { id, uid, prompt, timestamp }. */
  datatype Prompt = Prompt(id: string, uid: string, prompt: string, timestamp: int)

  /** One notification: { id, icon, title, message, timestamp, read }. */
  datatype Notification = Notification(
    id: string, icon: string, title: string, message: string, timestamp: int, read: bool)

  /** A user registry value: { email, registrationDate, lastLogin }. */
  datatype RegistryEntry = RegistryEntry(email: string, registrationDate: int, lastLogin: int)

  /** A team chat message: { id, user, message, time, avatar, timestamp }. */
  datatype ChatMessage = ChatMessage(
    id: string, user: string, message: string, time: string, avatar: string, timestamp: int)
}

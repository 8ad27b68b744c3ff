/** The records shared by the monitor and the notification manager
    (notification/base.py): a train's ticket information, the notification
    settings, and the abstract notification channel. */
module Base {
  import opened Wrappers

  /** One train with its offered seat classes. `availableSeats` keeps the
      insertion order of the source's dictionary: (seat class, remaining text). */
  datatype TicketInfo = TicketInfo(
    trainNo: string,
    fromStation: string,
    toStation: string,
    date: string,
    departureTime: string,
    duration: string,
    availableSeats: seq<(string, string)>)

  /** The notification settings. `targetTrains` is `None` until the operator
      names the trains to watch. */
  datatype NotificationConfig = NotificationConfig(
    enabled: bool,
    cooldownSeconds: int,
    onlyTargetTrains: bool,
    minTickets: int,
    targetTrains: Option<seq<string>>)

  /** What one attempt to send through a channel did: it reported success,
      it reported failure, or it raised an exception with this message. */
  datatype SendOutcome = Sent | NotSent | Fault(message: string)

  /** A notification transport. Its name, whether it is usable, and what
      sending a given title, body and ticket through it yields. The transports
      themselves (desktop toasts, webhooks) are outside the model; any of them
      is one value of this type. */
  datatype Channel = Channel(
    name: string,
    available: bool,
    send: (string, string, TicketInfo) -> SendOutcome)
}

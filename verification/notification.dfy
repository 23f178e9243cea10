/** The request record of the notification port. */
module Notification {

  /** A caller's ask for a yes/no decision, with the text the operator is shown. */
  datatype ValidationRequest = ValidationRequest(title: string, message: string)
}

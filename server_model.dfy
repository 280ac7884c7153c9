/** The Server document of the Express backend: its fields, the status enum and the
    defaults a new document receives (backend/models/Server.js). */
module ServerModel {
  import opened Common

  type ServerId = nat
  type UserId = nat
  /** An instant, supplied by the caller in place of the wall clock. */
  type Time = nat

  /** The `status` enum: a server is exactly one of these. */
  datatype Status = Available | Active

  datatype Server = Server(
    serverName: string,
    sillyHostingUrl: string,
    sillyUsername: string,
    sillyPassword: string,
    userId: Option<UserId>,
    status: Status,
    assignedAt: Option<Time>)

  /** Mongoose's `required` check on a String path: the value is given and is not "". */
  predicate Present(v: Option<string>) {
    v.Some? && v.value != ""
  }

  /** The four required credential fields of a stored server. */
  predicate HasRequiredFields(s: Server) {
    s.serverName != "" && s.sillyHostingUrl != "" && s.sillyUsername != "" && s.sillyPassword != ""
  }

  datatype Created = Created(server: Server) | ValidationError

  /** `new Server({...}).save()`: validation of the required fields, then the schema defaults. */
  function NewServer(serverName: Option<string>, sillyHostingUrl: Option<string>,
                     sillyUsername: Option<string>, sillyPassword: Option<string>): (r: Created)
    ensures r.Created? <==>
      Present(serverName) && Present(sillyHostingUrl) && Present(sillyUsername) && Present(sillyPassword)
    ensures r.Created? ==>
      && r.server.status == Available
      && r.server.userId == None
      && r.server.assignedAt == None
      && HasRequiredFields(r.server)
      && r.server.serverName == serverName.value
      && r.server.sillyHostingUrl == sillyHostingUrl.value
      && r.server.sillyUsername == sillyUsername.value
      && r.server.sillyPassword == sillyPassword.value
  {
    if Present(serverName) && Present(sillyHostingUrl) && Present(sillyUsername) && Present(sillyPassword) then
      Created(Server(serverName.value, sillyHostingUrl.value, sillyUsername.value, sillyPassword.value,
                     None, Available, None))
    else
      ValidationError
  }

  /** Freeing a server: owner cleared and status back to available; `assignedAt` is kept. */
  function Vacate(s: Server): (r: Server)
    ensures r.status == Available && r.userId == None
    ensures r.assignedAt == s.assignedAt && r.serverName == s.serverName
    ensures r.sillyHostingUrl == s.sillyHostingUrl
    ensures r.sillyUsername == s.sillyUsername && r.sillyPassword == s.sillyPassword
  {
    s.(userId := None, status := Available)
  }

  /** Assigning a server to `u` at `now`: owner, status and assignment time are set. */
  function Assign(s: Server, u: UserId, now: Time): (r: Server)
    ensures r.status == Active && r.userId == Some(u) && r.assignedAt == Some(now)
    ensures r.serverName == s.serverName && r.sillyHostingUrl == s.sillyHostingUrl
    ensures r.sillyUsername == s.sillyUsername && r.sillyPassword == s.sillyPassword
  {
    s.(userId := Some(u), status := Active, assignedAt := Some(now))
  }
}

/** The two error families of the route layer. */
module Errors {

  /** Why a route could not resolve or read what an address names. */
  datatype RouteError = GuidNotFound(guid: string) | ValueNotFound(what: string)

  /** The mixer's refusal of an attribute write. */
  datatype ReaperFunctionError = AttributeRejected

  /** Why a write (`receive`) failed; a route error converts into it. */
  datatype ReceiverError = Route(route: RouteError) | BadValue(what: string) | Reaper(reaper: ReaperFunctionError)
}

/**
 * The analytics event as the client builds it and the server stores it. The source
 * only ever tests the optional fields for truthiness, so an absent string is "" and an
 * absent number is 0 here; `position` is an object, truthy whenever present.
 */
module AnalyticsEvents {
  import opened Wrappers

  const Click := "click"
  const Scroll := "scroll"
  const Hover := "hover"
  const Form := "form"
  const View := "view"

  datatype Position = Position(x: int, y: int)

  /** The open metadata bag, reduced to the keys the source reads or writes. */
  datatype Metadata = Metadata(depth: int, timeSpent: int, duration: int, action: string)

  const NoMetadata := Metadata(0, 0, 0, "")

  datatype Event = Event(
    id: string,
    eventType: string,
    element: string,
    section: string,
    position: Option<Position>,
    timestamp: int,
    sessionId: string,
    metadata: Metadata)
}

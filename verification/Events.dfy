/** The events that every configuration listener reacts to. */
module Events {
  datatype Event = Delete | Create | Update | Refresh | Myself
  datatype Change<T> = Change(items: seq<T>, event: Event)

  /** The events that stand for the whole content. */
  predicate ReplacesAll(e: Event) { e == Refresh || e == Myself }
}

/** Small shared vocabulary: optional values and navigation effects. */
module Common {

  /** A value that may be absent (`null` / `undefined` in TypeScript). */
  datatype Option<+T> = None | Some(value: T)

  /** The navigation a handler asks the router for, returned as a value instead of performed. */
  datatype Nav = Stay | PushTo(path: string)

  /** How the one-second simulated delay a handler awaits ended: it resolved, or the awaited
      promise rejected and the handler's catch branch ran. */
  datatype Delay = Elapsed | Faulted
}

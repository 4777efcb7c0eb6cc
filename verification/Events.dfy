/** The events a connection routes: enough of each notification's shape for
    its routing, and an opaque payload for the rest. */
module Events {
  import opened Basics

  /** A child as the registry keeps it; the active turn is kept elsewhere. */
  datatype Child = Child(threadID: Id, parentID: Id, agentPath: string, toolCallID: Id, spawnTurnID: Id)

  /** The payload of a subAgentActivity item. */
  datatype Activity = Activity(kind: string, agentThreadID: Id, agentPath: string)

  /** A thread item; activity is absent for every other item type. */
  datatype Item = Item(id: Id, activity: Option<Activity>)

  /** How a turn ended; a failed one may say why. */
  datatype TurnEnd = Succeeded | FailedTurn(error: Option<nat>)

  /** How the process ended. */
  datatype Exit = Normal | ContextCanceled | Abnormal(code: nat)

  datatype Event =
    | TurnStarted(threadID: Id, turnID: Id)
    | TurnCompleted(threadID: Id, turnID: Id, end: TurnEnd)
    | ItemEvent(threadID: Id, turnID: Id, item: Item)
    | ThreadEvent(threadID: Id, payload: nat)
    | ConnEvent(payload: nat)
    | ErrorEvent(err: nat, fatal: bool)
    | ProcessExit(reason: Option<Exit>)
    | ChildThread(child: Child, activeTurn: Id, inner: Event)

  /** An event held for an unnamed thread, with its turn at that moment. */
  datatype Held = Held(ev: Event, turn: Id)

  const KIND_STARTED := "started"
}

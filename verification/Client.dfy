/** What one notification does to a connection: the routing, the running turn of
    a thread the connection opened, and the server requests of a finished
    turn. */
module Client {
  import opened Basics
  import opened Events
  import opened Fabric
  import Conn
  import Requests = ServerRequests
  import Turns = ThreadTurns

  /** What a frame does to the turns of a thread the connection opened. */
  function TurnsAfter(f: Frame, t: Id, s: Turns.Turns): Turns.Turns {
    match f
    case TurnStartedFrame(u, turn) => if u == t then Turns.Do(s, Turns.Started(turn)) else s
    case TurnCompletedFrame(u, turn, _) => if u == t then Turns.Do(s, Turns.Completed(turn)) else s
    case _ => s
  }

  /** What a frame does to the pending server requests. */
  ghost function RequestsAfter(f: Frame, s: Requests.State): Requests.State {
    match f
    case TurnCompletedFrame(t, turn, _) => Requests.Do(s, Requests.Withdraw(Requests.ByTurn(t, turn)))
    case _ => s
  }

  /** Every thread has an object of its own. */
  ghost predicate Apart(threads: map<Id, Turns.Thread>) {
    forall t, u :: t in threads && u in threads && t != u ==> threads[t] != threads[u]
  }

  lemma ApartWith(threads: map<Id, Turns.Thread>, id: Id, t: Turns.Thread)
    requires Apart(threads) && t !in threads.Values
    ensures Apart(threads[id := t])
  {
    assert forall u :: u in threads ==> threads[u] in threads.Values;
  }

  class Connection {
    const routing: Conn.Connection
    const requests: Requests.RequestTable
    var threads: map<Id, Turns.Thread>

    ghost predicate Valid()
      reads this, routing, routing.reg, requests
    {
      && routing.Valid() && requests.Valid()
      && threads.Keys == routing.threads && Apart(threads)
    }

    constructor ()
      ensures Valid() && fresh(routing) && fresh(routing.reg) && fresh(requests)
      ensures routing.View() == START && requests.View() == Requests.EMPTY
    {
      routing := new Conn.Connection();
      requests := new Requests.RequestTable();
      threads := map[];
    }

    /** Registers a thread the connection has started or resumed. */
    method OpenThread(id: Id) returns (t: Turns.Thread)
      requires Valid()
      modifies this`threads, routing`threads, routing.reg
      ensures Valid() && fresh(t) && threads == old(threads)[id := t] && t.View() == Turns.IDLE
      ensures routing.View() == Step(old(routing.View()), Register(id))
    {
      t := new Turns.Thread();
      ApartWith(threads, id, t);
      threads := threads[id := t];
      routing.RegisterThread(id);
    }

    /** Drops a deleted thread and every subagent under it. */
    method DropThread(id: Id)
      requires Valid()
      modifies this`threads, routing`threads, routing.reg
      ensures Valid() && threads == old(threads) - {id}
      ensures routing.View() == Step(old(routing.View()), Delete(id))
    {
      threads := threads - {id};
      routing.ForgetThread(id);
    }

    /** The running turn of a thread the connection opened. */
    method NoteTurn(f: Frame)
      requires Valid()
      modifies threads.Values
      ensures Valid() && routing.View() == old(routing.View()) && requests.View() == old(requests.View())
      ensures forall t :: t in threads ==> threads[t].View() == TurnsAfter(f, t, old(threads[t].View()))
      ensures f.TurnStartedFrame? && f.thread in threads ==> threads[f.thread].activeTurn == f.turn
      ensures f.TurnCompletedFrame? && f.thread in threads ==>
        threads[f.thread].activeTurn == NO_ID && threads[f.thread].lastCompleted == f.turn
      ensures forall t :: t in threads && !((f.TurnStartedFrame? || f.TurnCompletedFrame?) && t == f.thread) ==>
        threads[t].View() == old(threads[t].View())
    {
      match f
      case TurnStartedFrame(t, turn) =>
        if t in threads {
          threads[t].SetActiveTurn(turn);
        }
      case TurnCompletedFrame(t, turn, _) =>
        if t in threads {
          threads[t].CompletedTurn(turn);
        }
      case _ =>
    }

    /** A request a finished turn was waiting on cannot be answered any more. */
    method WithdrawForTurn(f: Frame)
      requires Valid()
      modifies requests, requests.table.Values
      ensures Valid() && routing.View() == old(routing.View())
      ensures requests.View() == RequestsAfter(f, old(requests.View()))
      ensures forall k :: k in requests.table ==> k in old(requests.table)
      ensures forall k :: k in old(requests.table) ==>
        var q := old(requests.table)[k];
        k !in requests.table <==> f.TurnCompletedFrame? && q.thread == f.thread && (q.turn == NO_ID || q.turn == f.turn)
      ensures forall t :: t in threads ==> threads[t].View() == old(threads[t].View())
    {
      if f.TurnCompletedFrame? {
        requests.WithdrawRequests(Requests.ByTurn(f.thread, f.turn));
      }
    }

    ghost predicate Registered(f: Frame)
      reads this`threads
    {
      !f.ConnFrame? && f.thread in threads
    }

    method RouteFrame(f: Frame)
      requires Valid()
      modifies routing.reg, routing.subs.Values
      ensures Valid() && requests.View() == old(requests.View())
      ensures routing.View() == Run(old(routing.View()), Dispatch(f, Registered(f)))
      ensures forall t :: t in threads ==> threads[t].View() == old(threads[t].View())
    {
      routing.DispatchNotification(f);
    }

    method WithdrawAndRoute(f: Frame)
      requires Valid()
      modifies routing.reg, routing.subs.Values, requests, requests.table.Values
      ensures Valid()
      ensures routing.View() == Run(old(routing.View()), Dispatch(f, Registered(f)))
      ensures requests.View() == RequestsAfter(f, old(requests.View()))
      ensures forall t :: t in threads ==> threads[t].View() == old(threads[t].View())
    {
      WithdrawForTurn(f);
      RouteFrame(f);
    }

    /** One notification. What the turn arms do to the routing is one call
        here; the turn and the withdrawal that come before the delivery touch
        nothing of the routing. */
    method DispatchNotification(f: Frame)
      requires Valid()
      modifies routing.reg, routing.subs.Values, requests, requests.table.Values, threads.Values
      ensures Valid()
      ensures routing.View() == Run(old(routing.View()), Dispatch(f, Registered(f)))
      ensures requests.View() == RequestsAfter(f, old(requests.View()))
      ensures forall t :: t in threads ==> threads[t].View() == TurnsAfter(f, t, old(threads[t].View()))
    {
      NoteTurn(f);
      WithdrawAndRoute(f);
    }

    /** codex has taken a request back. */
    method DispatchResolved(key: Id)
      requires Valid()
      modifies requests, requests.table.Values
      ensures Valid()
      ensures requests.View() == Requests.Do(old(requests.View()), Requests.Withdraw(Requests.ByKey(key)))
      ensures requests.table == old(requests.table) - {key}
      ensures key in old(requests.table) ==> old(requests.table)[key].cancelled
      ensures forall k :: k in requests.table ==> requests.table[k].cancelled == old(requests.table[k].cancelled)
    {
      requests.WithdrawRequests(Requests.ByKey(key));
    }
  }
}

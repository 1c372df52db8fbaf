// The objects of the pipeline: the server's end and the client's end of the transport pair, the
// forwarding part of readerLoop and the Dispatch loop.
module Dispatch {
  import opened Pipeline
  import PH = PipelineHistory
  import T = Transport

  class Receiver {
    const server: T.ChannelTransport<Wire>
    const client: T.ChannelTransport<Wire>
    var stopped: bool
    var reader: Reader
    var dispatchCh: seq<Wire>
    var dispatchClosed: bool
    var dispatcher: Dispatcher
    ghost var attempts: seq<Attempt>
    ghost var consumed: seq<Wire>
    ghost var handled: seq<Wire>
    ghost var replies: seq<Reply>
    ghost var dropped: seq<Wire>
    ghost var atEnd: bool

    ghost function View(): State
      reads this, server, client, server.tx
    {
      State(server.tx.View(), attempts, client.closeCh, stopped, reader, dispatchCh, dispatchClosed, dispatcher,
            consumed, handled, replies, dropped, atEnd)
    }

    ghost predicate Valid()
      reads this, server, client, server.tx, client.tx
    {
      T.Linked(server, client) && Inv(View())
    }

    constructor (server: T.ChannelTransport<Wire>, client: T.ChannelTransport<Wire>)
      requires T.Linked(server, client) && T.PairView(server, client) == T.Exec([])
      ensures this.server == server && this.client == client && Valid() && View() == Init()
    {
      this.server, this.client := server, client;
      stopped, reader, dispatchCh, dispatchClosed, dispatcher := false, Reading, [], false, Selecting;
      attempts, consumed, handled, replies, dropped, atEnd := [], [], [], [], [], false;
    }

    // writeMessage of server/request.go.
    method WriteMessage(line: Wire, ctxDone: bool, arm: T.Arm)
      requires T.Linked(server, client)
      modifies this, server.tx
      ensures T.Linked(server, client) && View() == Apply(old(View()), Write(line, ctxDone, arm))
    {
      var w := server.WriteLine(line, ctxDone, arm);
      attempts := attempts + [Attempt(line, w)];
    }

    method CloseTransport(st: Step)
      requires T.Linked(server, client) && (st.CloseServer? || st.CloseClient?)
      modifies server, client, server.tx, client.tx
      ensures T.Linked(server, client) && View() == Apply(old(View()), st)
    {
      if st.CloseServer? {
        server.Close();
      } else {
        client.Close();
      }
    }

    // readerLoop with the outcome of ReadLine in hand, up to its next select, lock or return.
    method ReadOne(arm: T.Arm)
      requires T.Linked(server, client) && Enabled(View(), ReadLine(arm))
      modifies this, server.tx
      ensures T.Linked(server, client) && View() == Apply(old(View()), ReadLine(arm))
    {
      var r := client.ReadLine(false, arm);
      match r
      case Line(line) =>
        match line {
          case Garbage => reader := Leaving;
          case Event(_, _) => reader := Forwarding(line);
          case Request(_, _) => reader := Forwarding(line);
          case UnknownMethod =>
          case Response(_) => reader := Correlating;
        }
      case EndOfStream =>
        reader := Leaving;
        atEnd := arm.FromChannel?;
    }

    method ForwardOne(st: Step)
      requires T.Linked(server, client) && Enabled(View(), st)
      requires st.Forward? || st.ForwardStopped? || st.Correlated? || st.CorrelateStopped?
      modifies this
      ensures T.Linked(server, client) && View() == Apply(old(View()), st)
    {
      match st
      case Forward =>
        dispatchCh := dispatchCh + [reader.line];
        reader := Reading;
      case ForwardStopped =>
        dropped := [reader.line];
        reader := Leaving;
      case Correlated => reader := Reading;
      case CorrelateStopped => reader := Leaving;
    }

    // dispatchCh is closed by the reader's deferred call, and it was not closed before.
    method CloseDispatchCh()
      requires Valid() && Enabled(View(), CloseQueue)
      modifies this
      ensures !old(dispatchClosed) && Valid() && View() == Apply(old(View()), CloseQueue)
    {
      StepKeeps(View(), CloseQueue);
      dispatchClosed := true;
      reader := Exited;
    }

    // The select of Dispatch.
    method Select(st: Step)
      requires T.Linked(server, client) && Enabled(View(), st) && (st.TakeNext? || st.SeeClosed? || st.SeeContext?)
      modifies this
      ensures T.Linked(server, client) && View() == Apply(old(View()), st)
    {
      match st
      case TakeNext =>
        var raw := dispatchCh[0];
        dispatchCh := dispatchCh[1..];
        consumed := consumed + [raw];
        if IsNotice(raw) && raw.wellFormed {
          handled := handled + [raw];
          dispatcher := Handling(raw);
        }
      case SeeClosed => dispatcher := Ended(true);
      case SeeContext => dispatcher := Ended(false);
    }

    // The handler has returned, and the reply to a request was sent or not.
    method Finish(ok: bool, sent: bool)
      requires T.Linked(server, client) && Enabled(View(), Handled(ok, sent))
      modifies this
      ensures T.Linked(server, client) && View() == Apply(old(View()), Handled(ok, sent))
    {
      if dispatcher.line.Request? {
        replies := replies + [Reply(dispatcher.line.id, ok)];
        dispatcher := if sent then Selecting else Ended(false);
      } else {
        dispatcher := if ok then Selecting else Ended(false);
      }
    }

    method Do(st: Step)
      requires Valid() && Enabled(View(), st)
      modifies this, server, client, server.tx, client.tx
      ensures Valid() && View() == Apply(old(View()), st)
    {
      StepKeeps(View(), st);
      match st
      case Write(line, ctxDone, arm) => WriteMessage(line, ctxDone, arm);
      case CloseServer => CloseTransport(st);
      case CloseClient => CloseTransport(st);
      case Stop => stopped := true;
      case ReadLine(arm) => ReadOne(arm);
      case Forward => ForwardOne(st);
      case ForwardStopped => ForwardOne(st);
      case Correlated => ForwardOne(st);
      case CorrelateStopped => ForwardOne(st);
      case CloseQueue => CloseDispatchCh();
      case TakeNext => Select(st);
      case SeeClosed => Select(st);
      case SeeContext => Select(st);
      case Handled(ok, sent) => Finish(ok, sent);
    }

    // Any schedule, from the start. What the handler was given is what it should be of a prefix of the
    // server's events and requests, and the requests among it were answered in order, as the handler
    // returned. The loop goes on until it sees a reason to end.
    method Run(schedule: seq<Step>)
      requires Valid() && View() == Init()
      modifies this, server, client, server.tx, client.tx
      ensures Valid() && View() == Exec(schedule)
      ensures consumed <= Notices(Succeeded(attempts)) && handled == Parsed(consumed)
      ensures Ids(replies) <= Asked(consumed) && |Asked(consumed)| <= |replies| + 1
      ensures PH.SameVerdicts(replies, PH.Verdicts(schedule)) && EndsRight(schedule)
    {
      var i := 0;
      while i < |schedule|
        invariant i <= |schedule| && Valid() && View() == Exec(schedule[..i])
      {
        assert schedule[..i + 1][..i] == schedule[..i];
        var ready := IsReady(schedule[i]);
        if ready {
          Do(schedule[i]);
        }
        i := i + 1;
      }
      assert schedule[..i] == schedule;
      Promises(schedule);
    }

    // Dispatch has returned exactly if it saw the closed channel or its context, or a handler or a write failed.
    ghost predicate EndsRight(schedule: seq<Step>)
      reads this
    {
      dispatcher.Ended? <==>
      PH.Happened(schedule, SeeClosed) || PH.Happened(schedule, SeeContext) || PH.Failed(schedule)
    }

    lemma {:induction false} Promises(schedule: seq<Step>)
      requires View() == Exec(schedule)
      ensures consumed <= Notices(Succeeded(attempts)) && handled == Parsed(consumed)
      ensures Ids(replies) <= Asked(consumed) && |Asked(consumed)| <= |replies| + 1
      ensures PH.SameVerdicts(replies, PH.Verdicts(schedule)) && EndsRight(schedule)
    {
      EndToEnd(schedule);
      RequestsAnswered(schedule);
      PH.VerdictsExactly(schedule);
      PH.EndedExactly(schedule);
    }

    method IsReady(st: Step) returns (ready: bool)
      requires Valid()
      ensures ready == Enabled(View(), st)
    {
      match st
      case Write(_, _, _) => return true;
      case CloseServer => return true;
      case CloseClient => return true;
      case Stop => return true;
      case ReadLine(FromChannel) => return reader.Reading? && (server.tx.buf != [] || server.tx.closed);
      case ReadLine(FromContext) => return false;
      case ReadLine(FromClose) => return reader.Reading? && client.closeCh;
      case Forward => return reader.Forwarding? && |dispatchCh| < QUEUE_CAPACITY;
      case ForwardStopped => return reader.Forwarding? && stopped;
      case Correlated => return reader.Correlating?;
      case CorrelateStopped => return reader.Correlating? && stopped;
      case CloseQueue => return reader.Leaving?;
      case TakeNext => return dispatcher.Selecting? && dispatchCh != [];
      case SeeClosed => return dispatcher.Selecting? && dispatchCh == [] && dispatchClosed;
      case SeeContext => return dispatcher.Selecting?;
      case Handled(_, _) => return dispatcher.Handling?;
    }
  }
}

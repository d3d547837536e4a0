/** The parts of the terminal tab that live in objects: the render history with its
    byte counter, and the terminal, which is thrown away and replaced, together with
    the text that waits for it. */
module Terminal {
  import opened Common
  import opened RenderHistory
  import opened Client

  /** The render history and its running byte counter. */
  class RenderStore {
    var renderHistory: seq<Bytes>
    var renderHistoryBytes: int
    ghost var appended: seq<Bytes>   // all non-empty chunks since the last reset

    /** The counter is the size of what is retained, and what is retained is the longest
        run of newest chunks within the limit, or the newest alone. */
    ghost predicate Valid()
      reads this
    {
      renderHistoryBytes == Size(renderHistory) && Retained(renderHistory, appended)
    }

    constructor ()
      ensures Valid() && renderHistory == [] && appended == []
    {
      renderHistory, renderHistoryBytes, appended := [], 0, [];
    }

    method Append(data: Bytes)
      requires Valid()
      modifies this
      ensures Valid() && renderHistory == RenderHistory.Append(old(renderHistory), data)
      ensures appended == if data == [] then old(appended) else old(appended) + [data]
    {
      if data == [] {
        return;
      }
      AppendRetains(renderHistory, appended, data);
      SizeGrows(renderHistory, data);
      appended := appended + [data];
      renderHistory := renderHistory + [data];
      renderHistoryBytes := renderHistoryBytes + |data|;
      ghost var all := renderHistory;
      while renderHistoryBytes > LIMIT_BYTES && |renderHistory| > 1
        invariant renderHistoryBytes == Size(renderHistory) && Evict(renderHistory) == Evict(all)
        invariant appended == old(appended) + [data]
        decreases |renderHistory|
      {
        SizeDropFirst(renderHistory);
        var removed := renderHistory[0];
        renderHistory := renderHistory[1..];
        renderHistoryBytes := renderHistoryBytes - |removed|;
      }
    }

    method Reset(data: Bytes)
      modifies this
      ensures Valid() && renderHistory == RenderHistory.Append([], data) && appended == Chunks(data)
    {
      renderHistory, renderHistoryBytes, appended := [], 0, [];
      Append(data);
      assert [] + [data] == [data];
    }
  }

  /** The terminal widget: what has been written to it, and its size. */
  class XTerm {
    var written: seq<Bytes>
    const viewWidth: int
    const viewHeight: int

    constructor (cols: int, rows: int)
      ensures written == [] && viewWidth == cols && viewHeight == rows
    {
      written, viewWidth, viewHeight := [], cols, rows;
    }

    method Write(data: Bytes)
      modifies this
      ensures written == old(written) + [data]
    {
      written := written + [data];
    }
  }

  lemma ResizeLeavesScreen(c: Tab)
    ensures SendResize(c).screen == c.screen && SendResize(c).net == c.net
    ensures SendResize(c).log.history == c.log.history && SendResize(c).log.appended == c.log.appended
  {
  }

  /** The current terminal, the text waiting for it and the history to redraw it from. */
  class TerminalScreen {
    var terminal: XTerm
    var terminalGeneration: nat
    var connectionReady: bool
    var receivedReplay: bool
    var pendingReplay: Option<Bytes>
    var pendingOut: seq<Bytes>
    var state: ConnectionState
    var disposed: bool
    const store: RenderStore
    ghost var callbacks: set<nat>    // terminal generations the framework still owes a callback

    /** Ready means live with the replay written and nothing waiting; and a live tab with
        nothing scheduled is ready. */
    ghost predicate Valid()
      reads this, store
    {
      && store.Valid()
      && (connectionReady ==> receivedReplay && state == Live && pendingReplay.None? && pendingOut == [])
      && (receivedReplay ==> state == Live || state == Closed)
      && (receivedReplay && state == Live && pendingReplay.None? ==> connectionReady)
      && (!receivedReplay ==> pendingReplay.None? && pendingOut == [])
    }

    /** The objects stand for the tab `c`, sizes and socket apart. */
    ghost predicate Is(c: Tab)
      reads this, terminal, store
    {
      && c.screen == Screen(terminal.written, terminalGeneration, connectionReady, receivedReplay, pendingReplay,
                            pendingOut, callbacks)
      && c.log.history == store.renderHistory && c.log.appended == store.appended
      && c.net.conn == state && c.net.disposed == disposed
    }

    constructor (lineWrap: bool, fixedCols: int, powerShell: bool, view: (int, int))
      ensures Valid() && fresh(terminal) && fresh(store)
      ensures Is(Initial(lineWrap, fixedCols, powerShell, view))
      ensures terminal.viewWidth == view.0 && terminal.viewHeight == view.1
    {
      terminal := new XTerm(view.0, view.1);
      store := new RenderStore();
      terminalGeneration, connectionReady, receivedReplay := 0, false, false;
      pendingReplay, pendingOut, callbacks := None, [], {};
      state, disposed := Connecting, false;
    }

    /** Replaces the terminal by a new one of its size and schedules `text` for it. The old
        terminal object is left as it is: nothing here can write to it any more. */
    method Replace(text: Bytes)
      modifies this
      ensures fresh(terminal) && terminal.written == [] && terminalGeneration == old(terminalGeneration) + 1
      ensures terminal.viewWidth == old(terminal).viewWidth && terminal.viewHeight == old(terminal).viewHeight
      ensures pendingReplay == Some(text) && pendingOut == [] && !connectionReady
      ensures callbacks == old(callbacks) + {terminalGeneration}
      ensures receivedReplay == old(receivedReplay) && state == old(state) && disposed == old(disposed)
    {
      terminal := new XTerm(terminal.viewWidth, terminal.viewHeight);
      terminalGeneration := terminalGeneration + 1;
      pendingReplay, pendingOut := Some(text), [];
      connectionReady := false;
      callbacks := callbacks + {terminalGeneration};
    }

    /** A replay: a new terminal waits for it, and the history starts over. */
    method OnReplay(data: Bytes, ghost c: Tab)
      requires Valid() && Is(c)
      modifies this, store
      ensures Valid() && Is(Client.OnReplay(c, data)) && fresh(terminal)
      ensures terminal.viewWidth == old(terminal).viewWidth && terminal.viewHeight == old(terminal).viewHeight
    {
      store.Reset(data);
      Replace(data);
      receivedReplay := true;
      state := Live;
    }

    /** Output: ignored before a replay, held back before readiness, else written. */
    method OnOut(data: Bytes, ghost c: Tab)
      requires Valid() && Is(c)
      modifies this, terminal, store
      ensures Valid() && Is(Client.OnOut(c, data)) && terminal == old(terminal)
    {
      if !receivedReplay {
        return;
      }
      store.Append(data);
      if !connectionReady {
        pendingOut := pendingOut + [data];
      } else {
        terminal.Write(data);
      }
    }

    /** The exit notice goes where output goes, or straight to the screen without a replay;
        and nothing will be ready after it. */
    method OnExit(code: int, ghost c: Tab)
      requires Valid() && Is(c)
      modifies this, terminal, store
      ensures Valid() && Is(Client.OnExit(c, code)) && terminal == old(terminal)
    {
      var message := ExitMessage(code);
      store.Append(message);
      if receivedReplay && !connectionReady {
        pendingOut := pendingOut + [message];
      } else {
        terminal.Write(message);
      }
      connectionReady := false;
      state := Closed;
    }

    /** The scheduled callback of one terminal generation: the scheduled text and all
        output held back since are written, in that order and once. */
    method ApplyPendingReplay(gen: nat, ghost c: Tab)
      requires Valid() && Is(c)
      modifies this, terminal
      ensures Valid() && Is(RunCallback(c, gen)) && terminal == old(terminal)
    {
      callbacks := callbacks - {gen};
      if disposed || gen != terminalGeneration || pendingReplay.None? {
        return;
      }
      WritePending(terminal, pendingReplay.value, pendingOut);
      pendingReplay, pendingOut := None, [];
      if state != Closed {
        connectionReady := true;
        ResizeLeavesScreen(Readied(Written(c, gen)));
      }
    }

    static method WritePending(terminal: XTerm, replay: Bytes, waiting: seq<Bytes>)
      modifies terminal
      ensures terminal.written == old(terminal.written) + [replay] + waiting
    {
      terminal.Write(replay);
      for i := 0 to |waiting|
        invariant terminal.written == old(terminal.written) + [replay] + waiting[..i]
      {
        terminal.Write(waiting[i]);
      }
    }

    /** A new terminal that waits for what the history holds. */
    method RebuildFromHistory(ghost c: Tab)
      requires Valid() && Is(c)
      modifies this
      ensures Valid() && Is(Client.Rebuild(c)) && (receivedReplay <==> fresh(terminal))
    {
      if !receivedReplay {
        ResizeLeavesScreen(c);
        return;
      }
      Replace(Join(store.renderHistory));
    }

    /** The socket is given up or replaced: what waits goes with it, what is written stays. */
    method Detach(next: ConnectionState, ghost c: Tab, ghost retry: bool)
      requires Valid() && Is(c)
      modifies this
      ensures Valid() && Is(Detached(c, next, retry, c.net.disposed)) && terminal == old(terminal)
    {
      connectionReady, receivedReplay := false, false;
      pendingReplay, pendingOut := None, [];
      state := next;
    }

    /** A connection attempt: what is written stays until the new socket's replay. */
    method Connect(ok: bool, ghost c: Tab)
      requires Valid() && Is(c)
      modifies this
      ensures Valid() && Is(Client.Connect(c, ok)) && terminal == old(terminal)
    {
      if !disposed {
        Detach(if ok then Connecting else Reconnecting, c, !ok);
      }
    }

    /** The socket failed or ended: a closed tab stays as it is. */
    method ScheduleReconnect(ghost c: Tab)
      requires Valid() && Is(c)
      modifies this
      ensures Valid() && Is(Client.ScheduleReconnect(c)) && terminal == old(terminal)
    {
      if !disposed && state != Closed {
        Detach(Reconnecting, c, true);
      }
    }

    method Dispose(ghost c: Tab)
      requires Valid() && Is(c)
      modifies this
      ensures Valid() && Is(Client.Dispose(c)) && terminal == old(terminal)
    {
      Detach(state, c, false);
      disposed := true;
    }
  }
}

/** The registry of live connections and the one viewer slot, as the threads of a sidecar update them in place. */
module ViewersThread {
  import opened Wrappers
  import opened Bytes
  import opened Viewers

  class ConnectionRegistry {
    var live: set<HolderId>
    var closed: bool

    constructor ()
      ensures live == {} && !closed
    {
      live, closed := {}, false;
    }

    /** Nothing registers once the run has ended. */
    method Insert(holder: HolderId) returns (registered: bool)
      modifies this`live
      ensures registered == !closed
      ensures live == if registered then old(live) + {holder} else old(live)
    {
      if closed {
        return false;
      }
      live := live + {holder};
      return true;
    }

    method Remove(holder: HolderId) returns (found: bool)
      modifies this`live
      ensures found == (holder in old(live)) && live == old(live) - {holder}
    {
      found := holder in live;
      live := live - {holder};
    }

    /** Ends the run's connections; returns those to shut down. */
    method CloseAll() returns (entries: set<HolderId>)
      modifies this
      ensures closed && live == {} && entries == old(live)
    {
      closed, entries, live := true, live, {};
    }
  }

  /** What the threads of one run share: the registry, the viewer slot and the queues. */
  class AttachSide {
    const registry: ConnectionRegistry
    var viewer: Option<HolderId>
    var queues: map<HolderId, ViewerQueue>
    /** The state of the machine this is in. */
    ghost var side: Side

    ghost predicate QueuesValid()
      reads this, queues.Values
    {
      && queues.Keys == side.queues.Keys
      && (forall h :: h in queues ==> queues[h].View() == side.queues[h] && Counted(side.queues[h]))
      && (forall g, h :: g in queues && h in queues && g != h ==> queues[g] != queues[h])
    }

    ghost predicate Valid()
      reads this, registry, queues.Values
    {
      && registry.live == side.live && registry.closed == side.ended && viewer == side.sink
      && QueuesValid()
    }

    constructor ()
      ensures Valid() && side == START && fresh(registry)
    {
      registry := new ConnectionRegistry();
      viewer, queues, side := None, map[], START;
    }

    /** A connection registers before it asks for control. */
    method RegisterConnection(who: HolderId) returns (registered: bool)
      requires Valid() && who !in side.phases
      modifies registry`live, this`side
      ensures Valid() && registered == !old(side).ended
      ensures side == if registered then Next(old(side), Register(who)) else old(side)
    {
      hide Next, Counted;
      registered := registry.Insert(who);
      if registered {
        RegisterStep(side, who);
        side := Next(side, Register(who));
      }
    }

    /** Control is granted; a takeover's hook forgets the superseded connection first. */
    method GrantControl(who: HolderId, superseded: Option<HolderId>, takeover: bool)
      requires Valid() && Enabled(side, Grant(who, takeover)) && superseded == side.owner
      modifies registry`live, this`side
      ensures Valid() && side == Next(old(side), Grant(who, takeover))
    {
      hide Next, Counted;
      GrantStep(side, who, takeover);
      if superseded.Some? {
        var found := registry.Remove(superseded.value);
      }
      side := Next(side, Grant(who, takeover));
    }

    /** Installs a viewer unless its connection was retired: the check and the install are one step. */
    method InstallViewer(who: HolderId) returns (installed: bool)
      requires Valid() && InPhase(side, who, Granted)
      modifies this
      ensures Valid() && side == Next(old(side), Install(who)) && installed == (who in old(side).live)
    {
      hide Next, Counted;
      EmptyCounted();
      InstallStep(side, who);
      var own := new ViewerQueue();
      queues := queues[who := own];
      installed := who in registry.live;
      if installed {
        viewer := Some(who);
      }
      side := Next(side, Install(who));
      assert QueuesValid() by {
        assert queues.Keys == side.queues.Keys;
        forall h | h in queues ensures queues[h].View() == side.queues[h] && Counted(side.queues[h]) {
          if h != who {
            assert queues[h] == old(queues)[h];
          }
        }
      }
    }

    /** Offers a chunk of output to the installed viewer, and drops a viewer that does not take it. */
    method TeeChunk(chunk: seq<byte>)
      requires Valid()
      modifies this`viewer, this`side, queues.Values
      ensures Valid() && side == Next(old(side), Tee(chunk)) && queues == old(queues)
    {
      hide Next, Offer, Counted;
      ghost var was := viewer;
      TeeStep(side, chunk);
      if viewer.Some? && viewer.value in queues {
        var queue := queues[viewer.value];
        var taken := queue.OfferChunk(chunk);
        if !taken {
          viewer := None;
        }
      }
      side := Next(side, Tee(chunk));
      assert QueuesValid() by {
        forall h | h in queues ensures queues[h].View() == side.queues[h] && Counted(side.queues[h]) {
          if was.Some? && was.value in queues && h != was.value {
            assert queues[h] != queues[was.value];
          }
        }
      }
    }

    /** A viewer's sender takes its next chunk, if its queue is open and has one. */
    method SendNext(who: HolderId) returns (chunk: Option<seq<byte>>)
      requires Valid() && Enabled(side, Send(who))
      modifies this`side, queues.Values
      ensures Valid() && side == Next(old(side), Send(who)) && queues == old(queues)
      ensures chunk == TakeNext(old(side).queues[who]).1
    {
      hide Next, TakeNext, Counted;
      SendStep(side, who);
      var queue := queues[who];
      chunk := queue.Next();
      side := Next(side, Send(who));
      assert QueuesValid() by {
        forall h | h in queues ensures queues[h].View() == side.queues[h] && Counted(side.queues[h]) {
          if h != who {
            assert queues[h] != queues[who];
          }
        }
      }
    }

    /** The end of a retirement: the retired connection's viewer, if still installed, is closed and taken away. */
    method FinishRetiringViewer(who: HolderId)
      requires Valid() && who in side.retired
      modifies this`viewer, this`side, queues.Values
      ensures Valid() && side == Next(old(side), FinishRetiring(who)) && queues == old(queues)
    {
      hide Next, Close, Counted;
      RetireStep(side, who);
      if viewer == Some(who) {
        if who in queues {
          queues[who].CloseQueue();
        }
        viewer := None;
      }
      side := Next(side, FinishRetiring(who));
      assert QueuesValid() by {
        forall h | h in queues ensures queues[h].View() == side.queues[h] && Counted(side.queues[h]) {
          if who in queues && h != who {
            assert queues[h] != queues[who];
          }
        }
      }
    }

    /** A connection's own cleanup, first: its registration goes, whether or not a takeover took it before. */
    method ForgetConnection(who: HolderId)
      requires Valid() && InPhase(side, who, Leaving)
      modifies registry`live, this`side
      ensures Valid() && side == Next(old(side), Forget(who))
    {
      hide Next, Counted;
      LeaveStep(side, who);
      var found := registry.Remove(who);
      side := Next(side, Forget(who));
    }

    /** Then its viewer is taken out of the slot, and no successor's. */
    method ClearOwn(who: HolderId)
      requires Valid() && InPhase(side, who, Leaving)
      modifies this`viewer, this`side
      ensures Valid() && side == Next(old(side), ClearSink(who))
    {
      hide Next, Counted;
      LeaveStep(side, who);
      if viewer == Some(who) {
        viewer := None;
      }
      side := Next(side, ClearSink(who));
    }

    /** Last, its sender is told to stop. */
    method CloseOwnQueue(who: HolderId)
      requires Valid() && Enabled(side, CloseOwn(who))
      modifies this`side, queues.Values
      ensures Valid() && side == Next(old(side), CloseOwn(who)) && queues == old(queues)
    {
      hide Next, Close, Counted;
      LeaveStep(side, who);
      queues[who].CloseQueue();
      side := Next(side, CloseOwn(who));
      assert QueuesValid() by {
        forall h | h in queues ensures queues[h].View() == side.queues[h] && Counted(side.queues[h]) {
          if h != who {
            assert queues[h] != queues[who];
          }
        }
      }
    }

    /** The run ends: no further registration, and every live connection shut down. */
    method EndTheRun() returns (entries: set<HolderId>)
      requires Valid()
      modifies registry, this`side
      ensures Valid() && side == Next(old(side), EndRun) && entries == old(side).live
    {
      hide Next, Counted;
      EndStep(side);
      entries := registry.CloseAll();
      side := Next(side, EndRun);
    }
  }

  // ---------------------------------------------------------------- what each step does to what is shared

  lemma EmptyCounted()
    ensures Counted(EMPTY_QUEUE)
  {
  }

  /** The registry and the slot a step leaves. */
  predicate Shows(t: Side, live: set<HolderId>, ended: bool, sink: Option<HolderId>) {
    t.live == live && t.ended == ended && t.sink == sink
  }

  lemma RegisterStep(s: Side, h: HolderId)
    requires Enabled(s, Register(h))
    ensures Shows(Next(s, Register(h)), s.live + {h}, s.ended, s.sink) && Next(s, Register(h)).queues == s.queues
  {
  }

  lemma GrantStep(s: Side, h: HolderId, takeover: bool)
    requires Enabled(s, Grant(h, takeover))
    ensures var t := Next(s, Grant(h, takeover));
      && Shows(t, if s.owner.Some? then s.live - {s.owner.value} else s.live, s.ended, s.sink) && t.queues == s.queues
  {
  }

  lemma InstallStep(s: Side, h: HolderId)
    requires InPhase(s, h, Granted)
    ensures var t := Next(s, Install(h));
      && Shows(t, s.live, s.ended, if h in s.live then Some(h) else s.sink) && t.queues == s.queues[h := EMPTY_QUEUE]
  {
  }

  lemma TeeStep(s: Side, chunk: seq<byte>)
    ensures var t := Next(s, Tee(chunk));
      if s.sink.Some? && s.sink.value in s.queues then
        var (q, taken) := Offer(s.queues[s.sink.value], chunk);
        Shows(t, s.live, s.ended, if taken then s.sink else None) && t.queues == s.queues[s.sink.value := q]
      else Shows(t, s.live, s.ended, s.sink) && t.queues == s.queues
  {
    hide Offer;
  }

  lemma SendStep(s: Side, h: HolderId)
    requires Enabled(s, Send(h))
    ensures var t := Next(s, Send(h));
      Shows(t, s.live, s.ended, s.sink) && t.queues == s.queues[h := TakeNext(s.queues[h]).0]
  {
    UnchangedIfNone(s.queues[h]);
  }

  lemma RetireStep(s: Side, h: HolderId)
    requires h in s.retired
    ensures var t := Next(s, FinishRetiring(h));
      && Shows(t, s.live, s.ended, if s.sink == Some(h) then None else s.sink)
      && t.queues == if s.sink == Some(h) && h in s.queues then s.queues[h := Close(s.queues[h])] else s.queues
    ensures h in s.queues && Counted(s.queues[h]) ==> Counted(Close(s.queues[h]))
  {
  }

  /** The three steps of a connection's own cleanup. */
  lemma LeaveStep(s: Side, h: HolderId)
    requires InPhase(s, h, Leaving)
    ensures Shows(Next(s, Forget(h)), s.live - {h}, s.ended, s.sink) && Next(s, Forget(h)).queues == s.queues
    ensures var t := Next(s, ClearSink(h));
      Shows(t, s.live, s.ended, if s.sink == Some(h) then None else s.sink) && t.queues == s.queues
    ensures h in s.queues ==>
      var t := Next(s, CloseOwn(h));
      Shows(t, s.live, s.ended, s.sink) && t.queues == s.queues[h := Close(s.queues[h])]
    ensures h in s.queues && Counted(s.queues[h]) ==> Counted(Close(s.queues[h]))
  {
  }

  lemma EndStep(s: Side)
    ensures Shows(Next(s, EndRun), {}, true, s.sink) && Next(s, EndRun).queues == s.queues
  {
  }

  lemma UnchangedIfNone(q: Queue)
    ensures TakeNext(q).1.None? ==> TakeNext(q).0 == q
  {
  }
}

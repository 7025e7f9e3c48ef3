/** A receiver at work: whatever methods of the manager it calls, in whatever order, its history
    is a run of the protocol, so that all that holds of runs holds of it. */
module Receiver {
  import opened Common
  import opened Messages
  import opened Checks
  import opened MemoryContext
  import opened Manager
  import opened Protocol
  import opened Runs

  lemma RunOn(scheme: Scheme, sender: Option<Address>, worlds: seq<World>, events: seq<Event>, e: Event)
    requires Run(scheme, sender, worlds, events)
    requires Enabled(scheme, sender, worlds[|events|], e)
    ensures Run(scheme, sender, worlds + [Next(scheme, sender, worlds[|events|], e)], events + [e])
  {
    var after, all := worlds + [Next(scheme, sender, worlds[|events|], e)], events + [e];
    forall i | 0 <= i < |all|
      ensures Enabled(scheme, sender, after[i], all[i]) && after[i + 1] == Next(scheme, sender, after[i], all[i])
    {
      if i < |events| {
        assert after[i] == worlds[i] && all[i] == events[i] && after[i + 1] == worlds[i + 1];
      }
    }
  }

  lemma RequestMade(scheme: Scheme, sender: Option<Address>, w: World, end: nat, limit: Option<nat>,
                    batch: seq<SignedReceipt>, checks: seq<Check>, result: Result<RavRequest, Error>)
    requires batch in Retrievals(w.state.receipts, HalfOpen(FirstTimestamp(w.state.rav), end), limit)
    requires result == Answer(Judge(scheme, checks, w.state.minTimestampNs), w.state, end, batch) && result.Ok?
    ensures var e := Request(end, limit, batch, checks);
            && Enabled(scheme, sender, w, e)
            && Next(scheme, sender, w, e) == w.(pending := w.pending + [Pending(result.value, |w.arrived|)])
  {
  }

  class Receiver {
    const manager: Manager
    ghost var worlds: seq<World>
    ghost var events: seq<Event>

    /** The history is a run, and the store is where it has led. */
    ghost predicate Valid()
      reads this, manager.context
    {
      && MinTimestamp in manager.checks
      && |worlds| == |events| + 1
      && Run(manager.scheme, manager.context.senderAddress, worlds, events)
      && worlds[|events|].state == manager.context.View()
    }

    ghost function Now(): World
      requires worlds != []
      reads this
    {
      worlds[|worlds| - 1]
    }

    /** Work starts with no receipts stored, but perhaps with a RAV that the timestamp check has
        been set up for. */
    constructor (manager: Manager)
      requires MinTimestamp in manager.checks
      requires manager.context.receiptStorage == map[] && manager.context.uniqueId == 0
      requires Resumable(manager.context.ravStorage, manager.context.minTimestampNs)
      ensures Valid() && this.manager == manager && events == []
    {
      this.manager := manager;
      worlds, events := [Initial(manager.context.ravStorage, manager.context.minTimestampNs)], [];
    }

    ghost method Happened(e: Event)
      requires Valid()
      requires Enabled(manager.scheme, manager.context.senderAddress, worlds[|events|], e)
      modifies this
      ensures Run(manager.scheme, manager.context.senderAddress, worlds, events)
      ensures events == old(events) + [e]
      ensures worlds == old(worlds) + [Next(manager.scheme, manager.context.senderAddress, old(Now()), e)]
    {
      RunOn(manager.scheme, manager.context.senderAddress, worlds, events, e);
      worlds, events := worlds + [Next(manager.scheme, manager.context.senderAddress, Now(), e)], events + [e];
    }

    method ReceiveReceipt(receipt: SignedReceipt) returns (result: Result<(), Error>)
      requires Valid()
      modifies this, manager.context
      ensures Valid() && events == old(events) + [Receive(receipt, manager.checks)]
      ensures Now().arrived == if result.Ok? then old(Now()).arrived + [receipt] else old(Now()).arrived
    {
      Happened(Receive(receipt, manager.checks));
      result := manager.VerifyAndStoreReceipt(receipt);
    }

    ghost method Requested(end: nat, limit: Option<nat>, batch: seq<SignedReceipt>, result: Result<RavRequest, Error>)
      requires Valid() && result.Ok?
      requires batch in Retrievals(manager.context.View().receipts,
               HalfOpen(FirstTimestamp(manager.context.View().rav), end), limit)
      requires result == Answer(manager.CurrentJudge(), manager.context.View(), end, batch)
      modifies this
      ensures Valid() && events == old(events) + [Request(end, limit, batch, manager.checks)]
      ensures Now().pending == old(Now()).pending + [Pending(result.value, |Now().arrived|)]
    {
      RequestMade(manager.scheme, manager.context.senderAddress, Now(), end, limit, batch, manager.checks, result);
      Happened(Request(end, limit, batch, manager.checks));
    }

    method RequestRav(now: nat, timestampBufferNs: nat, limit: Option<nat>)
      returns (result: Result<RavRequest, Error>, ghost batch: seq<SignedReceipt>)
      requires Valid() && timestampBufferNs <= now
      modifies this
      ensures Valid()
      ensures result.Err? ==> events == old(events)
      ensures result.Ok? ==>
                && events == old(events) + [Request(now - timestampBufferNs, limit, batch, manager.checks)]
                && Now().pending == old(Now()).pending + [Pending(result.value, |Now().arrived|)]
    {
      hide *;
      result, batch := manager.CreateRavRequest(now, timestampBufferNs, limit);
      if result.Ok? {
        Requested(now - timestampBufferNs, limit, batch, result);
      }
    }

    /** Storing a RAV for an open request; `Timely` is what the timestamp buffer is to ensure. */
    method StoreRav(ghost index: nat, expected: Rav, signed: SignedRav) returns (result: Result<(), Error>)
      requires Valid()
      requires index < |Now().pending| && Timely(Now(), Now().pending[index])
      requires Now().pending[index].request.expected == Ok(expected)
      modifies this, manager.context
      ensures Valid()
      ensures result.Ok? <==> Refusal(manager.scheme, manager.context.senderAddress, expected, signed) == None
      ensures events == if result.Ok? then old(events) + [Event.StoreRav(index, signed)] else old(events)
    {
      if Refusal(manager.scheme, manager.context.senderAddress, expected, signed) == None {
        Happened(Event.StoreRav(index, signed));
      }
      result := manager.VerifyAndStoreRav(expected, signed);
    }

    method RemoveObsolete()
      requires Valid()
      modifies this, manager.context
      ensures Valid() && events == old(events) + [Clean]
    {
      Happened(Clean);
      manager.RemoveObsoleteReceipts();
    }
  }
}

/** debug-collector.js: the page object that the reporting closures and listeners share. */
module CollectorPage {
  import opened Domain
  import opened Collector

  /** The arrays a report took out, held by its failure handler until the request settles. */
  datatype Payload = Payload(consoleLogs: seq<nat>, networkRequests: seq<nat>, uiEvents: seq<nat>)

  class Page {
    var consoleLogs: seq<nat>
    var networkRequests: seq<nat>
    var uiEvents: seq<nat>
    var requests: seq<Option<Payload>>
    ghost var account: Store

    ghost predicate Valid()
      reads this
    {
      && Aligned(account)
      && account.console.cap == CONSOLE_SIZE && account.network.cap == NETWORK_SIZE && account.ui.cap == UI_SIZE
      && account.console.buffered == consoleLogs
      && account.network.buffered == networkRequests
      && account.ui.buffered == uiEvents
      && |requests| == |account.ui.inFlight|
      && forall i :: 0 <= i < |requests| ==>
           && (requests[i].Some? <==> i in account.open)
           && (requests[i].Some? ==> requests[i].value == Taken(i))
    }

    ghost function Taken(id: nat): Payload
      requires Aligned(account) && id < |account.ui.inFlight|
      reads this
    {
      Payload(account.console.inFlight[id], account.network.inFlight[id], account.ui.inFlight[id])
    }

    constructor ()
      ensures Valid() && account == Start()
    {
      consoleLogs, networkRequests, uiEvents, requests := [], [], [], [];
      account := Start();
    }

    /** Cuts the oldest entries off, down to the size allowed. */
    static method PruneBuffer(buffer: seq<nat>, maxSize: nat) returns (pruned: seq<nat>)
      ensures pruned == buffer[Excess(buffer, maxSize)..]
    {
      pruned := buffer;
      if |buffer| > maxSize {
        pruned := buffer[|buffer| - maxSize..];
      }
    }

    method LogConsole(entry: nat)
      requires Valid() && entry == account.console.pushed
      modifies this
      ensures Valid() && account == Apply(old(account), Logged(Console))
    {
      consoleLogs := consoleLogs + [entry];
      consoleLogs := PruneBuffer(consoleLogs, CONSOLE_SIZE);
      account := Apply(account, Logged(Console));
    }

    method LogNetworkRequest(entry: nat)
      requires Valid() && entry == account.network.pushed
      modifies this
      ensures Valid() && account == Apply(old(account), Logged(Network))
    {
      networkRequests := networkRequests + [entry];
      networkRequests := PruneBuffer(networkRequests, NETWORK_SIZE);
      account := Apply(account, Logged(Network));
    }

    method LogUiEvent(entry: nat)
      requires Valid() && entry == account.ui.pushed
      modifies this
      ensures Valid() && account == Apply(old(account), Logged(Ui))
    {
      uiEvents := uiEvents + [entry];
      uiEvents := PruneBuffer(uiEvents, UI_SIZE);
      account := Apply(account, Logged(Ui));
    }

    /** Takes everything out; the request, if there is anything to send, is the last of requests. */
    method ReportLogs() returns (sent: Option<Payload>)
      requires Valid()
      modifies this
      ensures Valid() && account == Apply(old(account), Reported)
      ensures consoleLogs == [] && networkRequests == [] && uiEvents == []
      ensures sent.Some? <==> old(consoleLogs) != [] || old(networkRequests) != [] || old(uiEvents) != []
      ensures sent.Some? ==> sent.value == Payload(old(consoleLogs), old(networkRequests), old(uiEvents))
    {
      var payload := Payload(consoleLogs, networkRequests, uiEvents);
      consoleLogs, networkRequests, uiEvents := [], [], [];
      account := Apply(account, Reported);
      if payload.consoleLogs == [] && payload.networkRequests == [] && payload.uiEvents == [] {
        return None;
      }
      requests := requests + [Some(payload)];
      sent := Some(payload);
    }

    /** Request id is answered, or fails and its payload is put back. */
    method RequestSettled(id: nat, ok: bool)
      requires Valid() && id < |requests| && requests[id].Some?
      modifies this
      ensures Valid() && account == Apply(old(account), Settled(id, ok))
    {
      var payload := requests[id].value;
      requests := requests[id := None];
      if !ok {
        consoleLogs := PruneBuffer(payload.consoleLogs + consoleLogs, CONSOLE_SIZE);
        networkRequests := PruneBuffer(payload.networkRequests + networkRequests, NETWORK_SIZE);
        uiEvents := PruneBuffer(payload.uiEvents + uiEvents, UI_SIZE);
      }
      SettleBuffers(account, id, ok);
      account := Apply(account, Settled(id, ok));
    }
  }

  lemma SettleBuffers(s: Store, id: nat, ok: bool)
    requires Aligned(s) && id in s.open
    ensures var t := Apply(s, Settled(id, ok));
            && t.console.inFlight == s.console.inFlight[id := []]
            && t.network.inFlight == s.network.inFlight[id := []]
            && t.ui.inFlight == s.ui.inFlight[id := []]
            && t.open == s.open - {id}
  {
  }
}

/** The objects behind session events: the core's map of replay buffers and the bridge, against their tables. */
module SessionBridges {

  import opened Wrappers
  import opened ReplayBuffers
  import opened SessionEvents

  /** The position of a session in the insertion order, or the size of the map when it is absent. */
  function Position(order: seq<string>, id: string): (i: nat)
    ensures i <= |order| && (i < |order| ==> order[i] == id)
    ensures forall j | 0 <= j < i :: order[j] != id
  {
    if order == [] then 0 else if order[0] == id then 0 else 1 + Position(order[1..], id)
  }

  lemma SlotIndexIs(table: Table, id: string, i: nat)
    requires i <= |table| && (i < |table| ==> table[i].sessionId == id)
    requires forall j | 0 <= j < i :: table[j].sessionId != id
    ensures SlotIndex(table, id) == i
  {}

  /** The part of the adapter core that keeps replay buffers: a map in insertion order. */
  class RemoteAdapterCore {
    const config: Config
    var sessions: seq<string>
    var buffers: seq<BoundedReplayBuffer>

    ghost var owned: set<BoundedReplayBuffer>

    ghost predicate Valid()
      reads this, owned
    {
      && |sessions| == |buffers|
      && (forall i, j | 0 <= i < j < |buffers| :: buffers[i] != buffers[j])
      && (forall i | 0 <= i < |buffers| :: buffers[i] in owned && buffers[i].Valid() && buffers[i].limits == config.limits)
    }

    ghost function View(): (t: Table)
      requires Valid()
      reads this, owned
      ensures |t| == |sessions| && forall i | 0 <= i < |t| :: t[i] == Slot(sessions[i], buffers[i].View())
    {
      seq(|sessions|, i requires 0 <= i < |sessions| && Valid() reads this, owned => Slot(sessions[i], buffers[i].View()))
    }

    constructor (config: Config)
      ensures Valid() && this.config == config && View() == [] && owned == {}
    {
      this.config := config;
      sessions, buffers, owned := [], [], {};
    }

    method TakeOut(i: nat) returns (buffer: BoundedReplayBuffer)
      requires Valid() && i < |sessions|
      modifies this`sessions, this`buffers
      ensures Valid() && View() == old(View())[..i] + old(View())[i + 1..]
      ensures buffer in owned && buffer !in buffers && buffer.Valid() && buffer.limits == config.limits
      ensures buffer.View() == old(View())[i].buffer
    {
      hide BoundedReplayBuffer.Valid;
      buffer := buffers[i];
      sessions, buffers := sessions[..i] + sessions[i + 1..], buffers[..i] + buffers[i + 1..];
    }

    method PutLast(id: string, buffer: BoundedReplayBuffer)
      requires Valid() && buffer.Valid() && buffer.limits == config.limits && buffer !in buffers && buffer in owned
      modifies this`sessions, this`buffers
      ensures Valid() && View() == old(View()) + [Slot(id, buffer.View())]
    {
      hide BoundedReplayBuffer.Valid;
      sessions, buffers := sessions + [id], buffers + [buffer];
    }

    /** A buffer for a session that has none; the least recently used session makes room. */
    method NewBuffer() returns (buffer: BoundedReplayBuffer)
      requires Valid()
      modifies this`sessions, this`buffers, this`owned
      ensures Valid() && View() == Evicted(config, old(View()))
      ensures owned == old(owned) + {buffer} && fresh(buffer) && buffer !in buffers
      ensures buffer.Valid() && buffer.limits == config.limits && buffer.View() == EMPTY_BUFFER
    {
      hide BoundedReplayBuffer.Valid;
      if |sessions| >= config.maxSessions && |sessions| > 0 {
        var _ := TakeOut(0);
      }
      buffer := new BoundedReplayBuffer(config.limits);
      owned := owned + {buffer};
    }

    /** An append to a buffer that is out of the order does not show in the others. */
    method AppendApart(buffer: BoundedReplayBuffer, e: OfficialSessionEvent) returns (r: Result<(), AppendError>)
      requires Valid() && buffer in owned && buffer !in buffers && buffer.Valid()
      modifies buffer
      ensures Valid() && View() == old(View()) && buffer.Valid()
      ensures AppendTo(buffer.limits, old(buffer.View()), e) == if r.Ok? then Ok(buffer.View()) else Err(r.error)
      ensures if r.Ok? then r == Ok(()) else buffer.View() == old(buffer.View())
    {
      hide BoundedReplayBuffer.Valid;
      hide AppendTo;
      r := buffer.Append(e);
    }

    method OnOfficialEvent(id: string, e: OfficialSessionEvent) returns (r: Result<(), AppendError>)
      requires Valid()
      modifies this, owned
      ensures Valid() && fresh(owned - old(owned))
      ensures (View(), r) == SessionEvents.OnOfficialEvent(config, old(View()), id, e)
    {
      hide RemoteAdapterCore.Valid;
      hide RemoteAdapterCore.View;
      hide BoundedReplayBuffer.Valid;
      hide BoundedReplayBuffer.View;
      hide AppendTo;
      hide SlotIndex;
      var i := Position(sessions, id);
      SlotIndexIs(View(), id, i);
      ghost var before := View();
      var buffer: BoundedReplayBuffer;
      if i < |sessions| {
        buffer := TakeOut(i);
      } else {
        buffer := NewBuffer();
      }
      assert View() == Others(config, before, id) && buffer.View() == BufferFor(before, id);
      r := AppendApart(buffer, e);
      PutLast(id, buffer);
    }

    method Attach(id: string, after: Option<nat>) returns (r: ReplayResult)
      requires Valid()
      modifies this`sessions, this`buffers
      ensures Valid()
      ensures (View(), r) == SessionEvents.Attach(old(View()), id, after)
    {
      hide BoundedReplayBuffer.Valid;
      hide ResumeFrom;
      var i := Position(sessions, id);
      SlotIndexIs(View(), id, i);
      if i == |sessions| {
        return if after.Some? then WindowUnavailable else Events([]);
      }
      var buffer := TakeOut(i);
      PutLast(id, buffer);
      r := buffer.Resume(after);
    }

    method ForgetSession(id: string)
      requires Valid()
      modifies this`sessions, this`buffers
      ensures Valid() && View() == Without(old(View()), id)
    {
      hide BoundedReplayBuffer.Valid;
      var i := Position(sessions, id);
      SlotIndexIs(View(), id, i);
      if i < |sessions| { var _ := TakeOut(i); }
    }
  }

  class OfficialSessionEventBridge {
    const core: RemoteAdapterCore
    var lastSeqBySession: map<string, int>
    var delivered: seq<(string, OfficialSessionEvent)>
    ghost var logs: map<string, seq<OfficialSessionEvent>>

    ghost predicate Valid()
      reads this, core, core.owned
    {
      core.Valid()
    }

    ghost function View(): State
      requires Valid()
      reads this, core, core.owned
    {
      State(core.View(), lastSeqBySession, logs)
    }

    constructor (core: RemoteAdapterCore)
      requires core.Valid()
      ensures Valid() && this.core == core && View() == State(core.View(), map[], map[]) && delivered == []
    {
      this.core := core;
      lastSeqBySession, logs, delivered := map[], map[], [];
    }

    /** One item of a payload; an accepted event also goes to the listener. */
    method IngestItem(id: string, item: LogItem, lastSeq: int, ghost news: seq<OfficialSessionEvent>)
      returns (accepted: bool, error: Option<IngestError>)
      requires Valid()
      modifies this`delivered, core, core.owned
      ensures Valid() && fresh(core.owned - old(core.owned))
      ensures accepted ==> WellFormed(item) && error.None?
      ensures delivered == old(delivered) + if accepted then [(id, EventOf(item))] else []
      ensures SessionEvents.IngestItem(core.config, id, Progress(old(core.View()), news, lastSeq, None), item)
           == Progress(core.View(), if accepted then news + [EventOf(item)] else news, if accepted then item.seqNo.value else lastSeq, error)
    {
      hide BoundedReplayBuffer.Valid;
      hide SessionEvents.OnOfficialEvent;
      if !WellFormed(item) { return false, Some(BadItem); }
      if item.seqNo.value <= lastSeq { return false, None; }
      var appended := core.OnOfficialEvent(id, EventOf(item));
      if appended.Err? { return false, Some(Refused(appended.error)); }
      delivered := delivered + [(id, EventOf(item))];
      return true, None;
    }

    /** One payload; the position of the session moves only when all of it went through. The listener hears exactly of
        what the log of the session gained. */
    method Ingest(id: string, payload: Option<seq<LogItem>>) returns (r: Result<nat, IngestError>)
      requires Valid()
      modifies this, core, core.owned
      ensures Valid() && fresh(core.owned - old(core.owned))
      ensures (View(), r) == SessionEvents.Ingest(core.config, old(View()), id, payload)
      ensures |LogOf(View(), id)| >= |LogOf(old(View()), id)|
      ensures delivered == old(delivered) + Deliveries(id, LogOf(View(), id)[|LogOf(old(View()), id)|..])
    {
      hide SessionEvents.IngestItem;
      hide BoundedReplayBuffer.Valid;
      if id == "" || payload.None? { return Err(BadEnvelope); }
      ghost var heard := delivered;
      var items, count := payload.value, 0;
      var lastSeq := if id in lastSeqBySession then lastSeqBySession[id] else 0;
      ghost var before := View();
      ghost var start: Progress, news: seq<OfficialSessionEvent> := Progress(before.table, [], lastSeq, None), [];
      var i, error := 0, None;
      while i < |items| && error.None?
        invariant i <= |items| && Valid()
        invariant fresh(core.owned - old(core.owned))
        invariant lastSeqBySession == before.lastSeqBySession && logs == before.logs && count == |news|
        invariant delivered == heard + Deliveries(id, news)
        invariant IngestItems(core.config, id, start, items[..i]) == Progress(core.View(), news, lastSeq, error)
        decreases |items| - i
      {
        assert items[..i + 1][..i] == items[..i];
        var accepted, err := IngestItem(id, items[i], lastSeq, news);
        if accepted {
          lastSeq, count, news := items[i].seqNo.value, count + 1, news + [EventOf(items[i])];
        }
        i, error := i + 1, err;
      }
      logs := logs[id := LogOf(before, id) + news];
      assert (LogOf(before, id) + news)[|LogOf(before, id)|..] == news;
      if error.Some? {
        StopsAtError(core.config, id, start, items, i);
        return Err(error.value);
      }
      assert items[..i] == items;
      lastSeqBySession := lastSeqBySession[id := lastSeq];
      return Ok(count);
    }

    method Forget(id: string)
      requires Valid()
      modifies this, core`sessions, core`buffers
      ensures Valid()
      ensures View() == SessionEvents.Forget(old(View()), id)
    {
      hide RemoteAdapterCore.Valid;
      lastSeqBySession, logs := lastSeqBySession - {id}, logs - {id};
      core.ForgetSession(id);
    }
  }

  function Deliveries(id: string, news: seq<OfficialSessionEvent>): seq<(string, OfficialSessionEvent)> {
    seq(|news|, i requires 0 <= i < |news| => (id, news[i]))
  }

  /** An error ends the ingestion: what follows in the payload is not looked at. */
  lemma {:induction false} StopsAtError(config: Config, id: string, start: Progress, items: seq<LogItem>, i: nat)
    requires i <= |items| && IngestItems(config, id, start, items[..i]).error.Some?
    ensures IngestItems(config, id, start, items) == IngestItems(config, id, start, items[..i])
    decreases |items|
  {
    if i == |items| {
      assert items[..i] == items;
    } else {
      var init := items[..|items| - 1];
      assert init[..i] == items[..i];
      StopsAtError(config, id, start, init, i);
    }
  }
}

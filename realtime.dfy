/**
 * The realtime subscription hook (`useRealtimeSubscription`): while a list is
 * open it keeps one change-feed channel on the `todos` table, filtered to that
 * list, and turns each change event into a `realtimeDelete` or a
 * `realtimeUpsert` on the todos store.
 */
module Realtime {
  import opened Wrappers
  import opened Database
  import Keyed
  import Sequences
  import opened Strings
  import opened TodosSlice

  /**
   * A change event as the feed delivers it: inserts and updates carry the new
   * row, deletes only the old row's id.
   */
  datatype ChangeEvent =
    | Insert(record: Todo)
    | Update(record: Todo)
    | Delete(oldId: string)

  /** The id of the todo an event is about. */
  function EventId(ev: ChangeEvent): string {
    if ev.Delete? then ev.oldId else ev.record.id
  }

  /** What the backend holds for that id once the event has happened. */
  function ServerRow(ev: ChangeEvent): Option<Todo> {
    if ev.Delete? then None else Some(ev.record)
  }

  /** The subscription callback: a DELETE becomes `realtimeDelete`, anything else `realtimeUpsert`. */
  function Route(ev: ChangeEvent): (a: TodosAction)
    ensures a.RealtimeDelete? <==> ev.Delete?
    ensures a.RealtimeDelete? ==> a.id == ev.oldId
    ensures a.RealtimeUpsert? ==> a.todo == ev.record
    ensures a.RealtimeDelete? || a.RealtimeUpsert?
  {
    match ev
    case Delete(id) => RealtimeDelete(id)
    case _ => RealtimeUpsert(ev.record)
  }

  /** The actions dispatched for a sequence of events, one per event, in order. */
  function Routed(events: seq<ChangeEvent>): (actions: seq<TodosAction>)
    ensures |actions| == |events|
    ensures forall j :: 0 <= j < |events| ==> actions[j] == Route(events[j])
  {
    seq(|events|, j requires 0 <= j < |events| => Route(events[j]))
  }

  /**
   * After the routed action is reduced, `find` for the event's id reports
   * exactly what the backend now holds: nothing after a delete, the new row
   * after an insert or update.
   */
  lemma RouteConverges(s: TodosState, ev: ChangeEvent)
    ensures Find(Reduce(s, Route(ev)), EventId(ev)) == ServerRow(ev)
  {
    match ev
    case Delete(id) =>
      Keyed.RemoveIdempotent(s.items, TodoId, id);
      assert Find(Reduce(s, Route(ev)), id).None?;
    case _ =>
      Keyed.LookupUpserted(s.items, TodoId, ev.record);
  }

  /** An event about another todo does not change what `find` reports for `id`. */
  lemma RouteOtherKeepsFind(s: TodosState, ev: ChangeEvent, id: string)
    requires EventId(ev) != id
    ensures Find(Reduce(s, Route(ev)), id) == Find(s, id)
  {
    if Find(s, id).Some? {
      StepPreservesFind(s, Route(ev), id);
    } else {
      StepKeepsAbsent(s, Route(ev), id);
    }
  }

  /**
   * Whatever the store held before, once the feed has been replayed `find`
   * for an id reports what the last event about that id left on the backend.
   */
  lemma {:induction false} FeedConverges(s: TodosState, events: seq<ChangeEvent>, k: nat, id: string)
    requires k < |events| && EventId(events[k]) == id
    requires forall j :: k < j < |events| ==> EventId(events[j]) != id
    ensures Find(Run(s, Routed(events)), id) == ServerRow(events[k])
    decreases |events|
  {
    var n := |events|;
    var prefix := events[..n - 1];
    assert Routed(events)[..n - 1] == Routed(prefix);
    if k == n - 1 {
      RouteConverges(Run(s, Routed(prefix)), events[k]);
    } else {
      FeedConverges(s, prefix, k, id);
      RouteOtherKeepsFind(Run(s, Routed(prefix)), events[n - 1], id);
    }
  }

  /** A channel of the realtime client: its topic and its row filter. */
  datatype Channel = Channel(topic: string, filter: string)

  /** The channel opened for a list: topic `todos:<id>`, rows with `list_id = <id>`. */
  function ChannelFor(listId: string): (c: Channel)
    ensures |c.topic| == 6 + |listId| && |c.filter| == 11 + |listId|
    ensures c.topic[..6] == "todos:" && c.topic[6..] == listId
    ensures c.filter[..11] == "list_id=eq." && c.filter[11..] == listId
  {
    Channel("todos:" + listId, "list_id=eq." + listId)
  }

  /** Different lists never share a channel. */
  lemma ChannelForInjective(a: string, b: string)
    ensures ChannelFor(a) == ChannelFor(b) <==> a == b
  {
    if ChannelFor(a) == ChannelFor(b) {
      assert a == ChannelFor(a).topic[6..];
    }
  }

  /** One mounted instance of the hook and the channels it has left open on the client. */
  class RealtimeSubscription {
    var listId: Option<string>
    /** The channels registered with the realtime client by this instance. */
    var live: seq<Channel>
    /** The channel the current effect's cleanup will remove, if it opened one. */
    var cleanup: Option<Channel>

    /**
     * Exactly the current list's channel is open, and nothing when there is
     * no list: `if (!listId) return` opens nothing for an undefined or empty id.
     */
    predicate Valid()
      reads this
    {
      if IsSet(listId) then
        live == [ChannelFor(listId.value)] && cleanup == Some(ChannelFor(listId.value))
      else
        live == [] && cleanup == None
    }

    /** First render: the effect runs for the initial id. */
    constructor (id: Option<string>)
      ensures listId == id && Valid()
      ensures IsSet(id) ==> live == [ChannelFor(id.value)]
      ensures !IsSet(id) ==> live == []
    {
      listId := id;
      live := [];
      cleanup := None;
      new;
      RunEffect();
    }

    /** The effect body: open and subscribe the list's channel, unless there is no list. */
    method RunEffect()
      requires live == [] && cleanup == None
      modifies this
      ensures listId == old(listId) && Valid()
    {
      if IsSet(listId) {
        var channel := ChannelFor(listId.value);
        live := live + [channel];
        cleanup := Some(channel);
      }
    }

    /** The effect's cleanup: `removeChannel` on the channel it opened. */
    method Cleanup()
      requires Valid()
      modifies this
      ensures listId == old(listId) && live == [] && cleanup == None
    {
      if cleanup.Some? {
        var channel := cleanup.value;
        live := Sequences.Filter(live, c => c != channel);
        cleanup := None;
      }
    }

    /**
     * A render with `id`: when the id changed, the previous effect is cleaned
     * up before the new one runs, so at most one channel is ever open.
     */
    method Render(id: Option<string>)
      requires Valid()
      modifies this
      ensures listId == id && Valid() && |live| <= 1
      ensures id == old(listId) ==> live == old(live)
    {
      if id != listId {
        Cleanup();
        listId := id;
        RunEffect();
      }
    }

    /** Unmount: the cleanup runs and no channel stays open. */
    method Unmount()
      requires Valid()
      modifies this
      ensures live == []
    {
      Cleanup();
    }
  }
}

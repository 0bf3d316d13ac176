/** The terminal client's cache of one task's log (src/tui/mod.rs). */
module LogClient {
  import opened Prelude
  import opened LogBuffers

  const LOG_CACHE_LIMIT: nat := 1_000

  datatype Cache = Cache(lines: seq<LogLine>, generation: Option<nat>, last: Option<nat>)

  const EMPTY_CACHE := Cache([], None, None)

  function Merged(cache: Cache, payload: LogsPayload): Cache {
    var changed := cache.generation.Some? && cache.generation.value != payload.generation;
    var lines := if payload.reset || changed || cache.last.None? then payload.lines
                 else cache.lines + payload.lines;
    var kept := Tail(lines, LOG_CACHE_LIMIT);
    Cache(kept, Some(payload.generation), if kept == [] then None else Some(kept[|kept| - 1].number))
  }

  lemma MergedIsBounded(cache: Cache, payload: LogsPayload)
    ensures |Merged(cache, payload).lines| <= 1_000
    ensures payload.reset ==> Merged(cache, payload).lines == Tail(payload.lines, 1_000)
  {
  }

  /** The label list and cursor, with the cache that belongs to the selected label. */
  datatype View = View(labels: seq<string>, selected: nat, cache: Cache)
  {
    function Label(): Option<string> {
      if selected < |labels| then Some(labels[selected]) else None
    }
  }

  function Selected(v: View, selected: nat): View {
    if selected == v.selected || selected >= |v.labels| then v
    else View(v.labels, selected, EMPTY_CACHE)
  }

  function Relabelled(v: View, labels: seq<string>): View {
    var selected := if v.Label().Some? && v.Label().value in labels
                    then FirstIndex(labels, v.Label().value) else 0;
    var w := View(labels, selected, v.cache);
    if w.Label() == v.Label() then w else w.(cache := EMPTY_CACHE)
  }

  class App {
    var labels: seq<string>
    var selected: nat
    var scrollFromEnd: nat
    var follow: bool
    var logs: seq<LogLine>
    var logGeneration: Option<nat>
    var lastLogSeq: Option<nat>

    function AsView(): View
      reads this
    {
      View(labels, selected, Cache(logs, logGeneration, lastLogSeq))
    }

    constructor (labels: seq<string>)
      ensures AsView() == View(labels, 0, EMPTY_CACHE)
    {
      this.labels, selected := labels, 0;
      scrollFromEnd, follow := 0, true;
      logs, logGeneration, lastLogSeq := [], None, None;
    }

    method ResetLogs()
      modifies this
      ensures AsView() == old(AsView()).(cache := EMPTY_CACHE)
      ensures scrollFromEnd == 0 && follow
    {
      logs, logGeneration, lastLogSeq := [], None, None;
      scrollFromEnd, follow := 0, true;
    }

    method Select(index: nat)
      modifies this
      ensures AsView() == Selected(old(AsView()), index)
      ensures labels == old(labels) && selected == if index < |labels| then index else old(selected)
      ensures if selected == old(selected) then
                (logs, logGeneration, lastLogSeq) == old((logs, logGeneration, lastLogSeq))
                && (scrollFromEnd, follow) == old((scrollFromEnd, follow))
              else (logs, logGeneration, lastLogSeq) == ([], None, None) && (scrollFromEnd, follow) == (0, true)
    {
      if index == selected || index >= |labels| {
        return;
      }
      selected := index;
      ResetLogs();
    }

    method Next()
      modifies this
      ensures |labels| > 0 ==> AsView() == Selected(old(AsView()), (old(selected) + 1) % |labels|)
      ensures |labels| == 0 ==> AsView() == old(AsView())
      ensures old(selected) + 1 < |labels| ==> selected == old(selected) + 1
      ensures 0 < |labels| == old(selected) + 1 ==> selected == 0
    {
      if |labels| > 0 {
        Select((selected + 1) % |labels|);
      }
    }

    method Previous()
      modifies this
      ensures |labels| > 0 ==>
                AsView() == Selected(old(AsView()), if old(selected) > 0 then old(selected) - 1 else |labels| - 1)
      ensures |labels| == 0 ==> AsView() == old(AsView())
      ensures 0 < old(selected) < |labels| ==> selected == old(selected) - 1
      ensures 0 == old(selected) < |labels| ==> selected == |labels| - 1
    {
      if |labels| > 0 {
        Select(if selected > 0 then selected - 1 else |labels| - 1);
      }
    }

    /** A label that is still listed stays selected with all that was fetched for it;
        otherwise the first label is selected and nothing is kept of the old one. */
    method Update(newLabels: seq<string>)
      modifies this
      ensures AsView() == Relabelled(old(AsView()), newLabels)
      ensures labels == newLabels
      ensures old(selected < |labels| && labels[selected] in newLabels) ==>
                && selected < |labels| && labels[selected] == old(labels[selected])
                && labels[selected] !in labels[..selected]
                && (logs, logGeneration, lastLogSeq) == old((logs, logGeneration, lastLogSeq))
                && (scrollFromEnd, follow) == old((scrollFromEnd, follow))
      ensures !old(selected < |labels| && labels[selected] in newLabels) ==> selected == 0
      ensures !old(selected < |labels| && labels[selected] in newLabels)
              && (old(selected < |labels|) || labels != []) ==>
                (logs, logGeneration, lastLogSeq) == ([], None, None) && (scrollFromEnd, follow) == (0, true)
      ensures old(selected >= |labels|) && labels == [] ==>
                (logs, logGeneration, lastLogSeq) == old((logs, logGeneration, lastLogSeq))
    {
      var before := AsView().Label();
      labels := newLabels;
      selected := if before.Some? && before.value in newLabels then FirstIndex(newLabels, before.value) else 0;
      if before != AsView().Label() {
        ResetLogs();
      }
    }

    method MergeLogs(payload: LogsPayload)
      modifies this
      ensures AsView() == old(AsView()).(cache := Merged(old(AsView()).cache, payload))
      ensures |logs| <= 1_000 && (payload.reset ==> logs == Tail(payload.lines, 1_000))
      ensures follow == old(follow) && scrollFromEnd == if follow then 0 else old(scrollFromEnd)
    {
      MergedIsBounded(AsView().cache, payload);
      var generationChanged := logGeneration.Some? && logGeneration.value != payload.generation;
      if payload.reset || generationChanged || lastLogSeq.None? {
        logs := payload.lines;
      } else {
        logs := logs + payload.lines;
      }
      if |logs| > LOG_CACHE_LIMIT {
        var remove := |logs| - LOG_CACHE_LIMIT;
        logs := logs[remove..];
      }
      logGeneration := Some(payload.generation);
      lastLogSeq := if logs == [] then None else Some(logs[|logs| - 1].number);
      if follow {
        scrollFromEnd := 0;
      }
    }
  }
}

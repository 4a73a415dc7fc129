/** The file watcher's event loop: debouncing of identical consecutive events and the
    dispatch of modification events to the parser.

    The channel of watch results is a finite sequence in which `None` stands for the
    channel being closed; a sequence that ends without `None` is a prefix of a stream
    still open. Reading and parsing a file is a parameter `parseFile` that yields the
    parsed document or `None` on failure; the document type is the type parameter `D`. */
module Watcher {
  import opened Common

  /** The kinds of a file-system event. A sub-kind is an opaque code: two kinds are
      equal here exactly when they are equal in the source. */
  datatype EventKind =
    | Any
    | Access(detail: nat)
    | Create(detail: nat)
    | Modify(detail: nat)
    | Remove(detail: nat)
    | Other

  /** A file-system event. `attrs` stands for the event's attributes (tracker, flag,
      info, source) as an opaque code, so that two events are equal here exactly when
      the source's derived equality, which compares all three parts, holds. */
  datatype Event = Event(kind: EventKind, paths: seq<string>, attrs: nat)

  /** One item delivered on the channel: an event, or a watch error. */
  datatype WatchResult = Ok(event: Event) | Err(message: string)

  // ---------------------------------------------------------------------------
  // Dispatch of one event
  // ---------------------------------------------------------------------------

  /** The documents sent for a list of paths: each path parsed in order, failures skipped. */
  function ParsedAll<D>(paths: seq<string>, parseFile: string -> Option<D>): seq<D>
  {
    if paths == [] then []
    else
      ParsedAll(paths[..|paths| - 1], parseFile)
        + match parseFile(paths[|paths| - 1]) { case Some(d) => [d] case None => [] }
  }

  /** What handling one event sends: only a modification causes work. */
  function Sends<D>(e: Event, parseFile: string -> Option<D>): seq<D>
  {
    if e.kind.Modify? then ParsedAll(e.paths, parseFile) else []
  }

  /** `OrgWatcher::notify`: for a modification, parse every path in order and send each
      document that parsed; every other kind is ignored. `parsed` lists the paths handed
      to the parser. */
  method Notify<D>(e: Event, parseFile: string -> Option<D>) returns (parsed: seq<string>, sent: seq<D>)
    ensures parsed == if e.kind.Modify? then e.paths else []
    ensures sent == Sends(e, parseFile)
  {
    parsed, sent := [], [];
    match e.kind
    case Create(_) =>
    case Modify(_) =>
      for i := 0 to |e.paths|
        invariant parsed == e.paths[..i]
        invariant sent == ParsedAll(e.paths[..i], parseFile)
      {
        assert e.paths[..i + 1][..i] == e.paths[..i];
        var p := e.paths[i];
        parsed := parsed + [p];
        var org := parseFile(p);
        if org.Some? {
          sent := sent + [org.value];
        }
      }
      assert e.paths[..|e.paths|] == e.paths;
    case _ =>
  }

  /** An event whose kind is not a modification sends nothing. */
  lemma OnlyModifySends<D>(e: Event, parseFile: string -> Option<D>)
    ensures !e.kind.Modify? ==> Sends(e, parseFile) == []
    ensures e.kind.Modify? && (forall p :: parseFile(p).Some?) ==> |Sends(e, parseFile)| == |e.paths|
  {
    if e.kind.Modify? && forall p :: parseFile(p).Some? {
      ParsedAllTotal(e.paths, parseFile);
    }
  }

  /** When every path parses, one document is sent per path. */
  lemma {:induction false} ParsedAllTotal<D>(paths: seq<string>, parseFile: string -> Option<D>)
    requires forall p :: parseFile(p).Some?
    ensures |ParsedAll(paths, parseFile)| == |paths|
  {
    if paths != [] {
      ParsedAllTotal(paths[..|paths| - 1], parseFile);
    }
  }

  // ---------------------------------------------------------------------------
  // The event loop
  // ---------------------------------------------------------------------------

  /** The events dispatched when the loop reaches index `i` with previous event `prev`. */
  function Dispatched(stream: seq<Option<WatchResult>>, i: nat, prev: Option<Event>): seq<Event>
    requires i <= |stream|
    decreases |stream| - i
  {
    if i == |stream| || stream[i].None? then []
    else
      match stream[i].value
      case Err(_) => Dispatched(stream, i + 1, prev)
      case Ok(e) => (if prev == Some(e) then [] else [e]) + Dispatched(stream, i + 1, Some(e))
  }

  /** Everything sent for a sequence of dispatched events, in order. */
  function AllSends<D>(events: seq<Event>, parseFile: string -> Option<D>): seq<D>
  {
    if events == [] then []
    else AllSends(events[..|events| - 1], parseFile) + Sends(events[|events| - 1], parseFile)
  }

  /** The latest event among the first `n` results, if any. */
  function LastOk(stream: seq<Option<WatchResult>>, n: nat): Option<Event>
    requires n <= |stream|
  {
    if n == 0 then None
    else if stream[n - 1].Some? && stream[n - 1].value.Ok? then Some(stream[n - 1].value.event)
    else LastOk(stream, n - 1)
  }

  /** The number of errors among the first `n` results. */
  function ErrorCount(stream: seq<Option<WatchResult>>, n: nat): nat
    requires n <= |stream|
  {
    if n == 0 then 0
    else ErrorCount(stream, n - 1) + if stream[n - 1].Some? && stream[n - 1].value.Err? then 1 else 0
  }

  /** Dispatching one more event adds what it sends at the end. */
  lemma AllSendsSnoc<D>(events: seq<Event>, e: Event, parseFile: string -> Option<D>)
    ensures AllSends(events + [e], parseFile) == AllSends(events, parseFile) + Sends(e, parseFile)
  {
    assert (events + [e])[..|events|] == events;
  }

  /** `watch_file`'s loop: receive until the channel is closed; skip an event equal to
      the previous one, log errors, and hand every other event to `Notify`. */
  method WatchLoop<D>(stream: seq<Option<WatchResult>>, parseFile: string -> Option<D>)
    returns (dispatched: seq<Event>, sent: seq<D>, consumed: nat, prev: Option<Event>, errors: nat)
    ensures dispatched == Dispatched(stream, 0, None)
    ensures sent == AllSends(dispatched, parseFile)
    ensures consumed <= |stream|
    ensures forall j :: 0 <= j < consumed ==> stream[j].Some?
    ensures consumed < |stream| ==> stream[consumed].None?
    ensures prev == LastOk(stream, consumed)
    ensures errors == ErrorCount(stream, consumed)
  {
    dispatched, sent, prev, errors := [], [], None, 0;
    var i := 0;
    while i < |stream|
      invariant 0 <= i <= |stream|
      invariant Dispatched(stream, 0, None) == dispatched + Dispatched(stream, i, prev)
      invariant sent == AllSends(dispatched, parseFile)
      invariant forall j :: 0 <= j < i ==> stream[j].Some?
      invariant prev == LastOk(stream, i)
      invariant errors == ErrorCount(stream, i)
    {
      var res := stream[i];
      if res.None? {
        break;
      }
      match res.value {
        case Ok(event) =>
          ghost var rest := Dispatched(stream, i + 1, Some(event));
          if prev == Some(event) {
            assert Dispatched(stream, i, prev) == rest;
            prev := Some(event);
            i := i + 1;
            continue;
          }
          assert Dispatched(stream, i, prev) == [event] + rest;
          prev := Some(event);
          var _, s := Notify(event, parseFile);
          AllSendsSnoc(dispatched, event, parseFile);
          assert dispatched + ([event] + rest) == (dispatched + [event]) + rest;
          dispatched := dispatched + [event];
          sent := sent + s;
        case Err(_) =>
          assert Dispatched(stream, i, prev) == Dispatched(stream, i + 1, prev);
          errors := errors + 1;
      }
      i := i + 1;
    }
    consumed := i;
  }

  // ---------------------------------------------------------------------------
  // Properties of the debounce
  // ---------------------------------------------------------------------------

  /** The results from `lo` up to `hi` are all errors. */
  predicate AllErrors(stream: seq<Option<WatchResult>>, lo: nat, hi: nat)
    requires lo <= hi <= |stream|
  {
    forall j :: lo <= j < hi ==> stream[j].Some? && stream[j].value.Err?
  }

  /** Errors do not touch the previous event: a run of errors is skipped as a whole. */
  lemma {:induction false} ErrorsSkipped(stream: seq<Option<WatchResult>>, i: nat, k: nat, prev: Option<Event>)
    requires i <= k <= |stream|
    requires AllErrors(stream, i, k)
    ensures Dispatched(stream, i, prev) == Dispatched(stream, k, prev)
    decreases k - i
  {
    if i < k {
      ErrorsSkipped(stream, i + 1, k, prev);
    }
  }

  /** The first event of the stream is always dispatched, whatever errors precede it. */
  lemma FirstEventDispatched(stream: seq<Option<WatchResult>>, k: nat, e: Event)
    requires k < |stream| && stream[k] == Some(Ok(e))
    requires AllErrors(stream, 0, k)
    ensures Dispatched(stream, 0, None) == [e] + Dispatched(stream, k + 1, Some(e))
  {
    ErrorsSkipped(stream, 0, k, None);
  }

  /** An event equal to the previous event is skipped without being dispatched. */
  lemma RepeatAt(stream: seq<Option<WatchResult>>, k: nat, e: Event)
    requires k < |stream| && stream[k] == Some(Ok(e))
    ensures Dispatched(stream, k, Some(e)) == Dispatched(stream, k + 1, Some(e))
  {
  }

  /** The same holds with errors in between: an event equal to the last event is
      skipped, however many errors separate the two. */
  lemma {:induction false} RepeatSkipped(stream: seq<Option<WatchResult>>, j: nat, k: nat, e: Event)
    requires j <= k < |stream| && stream[k] == Some(Ok(e))
    requires AllErrors(stream, j, k)
    ensures Dispatched(stream, j, Some(e)) == Dispatched(stream, k + 1, Some(e))
    decreases k - j
  {
    if j < k {
      RepeatSkipped(stream, j + 1, k, e);
    }
  }

  /** No two consecutive dispatched events are equal, and the first differs from the
      previous event. */
  lemma {:induction false} NoRepeats(stream: seq<Option<WatchResult>>, i: nat, prev: Option<Event>)
    requires i <= |stream|
    ensures var d := Dispatched(stream, i, prev);
      (d != [] && prev.Some? ==> d[0] != prev.value) &&
      forall j :: 0 <= j < |d| - 1 ==> d[j] != d[j + 1]
    decreases |stream| - i
  {
    if i < |stream| && stream[i].Some? {
      match stream[i].value
      case Err(_) =>
        NoRepeats(stream, i + 1, prev);
        assert Dispatched(stream, i, prev) == Dispatched(stream, i + 1, prev);
      case Ok(e) =>
        NoRepeats(stream, i + 1, Some(e));
    }
  }

  /** Event `e` arrives at index `j`, at or after `i`, and the channel is still open
      from `i` up to `j`. */
  predicate ArrivesAt(stream: seq<Option<WatchResult>>, i: nat, j: nat, e: Event)
  {
    i <= j < |stream| && stream[j] == Some(Ok(e)) && forall k :: i <= k < j ==> stream[k].Some?
  }

  /** Every dispatched event was delivered on the channel before it was closed. */
  lemma {:induction false} DispatchedDelivered(stream: seq<Option<WatchResult>>, i: nat, prev: Option<Event>, e: Event)
    requires i <= |stream|
    requires e in Dispatched(stream, i, prev)
    ensures exists j :: ArrivesAt(stream, i, j, e)
    decreases |stream| - i
  {
    match stream[i].value
    case Err(_) =>
      DispatchedDelivered(stream, i + 1, prev, e);
      var j :| ArrivesAt(stream, i + 1, j, e);
      assert ArrivesAt(stream, i, j, e);
    case Ok(x) =>
      if x != e {
        DispatchedDelivered(stream, i + 1, Some(x), e);
        var j :| ArrivesAt(stream, i + 1, j, e);
        assert ArrivesAt(stream, i, j, e);
      } else {
        assert ArrivesAt(stream, i, i, e);
      }
  }

  /** An Ok event that differs from the previous event is dispatched. */
  lemma NewEventDispatched(stream: seq<Option<WatchResult>>, i: nat, prev: Option<Event>, e: Event)
    requires i < |stream| && stream[i] == Some(Ok(e)) && prev != Some(e)
    ensures Dispatched(stream, i, prev) == [e] + Dispatched(stream, i + 1, Some(e))
  {
  }
}

/** The reminder engine of the server: a long-lived set of pending reminders, merged with
    newly derived reminders when a document arrives and swept on every timer tick.

    The `HashSet<Reminder>` of the source compares reminders by (title, fire time) only,
    so it is modelled as a map from that key to the reminder stored under it. The desktop
    notifications sent on a tick are recorded in a ghost log. */
module ReminderEngine {
  import opened Common
  import opened Reminder

  /** One call of the notification sink: `notify(summary, body)`. */
  datatype Notification = Notification(summary: string, body: string)

  /** The fixed summary of every notification this engine sends. */
  const SUMMARY := "Emacs Org Remainder"

  type Key = (string, int)

  /** A pending set: every reminder is stored under its own key. */
  predicate KeyedBy(m: map<Key, Reminder>)
  {
    forall k :: k in m ==> HashKey(m[k]) == k
  }

  /** `HashSet::insert`: adds `r` unless an equal reminder is present; an existing
      element is never replaced. */
  function Insert(m: map<Key, Reminder>, r: Reminder): map<Key, Reminder>
  {
    if HashKey(r) in m then m else m[HashKey(r) := r]
  }

  /** The receive branch for one batch: each reminder strictly in the future is
      inserted, in order; the others are discarded. */
  function ReceiveAll(m: map<Key, Reminder>, res: seq<Reminder>, now: int): map<Key, Reminder>
  {
    if res == [] then m
    else
      var prev := ReceiveAll(m, res[..|res| - 1], now);
      var r := res[|res| - 1];
      if now < r.datetime then Insert(prev, r) else prev
  }

  /** The keys of the reminders a tick at `now` fires. */
  function DueKeys(m: map<Key, Reminder>, now: int): set<Key>
  {
    set k | k in m && now > m[k].datetime
  }

  /** What a tick at `now` leaves pending. */
  function Expire(m: map<Key, Reminder>, now: int): map<Key, Reminder>
  {
    map k | k in m && !(now > m[k].datetime) :: m[k]
  }

  function Notes(rs: seq<Reminder>): seq<Notification>
  {
    seq(|rs|, i requires 0 <= i < |rs| => Notification(SUMMARY, rs[i].title))
  }

  function KeysOf(rs: seq<Reminder>): set<Key>
  {
    if rs == [] then {} else KeysOf(rs[..|rs| - 1]) + {HashKey(rs[|rs| - 1])}
  }

  /** Some reminder of the batch lies strictly in the future and has key `k`. */
  predicate Brings(res: seq<Reminder>, now: int, k: Key)
  {
    exists i :: 0 <= i < |res| && now < res[i].datetime && HashKey(res[i]) == k
  }

  class Engine {
    var pending: map<Key, Reminder>
    ghost var log: seq<Notification>

    ghost predicate Valid()
      reads this
    {
      KeyedBy(pending)
    }

    constructor ()
      ensures Valid() && pending == map[] && log == []
    {
      pending := map[];
      log := [];
    }

    /** A message from the document channel: `None` when the channel is closed, else
        the reminders derived from the arrived document. */
    method Receive(data: Option<seq<Reminder>>, now: int)
      requires Valid()
      modifies this
      ensures Valid() && log == old(log)
      ensures pending == if data.Some? then ReceiveAll(old(pending), data.value, now) else old(pending)
    {
      if data.Some? {
        var res := data.value;
        if res != [] {
          for i := 0 to |res|
            invariant pending == ReceiveAll(old(pending), res[..i], now)
            invariant KeyedBy(pending) && log == old(log)
          {
            assert res[..i + 1][..i] == res[..i];
            var r := res[i];
            if now < r.datetime {
              if HashKey(r) !in pending {
                pending := pending[HashKey(r) := r];
              }
            }
          }
          assert res[..|res|] == res;
        }
      }
    }

    /** A timer tick: notify and collect every pending reminder whose time has passed,
        then remove the collected ones. */
    method Tick(now: int) returns (fired: seq<Reminder>)
      requires Valid()
      modifies this
      ensures Valid()
      ensures pending == Expire(old(pending), now)
      ensures KeysOf(fired) == DueKeys(old(pending), now)
      ensures forall i :: 0 <= i < |fired| ==>
        HashKey(fired[i]) in old(pending) && fired[i] == old(pending)[HashKey(fired[i])]
      ensures forall i, j :: 0 <= i < j < |fired| ==> HashKey(fired[i]) != HashKey(fired[j])
      ensures log == old(log) + Notes(fired)
    {
      fired := CollectDue(now);
      RemoveAll(fired);
      assert pending == Expire(old(pending), now);
    }

    /** The first loop of a tick: visits the pending set in an unspecified order and
        notifies and collects each reminder whose time has passed. */
    method CollectDue(now: int) returns (temp: seq<Reminder>)
      requires Valid()
      modifies this`log
      ensures KeysOf(temp) == DueKeys(pending, now)
      ensures forall i :: 0 <= i < |temp| ==> HashKey(temp[i]) in pending && temp[i] == pending[HashKey(temp[i])]
      ensures forall i, j :: 0 <= i < j < |temp| ==> HashKey(temp[i]) != HashKey(temp[j])
      ensures log == old(log) + Notes(temp)
    {
      temp := [];
      var rest := pending.Keys;
      ghost var seen: set<Key> := {};
      while rest != {}
        invariant rest !! seen && rest + seen == pending.Keys
        invariant KeysOf(temp) == DueKeys(pending, now) * seen
        invariant forall i :: 0 <= i < |temp| ==>
          HashKey(temp[i]) in seen && HashKey(temp[i]) in pending && temp[i] == pending[HashKey(temp[i])]
        invariant forall i, j :: 0 <= i < j < |temp| ==> HashKey(temp[i]) != HashKey(temp[j])
        invariant log == old(log) + Notes(temp)
        decreases rest
      {
        var k :| k in rest;
        var val := pending[k];
        if now > val.datetime {
          log := log + [Notification(SUMMARY, val.title)];
          ghost var before := temp;
          temp := temp + [val];
          assert temp[..|temp| - 1] == before;
          assert KeysOf(temp) == KeysOf(before) + {k};
        }
        rest := rest - {k};
        seen := seen + {k};
      }
    }

    /** The second loop of a tick: removes every collected reminder from the set. */
    method RemoveAll(temp: seq<Reminder>)
      modifies this`pending
      ensures pending == old(pending) - KeysOf(temp)
    {
      for i := 0 to |temp|
        invariant pending == old(pending) - KeysOf(temp[..i])
      {
        assert temp[..i + 1][..i] == temp[..i];
        pending := pending - {HashKey(temp[i])};
      }
      assert temp[..|temp|] == temp;
    }
  }

  // ---------------------------------------------------------------------------
  // Properties of the engine's specification
  // ---------------------------------------------------------------------------

  /** Inserting a reminder equal to a pending one changes nothing. */
  lemma InsertPresent(m: map<Key, Reminder>, r: Reminder, q: Reminder)
    requires KeyedBy(m) && q in m.Values && Same(q, r)
    ensures Insert(m, r) == m
  {
    assert m[HashKey(q)] == q;
  }

  /** Inserting two equal reminders grows the set by at most one. */
  lemma InsertEqualTwice(m: map<Key, Reminder>, a: Reminder, b: Reminder)
    requires Same(a, b)
    ensures |Insert(Insert(m, a), b)| <= |m| + 1
    ensures Insert(Insert(m, a), b) == Insert(m, a)
  {
  }

  /** After receiving a batch, a key is pending exactly when it was pending before or
      belongs to a reminder of the batch that lies strictly in the future; entries that
      were pending keep their reminder. */
  lemma {:induction false} ReceiveAllKeys(m: map<Key, Reminder>, res: seq<Reminder>, now: int, k: Key)
    requires KeyedBy(m)
    ensures KeyedBy(ReceiveAll(m, res, now))
    ensures k in ReceiveAll(m, res, now) <==> k in m || Brings(res, now, k)
    ensures k in m ==> ReceiveAll(m, res, now)[k] == m[k]
    ensures k in ReceiveAll(m, res, now) && k !in m ==> now < ReceiveAll(m, res, now)[k].datetime
  {
    if res != [] {
      var n := |res|;
      var pre := res[..n - 1];
      ReceiveAllKeys(m, pre, now, k);
      if Brings(res, now, k) {
        var i :| 0 <= i < n && now < res[i].datetime && HashKey(res[i]) == k;
        if i < n - 1 {
          assert pre[i] == res[i];
        }
      }
      if Brings(pre, now, k) {
        var i :| 0 <= i < |pre| && now < pre[i].datetime && HashKey(pre[i]) == k;
        assert res[i] == pre[i];
      }
    }
  }

  /** After a tick nothing pending lies in the past; an entry due exactly now is kept. */
  lemma ExpireKeepsPresent(m: map<Key, Reminder>, now: int)
    ensures forall k :: k in Expire(m, now) ==> Expire(m, now)[k].datetime >= now
    ensures forall k :: k in m && m[k].datetime == now ==> k in Expire(m, now)
    ensures Expire(m, now).Keys == m.Keys - DueKeys(m, now)
  {
  }

  /** A tick right after a receive at the same time fires nothing that was just
      received: sweeping and merging commute. */
  lemma {:induction false} ExpireReceiveCommute(m: map<Key, Reminder>, res: seq<Reminder>, now: int)
    requires KeyedBy(m)
    ensures Expire(ReceiveAll(m, res, now), now) == ReceiveAll(Expire(m, now), res, now)
  {
    if res != [] {
      var n := |res|;
      ExpireReceiveCommute(m, res[..n - 1], now);
      var prev := ReceiveAll(m, res[..n - 1], now);
      ReceiveAllKeys(m, res[..n - 1], now, HashKey(res[n - 1]));
      var r := res[n - 1];
      if now < r.datetime && HashKey(r) !in prev {
        assert Expire(prev[HashKey(r) := r], now) == Expire(prev, now)[HashKey(r) := r];
      }
    }
  }
}

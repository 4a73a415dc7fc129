/** The older, vector-based engine of the server: derived entries are appended to a
    vector, and a tick removes the due ones in place, index by index. Notifications are
    recorded in a ghost log. */
module RemainderEngine {
  import opened Common
  import opened Remainder
  import ReminderEngine

  type Notification = ReminderEngine.Notification

  /** A tick at `now` fires an entry exactly when `now` is strictly after its time. */
  predicate IsDue(r: Remainder, now: int)
  {
    now > r.datetime
  }

  /** The entries a tick keeps, in their original order. */
  function Kept(s: seq<Remainder>, now: int): seq<Remainder>
  {
    if s == [] then []
    else Kept(s[..|s| - 1], now) + (if IsDue(s[|s| - 1], now) then [] else [s[|s| - 1]])
  }

  /** The entries a tick removes, in their original order. */
  function Fired(s: seq<Remainder>, now: int): seq<Remainder>
  {
    if s == [] then []
    else Fired(s[..|s| - 1], now) + (if IsDue(s[|s| - 1], now) then [s[|s| - 1]] else [])
  }

  /** Each fired entry is notified with its title as both summary and body. */
  function OldNotes(rs: seq<Remainder>): seq<Notification>
  {
    seq(|rs|, i requires 0 <= i < |rs| => ReminderEngine.Notification(rs[i].title, rs[i].title))
  }

  class VecEngine {
    var pending: seq<Remainder>
    ghost var log: seq<Notification>

    constructor ()
      ensures pending == [] && log == []
    {
      pending := [];
      log := [];
    }

    /** A message from the document channel: `None` when the channel is closed, else
        the entries derived from the arrived document, appended as they are. */
    method Receive(data: Option<seq<Remainder>>)
      modifies this
      ensures pending == old(pending) + (if data.Some? then data.value else [])
      ensures log == old(log)
    {
      if data.Some? {
        var res := data.value;
        if res != [] {
          pending := pending + res;
        }
      }
    }

    /** A timer tick: `while i < len`, remove and notify the entry at `i` when it is due,
        otherwise step past it. */
    method Tick(now: int) returns (fired: seq<Remainder>)
      modifies this
      ensures pending == Kept(old(pending), now)
      ensures fired == Fired(old(pending), now)
      ensures log == old(log) + OldNotes(fired)
    {
      ghost var orig := pending;
      fired := [];
      var i := 0;
      ghost var j := 0;
      while i < |pending|
        invariant 0 <= i <= |pending| && 0 <= j <= |orig|
        invariant pending[..i] == Kept(orig[..j], now)
        invariant pending[i..] == orig[j..]
        invariant fired == Fired(orig[..j], now)
        invariant log == old(log) + OldNotes(fired)
        decreases |pending| - i
      {
        assert orig[..j + 1][..j] == orig[..j];
        assert orig[j] == pending[i];
        if now > pending[i].datetime {
          var val := pending[i];
          pending := pending[..i] + pending[i + 1..];
          if now > val.datetime {
            log := log + [ReminderEngine.Notification(val.title, val.title)];
            fired := fired + [val];
          }
        } else {
          i := i + 1;
        }
        j := j + 1;
      }
      assert orig[..j] == orig;
    }
  }

  // ---------------------------------------------------------------------------
  // Properties of the tick
  // ---------------------------------------------------------------------------

  /** A tick splits the entries: every entry is kept or fired, none is lost or duplicated. */
  lemma {:induction false} TickPartitions(s: seq<Remainder>, now: int)
    ensures |Kept(s, now)| + |Fired(s, now)| == |s|
    ensures multiset(Kept(s, now)) + multiset(Fired(s, now)) == multiset(s)
  {
    if s != [] {
      var n := |s|;
      var pre, last := s[..n - 1], s[n - 1];
      TickPartitions(pre, now);
      assert s == pre + [last];
      assert multiset(s) == multiset(pre) + multiset{last};
      if IsDue(last, now) {
        assert Kept(s, now) == Kept(pre, now);
        assert multiset(Fired(s, now)) == multiset(Fired(pre, now)) + multiset{last};
      } else {
        assert Fired(s, now) == Fired(pre, now);
        assert multiset(Kept(s, now)) == multiset(Kept(pre, now)) + multiset{last};
      }
    }
  }

  /** Kept entries are not due (an entry due exactly now is kept), fired ones are. */
  lemma {:induction false} TickSeparates(s: seq<Remainder>, now: int)
    ensures forall r :: r in Kept(s, now) ==> r in s && r.datetime >= now
    ensures forall r :: r in Fired(s, now) ==> r in s && r.datetime < now
  {
    if s != [] {
      TickSeparates(s[..|s| - 1], now);
    }
  }

  /** A vector with nothing due is kept whole. */
  lemma {:induction false} KeptOfUndue(s: seq<Remainder>, now: int)
    requires forall i :: 0 <= i < |s| ==> !IsDue(s[i], now)
    ensures Kept(s, now) == s && Fired(s, now) == []
  {
    if s != [] {
      var n := |s|;
      KeptOfUndue(s[..n - 1], now);
      assert s[..n - 1] + [s[n - 1]] == s;
    }
  }

  /** A second tick at the same time fires nothing and keeps everything. */
  lemma TickIdempotent(s: seq<Remainder>, now: int)
    ensures Kept(Kept(s, now), now) == Kept(s, now)
    ensures Fired(Kept(s, now), now) == []
  {
    TickSeparates(s, now);
    var k := Kept(s, now);
    assert forall i :: 0 <= i < |k| ==> k[i] in k;
    KeptOfUndue(k, now);
  }

  /** Keeping distributes over concatenation, so entries received later stay behind
      the older ones. */
  lemma {:induction false} KeptAppend(s: seq<Remainder>, t: seq<Remainder>, now: int)
    ensures Kept(s + t, now) == Kept(s, now) + Kept(t, now)
    ensures Fired(s + t, now) == Fired(s, now) + Fired(t, now)
  {
    if t != [] {
      var n := |t|;
      KeptAppend(s, t[..n - 1], now);
      assert (s + t)[..|s + t| - 1] == s + t[..n - 1];
    } else {
      assert s + t == s;
    }
  }
}

/** Deriving reminders from the scheduling entries of a section tree.

    Times are whole seconds on the naive local clock. The timestamp parser (the source's
    `parse_from_str` with the format "%F %a %R") and the current time are parameters:
    `parse` maps a timestamp text to its time, or to `None` when the text does not match. */
module Reminder {
  import opened Common
  import opened OrgTree

  /** A derived reminder: its message, the time it fires, and the entry it came from. */
  datatype Reminder = Reminder(title: string, datetime: int, scheduling: Scheduling)

  /** `PartialEq for Reminder`. */
  predicate Same(a: Reminder, b: Reminder)
  {
    a.title == b.title && a.datetime == b.datetime
  }

  /** `Hash for Reminder`: what is fed to the hasher, in order. */
  function HashKey(r: Reminder): (string, int)
  {
    (r.title, r.datetime)
  }

  /** Equality and hashing agree: two reminders are equal exactly when their hash inputs
      are, so the originating entry never separates two reminders. */
  lemma SameIffHashKey(a: Reminder, b: Reminder)
    ensures Same(a, b) <==> HashKey(a) == HashKey(b)
    ensures Same(a, b) <==> Same(a.(scheduling := b.scheduling), b)
  {
  }

  /** `Same` is an equivalence relation. */
  lemma SameIsEquivalence(a: Reminder, b: Reminder, c: Reminder)
    ensures Same(a, a)
    ensures Same(a, b) ==> Same(b, a)
    ensures Same(a, b) && Same(b, c) ==> Same(a, c)
  {
  }

  /** Seconds in a minute. */
  const MINUTE := 60

  /** The text appended to a timestamp without a time of day before the second parse. */
  const DEFAULT_TIME := " 09:00"

  const MESSAGE_30 := "このイベントまであと30分: "
  const MESSAGE_10 := "このイベントまであと10分: "
  const MESSAGE_1 := "このイベントまであと1分: "

  /** The three reminders for a target time `dt`: 30, 10 and 1 minute before it. */
  function CreateReminder(title: string, dt: int, sch: Scheduling): (r: seq<Reminder>)
    ensures |r| == 3
    ensures r[0].datetime == dt - 30 * MINUTE && r[0].title == MESSAGE_30 + title
    ensures r[1].datetime == dt - 10 * MINUTE && r[1].title == MESSAGE_10 + title
    ensures r[2].datetime == dt - MINUTE && r[2].title == MESSAGE_1 + title
    ensures forall i :: 0 <= i < |r| ==> r[i].scheduling == sch && r[i].datetime < dt
    ensures r[0].datetime < r[1].datetime < r[2].datetime
  {
    [ Reminder(MESSAGE_30 + title, dt - MINUTE * 30, sch),
      Reminder(MESSAGE_10 + title, dt - MINUTE * 10, sch),
      Reminder(MESSAGE_1 + title, dt - MINUTE, sch) ]
  }

  /** The target time of a timestamp text: parsed as written, or failing that, with
      the default time of day appended. */
  function Target(datetime: string, parse: string -> Option<int>): Option<int>
  {
    if parse(datetime).Some? then parse(datetime) else parse(datetime + DEFAULT_TIME)
  }

  /** One branch of `convert_reminder`; the Scheduled and Deadline branches of the
      source are this same code. */
  function ConvertTimestamp(title: string, datetime: string, sch: Scheduling, now: int,
                            parse: string -> Option<int>): Option<seq<Reminder>>
  {
    match parse(datetime)
    case Some(dt) =>
      if dt > now then Some(CreateReminder(title, dt, sch)) else None
    case None =>
      match parse(datetime + DEFAULT_TIME)
      case Some(dt) =>
        if dt > now then Some(CreateReminder(title, dt, sch)) else None
      case None => None
  }

  /** `convert_reminder`: reminders for one scheduling entry of a section titled `title`,
      or `None` when its time cannot be parsed or is not strictly after `now`. */
  function ConvertReminder(title: string, sch: Scheduling, now: int,
                           parse: string -> Option<int>): (r: Option<seq<Reminder>>)
    ensures r.Some? <==> Target(sch.datetime, parse).Some? && Target(sch.datetime, parse).value > now
    ensures r.Some? ==> r.value == CreateReminder(title, Target(sch.datetime, parse).value, sch)
    ensures parse(sch.datetime).Some? && parse(sch.datetime).value <= now ==> r.None?
  {
    match sch
    case Scheduled(_, datetime) => ConvertTimestamp(title, datetime, sch, now, parse)
    case Deadline(_, datetime) => ConvertTimestamp(title, datetime, sch, now, parse)
  }

  function Keys(rs: seq<Reminder>): seq<(string, int)>
  {
    seq(|rs|, i requires 0 <= i < |rs| => HashKey(rs[i]))
  }

  /** Scheduled and Deadline entries with the same timestamp give the same reminders,
      up to the originating entry, which equality ignores. */
  lemma ScheduledLikeDeadline(title: string, p: Pos, q: Pos, datetime: string, now: int,
                              parse: string -> Option<int>)
    ensures ConvertReminder(title, Scheduled(p, datetime), now, parse).Some?
        <==> ConvertReminder(title, Deadline(q, datetime), now, parse).Some?
    ensures ConvertReminder(title, Scheduled(p, datetime), now, parse).Some? ==>
      Keys(ConvertReminder(title, Scheduled(p, datetime), now, parse).value)
        == Keys(ConvertReminder(title, Deadline(q, datetime), now, parse).value)
  {
  }

  /** The reminders of one entry, with `None` read as no reminders. */
  function EntryReminders(title: string, sch: Scheduling, now: int,
                          parse: string -> Option<int>): seq<Reminder>
  {
    match ConvertReminder(title, sch, now, parse)
    case Some(rs) => rs
    case None => []
  }

  /** The reminders of the first `k` scheduling entries of `sec`, in order. */
  function OwnPrefix(sec: Section, k: nat, now: int, parse: string -> Option<int>): seq<Reminder>
    requires k <= |sec.scheduling|
  {
    if k == 0 then []
    else OwnPrefix(sec, k - 1, now, parse) + EntryReminders(sec.title, sec.scheduling[k - 1], now, parse)
  }

  /** The reminders of the first `k` subsections of `sec`, in order. */
  function ChildPrefix(sec: Section, k: nat, now: int, parse: string -> Option<int>): seq<Reminder>
    requires k <= |sec.sections|
    decreases sec, k
  {
    if k == 0 then []
    else ChildPrefix(sec, k - 1, now, parse) + Reminders(sec.sections[k - 1], now, parse)
  }

  /** `get_reminders`, as a specification: the section's own entries' reminders in
      order, followed by those of each subsection in order. */
  function Reminders(sec: Section, now: int, parse: string -> Option<int>): seq<Reminder>
    decreases sec, |sec.sections| + 1
  {
    OwnPrefix(sec, |sec.scheduling|, now, parse) + ChildPrefix(sec, |sec.sections|, now, parse)
  }

  /** `get_reminders`: walks the section's own entries, then its subsections, appending
      as it goes. */
  method GetReminders(sec: Section, now: int, parse: string -> Option<int>) returns (res: seq<Reminder>)
    ensures res == Reminders(sec, now, parse)
    decreases sec
  {
    res := [];
    for j := 0 to |sec.scheduling|
      invariant res == OwnPrefix(sec, j, now, parse)
    {
      var converted := ConvertReminder(sec.title, sec.scheduling[j], now, parse);
      assert OwnPrefix(sec, j + 1, now, parse)
          == res + EntryReminders(sec.title, sec.scheduling[j], now, parse);
      if converted.Some? {
        res := res + converted.value;
      }
    }
    ghost var mine := res;
    for j := 0 to |sec.sections|
      invariant res == mine + ChildPrefix(sec, j, now, parse)
    {
      var sub := GetReminders(sec.sections[j], now, parse);
      assert mine + ChildPrefix(sec, j + 1, now, parse) == res + sub;
      if sub != [] {
        res := res + sub;
      }
    }
  }

  /** Every entry contributes zero or three reminders, so the total is a multiple of three. */
  lemma {:induction false} RemindersTriples(sec: Section, now: int, parse: string -> Option<int>)
    ensures |Reminders(sec, now, parse)| % 3 == 0
    decreases sec, 1
  {
    OwnTriples(sec, |sec.scheduling|, now, parse);
    ChildTriples(sec, |sec.sections|, now, parse);
  }

  lemma {:induction false} OwnTriples(sec: Section, k: nat, now: int, parse: string -> Option<int>)
    requires k <= |sec.scheduling|
    ensures |OwnPrefix(sec, k, now, parse)| % 3 == 0
  {
    if k > 0 {
      OwnTriples(sec, k - 1, now, parse);
    }
  }

  lemma {:induction false} ChildTriples(sec: Section, k: nat, now: int, parse: string -> Option<int>)
    requires k <= |sec.sections|
    ensures |ChildPrefix(sec, k, now, parse)| % 3 == 0
    decreases sec, 0, k
  {
    if k > 0 {
      ChildTriples(sec, k - 1, now, parse);
      RemindersTriples(sec.sections[k - 1], now, parse);
    }
  }

  /** Every scheduling entry of a tree, with the title of the section that holds it. */
  ghost function Entries(sec: Section): set<(string, Scheduling)>
    decreases sec
  {
    (set i | 0 <= i < |sec.scheduling| :: (sec.title, sec.scheduling[i]))
    + (set i, e | 0 <= i < |sec.sections| && e in Entries(sec.sections[i]) :: e)
  }

  /** `r` is one of the reminders of entry `e`: the entry's target is strictly after
      `now` and `r` is one of the three reminders created for that target. */
  ghost predicate DerivedFrom(r: Reminder, e: (string, Scheduling), now: int, parse: string -> Option<int>)
  {
    && Target(e.1.datetime, parse).Some?
    && now < Target(e.1.datetime, parse).value
    && r in CreateReminder(e.0, Target(e.1.datetime, parse).value, e.1)
  }

  /** Every derived reminder is one of the three reminders of an entry of the tree whose
      target is strictly after `now`; so it carries that entry and the title of the section
      holding it, and fires 30, 10 or 1 minutes before the target. */
  lemma {:induction false} RemindersSound(sec: Section, now: int, parse: string -> Option<int>, r: Reminder)
    requires r in Reminders(sec, now, parse)
    ensures exists e :: e in Entries(sec) && DerivedFrom(r, e, now, parse)
    decreases sec, 1
  {
    if r in OwnPrefix(sec, |sec.scheduling|, now, parse) {
      OwnSound(sec, |sec.scheduling|, now, parse, r);
    } else {
      ChildSound(sec, |sec.sections|, now, parse, r);
    }
  }

  lemma {:induction false} OwnSound(sec: Section, k: nat, now: int, parse: string -> Option<int>, r: Reminder)
    requires k <= |sec.scheduling|
    requires r in OwnPrefix(sec, k, now, parse)
    ensures exists e :: e in Entries(sec) && DerivedFrom(r, e, now, parse)
  {
    if r in OwnPrefix(sec, k - 1, now, parse) {
      OwnSound(sec, k - 1, now, parse, r);
    } else {
      assert (sec.title, sec.scheduling[k - 1]) in Entries(sec);
      assert DerivedFrom(r, (sec.title, sec.scheduling[k - 1]), now, parse);
    }
  }

  lemma {:induction false} ChildSound(sec: Section, k: nat, now: int, parse: string -> Option<int>, r: Reminder)
    requires k <= |sec.sections|
    requires r in ChildPrefix(sec, k, now, parse)
    ensures exists e :: e in Entries(sec) && DerivedFrom(r, e, now, parse)
    decreases sec, 0, k
  {
    if r in ChildPrefix(sec, k - 1, now, parse) {
      ChildSound(sec, k - 1, now, parse, r);
    } else {
      RemindersSound(sec.sections[k - 1], now, parse, r);
      var e :| e in Entries(sec.sections[k - 1]) && DerivedFrom(r, e, now, parse);
      assert e in Entries(sec);
    }
  }

  /** Conversely, every entry of the tree whose target is strictly after `now` yields
      all three of its reminders. */
  lemma {:induction false} RemindersComplete(sec: Section, now: int, parse: string -> Option<int>,
                                             e: (string, Scheduling), r: Reminder)
    requires e in Entries(sec)
    requires Target(e.1.datetime, parse).Some? && now < Target(e.1.datetime, parse).value
    requires r in CreateReminder(e.0, Target(e.1.datetime, parse).value, e.1)
    ensures r in Reminders(sec, now, parse)
    decreases sec, 1
  {
    if exists i :: 0 <= i < |sec.scheduling| && e == (sec.title, sec.scheduling[i]) {
      var i :| 0 <= i < |sec.scheduling| && e == (sec.title, sec.scheduling[i]);
      OwnComplete(sec, |sec.scheduling|, i, now, parse, r);
    } else {
      var i :| 0 <= i < |sec.sections| && e in Entries(sec.sections[i]);
      ChildComplete(sec, |sec.sections|, i, now, parse, e, r);
    }
  }

  lemma {:induction false} OwnComplete(sec: Section, k: nat, i: nat, now: int,
                                       parse: string -> Option<int>, r: Reminder)
    requires i < k <= |sec.scheduling|
    requires r in EntryReminders(sec.title, sec.scheduling[i], now, parse)
    ensures r in OwnPrefix(sec, k, now, parse)
  {
    if i < k - 1 {
      OwnComplete(sec, k - 1, i, now, parse, r);
    }
  }

  lemma {:induction false} ChildComplete(sec: Section, k: nat, i: nat, now: int, parse: string -> Option<int>,
                                         e: (string, Scheduling), r: Reminder)
    requires i < k <= |sec.sections|
    requires e in Entries(sec.sections[i])
    requires Target(e.1.datetime, parse).Some? && now < Target(e.1.datetime, parse).value
    requires r in CreateReminder(e.0, Target(e.1.datetime, parse).value, e.1)
    ensures r in ChildPrefix(sec, k, now, parse)
    decreases sec, 0, k
  {
    if i < k - 1 {
      ChildComplete(sec, k - 1, i, now, parse, e, r);
    } else {
      RemindersComplete(sec.sections[i], now, parse, e, r);
    }
  }
}

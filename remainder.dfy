/** The older reminder derivation, kept in the source tree but not compiled into the library.
    It works on an older tree whose scheduling entries carry only the timestamp text, and
    its reminders carry the bare section title as their message. */
module Remainder {
  import opened Common
  import opened Reminder

  /** A scheduling entry of the older tree: the raw timestamp text only. */
  datatype OldScheduling = Scheduled(datetime: string) | Deadline(datetime: string)

  /** The part of the older section type this derivation reads. */
  datatype OldSection = OldSection(title: string, scheduling: seq<OldScheduling>, sections: seq<OldSection>)

  datatype Remainder = Remainder(title: string, datetime: int, scheduling: OldScheduling)

  /** `PartialEq for Remainder`. */
  predicate SameRemainder(a: Remainder, b: Remainder)
  {
    a.title == b.title && a.datetime == b.datetime
  }

  /** `Hash for Remainder`: what is fed to the hasher, in order. */
  function RemainderHashKey(r: Remainder): (string, int)
  {
    (r.title, r.datetime)
  }

  /** Equality and hashing agree, and both ignore the originating entry. */
  lemma SameRemainderIffHashKey(a: Remainder, b: Remainder)
    ensures SameRemainder(a, b) <==> RemainderHashKey(a) == RemainderHashKey(b)
    ensures SameRemainder(a, b) <==> SameRemainder(a.(scheduling := b.scheduling), b)
  {
  }

  /** The three entries for a target time `dt`, 30, 10 and 1 minute before it, all with the
      bare title: they differ only in their fire time. */
  function CreateRemainder(title: string, dt: int, sch: OldScheduling): (r: seq<Remainder>)
    ensures |r| == 3
    ensures r[0].datetime == dt - 30 * MINUTE
    ensures r[1].datetime == dt - 10 * MINUTE
    ensures r[2].datetime == dt - MINUTE
    ensures forall i :: 0 <= i < |r| ==> r[i].title == title && r[i].scheduling == sch
    ensures forall i, j :: 0 <= i < j < |r| ==> r[i].datetime < r[j].datetime && !SameRemainder(r[i], r[j])
  {
    [ Remainder(title, dt - MINUTE * 30, sch),
      Remainder(title, dt - MINUTE * 10, sch),
      Remainder(title, dt - MINUTE, sch) ]
  }

  /** One branch of `convert_remainder`; both branches of the source are this code. */
  function ConvertOldTimestamp(title: string, datetime: string, sch: OldScheduling, now: int,
                               parse: string -> Option<int>): Option<seq<Remainder>>
  {
    match parse(datetime)
    case Some(dt) =>
      if dt > now then Some(CreateRemainder(title, dt, sch)) else None
    case None =>
      match parse(datetime + DEFAULT_TIME)
      case Some(dt) =>
        if dt > now then Some(CreateRemainder(title, dt, sch)) else None
      case None => None
  }

  /** `convert_remainder`: `None` unless the timestamp, as written or with the default time
      of day, parses to a time strictly after `now`. */
  function ConvertRemainder(title: string, sch: OldScheduling, now: int,
                            parse: string -> Option<int>): (r: Option<seq<Remainder>>)
    ensures r.Some? <==> Target(sch.datetime, parse).Some? && Target(sch.datetime, parse).value > now
    ensures r.Some? ==> r.value == CreateRemainder(title, Target(sch.datetime, parse).value, sch)
    ensures parse(sch.datetime).Some? && parse(sch.datetime).value <= now ==> r.None?
  {
    match sch
    case Scheduled(datetime) => ConvertOldTimestamp(title, datetime, sch, now, parse)
    case Deadline(datetime) => ConvertOldTimestamp(title, datetime, sch, now, parse)
  }

  /** The two variants behave identically: the same fire times and messages. */
  lemma OldScheduledLikeDeadline(title: string, datetime: string, now: int, parse: string -> Option<int>)
    ensures var a := ConvertRemainder(title, Scheduled(datetime), now, parse);
            var b := ConvertRemainder(title, Deadline(datetime), now, parse);
            a.Some? == b.Some? &&
            (a.Some? ==> forall i :: 0 <= i < 3 ==> SameRemainder(a.value[i], b.value[i]))
  {
  }

  function OldEntryRemainders(title: string, sch: OldScheduling, now: int,
                              parse: string -> Option<int>): seq<Remainder>
  {
    match ConvertRemainder(title, sch, now, parse)
    case Some(rs) => rs
    case None => []
  }

  /** The entries of the first `k` scheduling entries of `sec`, in order. */
  function OldOwnPrefix(sec: OldSection, k: nat, now: int, parse: string -> Option<int>): seq<Remainder>
    requires k <= |sec.scheduling|
  {
    if k == 0 then []
    else OldOwnPrefix(sec, k - 1, now, parse) + OldEntryRemainders(sec.title, sec.scheduling[k - 1], now, parse)
  }

  /** The entries of the first `k` subsections of `sec`, in order. */
  function OldChildPrefix(sec: OldSection, k: nat, now: int, parse: string -> Option<int>): seq<Remainder>
    requires k <= |sec.sections|
    decreases sec, k
  {
    if k == 0 then []
    else OldChildPrefix(sec, k - 1, now, parse) + Remainders(sec.sections[k - 1], now, parse)
  }

  /** `get_remainders`, as a specification: own entries first, then each subsection's. */
  function Remainders(sec: OldSection, now: int, parse: string -> Option<int>): seq<Remainder>
    decreases sec, |sec.sections| + 1
  {
    OldOwnPrefix(sec, |sec.scheduling|, now, parse) + OldChildPrefix(sec, |sec.sections|, now, parse)
  }

  /** `get_remainders`. */
  method GetRemainders(sec: OldSection, now: int, parse: string -> Option<int>) returns (res: seq<Remainder>)
    ensures res == Remainders(sec, now, parse)
    decreases sec
  {
    res := [];
    for j := 0 to |sec.scheduling|
      invariant res == OldOwnPrefix(sec, j, now, parse)
    {
      var converted := ConvertRemainder(sec.title, sec.scheduling[j], now, parse);
      assert OldOwnPrefix(sec, j + 1, now, parse)
          == res + OldEntryRemainders(sec.title, sec.scheduling[j], now, parse);
      if converted.Some? {
        res := res + converted.value;
      }
    }
    ghost var mine := res;
    for j := 0 to |sec.sections|
      invariant res == mine + OldChildPrefix(sec, j, now, parse)
    {
      var sub := GetRemainders(sec.sections[j], now, parse);
      assert mine + OldChildPrefix(sec, j + 1, now, parse) == res + sub;
      if sub != [] {
        res := res + sub;
      }
    }
  }

  /** Every message of a derived entry is the title of some section of the tree. */
  ghost function Titles(sec: OldSection): set<string>
    decreases sec
  {
    {sec.title} + (set i, t | 0 <= i < |sec.sections| && t in Titles(sec.sections[i]) :: t)
  }

  lemma {:induction false} RemaindersTitles(sec: OldSection, now: int, parse: string -> Option<int>, r: Remainder)
    requires r in Remainders(sec, now, parse)
    ensures r.title in Titles(sec)
    decreases sec, 1
  {
    if r in OldOwnPrefix(sec, |sec.scheduling|, now, parse) {
      OldOwnTitles(sec, |sec.scheduling|, now, parse, r);
    } else {
      OldChildTitles(sec, |sec.sections|, now, parse, r);
    }
  }

  lemma {:induction false} OldOwnTitles(sec: OldSection, k: nat, now: int, parse: string -> Option<int>, r: Remainder)
    requires k <= |sec.scheduling|
    requires r in OldOwnPrefix(sec, k, now, parse)
    ensures r.title == sec.title
  {
    if r in OldOwnPrefix(sec, k - 1, now, parse) {
      OldOwnTitles(sec, k - 1, now, parse, r);
    }
  }

  lemma {:induction false} OldChildTitles(sec: OldSection, k: nat, now: int, parse: string -> Option<int>, r: Remainder)
    requires k <= |sec.sections|
    requires r in OldChildPrefix(sec, k, now, parse)
    ensures r.title in Titles(sec)
    decreases sec, 0, k
  {
    if r in OldChildPrefix(sec, k - 1, now, parse) {
      OldChildTitles(sec, k - 1, now, parse, r);
    } else {
      RemaindersTitles(sec.sections[k - 1], now, parse, r);
      assert r.title in Titles(sec.sections[k - 1]);
    }
  }

  /** Every scheduling entry of a tree, with the title of the section that holds it. */
  ghost function OldEntries(sec: OldSection): set<(string, OldScheduling)>
    decreases sec
  {
    (set i | 0 <= i < |sec.scheduling| :: (sec.title, sec.scheduling[i]))
    + (set i, e | 0 <= i < |sec.sections| && e in OldEntries(sec.sections[i]) :: e)
  }

  /** `r` is one of the entries created for scheduling entry `e`, whose target is strictly
      after `now`. */
  ghost predicate OldDerivedFrom(r: Remainder, e: (string, OldScheduling), now: int, parse: string -> Option<int>)
  {
    && Target(e.1.datetime, parse).Some?
    && now < Target(e.1.datetime, parse).value
    && r in CreateRemainder(e.0, Target(e.1.datetime, parse).value, e.1)
  }

  /** Every derived entry is one of the three entries of a scheduling entry of the tree
      whose target is strictly after `now`. */
  lemma {:induction false} RemaindersSound(sec: OldSection, now: int, parse: string -> Option<int>, r: Remainder)
    requires r in Remainders(sec, now, parse)
    ensures exists e :: e in OldEntries(sec) && OldDerivedFrom(r, e, now, parse)
    decreases sec, 1
  {
    if r in OldOwnPrefix(sec, |sec.scheduling|, now, parse) {
      OldOwnSound(sec, |sec.scheduling|, now, parse, r);
    } else {
      OldChildSound(sec, |sec.sections|, now, parse, r);
    }
  }

  lemma {:induction false} OldOwnSound(sec: OldSection, k: nat, now: int, parse: string -> Option<int>, r: Remainder)
    requires k <= |sec.scheduling|
    requires r in OldOwnPrefix(sec, k, now, parse)
    ensures exists e :: e in OldEntries(sec) && OldDerivedFrom(r, e, now, parse)
  {
    if r in OldOwnPrefix(sec, k - 1, now, parse) {
      OldOwnSound(sec, k - 1, now, parse, r);
    } else {
      assert (sec.title, sec.scheduling[k - 1]) in OldEntries(sec);
      assert OldDerivedFrom(r, (sec.title, sec.scheduling[k - 1]), now, parse);
    }
  }

  lemma {:induction false} OldChildSound(sec: OldSection, k: nat, now: int, parse: string -> Option<int>, r: Remainder)
    requires k <= |sec.sections|
    requires r in OldChildPrefix(sec, k, now, parse)
    ensures exists e :: e in OldEntries(sec) && OldDerivedFrom(r, e, now, parse)
    decreases sec, 0, k
  {
    if r in OldChildPrefix(sec, k - 1, now, parse) {
      OldChildSound(sec, k - 1, now, parse, r);
    } else {
      RemaindersSound(sec.sections[k - 1], now, parse, r);
      var e :| e in OldEntries(sec.sections[k - 1]) && OldDerivedFrom(r, e, now, parse);
      assert e in OldEntries(sec);
    }
  }

  /** Every entry of the tree whose target is strictly after `now` yields all three of
      its entries. */
  lemma {:induction false} RemaindersComplete(sec: OldSection, now: int, parse: string -> Option<int>,
                                              e: (string, OldScheduling), r: Remainder)
    requires e in OldEntries(sec)
    requires Target(e.1.datetime, parse).Some? && now < Target(e.1.datetime, parse).value
    requires r in CreateRemainder(e.0, Target(e.1.datetime, parse).value, e.1)
    ensures r in Remainders(sec, now, parse)
    decreases sec, 1
  {
    if exists i :: 0 <= i < |sec.scheduling| && e == (sec.title, sec.scheduling[i]) {
      var i :| 0 <= i < |sec.scheduling| && e == (sec.title, sec.scheduling[i]);
      OldOwnComplete(sec, |sec.scheduling|, i, now, parse, r);
    } else {
      var i :| 0 <= i < |sec.sections| && e in OldEntries(sec.sections[i]);
      OldChildComplete(sec, |sec.sections|, i, now, parse, e, r);
    }
  }

  lemma {:induction false} OldOwnComplete(sec: OldSection, k: nat, i: nat, now: int,
                                          parse: string -> Option<int>, r: Remainder)
    requires i < k <= |sec.scheduling|
    requires r in OldEntryRemainders(sec.title, sec.scheduling[i], now, parse)
    ensures r in OldOwnPrefix(sec, k, now, parse)
  {
    if i < k - 1 {
      OldOwnComplete(sec, k - 1, i, now, parse, r);
    }
  }

  lemma {:induction false} OldChildComplete(sec: OldSection, k: nat, i: nat, now: int,
                                            parse: string -> Option<int>,
                                            e: (string, OldScheduling), r: Remainder)
    requires i < k <= |sec.sections|
    requires e in OldEntries(sec.sections[i])
    requires Target(e.1.datetime, parse).Some? && now < Target(e.1.datetime, parse).value
    requires r in CreateRemainder(e.0, Target(e.1.datetime, parse).value, e.1)
    ensures r in OldChildPrefix(sec, k, now, parse)
    decreases sec, 0, k
  {
    if i < k - 1 {
      OldChildComplete(sec, k - 1, i, now, parse, e, r);
    } else {
      RemaindersComplete(sec.sections[i], now, parse, e, r);
    }
  }
}
